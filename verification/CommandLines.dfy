/** Command lines written out from the values they are meant to carry, and read back. */
module CommandLines {
  import opened Base
  import opened Utf8
  import opened Manifests
  import opened Catalogs
  import opened ConfigFreeze
  import opened Frontend
  import opened Outcomes
  import Configurations

  lemma {:induction false} SplitAtEquals(name: Bytes, value: Bytes, i: nat)
    requires EQUALS !in name && i <= |name|
    requires EQUALS !in (name + [EQUALS] + value)[..i]
    ensures Split(name + [EQUALS] + value, i) == Long(name, value, true)
    decreases |name| - i
  {
    var body := name + [EQUALS] + value;
    if i < |name| {
      assert body[i] == name[i];
      assert body[..i + 1] == body[..i] + [body[i]];
      SplitAtEquals(name, value, i + 1);
    } else {
      assert body[..i] == name && body[i + 1..] == value;
    }
  }

  lemma {:induction false} SplitWhole(name: Bytes, i: nat)
    requires EQUALS !in name && i <= |name|
    ensures Split(name, i) == Long(name, [], false)
    decreases |name| - i
  {
    assert name[..|name|] == name;
    if i < |name| {
      assert name[i] in name;
      SplitWhole(name, i + 1);
    }
  }

  predicate OptionName(name: Bytes) {
    name != [] && name != HELP && name != VERSION && EQUALS !in name && DOT !in name
  }

  lemma OptionTokens(name: Bytes, value: Bytes)
    requires OptionName(name)
    ensures forall token | token == DASH_DASH + name || token == DASH_DASH + name + [EQUALS] + value ::
              && |token| > 2 && token[..2] == DASH_DASH
              && token != PLUS_PLUS && token != DASH_DASH && token != DASH_H && token != DASH_VERSION
  {
    assert (DASH_DASH + name)[2..] == name && DASH_VERSION[2..] == VERSION;
    assert (DASH_DASH + name + [EQUALS] + value)[2 + |name|] == EQUALS;
    assert EQUALS !in DASH_VERSION;
  }

  // ---- names ----------------------------------------------------------------------------------------

  /** A name stands for the first that bears it, and for nothing if none does. */
  lemma {:induction false} RootFound(roots: seq<Root>, name: Bytes, i: nat, r: Option<nat>)
    requires i <= |roots|
    ensures RootNamed(roots, name, i) == r <==>
      if r.Some? then
        && i <= r.value < |roots| && roots[r.value].parameter.longName == name
        && forall j | i <= j < r.value :: roots[j].parameter.longName != name
      else forall j | i <= j < |roots| :: roots[j].parameter.longName != name
    decreases |roots| - i
  {
    if i < |roots| { RootFound(roots, name, i + 1, r); }
  }

  lemma {:induction false} CommandFound(commands: seq<Owned>, name: Bytes, i: nat, r: Option<nat>)
    requires i <= |commands|
    ensures CommandNamed(commands, name, i) == r <==>
      if r.Some? then
        && i <= r.value < |commands| && commands[r.value].command.name == name
        && forall j | i <= j < r.value :: commands[j].command.name != name
      else forall j | i <= j < |commands| :: commands[j].command.name != name
    decreases |commands| - i
  {
    if i < |commands| { CommandFound(commands, name, i + 1, r); }
  }

  lemma {:induction false} LocalFound(ps: seq<Parameter>, name: Bytes, i: nat, r: Option<nat>)
    requires i <= |ps|
    ensures LocalNamed(ps, name, i) == r <==>
      if r.Some? then
        && i <= r.value < |ps| && !Positional(ps[r.value]) && ps[r.value].longName == name
        && forall j | i <= j < r.value :: Positional(ps[j]) || ps[j].longName != name
      else forall j | i <= j < |ps| :: Positional(ps[j]) || ps[j].longName != name
    decreases |ps| - i
  {
    if i < |ps| { LocalFound(ps, name, i + 1, r); }
  }

  // ---- writing a command line -----------------------------------------------------------------------

  /** One thing a command line says: a flag is set, or a parameter has a value. */
  datatype Given = Given(ref: Ref, value: Option<Bytes>)

  /** A bare word: one that is not taken for an option. */
  predicate Word(value: Bytes) {
    value != PLUS_PLUS && !(|value| > 1 && value[0] == 0x2D)
  }

  predicate IsWord(surface: Surface, selected: Option<nat>, g: Given)
    requires InRange(surface, selected, g.ref)
  {
    g.ref.LocalRef? && Positional(Declared(surface, selected, g.ref))
  }

  /** A root option before the command, or a parameter of the command behind it: an option by the first of
      its name, a value for all but flags, bare words for positionals. */
  ghost predicate Sayable(surface: Surface, selected: Option<nat>, g: Given) {
    && InRange(surface, selected, g.ref) && (g.ref.LocalRef? <==> selected.Some?)
    && (g.value.Some? ==> WellFormed(g.value.value))
    && (if IsWord(surface, selected, g) then
          g.value.Some? && Word(g.value.value)
        else
          var p := Declared(surface, selected, g.ref);
          && OptionName(p.longName) && (g.value.None? <==> p.kind == FLAG)
          && (if selected.None? then
                forall j | 0 <= j < g.ref.index :: surface.roots[j].parameter.longName != p.longName
              else
                var ps := surface.commands[selected.value].command.parameters;
                forall j | 0 <= j < g.ref.index :: Positional(ps[j]) || ps[j].longName != p.longName))
  }

  function Said(surface: Surface, selected: Option<nat>, g: Given): Bytes
    requires InRange(surface, selected, g.ref)
  {
    var name := Declared(surface, selected, g.ref).longName;
    if g.value.None? then DASH_DASH + name
    else if IsWord(surface, selected, g) then g.value.value
    else DASH_DASH + name + [EQUALS] + g.value.value
  }

  predicate InScope(surface: Surface, selected: Option<nat>, given: seq<Given>) {
    forall k | 0 <= k < |given| :: InRange(surface, selected, given[k].ref)
  }

  function Written(surface: Surface, selected: Option<nat>, given: seq<Given>): (argv: seq<Bytes>)
    requires InScope(surface, selected, given)
  {
    seq(|given|, k requires 0 <= k < |given| => Said(surface, selected, given[k]))
  }

  /** How many bare words. */
  function Words(surface: Surface, selected: Option<nat>, given: seq<Given>): nat
    requires InScope(surface, selected, given)
  {
    if given == [] then 0
    else
      Words(surface, selected, given[..|given| - 1]) + (if IsWord(surface, selected, given[|given| - 1]) then 1 else 0)
  }

  /** The words go to the positionals in index order. */
  predicate WordsInOrder(surface: Surface, selected: Option<nat>, given: seq<Given>)
    requires InScope(surface, selected, given)
  {
    forall k | 0 <= k < |given| && IsWord(surface, selected, given[k]) ::
      var ps := surface.commands[selected.value].command.parameters;
      var n := Words(surface, selected, given[..k]);
      n < |IndexOrder(ps, |ps|)| && given[k].ref == LocalRef(IndexOrder(ps, |ps|)[n])
  }

  // ---- what it says ---------------------------------------------------------------------------------

  function CountOf(given: seq<Given>, r: Ref): nat {
    if given == [] then 0
    else CountOf(given[..|given| - 1], r) + (if given[|given| - 1].ref == r then 1 else 0)
  }

  /** The values given for one parameter, in order. */
  function ValuesOf(given: seq<Given>, r: Ref): seq<Bytes> {
    if given == [] then []
    else
      var before, last := ValuesOf(given[..|given| - 1], r), given[|given| - 1];
      if last.ref == r && last.value.Some? then before + [last.value.value] else before
  }

  lemma {:induction false} CountedIsGiven(given: seq<Given>, r: Ref)
    ensures CountOf(given, r) > 0 <==> exists k | 0 <= k < |given| :: given[k].ref == r
  {
    if given != [] {
      CountedIsGiven(given[..|given| - 1], r);
      assert forall k | 0 <= k < |given| - 1 :: given[..|given| - 1][k] == given[k];
    }
  }

  lemma OneMoreGiven(given: seq<Given>, g: Given, r: Ref)
    ensures CountOf(given + [g], r) == CountOf(given, r) + (if g.ref == r then 1 else 0)
    ensures ValuesOf(given + [g], r) == ValuesOf(given, r) + (if g.ref == r && g.value.Some? then [g.value.value] else [])
  {
    assert (given + [g])[..|given|] == given;
  }

  /** The parse that says just this. */
  ghost predicate Carries(s: Parse, selected: Option<nat>, given: seq<Given>) {
    && s.selected == selected && !s.rootHelp && !s.commandHelp && s.values.Keys == s.occurrences.Keys
    && (forall r :: r in s.occurrences <==> CountOf(given, r) > 0)
    && (forall r | r in s.occurrences :: s.occurrences[r] == CountOf(given, r) && s.values[r] == ValuesOf(given, r))
  }

  ghost predicate RepeatsAllowed(surface: Surface, selected: Option<nat>, given: seq<Given>) {
    forall j, k | 0 <= j < k < |given| && given[j].ref == given[k].ref ::
      InRange(surface, selected, given[k].ref) ==> Declared(surface, selected, given[k].ref).flags.repeatable
  }

  /** The books with one more entry. */
  function Booked(s: Parse, g: Given): Parse {
    var count := (if g.ref in s.occurrences then s.occurrences[g.ref] else 0) + 1;
    var before := if g.ref in s.values then s.values[g.ref] else [];
    s.(occurrences := s.occurrences[g.ref := count],
       values := s.values[g.ref := if g.value.Some? then before + [g.value.value] else before])
  }

  lemma {:induction false} NothingCounted(given: seq<Given>, r: Ref)
    requires CountOf(given, r) == 0
    ensures ValuesOf(given, r) == []
  {
    if given != [] { NothingCounted(given[..|given| - 1], r); }
  }

  lemma CarriesNext(s: Parse, selected: Option<nat>, given: seq<Given>, g: Given)
    requires Carries(s, selected, given)
    ensures Carries(Booked(s, g), selected, given + [g])
  {
    hide ValuesOf, CountOf;
    var next := Booked(s, g);
    forall r
      ensures r in next.occurrences <==> CountOf(given + [g], r) > 0
      ensures r in next.occurrences ==>
                next.occurrences[r] == CountOf(given + [g], r) && next.values[r] == ValuesOf(given + [g], r)
    {
      OneMoreGiven(given, g, r);
      if CountOf(given, r) == 0 { NothingCounted(given, r); }
    }
  }

  lemma RecordBooks(surface: Surface, s: Parse, given: seq<Given>, g: Given)
    requires Carries(s, s.selected, given) && InRange(surface, s.selected, g.ref)
    requires RepeatsAllowed(surface, s.selected, given + [g]) && (g.value.Some? ==> WellFormed(g.value.value))
    ensures RecordIn(surface, s, g.ref, g.value) == Some(Booked(s, g))
  {
    hide WellFormed, ValuesOf, CountOf;
    CountedIsGiven(given, g.ref);
    if g.ref in s.occurrences {
      var j :| 0 <= j < |given| && given[j].ref == g.ref;
      assert (given + [g])[j].ref == (given + [g])[|given|].ref;
    }
  }

  // ---- reading it -----------------------------------------------------------------------------------

  lemma LongTokenReads(surface: Surface, s: Parse, argv: seq<Bytes>, n: nat, next: Option<Parse>, at: nat, filled: nat)
    requires s.selected.Some? ==> s.selected.value < |surface.commands|
    requires n <= at < |argv| && |argv[n]| > 2 && argv[n][..2] == DASH_DASH
    requires argv[n] != PLUS_PLUS && argv[n] != DASH_DASH && argv[n] != DASH_H && argv[n] != DASH_VERSION
    requires LongTokenIn(surface, s, argv, n) == Frontend.At(next, at)
    ensures next.Some? ==> next.value.selected == s.selected
    ensures ReadFrom(surface, s, argv, n, filled)
         == if next.None? then None else ReadFrom(surface, next.value, argv, at + 1, filled)
  {
    hide LongTokenIn, RestIn, PositionalIn, IndexOrder;
  }

  lemma SaidFound(surface: Surface, selected: Option<nat>, g: Given)
    requires Sayable(surface, selected, g) && !IsWord(surface, selected, g)
    ensures var name := Declared(surface, selected, g.ref).longName;
            if selected.None? then RootNamed(surface.roots, name, 0) == Some(g.ref.index)
            else LocalNamed(surface.commands[selected.value].command.parameters, name, 0) == Some(g.ref.index)
  {
    var name := Declared(surface, selected, g.ref).longName;
    if selected.None? {
      RootFound(surface.roots, name, 0, Some(g.ref.index));
    } else {
      LocalFound(surface.commands[selected.value].command.parameters, name, 0, Some(g.ref.index));
    }
  }

  lemma SaidOption(surface: Surface, s: Parse, argv: seq<Bytes>, n: nat, g: Given)
    requires s.selected.Some? ==> s.selected.value < |surface.commands|
    requires n < |argv| && Sayable(surface, s.selected, g) && !IsWord(surface, s.selected, g)
    requires argv[n] == Said(surface, s.selected, g)
    ensures |argv[n]| > 2 && LongTokenIn(surface, s, argv, n) == Frontend.At(RecordIn(surface, s, g.ref, g.value), n)
  {
    var name := Declared(surface, s.selected, g.ref).longName;
    var value := if g.value.Some? then g.value.value else [];
    SaidFound(surface, s.selected, g);
    OptionTokens(name, value);
    assert argv[n][2..] == if g.value.Some? then name + [EQUALS] + value else name;
    SplitWhole(name, 0);
    SplitAtEquals(name, value, 0);
    hide Split, RecordIn, RootNamed, LocalNamed, WellFormed;
  }

  lemma SaidWord(surface: Surface, s: Parse, argv: seq<Bytes>, n: nat, g: Given, filled: nat)
    requires s.selected.Some? && s.selected.value < |surface.commands|
    requires n < |argv| && Sayable(surface, s.selected, g) && IsWord(surface, s.selected, g)
    requires argv[n] == Said(surface, s.selected, g)
    requires var ps := surface.commands[s.selected.value].command.parameters;
             filled < |IndexOrder(ps, |ps|)| && g.ref == LocalRef(IndexOrder(ps, |ps|)[filled])
    ensures var next := RecordIn(surface, s, g.ref, g.value);
            next.Some? ==> ReadFrom(surface, s, argv, n, filled) == ReadFrom(surface, next.value, argv, n + 1, filled + 1)
  {
    var token := argv[n];
    assert token == g.value.value && Word(token);
    assert token != DASH_DASH && token != DASH_H && token != DASH_VERSION by {
      assert DASH_DASH[0] == 0x2D && DASH_H[0] == 0x2D && DASH_VERSION[0] == 0x2D;
    }
    assert |token| > 2 ==> token[..2] != DASH_DASH by { assert |token| > 2 ==> token[..2][0] != DASH_DASH[0]; }
    hide RecordIn, IndexOrder, LongTokenIn, RestIn, CommandNamed, WellFormed;
    assert PositionalIn(surface, s, filled, token) == RecordIn(surface, s, g.ref, g.value);
  }

  /** One entry takes the reading one argument further. */
  lemma SaidIsRead(surface: Surface, s: Parse, argv: seq<Bytes>, n: nat, given: seq<Given>, g: Given, filled: nat)
    requires s.selected.Some? ==> s.selected.value < |surface.commands|
    requires n < |argv| && Sayable(surface, s.selected, g) && argv[n] == Said(surface, s.selected, g)
    requires Carries(s, s.selected, given) && RepeatsAllowed(surface, s.selected, given + [g])
    requires IsWord(surface, s.selected, g) ==>
               var ps := surface.commands[s.selected.value].command.parameters;
               filled < |IndexOrder(ps, |ps|)| && g.ref == LocalRef(IndexOrder(ps, |ps|)[filled])
    ensures Carries(Booked(s, g), s.selected, given + [g])
    ensures ReadFrom(surface, s, argv, n, filled)
         == ReadFrom(surface, Booked(s, g), argv, n + 1, filled + (if IsWord(surface, s.selected, g) then 1 else 0))
  {
    RecordBooks(surface, s, given, g);
    CarriesNext(s, s.selected, given, g);
    if IsWord(surface, s.selected, g) {
      SaidWord(surface, s, argv, n, g, filled);
    } else {
      SaidOption(surface, s, argv, n, g);
      OptionTokens(Declared(surface, s.selected, g.ref).longName, if g.value.Some? then g.value.value else []);
      hide ReadFrom, LongTokenIn, RecordIn, Carries, WellFormed;
      LongTokenReads(surface, s, argv, n, Some(Booked(s, g)), n, filled);
    }
  }

  /** A stretch of entries is read and booked, whatever was booked before and whatever follows. */
  lemma {:induction false} StretchIsRead(surface: Surface, s: Parse, argv: seq<Bytes>, at: nat, done: seq<Given>, part: seq<Given>, k: nat)
    returns (t: Parse)
    requires (s.selected.Some? ==> s.selected.value < |surface.commands|) && k <= |part| && at + |part| <= |argv|
    requires InScope(surface, s.selected, part) && WordsInOrder(surface, s.selected, part)
    requires forall i | 0 <= i < |part| :: Sayable(surface, s.selected, part[i])
    requires argv[at..at + |part|] == Written(surface, s.selected, part)
    requires RepeatsAllowed(surface, s.selected, done + part) && Carries(s, s.selected, done + part[..k])
    ensures Carries(t, s.selected, done + part) && t.selected == s.selected
    ensures ReadFrom(surface, s, argv, at + k, Words(surface, s.selected, part[..k]))
         == ReadFrom(surface, t, argv, at + |part|, Words(surface, s.selected, part))
    decreases |part| - k
  {
    hide Carries, ReadFrom, Sayable, Said, RepeatsAllowed;
    if k == |part| {
      assert part[..k] == part;
      t := s;
    } else {
      var g := part[k];
      assert argv[at + k] == argv[at..at + |part|][k] == Said(surface, s.selected, g);
      assert part[..k + 1] == part[..k] + [g] && part[..k + 1][..k] == part[..k];
      assert done + part[..k] + [g] == done + part[..k + 1];
      RepeatsBefore(surface, s.selected, done, part, k + 1);
      SaidIsRead(surface, s, argv, at + k, done + part[..k], g, Words(surface, s.selected, part[..k]));
      t := StretchIsRead(surface, Booked(s, g), argv, at, done, part, k + 1);
    }
  }

  lemma RepeatsBefore(surface: Surface, selected: Option<nat>, done: seq<Given>, part: seq<Given>, k: nat)
    requires RepeatsAllowed(surface, selected, done + part) && k <= |part|
    ensures RepeatsAllowed(surface, selected, done + part[..k])
  {
    var a, b := done + part, done + part[..k];
    assert forall i | 0 <= i < |b| :: b[i] == a[i];
  }

  /** A bare word where the command is expected. */
  lemma CommandWord(surface: Surface, s: Parse, argv: seq<Bytes>, n: nat, filled: nat)
    requires s.selected.None? && !s.rootHelp && n < |argv| && Word(argv[n])
    requires CommandNamed(surface.commands, argv[n], 0).Some?
    ensures ReadFrom(surface, s, argv, n, filled)
         == ReadFrom(surface, s.(selected := CommandNamed(surface.commands, argv[n], 0)), argv, n + 1, filled)
  {
    var token := argv[n];
    assert token != DASH_DASH && token != DASH_H && token != DASH_VERSION by {
      assert DASH_DASH[0] == 0x2D && DASH_H[0] == 0x2D && DASH_VERSION[0] == 0x2D;
    }
    assert |token| > 2 ==> token[..2] != DASH_DASH by { assert |token| > 2 ==> token[..2][0] != DASH_DASH[0]; }
    hide LongTokenIn, RestIn, PositionalIn, IndexOrder, CommandNamed;
  }

  function Line(surface: Surface, program: Bytes, roots: seq<Given>, c: nat, locals: seq<Given>): seq<Bytes>
    requires c < |surface.commands| && InScope(surface, None, roots) && InScope(surface, Some(c), locals)
  {
    [program] + Written(surface, None, roots) + [surface.commands[c].command.name] + Written(surface, Some(c), locals)
  }

  /** A command line may say anything sayable: root options, a command, and its flags, options and words in
      any mixture. It is read as exactly that. */
  lemma WrittenReadsBack(surface: Surface, program: Bytes, roots: seq<Given>, c: nat, locals: seq<Given>)
    requires c < |surface.commands| && Word(surface.commands[c].command.name)
    requires forall j | 0 <= j < c :: surface.commands[j].command.name != surface.commands[c].command.name
    requires InScope(surface, None, roots) && (forall k | 0 <= k < |roots| :: Sayable(surface, None, roots[k]))
    requires InScope(surface, Some(c), locals) && (forall k | 0 <= k < |locals| :: Sayable(surface, Some(c), locals[k]))
    requires WordsInOrder(surface, Some(c), locals) && RepeatsAllowed(surface, Some(c), roots + locals)
    ensures var read := ReadLine(surface, Line(surface, program, roots, c, locals));
            read.Some? && Carries(read.value, Some(c), roots + locals)
  {
    var name := surface.commands[c].command.name;
    var argv := Line(surface, program, roots, c, locals);
    CommandFound(surface.commands, name, 0, Some(c));
    LineParts(program, Written(surface, None, roots), name, Written(surface, Some(c), locals));
    hide Carries, ReadFrom, Sayable, RepeatsAllowed, Word, CommandNamed, WellFormed, Written, WordsInOrder;
    var u := RootsRead(surface, argv, roots, name, locals);
    var t := LocalsRead(surface, u, argv, roots, locals);
  }

  /** Up to and including the command. */
  lemma RootsRead(surface: Surface, argv: seq<Bytes>, roots: seq<Given>, name: Bytes, locals: seq<Given>) returns (u: Parse)
    requires 2 + |roots| <= |argv| && argv[1 + |roots|] == name && Word(name) && CommandNamed(surface.commands, name, 0).Some?
    requires InScope(surface, None, roots) && forall k | 0 <= k < |roots| :: Sayable(surface, None, roots[k])
    requires argv[1..1 + |roots|] == Written(surface, None, roots)
    requires RepeatsAllowed(surface, CommandNamed(surface.commands, name, 0), roots + locals)
    ensures u.selected == CommandNamed(surface.commands, name, 0) && Carries(u, u.selected, roots)
    ensures ReadFrom(surface, NothingParsed, argv, 1, 0) == ReadFrom(surface, u, argv, 2 + |roots|, 0)
  {
    var selected := CommandNamed(surface.commands, name, 0);
    RootsBefore(surface, selected, roots, locals);
    NothingCarried(roots);
    assert roots[..0] == [];
    hide Carries, ReadFrom, Sayable, RepeatsAllowed, Word, CommandNamed, WellFormed, Written, WordsInOrder, Words, CountOf, ValuesOf;
    NoRootWords(surface, []);
    var s := StretchIsRead(surface, NothingParsed, argv, 1, [], roots, 0);
    NoRootWords(surface, roots);
    assert [] + roots == roots;
    CarriedHelp(s, None, roots);
    CommandWord(surface, s, argv, 1 + |roots|, 0);
    u := s.(selected := selected);
    CarriesOnward(s, u, roots);
  }

  /** From behind the command to the end. */
  lemma LocalsRead(surface: Surface, u: Parse, argv: seq<Bytes>, roots: seq<Given>, locals: seq<Given>) returns (t: Parse)
    requires u.selected.Some? && u.selected.value < |surface.commands| && Carries(u, u.selected, roots)
    requires |argv| == 2 + |roots| + |locals| && InScope(surface, u.selected, locals)
    requires forall k | 0 <= k < |locals| :: Sayable(surface, u.selected, locals[k])
    requires argv[2 + |roots|..2 + |roots| + |locals|] == Written(surface, u.selected, locals)
    requires WordsInOrder(surface, u.selected, locals) && RepeatsAllowed(surface, u.selected, roots + locals)
    ensures t.selected == u.selected && Carries(t, u.selected, roots + locals)
    ensures ReadFrom(surface, u, argv, 2 + |roots|, 0) == Some(t)
  {
    hide Carries, ReadFrom, Sayable, RepeatsAllowed, WellFormed, Written, WordsInOrder;
    assert roots + locals[..0] == roots;
    t := StretchIsRead(surface, u, argv, 2 + |roots|, roots, locals, 0);
    ReadToEnd(surface, t, argv, Words(surface, u.selected, locals));
  }

  lemma LineParts(program: Bytes, first: seq<Bytes>, name: Bytes, second: seq<Bytes>)
    ensures var argv := [program] + first + [name] + second;
            && |argv| == 2 + |first| + |second| && argv[1 + |first|] == name
            && argv[1..1 + |first|] == first && argv[2 + |first|..2 + |first| + |second|] == second
  {
  }

  lemma ReadToEnd(surface: Surface, s: Parse, argv: seq<Bytes>, filled: nat)
    requires s.selected.Some? ==> s.selected.value < |surface.commands|
    ensures ReadFrom(surface, s, argv, |argv|, filled) == Some(s)
  {
  }

  lemma CarriedHelp(s: Parse, selected: Option<nat>, given: seq<Given>)
    requires Carries(s, selected, given)
    ensures s.selected == selected && !s.rootHelp
  {
  }

  lemma CarriesOnward(s: Parse, t: Parse, given: seq<Given>)
    requires Carries(s, s.selected, given) && t == s.(selected := t.selected)
    ensures Carries(t, t.selected, given)
  {
  }

  lemma NothingCarried(roots: seq<Given>)
    ensures Carries(NothingParsed, None, [] + roots[..0])
  {
    assert [] + roots[..0] == [];
  }

  lemma RootsBefore(surface: Surface, selected: Option<nat>, roots: seq<Given>, locals: seq<Given>)
    requires InScope(surface, None, roots) && RepeatsAllowed(surface, selected, roots + locals)
    requires forall k | 0 <= k < |roots| :: roots[k].ref.RootRef? || InRange(surface, None, roots[k].ref)
    ensures RepeatsAllowed(surface, None, [] + roots) && WordsInOrder(surface, None, roots)
  {
    var all := roots + locals;
    forall j, k | 0 <= j < k < |roots| && roots[j].ref == roots[k].ref
      ensures InRange(surface, None, roots[k].ref) ==> Declared(surface, None, roots[k].ref).flags.repeatable
    {
      assert all[j] == roots[j] && all[k] == roots[k];
    }
  }

  lemma {:induction false} NoRootWords(surface: Surface, roots: seq<Given>)
    requires InScope(surface, None, roots)
    ensures Words(surface, None, roots) == 0
  {
    if roots != [] { NoRootWords(surface, roots[..|roots| - 1]); }
  }

  // ---- what it comes to -----------------------------------------------------------------------------

  /** What a parameter is worth once these were given: given values, "true" for a flag that was given, and
      the declared defaults only where nothing was. */
  function Meant(p: Parameter, given: seq<Given>, r: Ref): seq<Bytes> {
    if CountOf(given, r) == 0 then p.defaults
    else if p.kind == FLAG then [TRUE_TEXT]
    else ValuesOf(given, r)
  }

  /** A command line that is written out and executed: every parameter ends up worth what was given for it,
      or its defaults where nothing was. */
  lemma GivenBeatsDefault(surface: Surface, program: Bytes, roots: seq<Given>, c: nat, locals: seq<Given>) returns (s: Parse)
    requires c < |surface.commands| && Word(surface.commands[c].command.name)
    requires forall j | 0 <= j < c :: surface.commands[j].command.name != surface.commands[c].command.name
    requires InScope(surface, None, roots) && (forall k | 0 <= k < |roots| :: Sayable(surface, None, roots[k]))
    requires InScope(surface, Some(c), locals) && (forall k | 0 <= k < |locals| :: Sayable(surface, Some(c), locals[k]))
    requires WordsInOrder(surface, Some(c), locals) && RepeatsAllowed(surface, Some(c), roots + locals)
    ensures ReadLine(surface, Line(surface, program, roots, c, locals)) == Some(s) && s.selected == Some(c)
    ensures forall r | InRange(surface, Some(c), r) ::
              var p := Declared(surface, Some(c), r);
              Effective(p, s, r) == Meant(p, roots + locals, r)
  {
    WrittenReadsBack(surface, program, roots, c, locals);
    hide Sayable, WordsInOrder, RepeatsAllowed, ReadLine, Line, Word, Declared, CountOf, ValuesOf;
    s := ReadLine(surface, Line(surface, program, roots, c, locals)).value;
  }

  /** And so the configuration built for a plugin holds, under each key, just these. */
  lemma WrittenConfigures(surface: Surface, program: Bytes, roots: seq<Given>, c: nat, locals: seq<Given>, plugin: Bytes)
    returns (s: Parse, sources: seq<Ref>)
    requires c < |surface.commands| && Word(surface.commands[c].command.name)
    requires forall j | 0 <= j < c :: surface.commands[j].command.name != surface.commands[c].command.name
    requires InScope(surface, None, roots) && (forall k | 0 <= k < |roots| :: Sayable(surface, None, roots[k]))
    requires InScope(surface, Some(c), locals) && (forall k | 0 <= k < |locals| :: Sayable(surface, Some(c), locals[k]))
    requires WordsInOrder(surface, Some(c), locals) && RepeatsAllowed(surface, Some(c), roots + locals)
    ensures ReadLine(surface, Line(surface, program, roots, c, locals)) == Some(s) && Configurations.Selected(surface, s)
    ensures var vs := Configurations.RootEntries(surface, s, plugin, |surface.roots|)
                      + Configurations.LocalEntries(surface, s, plugin, |Configurations.Locals(surface, s)|);
            && Configured(surface, s, plugin, vs, sources)
            && forall k | 0 <= k < |vs| ::
                 && InRange(surface, Some(c), sources[k]) && vs[k].key == KeyFed(surface, s, plugin, sources[k])
                 && vs[k].values == Meant(Declared(surface, Some(c), sources[k]), roots + locals, sources[k])
  {
    s := GivenBeatsDefault(surface, program, roots, c, locals);
    WrittenReadsBack(surface, program, roots, c, locals);
    hide Sayable, WordsInOrder, RepeatsAllowed, ReadLine, Line, Word, Declared, Meant, KeyFed, Effective;
    sources := BuiltIsConfigured(surface, s, plugin);
  }

  // ---- the value of an option in the next argument --------------------------------------------------

  /** Options of that name in the current scope, if any, take values. */
  predicate TakesValues(surface: Surface, s: Parse, name: Bytes) {
    if s.selected.None? then
      forall i | 0 <= i < |surface.roots| :: surface.roots[i].parameter.longName == name ==> surface.roots[i].parameter.kind != FLAG
    else
      s.selected.value < |surface.commands| ==>
        var ps := surface.commands[s.selected.value].command.parameters;
        forall i | 0 <= i < |ps| :: !Positional(ps[i]) && ps[i].longName == name ==> ps[i].kind != FLAG
  }

  /** Reading looks at no argument it has passed. */
  lemma LongTokenMoves(surface: Surface, s: Parse, a: seq<Bytes>, i: nat, b: seq<Bytes>, j: nat)
    requires s.selected.Some? ==> s.selected.value < |surface.commands|
    requires i < |a| && j < |b| && a[i..] == b[j..] && |a[i]| > 2
    ensures a[i] == b[j]
    ensures var x, y := LongTokenIn(surface, s, a, i), LongTokenIn(surface, s, b, j);
            if x.None? then y.None? else y == Some(Read(x.value.parse, x.value.at - i + j))
  {
    hide Split, RecordIn, RootNamed, LocalNamed;
    assert a[i] == a[i..][0] && b[j] == b[j..][0];
    if i + 1 < |a| { assert a[i + 1] == a[i..][1] && b[j + 1] == b[j..][1]; }
  }

  lemma {:induction false} RestMoves(surface: Surface, s: Parse, a: seq<Bytes>, i: nat, b: seq<Bytes>, j: nat, filled: nat)
    requires s.selected.Some? && s.selected.value < |surface.commands|
    requires i <= |a| && j <= |b| && a[i..] == b[j..]
    ensures RestIn(surface, s, a, i, filled) == RestIn(surface, s, b, j, filled)
    decreases |a| - i
  {
    hide PositionalIn;
    if i < |a| {
      assert a[i] == a[i..][0] && b[j] == b[j..][0] && a[i + 1..] == a[i..][1..] && b[j + 1..] == b[j..][1..];
      var next := PositionalIn(surface, s, filled, a[i]);
      if next.Some? { RestMoves(surface, next.value, a, i + 1, b, j + 1, filled + 1); }
    }
  }

  lemma {:induction false} ReadMoves(surface: Surface, s: Parse, a: seq<Bytes>, i: nat, b: seq<Bytes>, j: nat, filled: nat)
    requires s.selected.Some? ==> s.selected.value < |surface.commands|
    requires i <= |a| && j <= |b| && a[i..] == b[j..]
    ensures ReadFrom(surface, s, a, i, filled) == ReadFrom(surface, s, b, j, filled)
    decreases |a| - i
  {
    hide PositionalIn, LongTokenIn, RestIn, IndexOrder, CommandNamed;
    if i < |a| {
      assert a[i] == a[i..][0] && b[j] == b[j..][0];
      forall k | i <= k <= |a| ensures a[k..] == b[k - i + j..] {
        assert a[k..] == a[i..][k - i..] && b[k - i + j..] == b[j..][k - i..];
      }
      var token := a[i];
      if token == DASH_DASH {
        if s.selected.Some? { RestMoves(surface, s, a, i + 1, b, j + 1, filled); }
      } else if |token| > 2 && token[..2] == DASH_DASH {
        LongTokenMoves(surface, s, a, i, b, j);
        var read := LongTokenIn(surface, s, a, i);
        if read.Some? { ReadMoves(surface, read.value.parse, a, read.value.at + 1, b, read.value.at + 1 - i + j, filled); }
      } else if s.selected.None? {
        var found := CommandNamed(surface.commands, token, 0);
        if found.Some? { ReadMoves(surface, s.(selected := found), a, i + 1, b, j + 1, filled); }
      } else {
        var next := PositionalIn(surface, s, filled, token);
        if next.Some? { ReadMoves(surface, next.value, a, i + 1, b, j + 1, filled + 1); }
      }
    }
  }

  /** What the two forms of one option come to. */
  lemma FormsBooked(surface: Surface, s: Parse, a: seq<Bytes>, b: seq<Bytes>, n: nat, name: Bytes, value: Bytes) returns (next: Option<Parse>)
    requires s.selected.Some? ==> s.selected.value < |surface.commands|
    requires OptionName(name) && TakesValues(surface, s, name) && value != PLUS_PLUS && value != DASH_DASH
    requires n + 1 < |a| && a[n] == DASH_DASH + name && a[n + 1] == value
    requires n < |b| && b[n] == DASH_DASH + name + [EQUALS] + value
    ensures LongTokenIn(surface, s, a, n) == Frontend.At(next, n + 1) && LongTokenIn(surface, s, b, n) == Frontend.At(next, n)
  {
    assert a[n][2..] == name && b[n][2..] == name + [EQUALS] + value;
    SplitWhole(name, 0);
    SplitAtEquals(name, value, 0);
    hide Split, RecordIn, RootNamed, LocalNamed;
    if s.selected.None? {
      var root := RootNamed(surface.roots, name, 0);
      next := if root.None? then None else RecordIn(surface, s, RootRef(root.value), Some(value));
    } else {
      var local := LocalNamed(surface.commands[s.selected.value].command.parameters, name, 0);
      next := if local.None? then None else RecordIn(surface, s, LocalRef(local.value), Some(value));
    }
  }

  /** From any point of the reading on: `--name value` reads as `--name=value`. */
  lemma NextArgumentIsValue(surface: Surface, s: Parse, before: seq<Bytes>, rest: seq<Bytes>, name: Bytes, value: Bytes, filled: nat)
    requires s.selected.Some? ==> s.selected.value < |surface.commands|
    requires OptionName(name) && TakesValues(surface, s, name) && value != PLUS_PLUS && value != DASH_DASH
    ensures ReadFrom(surface, s, before + [DASH_DASH + name, value] + rest, |before|, filled)
         == ReadFrom(surface, s, before + [DASH_DASH + name + [EQUALS] + value] + rest, |before|, filled)
  {
    hide ReadFrom, LongTokenIn, TakesValues;
    var n := |before|;
    var a := before + [DASH_DASH + name, value] + rest;
    var b := before + [DASH_DASH + name + [EQUALS] + value] + rest;
    OptionTokens(name, value);
    assert a[n] == DASH_DASH + name && a[n + 1] == value && b[n] == DASH_DASH + name + [EQUALS] + value;
    var next := FormsBooked(surface, s, a, b, n, name, value);
    LongTokenReads(surface, s, a, n, next, n + 1, filled);
    LongTokenReads(surface, s, b, n, next, n, filled);
    if next.Some? {
      assert a[n + 2..] == rest && b[n + 1..] == rest;
      ReadMoves(surface, next.value, a, n + 2, b, n + 1, filled);
    }
  }

  lemma LongTokenExtends(surface: Surface, s: Parse, before: seq<Bytes>, a: seq<Bytes>, i: nat)
    requires s.selected.Some? ==> s.selected.value < |surface.commands|
    requires i < |before| && before <= a && |before[i]| > 2
    ensures LongTokenIn(surface, s, before, i).Some? ==> LongTokenIn(surface, s, a, i) == LongTokenIn(surface, s, before, i)
  {
    hide Split, RecordIn, RootNamed, LocalNamed;
  }

  /** A beginning that is read to its end is read alike whatever follows. */
  lemma {:induction false} BeginningReads(surface: Surface, s: Parse, before: seq<Bytes>, a: seq<Bytes>, b: seq<Bytes>, i: nat, filled: nat)
    returns (t: Parse, count: nat)
    requires s.selected.Some? ==> s.selected.value < |surface.commands|
    requires before <= a && before <= b && i <= |before| && DASH_DASH !in before
    requires ReadFrom(surface, s, before, i, filled).Some?
    ensures t == ReadFrom(surface, s, before, i, filled).value && (t.selected.Some? ==> t.selected.value < |surface.commands|)
    ensures ReadFrom(surface, s, a, i, filled) == ReadFrom(surface, t, a, |before|, count)
    ensures ReadFrom(surface, s, b, i, filled) == ReadFrom(surface, t, b, |before|, count)
    decreases |before| - i
  {
    hide PositionalIn, LongTokenIn, RestIn, IndexOrder, CommandNamed;
    if i == |before| {
      t, count := s, filled;
    } else {
      var token := before[i];
      assert a[i] == token && b[i] == token && token in before;
      if |token| > 2 && token[..2] == DASH_DASH {
        LongTokenExtends(surface, s, before, a, i);
        LongTokenExtends(surface, s, before, b, i);
        var read := LongTokenIn(surface, s, before, i).value;
        t, count := BeginningReads(surface, read.parse, before, a, b, read.at + 1, filled);
      } else if s.selected.None? {
        var found := CommandNamed(surface.commands, token, 0);
        t, count := BeginningReads(surface, s.(selected := found), before, a, b, i + 1, filled);
      } else {
        var next := PositionalIn(surface, s, filled, token).value;
        t, count := BeginningReads(surface, next, before, a, b, i + 1, filled + 1);
      }
    }
  }

  /** On a whole command line: behind any beginning without "--" that is read to its end, and before any rest. */
  lemma SeparateValueReadsAlike(surface: Surface, before: seq<Bytes>, rest: seq<Bytes>, name: Bytes, value: Bytes)
    requires before != [] && DASH_DASH !in before && ReadFrom(surface, NothingParsed, before, 1, 0).Some?
    requires OptionName(name) && TakesValues(surface, ReadFrom(surface, NothingParsed, before, 1, 0).value, name)
    requires value != PLUS_PLUS && value != DASH_DASH
    ensures ReadLine(surface, before + [DASH_DASH + name, value] + rest)
         == ReadLine(surface, before + [DASH_DASH + name + [EQUALS] + value] + rest)
  {
    hide TakesValues, ReadFrom;
    var a := before + [DASH_DASH + name, value] + rest;
    var b := before + [DASH_DASH + name + [EQUALS] + value] + rest;
    var s, filled := BeginningReads(surface, NothingParsed, before, a, b, 1, 0);
    NextArgumentIsValue(surface, s, before, rest, name, value, filled);
  }

  // ---- what is refused ------------------------------------------------------------------------------

  /** Wherever the reading has come to: these arguments end it. */
  lemma RefusedArguments(surface: Surface, s: Parse, argv: seq<Bytes>, n: nat, filled: nat)
    requires s.selected.Some? ==> s.selected.value < |surface.commands|
    requires n < |argv|
    ensures argv[n] == PLUS_PLUS || argv[n] == DASH_H || argv[n] == DASH_VERSION ==> ReadFrom(surface, s, argv, n, filled).None?
    ensures |argv[n]| > 1 && argv[n][0] == 0x2D && argv[n][1] != 0x2D ==> ReadFrom(surface, s, argv, n, filled).None?
    ensures argv[n] == DASH_DASH && s.selected.None? ==> ReadFrom(surface, s, argv, n, filled).None?
  {
    hide LongTokenIn, PositionalIn, RestIn, IndexOrder, CommandNamed;
    if |argv[n]| > 2 && argv[n][..2] == DASH_DASH { assert argv[n][1] == argv[n][..2][1]; }
  }

  /** Long options that cannot be meant: without a name, with a dot in it, help with a value, names nobody
      declared in this scope, flags with a value. */
  lemma RefusedOptions(surface: Surface, s: Parse, argv: seq<Bytes>, n: nat, name: Bytes, value: Bytes, filled: nat)
    requires (s.selected.Some? ==> s.selected.value < |surface.commands|) && n < |argv|
    requires EQUALS !in name && argv[n] == DASH_DASH + name + [EQUALS] + value
    ensures name == [] || DOT in name || name == HELP ==> ReadFrom(surface, s, argv, n, filled).None?
    ensures s.selected.None? && (forall i | 0 <= i < |surface.roots| :: surface.roots[i].parameter.longName != name) ==>
              ReadFrom(surface, s, argv, n, filled).None?
    ensures s.selected.Some?
            && (forall p | p in surface.commands[s.selected.value].command.parameters && !Positional(p) :: p.longName != name) ==>
              ReadFrom(surface, s, argv, n, filled).None?
    ensures s.selected.None? && (forall i | 0 <= i < |surface.roots| && surface.roots[i].parameter.longName == name ::
                                   surface.roots[i].parameter.kind == FLAG) ==>
              ReadFrom(surface, s, argv, n, filled).None?
    ensures s.selected.Some? && (forall p | p in surface.commands[s.selected.value].command.parameters
                                            && !Positional(p) && p.longName == name :: p.kind == FLAG) ==>
              ReadFrom(surface, s, argv, n, filled).None?
  {
    assert argv[n][2..] == name + [EQUALS] + value;
    SplitAtEquals(name, value, 0);
    hide Split, RecordIn, PositionalIn, RestIn, IndexOrder, CommandNamed;
  }

  /** An option that takes values, without one. */
  lemma RefusedWithoutValue(surface: Surface, s: Parse, argv: seq<Bytes>, n: nat, name: Bytes, filled: nat)
    requires (s.selected.Some? ==> s.selected.value < |surface.commands|) && n < |argv| && argv[n] == DASH_DASH + name
    requires OptionName(name) && TakesValues(surface, s, name)
    requires n + 1 == |argv| || argv[n + 1] == PLUS_PLUS || argv[n + 1] == DASH_DASH
    ensures ReadFrom(surface, s, argv, n, filled).None?
  {
    assert argv[n][2..] == name;
    SplitWhole(name, 0);
    OptionTokens(name, []);
    hide Split, RecordIn, PositionalIn, RestIn, IndexOrder, CommandNamed;
  }

  /** "--help" asks for the help of what has been selected so far, and the reading goes on. */
  lemma HelpIsNoted(surface: Surface, s: Parse, argv: seq<Bytes>, n: nat, filled: nat)
    requires (s.selected.Some? ==> s.selected.value < |surface.commands|) && n < |argv| && argv[n] == DASH_DASH + HELP
    ensures ReadFrom(surface, s, argv, n, filled)
         == ReadFrom(surface, if s.selected.None? then s.(rootHelp := true) else s.(commandHelp := true), argv, n + 1, filled)
  {
    assert argv[n][2..] == HELP && DASH_VERSION[2..] == VERSION;
    SplitWhole(HELP, 0);
    hide OptionIn, LongIn, RootNamed, LocalNamed, WellFormed, Positional, Split, RecordIn, PositionalIn, RestIn, IndexOrder, CommandNamed;
  }

  /** A word where no command has that name, or root help was asked for; and one word too many. */
  lemma RefusedWords(surface: Surface, s: Parse, argv: seq<Bytes>, n: nat, filled: nat)
    requires (s.selected.Some? ==> s.selected.value < |surface.commands|) && n < |argv| && Word(argv[n])
    ensures s.selected.None? && (s.rootHelp || forall i | 0 <= i < |surface.commands| :: surface.commands[i].command.name != argv[n]) ==>
              ReadFrom(surface, s, argv, n, filled).None?
    ensures s.selected.Some? && filled >= |Positionals(surface.commands[s.selected.value].command.parameters)| ==>
              ReadFrom(surface, s, argv, n, filled).None?
  {
    var token := argv[n];
    assert token != DASH_DASH by { assert DASH_DASH[0] == 0x2D; }
    assert |token| > 2 ==> token[..2] != DASH_DASH by { assert |token| > 2 ==> token[..2][0] != DASH_DASH[0]; }
    hide LongTokenIn, RestIn, IndexOrder, Positionals, RecordIn;
    if s.selected.Some? {
      var ps := surface.commands[s.selected.value].command.parameters;
      IndexOrderComplete(ps, |ps|);
      assert ps[..|ps|] == ps;
    }
  }
}
