/** The command line: 42U's token grammar over a validated surface, and what it makes of the arguments. */
module Frontend {
  import opened Base
  import opened Utf8
  import opened Manifests
  import opened Catalogs
  import opened ConfigFreeze

  datatype Surface = Surface(roots: seq<Root>, commands: seq<Owned>)

  /** A parameter the command line can fill: a root option, or a parameter of the selected command. */
  datatype Ref = RootRef(index: nat) | LocalRef(index: nat)

  datatype Parse = Parse(
    selected: Option<nat>, rootHelp: bool, commandHelp: bool, occurrences: map<Ref, nat>, values: map<Ref, seq<Bytes>>)

  const PLUS_PLUS: Bytes := [0x2B, 0x2B]
  const DASH_DASH: Bytes := [0x2D, 0x2D]
  const DASH_H: Bytes := [0x2D, 0x68]
  const DASH_VERSION: Bytes := [0x2D, 0x2D] + VERSION
  const DOT: bv8 := 0x2E
  const EQUALS: bv8 := 0x3D

  predicate InRange(surface: Surface, selected: Option<nat>, r: Ref) {
    match r
    case RootRef(i) => i < |surface.roots|
    case LocalRef(i) =>
      selected.Some? && selected.value < |surface.commands|
      && i < |surface.commands[selected.value].command.parameters|
  }

  function Declared(surface: Surface, selected: Option<nat>, r: Ref): Parameter
    requires InRange(surface, selected, r)
  {
    match r
    case RootRef(i) => surface.roots[i].parameter
    case LocalRef(i) => surface.commands[selected.value].command.parameters[i]
  }

  /** An argument a process can be given: it holds no NUL, and an accepted value is UTF-8. */
  ghost predicate ValueOk(v: Bytes) {
    0 !in v && WellFormed(v)
  }

  /** What is recorded of a parameter: how often it came, and, unless it is a flag, one value each time. */
  ghost predicate Recorded(p: Parameter, count: nat, vs: seq<Bytes>) {
    && count >= 1 && (count > 1 ==> p.flags.repeatable)
    && (p.kind != FLAG ==> |vs| == count)
    && (forall i | 0 <= i < |vs| :: ValueOk(vs[i]))
  }

  ghost predicate ParseOk(surface: Surface, s: Parse) {
    && (s.selected.Some? ==> s.selected.value < |surface.commands|)
    && (forall r | r in s.occurrences :: InRange(surface, s.selected, r) && r in s.values
          && Recorded(Declared(surface, s.selected, r), s.occurrences[r], s.values[r]))
    && s.values.Keys == s.occurrences.Keys
  }

  // ---- tokens -------------------------------------------------------------------------------------

  datatype Long = Long(name: Bytes, value: Bytes, hasEquals: bool)

  /** The name of a long option, and what follows its first equals sign. */
  function Split(body: Bytes, i: nat): (r: Long)
    requires i <= |body| && EQUALS !in body[..i]
    ensures EQUALS !in r.name && (!r.hasEquals ==> r.value == [])
    ensures body == if r.hasEquals then r.name + [EQUALS] + r.value else r.name
    decreases |body| - i
  {
    if i == |body| then
      assert body[..i] == body;
      Long(body, [], false)
    else if body[i] == EQUALS then
      assert body == body[..i] + [EQUALS] + body[i + 1..];
      Long(body[..i], body[i + 1..], true)
    else
      assert body[..i + 1] == body[..i] + [body[i]];
      Split(body, i + 1)
  }

  method SplitLong(token: Bytes) returns (r: Long)
    requires |token| >= 2
    ensures r == Split(token[2..], 0)
  {
    var body := token[2..];
    var i := 0;
    while i < |body| && body[i] != EQUALS
      invariant 0 <= i <= |body| && EQUALS !in body[..i] && Split(body, i) == Split(body, 0)
    {
      assert body[..i + 1] == body[..i] + [body[i]];
      i := i + 1;
    }
    return if i == |body| then Long(body, [], false) else Long(body[..i], body[i + 1..], true);
  }

  /** The first root option, command, or local option of a name. */
  function RootNamed(roots: seq<Root>, name: Bytes, i: nat): (r: Option<nat>)
    requires i <= |roots|
    ensures r.Some? ==> i <= r.value < |roots| && roots[r.value].parameter.longName == name
    decreases |roots| - i
  {
    if i == |roots| then None else if roots[i].parameter.longName == name then Some(i) else RootNamed(roots, name, i + 1)
  }

  function CommandNamed(commands: seq<Owned>, name: Bytes, i: nat): (r: Option<nat>)
    requires i <= |commands|
    ensures r.Some? ==> i <= r.value < |commands| && commands[r.value].command.name == name
    decreases |commands| - i
  {
    if i == |commands| then None else if commands[i].command.name == name then Some(i) else CommandNamed(commands, name, i + 1)
  }

  function LocalNamed(ps: seq<Parameter>, name: Bytes, i: nat): (r: Option<nat>)
    requires i <= |ps|
    ensures r.Some? ==> i <= r.value < |ps| && !Positional(ps[r.value]) && ps[r.value].longName == name
    decreases |ps| - i
  {
    if i == |ps| then None else if !Positional(ps[i]) && ps[i].longName == name then Some(i) else LocalNamed(ps, name, i + 1)
  }

  method FindRoot(roots: seq<Root>, name: Bytes) returns (r: Option<nat>)
    ensures r == RootNamed(roots, name, 0)
  {
    var i := 0;
    while i < |roots|
      invariant 0 <= i <= |roots| && RootNamed(roots, name, i) == RootNamed(roots, name, 0)
    {
      if roots[i].parameter.longName == name { return Some(i); }
      i := i + 1;
    }
    return None;
  }

  method FindCommand(commands: seq<Owned>, name: Bytes) returns (r: Option<nat>)
    ensures r == CommandNamed(commands, name, 0)
  {
    var i := 0;
    while i < |commands|
      invariant 0 <= i <= |commands| && CommandNamed(commands, name, i) == CommandNamed(commands, name, 0)
    {
      if commands[i].command.name == name { return Some(i); }
      i := i + 1;
    }
    return None;
  }

  method FindLocal(ps: seq<Parameter>, name: Bytes) returns (r: Option<nat>)
    ensures r == LocalNamed(ps, name, 0)
  {
    var i := 0;
    while i < |ps|
      invariant 0 <= i <= |ps| && LocalNamed(ps, name, i) == LocalNamed(ps, name, 0)
    {
      if !Positional(ps[i]) && ps[i].longName == name { return Some(i); }
      i := i + 1;
    }
    return None;
  }

  function InsertIndex(ps: seq<Parameter>, sorted: seq<nat>, i: nat): (r: seq<nat>)
    requires i < |ps| && forall k | 0 <= k < |sorted| :: sorted[k] < |ps|
    ensures |r| == |sorted| + 1
    ensures forall q :: q in r <==> q in sorted || q == i
  {
    if sorted == [] || ps[sorted[|sorted| - 1]].position <= ps[i].position then sorted + [i]
    else
      var last := sorted[|sorted| - 1];
      assert sorted == sorted[..|sorted| - 1] + [last];
      InsertIndex(ps, sorted[..|sorted| - 1], i) + [last]
  }

  predicate InIndexOrder(ps: seq<Parameter>, sorted: seq<nat>) {
    && (forall k | 0 <= k < |sorted| :: sorted[k] < |ps| && Positional(ps[sorted[k]]))
    && (forall a, b | 0 <= a < b < |sorted| :: ps[sorted[a]].position <= ps[sorted[b]].position)
  }

  lemma {:induction false} InsertKeepsIndexOrder(ps: seq<Parameter>, sorted: seq<nat>, i: nat)
    requires i < |ps| && Positional(ps[i]) && InIndexOrder(ps, sorted)
    ensures InIndexOrder(ps, InsertIndex(ps, sorted, i))
  {
    var r := InsertIndex(ps, sorted, i);
    forall k | 0 <= k < |r| ensures r[k] < |ps| && Positional(ps[r[k]]) { assert r[k] in r; }
    if sorted != [] && ps[sorted[|sorted| - 1]].position > ps[i].position {
      var rest := sorted[..|sorted| - 1];
      InsertKeepsIndexOrder(ps, rest, i);
      forall k | 0 <= k < |InsertIndex(ps, rest, i)|
        ensures ps[InsertIndex(ps, rest, i)[k]].position <= ps[sorted[|sorted| - 1]].position
      {
        assert InsertIndex(ps, rest, i)[k] in InsertIndex(ps, rest, i);
        if InsertIndex(ps, rest, i)[k] != i { assert InsertIndex(ps, rest, i)[k] in rest; }
      }
    }
  }

  /** The positionals among the first `n` parameters, in index order. */
  function IndexOrder(ps: seq<Parameter>, n: nat): (r: seq<nat>)
    requires n <= |ps|
    ensures forall k | 0 <= k < |r| :: r[k] < n && Positional(ps[r[k]])
  {
    if n == 0 then []
    else if Positional(ps[n - 1]) then
      var r := InsertIndex(ps, IndexOrder(ps, n - 1), n - 1);
      assert forall k | 0 <= k < |r| :: r[k] in r;
      r
    else IndexOrder(ps, n - 1)
  }

  lemma {:induction false} IndexOrderComplete(ps: seq<Parameter>, n: nat)
    requires n <= |ps|
    ensures InIndexOrder(ps, IndexOrder(ps, n)) && |IndexOrder(ps, n)| == |Positionals(ps[..n])|
    ensures forall i :: i in IndexOrder(ps, n) <==> 0 <= i < n && Positional(ps[i])
  {
    hide InIndexOrder, InsertIndex;
    if n == 0 {
      NothingInOrder(ps);
    } else {
      IndexOrderComplete(ps, n - 1);
      assert ps[..n][..n - 1] == ps[..n - 1];
      if Positional(ps[n - 1]) {
        InsertKeepsIndexOrder(ps, IndexOrder(ps, n - 1), n - 1);
        InsertAdds(ps, IndexOrder(ps, n - 1), n - 1);
      }
    }
  }

  lemma NothingInOrder(ps: seq<Parameter>)
    ensures InIndexOrder(ps, [])
  {
  }

  lemma InsertAdds(ps: seq<Parameter>, sorted: seq<nat>, i: nat)
    requires i < |ps| && forall k | 0 <= k < |sorted| :: sorted[k] < |ps|
    ensures |InsertIndex(ps, sorted, i)| == |sorted| + 1
    ensures forall q :: q in InsertIndex(ps, sorted, i) <==> q in sorted || q == i
  {
  }

  lemma {:induction false} Climbs(q: seq<nat>, k: nat)
    requires k < |q| && forall a, b | 0 <= a < b < |q| :: q[a] < q[b]
    ensures k <= q[k]
  {
    if k > 0 { Climbs(q, k - 1); }
  }

  lemma {:induction false} ClimbsOnward(q: seq<nat>, k: nat)
    requires k < |q| && forall a, b | 0 <= a < b < |q| :: q[a] < q[b]
    ensures q[k] + (|q| - 1 - k) <= q[|q| - 1]
    decreases |q| - k
  {
    if k < |q| - 1 { ClimbsOnward(q, k + 1); }
  }

  /** In a command the catalog admits, the positional in place `k` is the one declared with index `k`. */
  lemma PlacesAreIndices(ps: seq<Parameter>, k: nat)
    requires LocallyUnique(ps) && PositionsOk(ps) && k < |IndexOrder(ps, |ps|)|
    ensures ps[IndexOrder(ps, |ps|)[k]].position == k
  {
    var order := IndexOrder(ps, |ps|);
    IndexOrderComplete(ps, |ps|);
    IndexOrderDistinct(ps, |ps|);
    assert ps[..|ps|] == ps;
    var q := seq(|order|, a requires 0 <= a < |order| => ps[order[a]].position as nat);
    assert forall a | 0 <= a < |q| :: q[a] < |q|;
    hide IndexOrder, LocallyUnique, PositionsOk, Positional;
    forall a, b | 0 <= a < b < |q| ensures q[a] < q[b] { IndicesDiffer(ps, order[a], order[b]); }
    Climbs(q, k);
    ClimbsOnward(q, k);
  }

  lemma IndicesDiffer(ps: seq<Parameter>, i: nat, j: nat)
    requires LocallyUnique(ps) && i < |ps| && j < |ps| && i != j && Positional(ps[i]) && Positional(ps[j])
    ensures ps[i].position != ps[j].position
  {
    assert if i < j then Apart(ps[j], ps[i]) else Apart(ps[i], ps[j]);
  }

  /** The positionals of a command in index order, as indices into its parameters. */
  method OrderedPositionals(ps: seq<Parameter>) returns (sorted: seq<nat>)
    ensures sorted == IndexOrder(ps, |ps|)
  {
    sorted := [];
    var i := 0;
    while i < |ps|
      invariant 0 <= i <= |ps| && sorted == IndexOrder(ps, i)
    {
      if Positional(ps[i]) { sorted := InsertIndex(ps, sorted, i); }
      i := i + 1;
    }
  }

  // ---- the grammar --------------------------------------------------------------------------------

  /** One more occurrence of a parameter, with its value if it takes one; only repeatable ones may recur. */
  ghost function RecordIn(surface: Surface, s: Parse, r: Ref, value: Option<Bytes>): (next: Option<Parse>)
    requires InRange(surface, s.selected, r)
    ensures next.Some? ==> next.value.selected == s.selected
  {
    var count := (if r in s.occurrences then s.occurrences[r] else 0) + 1;
    var before := if r in s.values then s.values[r] else [];
    if count > 1 && !Declared(surface, s.selected, r).flags.repeatable then None
    else if value.Some? && !WellFormed(value.value) then None
    else Some(s.(occurrences := s.occurrences[r := count],
                 values := s.values[r := if value.Some? then before + [value.value] else before]))
  }

  datatype Read = Read(parse: Parse, at: nat)

  ghost function At(parse: Option<Parse>, at: nat): Option<Read> {
    if parse.None? then None else Some(Read(parse.value, at))
  }

  /** A long option takes its value after the equals sign or from the next argument; a flag takes none. */
  ghost function OptionIn(surface: Surface, s: Parse, parsed: Long, r: Ref, argv: seq<Bytes>, index: nat): (read: Option<Read>)
    requires InRange(surface, s.selected, r) && index < |argv|
    ensures read.Some? ==> index <= read.value.at < |argv| && read.value.parse.selected == s.selected
  {
    if Declared(surface, s.selected, r).kind == FLAG then
      if parsed.hasEquals then None else At(RecordIn(surface, s, r, None), index)
    else if parsed.hasEquals then At(RecordIn(surface, s, r, Some(parsed.value)), index)
    else if index + 1 >= |argv| || argv[index + 1] == PLUS_PLUS || argv[index + 1] == DASH_DASH then None
    else At(RecordIn(surface, s, r, Some(argv[index + 1])), index + 1)
  }

  ghost function LongIn(surface: Surface, s: Parse, parsed: Long, argv: seq<Bytes>, index: nat): (read: Option<Read>)
    requires s.selected.Some? ==> s.selected.value < |surface.commands|
    requires index < |argv|
    ensures read.Some? ==> index <= read.value.at < |argv| && read.value.parse.selected == s.selected
  {
    if s.selected.None? then
      var root := RootNamed(surface.roots, parsed.name, 0);
      if root.None? then None else OptionIn(surface, s, parsed, RootRef(root.value), argv, index)
    else
      var local := LocalNamed(surface.commands[s.selected.value].command.parameters, parsed.name, 0);
      if local.None? then None else OptionIn(surface, s, parsed, LocalRef(local.value), argv, index)
  }

  /** A long option, or --help, which asks for the help of what has been selected so far. */
  ghost function LongTokenIn(surface: Surface, s: Parse, argv: seq<Bytes>, index: nat): (read: Option<Read>)
    requires s.selected.Some? ==> s.selected.value < |surface.commands|
    requires index < |argv| && |argv[index]| > 2
    ensures read.Some? ==> index <= read.value.at < |argv| && read.value.parse.selected == s.selected
  {
    var parsed := Split(argv[index][2..], 0);
    if parsed.name == [] || DOT in parsed.name then None
    else if parsed.name == HELP then
      if parsed.hasEquals then None
      else At(Some(if s.selected.None? then s.(rootHelp := true) else s.(commandHelp := true)), index)
    else LongIn(surface, s, parsed, argv, index)
  }

  /** The `filled`-th positional, in index order, takes the value as it stands. */
  ghost function PositionalIn(surface: Surface, s: Parse, filled: nat, value: Bytes): (r: Option<Parse>)
    requires s.selected.Some? && s.selected.value < |surface.commands|
    ensures r.Some? ==> r.value.selected == s.selected
  {
    var ps := surface.commands[s.selected.value].command.parameters;
    var order := IndexOrder(ps, |ps|);
    if filled >= |order| then None
    else RecordIn(surface, s, LocalRef(order[filled]), Some(value))
  }

  /** After a standalone "--" every argument is a positional. */
  ghost function RestIn(surface: Surface, s: Parse, argv: seq<Bytes>, at: nat, filled: nat): Option<Parse>
    requires s.selected.Some? && s.selected.value < |surface.commands| && at <= |argv|
    decreases |argv| - at
  {
    if at == |argv| then Some(s)
    else
      var next := PositionalIn(surface, s, filled, argv[at]);
      if next.None? then None else RestIn(surface, next.value, argv, at + 1, filled + 1)
  }

  /** Reading a command line from one argument on: what it comes to, if the grammar admits it. */
  ghost function ReadFrom(surface: Surface, s: Parse, argv: seq<Bytes>, index: nat, filled: nat): Option<Parse>
    requires s.selected.Some? ==> s.selected.value < |surface.commands|
    requires index <= |argv|
    decreases |argv| - index
  {
    if index == |argv| then Some(s)
    else
      var token := argv[index];
      if token == PLUS_PLUS || token == DASH_H || token == DASH_VERSION then None
      else if token == DASH_DASH then
        if s.selected.None? then None
        else
          var ps := surface.commands[s.selected.value].command.parameters;
          if filled >= |IndexOrder(ps, |ps|)| then None else RestIn(surface, s, argv, index + 1, filled)
      else if |token| > 2 && token[..2] == DASH_DASH then
        var read := LongTokenIn(surface, s, argv, index);
        if read.None? then None else ReadFrom(surface, read.value.parse, argv, read.value.at + 1, filled)
      else if |token| > 1 && token[0] == 0x2D then None
      else if s.selected.None? then
        var found := CommandNamed(surface.commands, token, 0);
        if s.rootHelp || found.None? then None
        else ReadFrom(surface, s.(selected := found), argv, index + 1, filled)
      else
        var next := PositionalIn(surface, s, filled, token);
        if next.None? then None else ReadFrom(surface, next.value, argv, index + 1, filled + 1)
  }

  lemma {:induction false} InsertStaysDistinct(ps: seq<Parameter>, sorted: seq<nat>, i: nat)
    requires i < |ps| && i !in sorted && forall k | 0 <= k < |sorted| :: sorted[k] < |ps|
    requires forall a, b | 0 <= a < b < |sorted| :: sorted[a] != sorted[b]
    ensures forall a, b | 0 <= a < b < |sorted| + 1 :: InsertIndex(ps, sorted, i)[a] != InsertIndex(ps, sorted, i)[b]
  {
    if sorted != [] && ps[sorted[|sorted| - 1]].position > ps[i].position {
      var rest := sorted[..|sorted| - 1];
      var r := InsertIndex(ps, rest, i);
      InsertStaysDistinct(ps, rest, i);
      forall k | 0 <= k < |r| ensures r[k] != sorted[|sorted| - 1] { assert r[k] in r; }
    }
  }

  lemma {:induction false} IndexOrderDistinct(ps: seq<Parameter>, n: nat)
    requires n <= |ps|
    ensures forall a, b | 0 <= a < b < |IndexOrder(ps, n)| :: IndexOrder(ps, n)[a] != IndexOrder(ps, n)[b]
  {
    if n > 0 {
      IndexOrderDistinct(ps, n - 1);
      if Positional(ps[n - 1]) { InsertStaysDistinct(ps, IndexOrder(ps, n - 1), n - 1); }
    }
  }

  ghost function OrderOf(surface: Surface, s: Parse): (order: seq<nat>)
    requires s.selected.Some? && s.selected.value < |surface.commands|
  {
    var ps := surface.commands[s.selected.value].command.parameters;
    IndexOrder(ps, |ps|)
  }

  ghost predicate Unfilled(surface: Surface, s: Parse, filled: nat)
    requires s.selected.Some? && s.selected.value < |surface.commands|
  {
    forall j | filled <= j < |OrderOf(surface, s)| ::
      LocalRef(OrderOf(surface, s)[j]) !in s.occurrences && LocalRef(OrderOf(surface, s)[j]) !in s.values
  }

  lemma RestStep(surface: Surface, s: Parse, argv: seq<Bytes>, at: nat, filled: nat)
    requires s.selected.Some? && s.selected.value < |surface.commands| && at < |argv|
    ensures var next := PositionalIn(surface, s, filled, argv[at]);
            RestIn(surface, s, argv, at, filled)
            == if next.None? then None else RestIn(surface, next.value, argv, at + 1, filled + 1)
  {
  }

  lemma RestEnds(surface: Surface, s: Parse, argv: seq<Bytes>, filled: nat)
    requires s.selected.Some? && s.selected.value < |surface.commands|
    ensures RestIn(surface, s, argv, |argv|, filled) == Some(s)
  {
  }

  /** The arguments from `at` on are the values of the positionals from `filled` on, one each. */
  ghost predicate Assigned(order: seq<nat>, values: map<Ref, seq<Bytes>>, argv: seq<Bytes>, at: nat, filled: nat)
    requires at <= |argv| && |argv| - at <= |order| - filled
  {
    forall j | filled <= j < filled + |argv| - at ::
      LocalRef(order[j]) in values && values[LocalRef(order[j])] == [argv[j - filled + at]]
  }

  ghost predicate Extends(before: map<Ref, seq<Bytes>>, after: map<Ref, seq<Bytes>>) {
    forall q | q in before :: q in after && after[q] == before[q]
  }

  lemma FillsOne(surface: Surface, s: Parse, filled: nat, value: Bytes)
    requires s.selected.Some? && s.selected.value < |surface.commands|
    requires filled < |OrderOf(surface, s)| && Unfilled(surface, s, filled)
    ensures var next := PositionalIn(surface, s, filled, value);
            && (next.Some? <==> WellFormed(value))
            && (next.Some? ==>
                  && OrderOf(surface, next.value) == OrderOf(surface, s)
                  && next.value.values == s.values[LocalRef(OrderOf(surface, s)[filled]) := [value]]
                  && Extends(s.values, next.value.values)
                  && Unfilled(surface, next.value, filled + 1))
  {
    hide WellFormed, IndexOrder;
    var order := OrderOf(surface, s);
    var ps := surface.commands[s.selected.value].command.parameters;
    var ref := LocalRef(order[filled]);
    IndexOrderDistinct(ps, |ps|);
    assert ref !in s.occurrences && ref !in s.values;
    assert [] + [value] == [value];
    forall j | filled < j < |order| ensures LocalRef(order[j]) != ref {}
  }

  /** Whatever follows "--" is data: the arguments are admitted exactly if they are UTF-8 and there are
      positionals left for them, and go to these one by one, in index order, as they stand. */
  lemma {:induction false} RestAssigns(surface: Surface, s: Parse, argv: seq<Bytes>, at: nat, filled: nat)
    requires s.selected.Some? && s.selected.value < |surface.commands| && at <= |argv|
    requires filled <= |OrderOf(surface, s)| && Unfilled(surface, s, filled)
    ensures var r := RestIn(surface, s, argv, at, filled);
            && (r.Some? <==> |argv| - at <= |OrderOf(surface, s)| - filled && forall k | at <= k < |argv| :: WellFormed(argv[k]))
            && (r.Some? ==> Extends(s.values, r.value.values) && Assigned(OrderOf(surface, s), r.value.values, argv, at, filled))
    decreases |argv| - at
  {
    hide WellFormed, OrderOf, Unfilled, RestIn;
    if at < |argv| { RestStep(surface, s, argv, at, filled); } else { RestEnds(surface, s, argv, filled); }
    if at < |argv| && filled < |OrderOf(surface, s)| {
      FillsOne(surface, s, filled, argv[at]);
      hide PositionalIn;
      var next := PositionalIn(surface, s, filled, argv[at]);
      if next.Some? { RestAssigns(surface, next.value, argv, at + 1, filled + 1); }
    } else if at < |argv| {
      assert PositionalIn(surface, s, filled, argv[at]).None? by {
        NoPositional(surface, s, filled, argv[at]);
      }
    }
  }

  lemma NoPositional(surface: Surface, s: Parse, filled: nat, value: Bytes)
    requires s.selected.Some? && s.selected.value < |surface.commands| && filled >= |OrderOf(surface, s)|
    ensures PositionalIn(surface, s, filled, value).None?
  {
  }

  /** A command line of a command, "--", and its arguments. */
  lemma ArgumentsAreData(surface: Surface, program: Bytes, name: Bytes, arguments: seq<Bytes>)
    requires name != [] && name[0] != 0x2D && name != PLUS_PLUS
    ensures var found := CommandNamed(surface.commands, name, 0);
            var read := ReadLine(surface, [program, name, DASH_DASH] + arguments);
            && (read.Some? <==>
                  && found.Some?
                  && (var ps := surface.commands[found.value].command.parameters;
                      |IndexOrder(ps, |ps|)| > 0 && |arguments| <= |IndexOrder(ps, |ps|)|)
                  && forall k | 0 <= k < |arguments| :: WellFormed(arguments[k]))
            && (read.Some? ==>
                  && read.value.selected == found
                  && (var ps := surface.commands[found.value].command.parameters;
                      Assigned(IndexOrder(ps, |ps|), read.value.values, arguments, 0, 0)))
  {
    hide WellFormed, IndexOrder, RestIn, PositionalIn, CommandNamed;
    var argv := [program, name, DASH_DASH] + arguments;
    var found := CommandNamed(surface.commands, name, 0);
    assert argv[1] == name && argv[2] == DASH_DASH;
    assert name != DASH_H && name != DASH_VERSION && name != DASH_DASH by { assert DASH_VERSION[0] == 0x2D; }
    assert |name| > 2 ==> name[..2] != DASH_DASH by { assert |name| > 2 ==> name[..2][0] != DASH_DASH[0]; }
    if found.Some? {
      var s := NothingParsed.(selected := found);
      assert ReadFrom(surface, NothingParsed, argv, 1, 0) == ReadFrom(surface, s, argv, 2, 0);
      var read := RestIn(surface, s, argv, 3, 0);
      assert ReadFrom(surface, s, argv, 2, 0) == if |OrderOf(surface, s)| == 0 then None else read;
      RestAssigns(surface, s, argv, 3, 0);
      RestKeepsCommand(surface, s, argv, 3, 0);
      assert forall k | 0 <= k < |arguments| :: arguments[k] == argv[k + 3];
    }
  }

  lemma {:induction false} RestKeepsCommand(surface: Surface, s: Parse, argv: seq<Bytes>, at: nat, filled: nat)
    requires s.selected.Some? && s.selected.value < |surface.commands| && at <= |argv|
    ensures var r := RestIn(surface, s, argv, at, filled);
            r.Some? ==> r.value.selected == s.selected
    decreases |argv| - at
  {
    hide PositionalIn;
    if at < |argv| {
      var next := PositionalIn(surface, s, filled, argv[at]);
      if next.Some? { RestKeepsCommand(surface, next.value, argv, at + 1, filled + 1); }
    }
  }

  const NothingParsed := Parse(None, false, false, map[], map[])

  /** A command line the grammar admits names a command, or asks for the root help. */
  ghost function ReadLine(surface: Surface, argv: seq<Bytes>): Option<Parse> {
    if argv == [] then None
    else
      var s := ReadFrom(surface, NothingParsed, argv, 1, 0);
      if s.None? || (!s.value.rootHelp && s.value.selected.None?) then None else s
  }

  /** The arguments of a process hold no NUL. */
  ghost predicate NulFree(argv: seq<Bytes>) {
    forall k | 0 <= k < |argv| :: 0 !in argv[k]
  }

  lemma ArgumentNulFree(argv: seq<Bytes>, k: nat)
    requires NulFree(argv) && k < |argv|
    ensures 0 !in argv[k]
  {
  }

  ghost predicate OrderedBy(surface: Surface, selected: Option<nat>, order: seq<nat>) {
    && selected.Some? && selected.value < |surface.commands|
    && (var ps := surface.commands[selected.value].command.parameters;
        order == IndexOrder(ps, |ps|))
  }

  // ---- the grammar pass -----------------------------------------------------------------------------

  /** What the pass over argv has recorded so far. */
  class Invocation {
    const surface: Surface
    var selected: Option<nat>
    var rootHelp: bool
    var commandHelp: bool
    var occurrences: map<Ref, nat>
    // The value tokens of every parameter, in order of occurrence.
    var values: map<Ref, seq<Bytes>>

    ghost function Abs(): Parse
      reads this
    {
      Parse(selected, rootHelp, commandHelp, occurrences, values)
    }

    ghost predicate Valid()
      reads this
    {
      ParseOk(surface, Abs())
    }

    /** The outcome of a step: refused, or the books as the grammar has them. */
    ghost predicate Tells(ok: bool, next: Option<Parse>)
      reads this
    {
      (ok <==> next.Some?) && (ok ==> Valid() && Abs() == next.value)
    }

    constructor (surface: Surface)
      ensures Valid() && this.surface == surface && Abs() == NothingParsed
    {
      this.surface := surface;
      selected, rootHelp, commandHelp, occurrences, values := None, false, false, map[], map[];
    }

    /** One more occurrence of a parameter, with its value if it takes one; only repeatable ones may recur. */
    method Record(r: Ref, value: Option<Bytes>) returns (ok: bool)
      requires Valid() && InRange(surface, selected, r)
      requires value.None? ==> Declared(surface, selected, r).kind == FLAG
      requires value.Some? ==> 0 !in value.value
      modifies this
      ensures Tells(ok, RecordIn(surface, old(Abs()), r, value))
    {
      hide WellFormed, ParseOk, Recorded;
      ghost var s := Abs();
      var declaration := Declared(surface, selected, r);
      var count := (if r in occurrences then occurrences[r] else 0) + 1;
      if r in occurrences { CountsPositive(s, r); }
      if count > 1 && !declaration.flags.repeatable { return false; }
      if value.Some? {
        ok := AcceptByRange(value.value);
        if !ok { return; }
      }
      var before := if r in values then values[r] else [];
      RecordedKeepsParse(s, r, value);
      occurrences := occurrences[r := count];
      values := values[r := if value.Some? then before + [value.value] else before];
      ok := true;
    }

    lemma CountsPositive(s: Parse, r: Ref)
      requires ParseOk(surface, s) && r in s.occurrences
      ensures s.occurrences[r] >= 1
    {
      hide WellFormed;
    }

    /** Recording one occurrence keeps the books. */
    lemma RecordedKeepsParse(s: Parse, r: Ref, value: Option<Bytes>)
      requires ParseOk(surface, s) && InRange(surface, s.selected, r)
      requires r in s.occurrences ==> Declared(surface, s.selected, r).flags.repeatable
      requires value.None? ==> Declared(surface, s.selected, r).kind == FLAG
      requires value.Some? ==> ValueOk(value.value)
      ensures var count := (if r in s.occurrences then s.occurrences[r] else 0) + 1;
              var before := if r in s.values then s.values[r] else [];
              ParseOk(surface, s.(occurrences := s.occurrences[r := count],
                                  values := s.values[r := if value.Some? then before + [value.value] else before]))
    {
      hide Recorded, ValueOk;
      if r in s.occurrences { CountsPositive(s, r); }
      var count := (if r in s.occurrences then s.occurrences[r] else 0) + 1;
      var before := if r in s.values then s.values[r] else [];
      RecordedMore(Declared(surface, s.selected, r), count, before, value);
    }

    lemma RecordedMore(p: Parameter, count: nat, before: seq<Bytes>, value: Option<Bytes>)
      requires count == 1 ==> before == []
      requires count > 1 ==> Recorded(p, (count - 1) as nat, before) && p.flags.repeatable
      requires count >= 1 && (value.None? ==> p.kind == FLAG) && (value.Some? ==> ValueOk(value.value))
      ensures Recorded(p, count, if value.Some? then before + [value.value] else before)
    {
      hide WellFormed;
    }

    /** A long option, with its value after an equals sign or in the next argument. */
    method AppendOption(parsed: Long, r: Ref, argv: seq<Bytes>, index: nat) returns (ok: bool, at: nat)
      requires Valid() && InRange(surface, selected, r) && index < |argv| && 0 !in parsed.value
      requires NulFree(argv)
      modifies this
      ensures Reads(ok, at, OptionIn(surface, old(Abs()), parsed, r, argv, index))
    {
      hide RecordIn, ParseOk;
      at := index;
      var declaration := Declared(surface, selected, r);
      if declaration.kind == FLAG {
        if parsed.hasEquals { return false, at; }
        ok := Record(r, None);
        return;
      }
      if parsed.hasEquals {
        ok := Record(r, Some(parsed.value));
        return;
      }
      if index + 1 >= |argv| { return false, at; }
      if argv[index + 1] == PLUS_PLUS || argv[index + 1] == DASH_DASH { return false, at; }
      ok := Record(r, Some(argv[index + 1]));
      at := index + 1;
    }

    ghost predicate Reads(ok: bool, at: nat, read: Option<Read>)
      reads this
    {
      (ok <==> read.Some?) && (ok ==> Valid() && Read(Abs(), at) == read.value)
    }

    /** The next positional parameter, if there is one left, takes the argument as it stands. */
    method AppendPositional(order: seq<nat>, filled: nat, value: Bytes) returns (ok: bool)
      requires Valid() && selected.Some? && 0 !in value
      requires OrderedBy(surface, selected, order)
      modifies this
      ensures Tells(ok, PositionalIn(surface, old(Abs()), filled, value))
    {
      assert selected.value < |surface.commands|;
      hide RecordIn, ParseOk, IndexOrder;
      if filled >= |order| { return false; }
      ok := Record(LocalRef(order[filled]), Some(value));
    }

    /** After a standalone "--" every argument is a positional. */
    method AppendRest(order: seq<nat>, argv: seq<Bytes>, start: nat, filled: nat) returns (ok: bool)
      requires Valid() && selected.Some? && start <= |argv| && NulFree(argv)
      requires OrderedBy(surface, selected, order)
      modifies this
      ensures Tells(ok, RestIn(surface, old(Abs()), argv, start, filled))
    {
      assert selected.value < |surface.commands|;
      hide PositionalIn, RestIn, ParseOk, OrderedBy, NulFree;
      ghost var s := Abs();
      var at, next: nat := start, filled;
      while at < |argv|
        invariant start <= at <= |argv| && Valid() && selected == s.selected
        invariant RestIn(surface, Abs(), argv, at, next) == RestIn(surface, s, argv, start, filled)
      {
        RestStep(surface, Abs(), argv, at, next);
        ArgumentNulFree(argv, at);
        ok := AppendPositional(order, next, argv[at]);
        if !ok { return; }
        at, next := at + 1, next + 1;
      }
      RestEnds(surface, Abs(), argv, next);
      return true;
    }

    /** One long option other than --help, before or after the command. */
    method LongOption(parsed: Long, argv: seq<Bytes>, index: nat) returns (ok: bool, at: nat)
      requires Valid() && index < |argv| && 0 !in parsed.value && NulFree(argv)
      modifies this
      ensures Reads(ok, at, LongIn(surface, old(Abs()), parsed, argv, index))
    {
      hide OptionIn;
      at := index;
      if selected.None? {
        var root := FindRoot(surface.roots, parsed.name);
        if root.None? { return false, at; }
        ok, at := AppendOption(parsed, RootRef(root.value), argv, index);
      } else {
        var local := FindLocal(surface.commands[selected.value].command.parameters, parsed.name);
        if local.None? { return false, at; }
        ok, at := AppendOption(parsed, LocalRef(local.value), argv, index);
      }
    }

    /** The first bare word is the command. */
    method Select(name: Bytes) returns (ok: bool)
      requires Valid() && selected.None?
      modifies this
      ensures var found := CommandNamed(surface.commands, name, 0);
              Tells(ok, if old(rootHelp) || found.None? then None else Some(old(Abs()).(selected := found)))
    {
      if rootHelp { return false; }
      var found := FindCommand(surface.commands, name);
      if found.None? { return false; }
      forall r | r in occurrences ensures r.RootRef? { assert InRange(surface, selected, r); }
      selected := found;
      return true;
    }

    /** A long option, or --help. */
    method LongToken(argv: seq<Bytes>, index: nat) returns (ok: bool, at: nat)
      requires Valid() && index < |argv| && NulFree(argv)
      requires |argv[index]| > 2 && argv[index][..2] == DASH_DASH
      modifies this
      ensures Reads(ok, at, LongTokenIn(surface, old(Abs()), argv, index))
    {
      hide LongIn, RecordIn;
      at := index;
      var parsed := SplitLong(argv[index]);
      if parsed.name == [] || DOT in parsed.name { return false, at; }
      if parsed.name == HELP {
        if parsed.hasEquals { return false, at; }
        if selected.None? { rootHelp := true; } else { commandHelp := true; }
        return true, at;
      }
      ValueNulFree(argv[index], parsed);
      ok, at := LongOption(parsed, argv, index);
    }

    /** The whole grammar: every token is accounted for, or the command line is refused. */
    method Normalize(argv: seq<Bytes>) returns (st: Status)
      requires Valid() && Abs() == NothingParsed
      requires NulFree(argv)
      modifies this
      ensures st == Ok || st == InvalidArgument
      ensures Tells(st == Ok, ReadLine(surface, argv))
    {
      hide ParseOk, LongTokenIn, PositionalIn, RestIn, IndexOrder, InIndexOrder, CommandNamed;
      if argv == [] { return InvalidArgument; }
      var filled: nat, index: nat := 0, 1;
      while index < |argv|
        invariant 1 <= index <= |argv| && Valid()
        invariant selected.Some? ==> selected.value < |surface.commands|
        invariant ReadFrom(surface, Abs(), argv, index, filled) == ReadFrom(surface, NothingParsed, argv, 1, 0)
        decreases |argv| - index
      {
        var token := argv[index];
        if token == PLUS_PLUS { return InvalidArgument; }
        if token == DASH_DASH {
          if selected.None? { return InvalidArgument; }
          var order := OrderedPositionals(surface.commands[selected.value].command.parameters);
          if filled >= |order| { return InvalidArgument; }
          var ok := AppendRest(order, argv, index + 1, filled);
          if !ok { return InvalidArgument; }
          index := |argv|;
          break;
        }
        if token == DASH_H || token == DASH_VERSION { return InvalidArgument; }
        var ok := true;
        if |token| > 2 && token[..2] == DASH_DASH {
          ok, index := LongToken(argv, index);
        } else if |token| > 1 && token[0] == 0x2D {
          return InvalidArgument;
        } else if selected.None? {
          ok := Select(token);
        } else {
          var order := OrderedPositionals(surface.commands[selected.value].command.parameters);
          ok := AppendPositional(order, filled, token);
          filled := filled + 1;
        }
        if !ok { return InvalidArgument; }
        index := index + 1;
      }
      return if !rootHelp && selected.None? then InvalidArgument else Ok;
    }

    lemma ValueNulFree(token: Bytes, parsed: Long)
      requires 0 !in token && |token| >= 2
      requires token[2..] == if parsed.hasEquals then parsed.name + [EQUALS] + parsed.value else parsed.name
      requires !parsed.hasEquals ==> parsed.value == []
      ensures 0 !in parsed.value
    {
      if parsed.hasEquals {
        forall k | 0 <= k < |parsed.value| ensures parsed.value[k] != 0 {
          assert parsed.value[k] == token[2..][|parsed.name| + 1 + k];
        }
      }
    }
  }
}
