/** Copying a manifest into the host: every check in its order, against one accumulating byte budget. */
module ManifestCopy {
  import opened Base
  import opened Utf8
  import opened Manifests

  method CopyText(text: Bytes, limit: nat, required: bool, used: nat) returns (st: Status, after: nat)
    requires used <= MAX_COPY
    ensures st == Ok <==> TextOk(text, limit) && (required ==> text != []) && used + |text| <= MAX_COPY
    ensures st == Ok ==> after == used + |text|
    ensures |text| > limit ==> st == LimitExceeded
  {
    after := used;
    if |text| > limit { return LimitExceeded, after; }
    if text == [] {
      EmptyIsWellFormed();
      return if required then InvalidArgument else Ok, after;
    }
    if 0 in text { return InvalidArgument, after; }
    var formed := AcceptByMask(text);
    if !formed { return InvalidArgument, after; }
    if |text| > MAX_COPY - used { return LimitExceeded, after; }
    return Ok, used + |text|;
  }

  lemma EmptyIsWellFormed()
    ensures WellFormed([])
  {
    assert EncodeAll([]) == [];
  }

  method CheckStableId(t: Bytes) returns (st: Status)
    ensures st == if StableId(t) then Ok else InvalidArgument
  {
    if t == [] || !Letter(t[0]) { return InvalidArgument; }
    var i := 0;
    while i < |t|
      invariant 0 <= i <= |t| && forall k | 0 <= k < i :: StableByte(t[k])
    {
      if !StableByte(t[i]) { return InvalidArgument; }
      i := i + 1;
    }
    return Ok;
  }

  method CheckVisibleName(t: Bytes) returns (st: Status)
    ensures st == if VisibleName(t) then Ok else InvalidArgument
  {
    if t == [] || !Lower(t[0]) { return InvalidArgument; }
    var previousHyphen := false;
    var i := 0;
    while i < |t|
      invariant 0 <= i <= |t|
      invariant forall k | 0 <= k < i :: t[k] == 0x2D || Lower(t[k]) || Digit(t[k])
      invariant forall k | 0 < k < i :: !(t[k] == 0x2D && t[k - 1] == 0x2D)
      invariant previousHyphen <==> i > 0 && t[i - 1] == 0x2D
    {
      var hyphen := t[i] == 0x2D;
      if !hyphen && !Lower(t[i]) && !Digit(t[i]) { return InvalidArgument; }
      if hyphen && previousHyphen { return InvalidArgument; }
      previousHyphen := hyphen;
      i := i + 1;
    }
    if t[|t| - 1] == 0x2D { return InvalidArgument; }
    return Ok;
  }

  method CopyValues(values: seq<Bytes>, count: nat, used: nat) returns (st: Status, after: nat)
    requires used <= MAX_COPY
    ensures st == Ok <==> TextsOk(values, count) && used + TEXT_WIDTH * |values| + TotalSize(values) <= MAX_COPY
    ensures st == Ok ==> after == used + TEXT_WIDTH * |values| + TotalSize(values)
  {
    after := used;
    if |values| > count { return LimitExceeded, after; }
    if TEXT_WIDTH * |values| > MAX_COPY - used { return LimitExceeded, after; }
    after := used + TEXT_WIDTH * |values|;
    var i := 0;
    while i < |values|
      invariant 0 <= i <= |values| && forall k | 0 <= k < i :: TextOk(values[k], MAX_DECLARED_VALUE)
      invariant after == used + TEXT_WIDTH * |values| + TotalSize(values[..i]) <= MAX_COPY
    {
      assert values[..i + 1][..i] == values[..i];
      SizeGrows(values, i + 1);
      st, after := CopyText(values[i], MAX_DECLARED_VALUE, false, after);
      if st != Ok { return; }
      i := i + 1;
    }
    assert values[..i] == values;
    st := Ok;
  }

  lemma {:induction false} SizeGrows(values: seq<Bytes>, k: nat)
    requires k <= |values|
    ensures TotalSize(values[..k]) <= TotalSize(values)
    decreases |values| - k
  {
    if k < |values| {
      SizeGrows(values, k + 1);
      assert values[..k + 1][..k] == values[..k];
    } else {
      assert values[..k] == values;
    }
  }

  method CheckValues(p: Parameter) returns (st: Status)
    requires p.kind == TEXT || p.kind == FLAG
    ensures st == Ok <==> ValuesConsistent(p)
  {
    if p.kind == FLAG {
      if p.flags.repeatable { return InvalidArgument; }
      if p.valueName != [] || p.defaults != [] || p.allowed != [] { return InvalidArgument; }
      return Ok;
    }
    if !p.flags.repeatable && |p.defaults| > 1 { return InvalidArgument; }
    if p.flags.required && p.defaults != [] { return InvalidArgument; }
    var i := 0;
    while i < |p.allowed|
      invariant 0 <= i <= |p.allowed|
      invariant forall a, b | 0 <= a < b < i :: p.allowed[a] != p.allowed[b]
    {
      if p.allowed[i] in p.allowed[..i] { return Duplicate; }
      assert forall a | 0 <= a < i :: p.allowed[..i][a] == p.allowed[a];
      i := i + 1;
    }
    if p.allowed != [] {
      i := 0;
      while i < |p.defaults|
        invariant 0 <= i <= |p.defaults| && forall k | 0 <= k < i :: p.defaults[k] in p.allowed
      {
        if p.defaults[i] !in p.allowed { return InvalidArgument; }
        i := i + 1;
      }
    }
    return Ok;
  }

  method CheckPlacement(p: Parameter, root: bool) returns (st: Status)
    ensures st == if Placed(p, root) then Ok else InvalidArgument
  {
    if root {
      if p.longName == [] || Positional(p) { return InvalidArgument; }
      if p.flags.required { return InvalidArgument; }
      if p.configKey != [] { return InvalidArgument; }
    } else {
      if Positional(p) == (p.longName != []) { return InvalidArgument; }
      if Positional(p) && p.kind != TEXT { return InvalidArgument; }
      if Positional(p) && p.flags.repeatable { return InvalidArgument; }
    }
    return Ok;
  }

  /** Copy one parameter: accepted exactly when it is well formed and fits what is left of the budget. */
  method CopyParameter(p: Parameter, root: bool, used: nat) returns (st: Status, after: nat)
    requires used <= MAX_COPY
    ensures st == Ok <==> ParameterOk(p, root) && used + ParameterCost(p) <= MAX_COPY
    ensures st == Ok ==> after == used + ParameterCost(p)
  {
    hide TextOk, TextsOk, StableId, VisibleName, ValuesConsistent, Placed;
    after := used;
    if p.flags.unknown { return Unsupported, after; }
    if p.kind != TEXT && p.kind != FLAG { return Unsupported, after; }
    st, after := CopyTexts(p, used);
    if st != Ok { return; }
    var values := after;
    st, after := CopyValues(p.defaults, MAX_DEFAULTS, after);
    if st != Ok { return; }
    st, after := CopyValues(p.allowed, MAX_ALLOWED, after);
    if st != Ok { return; }
    st := CheckPlacement(p, root);
    if st != Ok { return; }
    if p.longName != [] {
      st := CheckVisibleName(p.longName);
      if st != Ok { return; }
      if Manifests.Reserved(p.longName) { return Duplicate, after; }
    }
    st := CheckValues(p);
  }

  ghost predicate TextFieldsOk(p: Parameter) {
    && TextOk(p.id, MAX_IDENTIFIER) && StableId(p.id)
    && TextOk(p.longName, MAX_NAME) && TextOk(p.help, MAX_HELP) && TextOk(p.valueName, MAX_VALUE_NAME)
    && TextOk(p.configKey, MAX_IDENTIFIER) && (p.configKey != [] ==> StableId(p.configKey))
  }

  method CopyTexts(p: Parameter, used: nat) returns (st: Status, after: nat)
    requires used <= MAX_COPY
    ensures var cost := |p.id| + |p.longName| + |p.help| + |p.valueName| + |p.configKey|;
            && (st == Ok <==> TextFieldsOk(p) && used + cost <= MAX_COPY)
            && (st == Ok ==> after == used + cost)
  {
    hide TextOk;
    st, after := CopyText(p.id, MAX_IDENTIFIER, true, used);
    if st != Ok { return; }
    st := CheckStableId(p.id);
    if st != Ok { return; }
    st, after := CopyText(p.longName, MAX_NAME, false, after);
    if st != Ok { return; }
    st, after := CopyText(p.help, MAX_HELP, false, after);
    if st != Ok { return; }
    st, after := CopyText(p.valueName, MAX_VALUE_NAME, false, after);
    if st != Ok { return; }
    st, after := CopyText(p.configKey, MAX_IDENTIFIER, false, after);
    if st != Ok { return; }
    if p.configKey != [] { st := CheckStableId(p.configKey); }
  }

  method CopyParameters(ps: seq<Parameter>, root: bool, used: nat) returns (st: Status, after: nat)
    requires used <= MAX_COPY
    ensures st == Ok <==>
              (forall i | 0 <= i < |ps| :: ParameterOk(ps[i], root)) && used + ParametersCost(ps) <= MAX_COPY
    ensures st == Ok ==> after == used + ParametersCost(ps)
  {
    hide ParameterOk, ParameterCost;
    after := used;
    var i := 0;
    while i < |ps|
      invariant 0 <= i <= |ps| && forall k | 0 <= k < i :: ParameterOk(ps[k], root)
      invariant after == used + ParametersCost(ps[..i]) <= MAX_COPY
    {
      assert ps[..i + 1][..i] == ps[..i];
      CostGrows(ps, i + 1);
      st, after := CopyParameter(ps[i], root, after);
      if st != Ok { return; }
      i := i + 1;
    }
    assert ps[..i] == ps;
    st := Ok;
  }

  lemma {:induction false} CostGrows(ps: seq<Parameter>, k: nat)
    requires k <= |ps|
    ensures ParametersCost(ps[..k]) <= ParametersCost(ps)
    decreases |ps| - k
  {
    if k < |ps| {
      CostGrows(ps, k + 1);
      assert ps[..k + 1][..k] == ps[..k];
    } else {
      assert ps[..k] == ps;
    }
  }

  // ---- one command ------------------------------------------------------------------------------

  /** Insert a positional where its index belongs. */
  function Insert(sorted: seq<Parameter>, p: Parameter): (r: seq<Parameter>)
    ensures |r| == |sorted| + 1
    ensures forall q :: q in r <==> q in sorted || q == p
  {
    if sorted == [] || sorted[|sorted| - 1].position <= p.position then sorted + [p]
    else
      var last := sorted[|sorted| - 1];
      assert sorted == sorted[..|sorted| - 1] + [last];
      Insert(sorted[..|sorted| - 1], p) + [last]
  }

  predicate Ascending(ps: seq<Parameter>) {
    forall i, j | 0 <= i < j < |ps| :: ps[i].position < ps[j].position
  }

  lemma {:induction false} InsertAscends(sorted: seq<Parameter>, p: Parameter)
    requires Ascending(sorted) && forall q | q in sorted :: q.position != p.position
    ensures Ascending(Insert(sorted, p))
  {
    if sorted != [] && sorted[|sorted| - 1].position > p.position {
      var rest, last := sorted[..|sorted| - 1], sorted[|sorted| - 1];
      InsertAscends(rest, p);
      forall k | 0 <= k < |Insert(rest, p)| ensures Insert(rest, p)[k].position < last.position {
        assert Insert(rest, p)[k] in Insert(rest, p);
        if Insert(rest, p)[k] != p { assert Insert(rest, p)[k] in rest; }
      }
    }
  }

  /** The positionals of a command, in index order. */
  method SortPositionals(ps: seq<Parameter>) returns (sorted: seq<Parameter>)
    requires LocallyUnique(ps)
    ensures Ascending(sorted) && |sorted| == |Positionals(ps)|
    ensures forall q :: q in sorted <==> q in ps && Positional(q)
  {
    sorted := [];
    var i := 0;
    while i < |ps|
      invariant 0 <= i <= |ps| && Ascending(sorted) && |sorted| == |Positionals(ps[..i])|
      invariant forall q :: q in sorted <==> q in ps[..i] && Positional(q)
    {
      assert ps[..i + 1][..i] == ps[..i] && ps[..i + 1] == ps[..i] + [ps[i]];
      if Positional(ps[i]) {
        forall q | q in sorted ensures q.position != ps[i].position {
          var k :| 0 <= k < i && ps[k] == q;
          assert Apart(ps[i], ps[k]);
        }
        InsertAscends(sorted, ps[i]);
        sorted := Insert(sorted, ps[i]);
      }
      i := i + 1;
    }
    assert ps[..i] == ps;
  }

  /** Strictly ascending indices below their number are 0, 1, 2, ... */
  lemma {:induction false} AscendingFrom(sorted: seq<Parameter>, i: nat)
    requires Ascending(sorted) && i < |sorted|
    ensures sorted[i].position >= i
  {
    if i > 0 { AscendingFrom(sorted, i - 1); }
  }

  lemma AscendingExact(sorted: seq<Parameter>, i: nat)
    requires Ascending(sorted) && i < |sorted| && sorted[|sorted| - 1].position < |sorted|
    ensures sorted[i].position == i
    decreases |sorted| - i
  {
    AscendingFrom(sorted, i);
    if i + 1 < |sorted| { AscendingExact(sorted, i + 1); } else { AscendingFrom(sorted, i); }
  }

  /** Indices without gaps, required positionals before optional ones. */
  method CheckPositions(ps: seq<Parameter>) returns (st: Status)
    requires LocallyUnique(ps)
    ensures st == if PositionsOk(ps) then Ok else InvalidArgument
  {
    var sorted := SortPositionals(ps);
    var firstOptional: Option<nat> := None;
    var i := 0;
    while i < |sorted|
      invariant 0 <= i <= |sorted| && forall k | 0 <= k < i :: sorted[k].position == k
      invariant firstOptional.None? ==> forall k | 0 <= k < i :: sorted[k].flags.required
      invariant firstOptional.Some? ==> firstOptional.value < i && !sorted[firstOptional.value].flags.required
      invariant forall a, b | 0 <= a < b < i && sorted[b].flags.required :: sorted[a].flags.required
    {
      if sorted[i].position != i {
        GapRefused(ps, sorted, i);
        return InvalidArgument;
      }
      var required := sorted[i].flags.required;
      if !required && firstOptional.None? { firstOptional := Some(i); }
      if required && firstOptional.Some? {
        LateRequiredRefused(ps, sorted, firstOptional.value, i);
        return InvalidArgument;
      }
      i := i + 1;
    }
    PositionsAccepted(ps, sorted);
    return Ok;
  }

  lemma GapRefused(ps: seq<Parameter>, sorted: seq<Parameter>, i: nat)
    requires Ascending(sorted) && |sorted| == |Positionals(ps)| && i < |sorted| && sorted[i].position != i
    requires forall q :: q in sorted <==> q in ps && Positional(q)
    ensures !PositionsOk(ps)
  {
    var last := sorted[|sorted| - 1];
    assert last in sorted;
    var k :| 0 <= k < |ps| && ps[k] == last;
    if last.position < |sorted| { AscendingExact(sorted, i); }
  }

  lemma LateRequiredRefused(ps: seq<Parameter>, sorted: seq<Parameter>, a: nat, b: nat)
    requires Ascending(sorted) && a < b < |sorted| && !sorted[a].flags.required && sorted[b].flags.required
    requires forall q :: q in sorted <==> q in ps && Positional(q)
    ensures !PositionsOk(ps)
  {
    assert sorted[a] in sorted && sorted[b] in sorted;
    var i :| 0 <= i < |ps| && ps[i] == sorted[a];
    var j :| 0 <= j < |ps| && ps[j] == sorted[b];
  }

  lemma PositionsAccepted(ps: seq<Parameter>, sorted: seq<Parameter>)
    requires |sorted| == |Positionals(ps)| && forall k | 0 <= k < |sorted| :: sorted[k].position == k
    requires forall a, b | 0 <= a < b < |sorted| && sorted[b].flags.required :: sorted[a].flags.required
    requires forall q :: q in sorted <==> q in ps && Positional(q)
    ensures PositionsOk(ps)
  {
    forall i | 0 <= i < |ps| && Positional(ps[i]) ensures ps[i].position < |sorted| && sorted[ps[i].position] == ps[i] {
      assert ps[i] in sorted;
      var k :| 0 <= k < |sorted| && sorted[k] == ps[i];
    }
  }

  method CheckLocalUniqueness(ps: seq<Parameter>) returns (st: Status)
    ensures st == Ok <==> LocallyUnique(ps) && PositionsOk(ps)
    ensures !LocallyUnique(ps) ==> st == Duplicate
  {
    var i := 0;
    while i < |ps|
      invariant 0 <= i <= |ps| && forall a, b | 0 <= a < b < i :: Apart(ps[b], ps[a])
    {
      var earlier := 0;
      while earlier < i
        invariant 0 <= earlier <= i && forall a | 0 <= a < earlier :: Apart(ps[i], ps[a])
      {
        if !Apart(ps[i], ps[earlier]) { return Duplicate; }
        earlier := earlier + 1;
      }
      i := i + 1;
    }
    st := CheckPositions(ps);
  }

  /** Copy one command: accepted exactly when it is well formed and fits what is left of the budget. */
  method CopyCommand(c: Command, used: nat) returns (st: Status, after: nat)
    requires used <= MAX_COPY
    ensures st == Ok <==> CommandOk(c) && used + CommandCost(c) <= MAX_COPY
    ensures st == Ok ==> after == used + CommandCost(c)
  {
    hide TextOk, ParameterOk, LocallyUnique, PositionsOk;
    after := used;
    if c.flagged { return Unsupported, after; }
    if |c.parameters| > MAX_PARAMETERS { return LimitExceeded, after; }
    st, after := CopyText(c.id, MAX_IDENTIFIER, true, after);
    if st != Ok { return; }
    st := CheckStableId(c.id);
    if st != Ok { return; }
    st, after := CopyName(c.name, after);
    if st != Ok { return; }
    st, after := CopyText(c.help, MAX_HELP, false, after);
    if st != Ok { return; }
    if PARAMETER_WIDTH * |c.parameters| > MAX_COPY - after { return LimitExceeded, after; }
    after := after + PARAMETER_WIDTH * |c.parameters|;
    st, after := CopyParameters(c.parameters, false, after);
    if st != Ok { return; }
    st := CheckLocalUniqueness(c.parameters);
  }

  method CopyName(name: Bytes, used: nat) returns (st: Status, after: nat)
    requires used <= MAX_COPY
    ensures st == Ok <==>
              TextOk(name, MAX_NAME) && VisibleName(name) && !Manifests.Reserved(name) && used + |name| <= MAX_COPY
    ensures st == Ok ==> after == used + |name|
  {
    hide TextOk;
    st, after := CopyText(name, MAX_NAME, true, used);
    if st != Ok { return; }
    st := CheckVisibleName(name);
    if st != Ok { return; }
    if Manifests.Reserved(name) { st := Duplicate; }
  }

  method CopyCommands(cs: seq<Command>, used: nat) returns (st: Status, after: nat)
    requires used <= MAX_COPY
    ensures st == Ok <==> (forall i | 0 <= i < |cs| :: CommandOk(cs[i])) && used + CommandsCost(cs) <= MAX_COPY
    ensures st == Ok ==> after == used + CommandsCost(cs)
  {
    hide CommandOk, CommandCost;
    after := used;
    var i := 0;
    while i < |cs|
      invariant 0 <= i <= |cs| && forall k | 0 <= k < i :: CommandOk(cs[k])
      invariant after == used + CommandsCost(cs[..i]) <= MAX_COPY
    {
      assert cs[..i + 1][..i] == cs[..i];
      CommandsCostGrows(cs, i + 1);
      st, after := CopyCommand(cs[i], after);
      if st != Ok { return; }
      i := i + 1;
    }
    assert cs[..i] == cs;
    st := Ok;
  }

  lemma {:induction false} CommandsCostGrows(cs: seq<Command>, k: nat)
    requires k <= |cs|
    ensures CommandsCost(cs[..k]) <= CommandsCost(cs)
    decreases |cs| - k
  {
    if k < |cs| {
      CommandsCostGrows(cs, k + 1);
      assert cs[..k + 1][..k] == cs[..k];
    } else {
      assert cs[..k] == cs;
    }
  }
}
