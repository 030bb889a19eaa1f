/**
 * The runtime's own check of a plugin's configuration: it trusts neither the catalog nor the frontend,
 * collects the declarations from the manifest again, and freezes the values in declaration order.
 */
module ConfigFreeze {
  import opened Base
  import opened Utf8
  import opened Manifests

  const PLUGIN_DEFAULT: Word := 1
  const COMMAND_LINE: Word := 2
  const YES: Bytes := [0x74, 0x72, 0x75, 0x65]
  const NO: Bytes := [0x66, 0x61, 0x6C, 0x73, 0x65]

  datatype ConfigValue = ConfigValue(
    key: Bytes, kind: Word, source: Word, sensitive: bool, flagged: bool, values: seq<Bytes>)

  /** A parameter that may carry configuration, in manifest order; `command` counts commands from zero. */
  datatype Declaration = Declaration(parameter: Parameter, key: Bytes, command: nat, root: bool)

  // ---- declarations -------------------------------------------------------------------------------

  function LocalDeclarations(ps: seq<Parameter>, command: nat): (r: seq<Declaration>)
    ensures forall k | 0 <= k < |r| :: r[k].parameter in ps && r[k].key == r[k].parameter.configKey != []
                                       && r[k].command == command && !r[k].root
  {
    if ps == [] then []
    else
      var last := ps[|ps| - 1];
      LocalDeclarations(ps[..|ps| - 1], command)
      + (if last.configKey == [] then [] else [Declaration(last, last.configKey, command, false)])
  }

  function RootDeclarations(roots: seq<Parameter>): (r: seq<Declaration>)
    ensures |r| == |roots| && forall k | 0 <= k < |r| :: r[k] == Declaration(roots[k], roots[k].id, 0, true)
  {
    seq(|roots|, k requires 0 <= k < |roots| => Declaration(roots[k], roots[k].id, 0, true))
  }

  /** Root declarations first, then those of each command. */
  function Declarations(m: Manifest, count: nat): seq<Declaration>
    requires count <= |m.commands|
  {
    if count == 0 then RootDeclarations(m.roots)
    else Declarations(m, count - 1) + LocalDeclarations(m.commands[count - 1].parameters, count - 1)
  }

  /** Where a command parameter is declared: its command, and its place there. */
  datatype Spot = Spot(command: nat, index: nat)

  predicate Declares(m: Manifest, count: nat, x: Spot) {
    && x.command < count && x.command < |m.commands| && x.index < |m.commands[x.command].parameters|
    && m.commands[x.command].parameters[x.index].configKey != []
  }

  /** The declarations are the root parameters under their identities, then every command parameter with a
      configuration key under that key, command by command in declared order. */
  ghost predicate DeclaredAt(m: Manifest, count: nat, ds: seq<Declaration>, spots: seq<Spot>) {
    && |ds| == |m.roots| + |spots|
    && (forall k | 0 <= k < |m.roots| :: ds[k] == Declaration(m.roots[k], m.roots[k].id, 0, true))
    && (forall k | 0 <= k < |spots| ::
          && Declares(m, count, spots[k])
          && (var p := m.commands[spots[k].command].parameters[spots[k].index];
              ds[|m.roots| + k] == Declaration(p, p.configKey, spots[k].command, false)))
    && (forall j, k | 0 <= j < k < |spots| ::
          spots[j].command < spots[k].command || (spots[j].command == spots[k].command && spots[j].index < spots[k].index))
    && (forall x | Declares(m, count, x) :: x in spots)
  }

  /** The part of one command. */
  ghost predicate LocalsAt(ps: seq<Parameter>, command: nat, ds: seq<Declaration>, spots: seq<Spot>) {
    && |spots| == |ds|
    && (forall k | 0 <= k < |spots| ::
          && spots[k].command == command && spots[k].index < |ps| && ps[spots[k].index].configKey != []
          && ds[k] == Declaration(ps[spots[k].index], ps[spots[k].index].configKey, command, false))
    && (forall j, k | 0 <= j < k < |spots| :: spots[j].index < spots[k].index)
    && (forall x | KeyedAt(ps, command, x) :: x in spots)
  }

  predicate KeyedAt(ps: seq<Parameter>, command: nat, x: Spot) {
    x.command == command && x.index < |ps| && ps[x.index].configKey != []
  }

  lemma LocalsNext(front: seq<Parameter>, p: Parameter, command: nat, ds: seq<Declaration>, earlier: seq<Spot>) returns (spots: seq<Spot>)
    requires LocalsAt(front, command, ds, earlier)
    ensures LocalsAt(front + [p], command, ds + (if p.configKey == [] then [] else [Declaration(p, p.configKey, command, false)]), spots)
  {
    var ps, last := front + [p], Spot(command, |front|);
    spots := if p.configKey == [] then earlier else earlier + [last];
    forall x | KeyedAt(ps, command, x) ensures x in spots {
      if x.index < |front| {
        assert ps[x.index] == front[x.index];
        assert KeyedAt(front, command, x);
        assert x in earlier;
      } else {
        assert x == last && spots[|earlier|] == last;
      }
    }
    forall k | 0 <= k < |earlier| ensures ps[earlier[k].index] == front[earlier[k].index] { }
  }

  lemma {:induction false} LocalSpots(ps: seq<Parameter>, command: nat) returns (spots: seq<Spot>)
    ensures LocalsAt(ps, command, LocalDeclarations(ps, command), spots)
  {
    spots := [];
    if ps != [] {
      var n := |ps| - 1;
      spots := LocalSpots(ps[..n], command);
      hide LocalsAt;
      spots := LocalsNext(ps[..n], ps[n], command, LocalDeclarations(ps[..n], command), spots);
      assert ps == ps[..n] + [ps[n]];
    }
  }

  lemma {:induction false} DeclarationsMean(m: Manifest, count: nat) returns (spots: seq<Spot>)
    requires count <= |m.commands|
    ensures DeclaredAt(m, count, Declarations(m, count), spots)
  {
    spots := [];
    if count > 0 {
      var earlier := DeclarationsMean(m, count - 1);
      var ps := m.commands[count - 1].parameters;
      var own := LocalSpots(ps, count - 1);
      spots := earlier + own;
      hide DeclaredAt, LocalsAt, LocalDeclarations;
      SpotsJoin(m, count, Declarations(m, count - 1), earlier, LocalDeclarations(ps, count - 1), own);
    }
  }

  ghost predicate InManifestOrder(m: Manifest, ds: seq<Declaration>) {
    exists spots :: DeclaredAt(m, |m.commands|, ds, spots)
  }

  lemma DeclarationsInOrder(m: Manifest)
    ensures InManifestOrder(m, Declarations(m, |m.commands|))
  {
    hide DeclaredAt;
    var spots := DeclarationsMean(m, |m.commands|);
  }

  lemma SpotsJoin(m: Manifest, count: nat, before: seq<Declaration>, earlier: seq<Spot>, more: seq<Declaration>, own: seq<Spot>)
    requires 0 < count <= |m.commands| && DeclaredAt(m, count - 1, before, earlier)
    requires LocalsAt(m.commands[count - 1].parameters, count - 1, more, own)
    ensures DeclaredAt(m, count, before + more, earlier + own)
  {
    SpotsCover(m, count, before, earlier, more, own);
    SpotsAscend(m, count, before, earlier, more, own);
    var ds, spots, n := before + more, earlier + own, |m.roots|;
    forall k | 0 <= k < |spots|
      ensures Declares(m, count, spots[k])
      ensures var p := m.commands[spots[k].command].parameters[spots[k].index];
              ds[n + k] == Declaration(p, p.configKey, spots[k].command, false)
    {
      if k < |earlier| {
        assert spots[k] == earlier[k] && ds[n + k] == before[n + k];
      } else {
        assert spots[k] == own[k - |earlier|] && ds[n + k] == more[k - |earlier|];
      }
    }
  }

  lemma SpotsCover(m: Manifest, count: nat, before: seq<Declaration>, earlier: seq<Spot>, more: seq<Declaration>, own: seq<Spot>)
    requires 0 < count <= |m.commands| && DeclaredAt(m, count - 1, before, earlier)
    requires LocalsAt(m.commands[count - 1].parameters, count - 1, more, own)
    ensures forall x | Declares(m, count, x) :: x in earlier + own
  {
    forall x | Declares(m, count, x) ensures x in earlier + own {
      if x.command < count - 1 {
        assert Declares(m, count - 1, x);
        assert x in earlier;
      } else {
        assert KeyedAt(m.commands[count - 1].parameters, count - 1, x);
        assert x in own;
      }
    }
  }

  lemma SpotsAscend(m: Manifest, count: nat, before: seq<Declaration>, earlier: seq<Spot>, more: seq<Declaration>, own: seq<Spot>)
    requires 0 < count <= |m.commands| && DeclaredAt(m, count - 1, before, earlier)
    requires LocalsAt(m.commands[count - 1].parameters, count - 1, more, own)
    ensures var spots := earlier + own;
            forall j, k | 0 <= j < k < |spots| ::
              spots[j].command < spots[k].command || (spots[j].command == spots[k].command && spots[j].index < spots[k].index)
  {
    assert forall k | 0 <= k < |earlier| :: Declares(m, count - 1, earlier[k]);
  }

  /** Two declarations of one key: only different commands may share it, with one kind and sensitivity. */
  predicate MayShare(d: Declaration, e: Declaration) {
    d.key == e.key ==> !d.root && !e.root && d.command != e.command && SameShape(d.parameter, e.parameter)
  }

  ghost predicate KeysShared(ds: seq<Declaration>) {
    forall i, j | 0 <= i < j < |ds| :: MayShare(ds[j], ds[i])
  }

  /** The runtime's view of a well-formed parameter; it leaves the visible grammar to the catalog. */
  ghost predicate RuntimeParameterOk(p: Parameter) {
    && !p.flags.unknown && (p.kind == TEXT || p.kind == FLAG)
    && TextOk(p.id, MAX_IDENTIFIER) && StableId(p.id)
    && TextOk(p.longName, MAX_NAME) && TextOk(p.help, MAX_HELP) && TextOk(p.valueName, MAX_VALUE_NAME)
    && TextOk(p.configKey, MAX_IDENTIFIER) && (p.configKey != [] ==> StableId(p.configKey))
    && TextsOk(p.defaults, MAX_DEFAULTS) && TextsOk(p.allowed, MAX_ALLOWED)
    && (p.kind == FLAG ==> !p.flags.repeatable && p.defaults == [] && p.allowed == [])
    && (p.kind == TEXT && !p.flags.repeatable ==> |p.defaults| <= 1)
    && (forall i, j | 0 <= i < j < |p.allowed| :: p.allowed[i] != p.allowed[j])
    && (p.allowed != [] ==> forall i | 0 <= i < |p.defaults| :: p.defaults[i] in p.allowed)
  }

  ghost predicate RuntimeCommandOk(c: Command) {
    && !c.flagged && |c.parameters| <= MAX_PARAMETERS
    && TextOk(c.id, MAX_IDENTIFIER) && c.id != [] && TextOk(c.name, MAX_NAME) && c.name != [] && TextOk(c.help, MAX_HELP)
    && (forall i | 0 <= i < |c.parameters| :: RuntimeParameterOk(c.parameters[i]))
  }

  ghost predicate CollectOk(m: Manifest) {
    && !m.flagged && |m.roots| <= MAX_ROOTS && |m.commands| <= MAX_COMMANDS
    && (forall i | 0 <= i < |m.roots| ::
          RuntimeParameterOk(m.roots[i]) && m.roots[i].configKey == [] && !m.roots[i].flags.required)
    && (forall i | 0 <= i < |m.commands| :: RuntimeCommandOk(m.commands[i]))
    && KeysShared(Declarations(m, |m.commands|))
  }

  // ---- one value ----------------------------------------------------------------------------------

  /** The declaration speaks of this key with this kind and sensitivity. */
  predicate Fits(d: Declaration, v: ConfigValue) {
    d.key == v.key && d.parameter.kind == v.kind && d.parameter.flags.sensitive == v.sensitive && !v.flagged
  }

  /** The declaration accepts the value in full: cardinality, allowed set, and its own defaults. */
  predicate Covers(d: Declaration, v: ConfigValue) {
    && Fits(d, v)
    && (|v.values| > 1 ==> d.parameter.flags.repeatable)
    && (d.parameter.allowed != [] ==> forall i | 0 <= i < |v.values| :: v.values[i] in d.parameter.allowed)
    && (v.source == PLUGIN_DEFAULT ==> d.parameter.defaults == v.values)
  }

  ghost predicate Backed(ds: seq<Declaration>, v: ConfigValue) {
    exists k | 0 <= k < |ds| :: Covers(ds[k], v)
  }

  /** The place a value takes: the first declaration of its key that fits its metadata. */
  ghost predicate IsOrdinal(ds: seq<Declaration>, v: ConfigValue, ordinal: nat) {
    ordinal < |ds| && Fits(ds[ordinal], v) && forall j | 0 <= j < ordinal :: !Fits(ds[j], v)
  }

  ghost predicate WellShaped(v: ConfigValue) {
    && StableId(v.key) && |v.key| <= MAX_IDENTIFIER
    && (v.kind == TEXT || v.kind == FLAG) && (v.source == PLUGIN_DEFAULT || v.source == COMMAND_LINE) && !v.flagged
    && v.values != []
    && (forall i | 0 <= i < |v.values| :: 0 !in v.values[i] && WellFormed(v.values[i]))
    && (v.kind == FLAG ==> v.values == [YES] || v.values == [NO])
  }

  ghost predicate KeysDistinct(values: seq<ConfigValue>) {
    forall i, j | 0 <= i < j < |values| :: values[i].key != values[j].key
  }

  /** The configurations the runtime accepts for a manifest. */
  ghost predicate Freezable(m: Manifest, values: seq<ConfigValue>) {
    && CollectOk(m) && KeysDistinct(values)
    && (forall i | 0 <= i < |values| ::
          WellShaped(values[i]) && Backed(Declarations(m, |m.commands|), values[i]))
  }

  // ---- the checks, as the runtime makes them --------------------------------------------------------

  method CheckText(t: Bytes, limit: nat, required: bool) returns (ok: bool)
    ensures ok <==> TextOk(t, limit) && (required ==> t != [])
  {
    if |t| > limit { return false; }
    if t == [] {
      assert EncodeAll([]) == [];
      return !required;
    }
    if 0 in t { return false; }
    ok := AcceptByMask(t);
  }

  method CheckTexts(ts: seq<Bytes>, count: nat) returns (ok: bool)
    ensures ok <==> TextsOk(ts, count)
  {
    if |ts| > count { return false; }
    var i := 0;
    while i < |ts|
      invariant 0 <= i <= |ts| && forall k | 0 <= k < i :: TextOk(ts[k], MAX_DECLARED_VALUE)
    {
      ok := CheckText(ts[i], MAX_DECLARED_VALUE, false);
      if !ok { return; }
      i := i + 1;
    }
    ok := true;
  }

  method ValidKey(t: Bytes) returns (ok: bool)
    ensures ok <==> StableId(t) && |t| <= MAX_IDENTIFIER
  {
    if t == [] || |t| > MAX_IDENTIFIER || !Letter(t[0]) { return false; }
    var i := 0;
    while i < |t|
      invariant 0 <= i <= |t| && forall k | 0 <= k < i :: StableByte(t[k])
    {
      if !StableByte(t[i]) { return false; }
      i := i + 1;
    }
    return true;
  }

  method CheckValueSets(p: Parameter) returns (ok: bool)
    ensures ok <==>
              && (forall i, j | 0 <= i < j < |p.allowed| :: p.allowed[i] != p.allowed[j])
              && (p.allowed != [] ==> forall i | 0 <= i < |p.defaults| :: p.defaults[i] in p.allowed)
  {
    var i := 0;
    while i < |p.allowed|
      invariant 0 <= i <= |p.allowed| && forall a, b | 0 <= a < b < i :: p.allowed[a] != p.allowed[b]
    {
      var earlier := 0;
      while earlier < i
        invariant 0 <= earlier <= i && forall a | 0 <= a < earlier :: p.allowed[a] != p.allowed[i]
      {
        if p.allowed[earlier] == p.allowed[i] { return false; }
        earlier := earlier + 1;
      }
      i := i + 1;
    }
    if p.allowed != [] {
      i := 0;
      while i < |p.defaults|
        invariant 0 <= i <= |p.defaults| && forall k | 0 <= k < i :: p.defaults[k] in p.allowed
      {
        if p.defaults[i] !in p.allowed { return false; }
        i := i + 1;
      }
    }
    return true;
  }

  method CheckParameter(p: Parameter) returns (ok: bool)
    ensures ok <==> RuntimeParameterOk(p)
  {
    hide WellFormed, TextsOk;
    if p.flags.unknown || (p.kind != TEXT && p.kind != FLAG) { return false; }
    ok := CheckText(p.id, MAX_IDENTIFIER, true);
    if !ok { return; }
    ok := ValidKey(p.id);
    if !ok { return; }
    ok := CheckText(p.longName, MAX_NAME, false);
    if !ok { return; }
    ok := CheckText(p.help, MAX_HELP, false);
    if !ok { return; }
    ok := CheckText(p.valueName, MAX_VALUE_NAME, false);
    if !ok { return; }
    ok := CheckText(p.configKey, MAX_IDENTIFIER, false);
    if !ok { return; }
    if p.configKey != [] {
      ok := ValidKey(p.configKey);
      if !ok { return; }
    }
    ok := CheckTexts(p.defaults, MAX_DEFAULTS);
    if !ok { return; }
    ok := CheckTexts(p.allowed, MAX_ALLOWED);
    if !ok { return; }
    if p.kind == FLAG {
      if p.flags.repeatable || p.defaults != [] || p.allowed != [] { return false; }
    } else if !p.flags.repeatable && |p.defaults| > 1 {
      return false;
    }
    ok := CheckValueSets(p);
  }

  // ---- collecting the declarations ------------------------------------------------------------------

  /** Append one declaration unless a known one of the same key stands in its way. */
  method AddDeclaration(ds: seq<Declaration>, d: Declaration) returns (ok: bool, more: seq<Declaration>)
    ensures ok <==> forall k | 0 <= k < |ds| :: MayShare(d, ds[k])
    ensures ok ==> more == ds + [d]
  {
    more := ds;
    var k := 0;
    while k < |ds|
      invariant 0 <= k <= |ds| && forall j | 0 <= j < k :: MayShare(d, ds[j])
    {
      if !MayShare(d, ds[k]) { return false, more; }
      k := k + 1;
    }
    return true, ds + [d];
  }

  lemma SharedGrows(ds: seq<Declaration>, d: Declaration)
    requires KeysShared(ds)
    ensures KeysShared(ds + [d]) <==> forall k | 0 <= k < |ds| :: MayShare(d, ds[k])
  {
    hide MayShare;
    var all := ds + [d];
    assert all[|ds|] == d;
    assert forall k | 0 <= k < |ds| :: all[k] == ds[k];
  }

  lemma SharedPrefix(ds: seq<Declaration>, more: seq<Declaration>)
    requires KeysShared(ds + more)
    ensures KeysShared(ds)
  {
    hide MayShare;
    assert forall k | 0 <= k < |ds| :: (ds + more)[k] == ds[k];
  }

  method CollectRoots(roots: seq<Parameter>) returns (ok: bool, ds: seq<Declaration>)
    ensures ok <==>
              && (forall i | 0 <= i < |roots| ::
                    RuntimeParameterOk(roots[i]) && roots[i].configKey == [] && !roots[i].flags.required)
              && KeysShared(RootDeclarations(roots))
    ensures ok ==> ds == RootDeclarations(roots)
  {
    hide RuntimeParameterOk, KeysShared, MayShare;
    ds := [];
    assert KeysShared([]) by { NoneShared(); }
    var i := 0;
    while i < |roots|
      invariant 0 <= i <= |roots|
      invariant forall k | 0 <= k < i ::
                  RuntimeParameterOk(roots[k]) && roots[k].configKey == [] && !roots[k].flags.required
      invariant ds == RootDeclarations(roots)[..i] && KeysShared(ds)
    {
      ok := CheckParameter(roots[i]);
      if !ok { return; }
      if roots[i].configKey != [] || roots[i].flags.required { return false, ds; }
      var d := Declaration(roots[i], roots[i].id, 0, true);
      SharedGrows(ds, d);
      assert RootDeclarations(roots)[..i + 1] == RootDeclarations(roots)[..i] + [d];
      ghost var before := ds;
      ok, ds := AddDeclaration(ds, d);
      if !ok {
        if KeysShared(RootDeclarations(roots)) {
          assert RootDeclarations(roots) == RootDeclarations(roots)[..i + 1] + RootDeclarations(roots)[i + 1..];
          SharedPrefix(RootDeclarations(roots)[..i + 1], RootDeclarations(roots)[i + 1..]);
        }
        return;
      }
      i := i + 1;
    }
    assert RootDeclarations(roots)[..i] == RootDeclarations(roots);
    ok := true;
  }

  lemma NoneShared()
    ensures KeysShared([])
  {
  }

  /** The declarations of one command join those before it. */
  method CollectLocals(c: Command, number: nat, before: seq<Declaration>) returns (ok: bool, ds: seq<Declaration>)
    requires KeysShared(before)
    ensures ok <==>
              && (forall i | 0 <= i < |c.parameters| :: RuntimeParameterOk(c.parameters[i]))
              && KeysShared(before + LocalDeclarations(c.parameters, number))
    ensures ok ==> ds == before + LocalDeclarations(c.parameters, number)
  {
    hide RuntimeParameterOk, KeysShared, MayShare;
    ds := before;
    var ps, i := c.parameters, 0;
    assert before + LocalDeclarations(ps[..0], number) == before;
    while i < |ps|
      invariant 0 <= i <= |ps| && forall k | 0 <= k < i :: RuntimeParameterOk(ps[k])
      invariant ds == before + LocalDeclarations(ps[..i], number) && KeysShared(ds)
    {
      assert ps[..i + 1][..i] == ps[..i];
      ok := CheckParameter(ps[i]);
      if !ok { return; }
      if ps[i].configKey != [] {
        var d := Declaration(ps[i], ps[i].configKey, number, false);
        SharedGrows(ds, d);
        assert before + LocalDeclarations(ps[..i + 1], number) == ds + [d];
        ok, ds := AddDeclaration(ds, d);
        if !ok {
          LocalsPrefix(ps, number, i + 1, before);
          return;
        }
      } else {
        assert LocalDeclarations(ps[..i + 1], number) == LocalDeclarations(ps[..i], number);
      }
      i := i + 1;
    }
    assert ps[..i] == ps;
    ok := true;
  }

  /** A clash in a prefix is a clash in the whole. */
  lemma {:induction false} LocalsPrefix(ps: seq<Parameter>, number: nat, k: nat, before: seq<Declaration>)
    requires k <= |ps|
    ensures KeysShared(before + LocalDeclarations(ps, number)) ==> KeysShared(before + LocalDeclarations(ps[..k], number))
    decreases |ps| - k
  {
    hide KeysShared;
    if k < |ps| {
      LocalsPrefix(ps, number, k + 1, before);
      assert ps[..k + 1][..k] == ps[..k];
      var more := if ps[k].configKey == [] then [] else [Declaration(ps[k], ps[k].configKey, number, false)];
      assert before + LocalDeclarations(ps[..k + 1], number) == before + LocalDeclarations(ps[..k], number) + more;
      if KeysShared(before + LocalDeclarations(ps[..k + 1], number)) {
        SharedPrefix(before + LocalDeclarations(ps[..k], number), more);
      }
    } else {
      assert ps[..k] == ps;
    }
  }

  method CheckCommand(c: Command) returns (ok: bool)
    ensures ok <==>
              && !c.flagged && |c.parameters| <= MAX_PARAMETERS
              && TextOk(c.id, MAX_IDENTIFIER) && c.id != [] && TextOk(c.name, MAX_NAME) && c.name != [] && TextOk(c.help, MAX_HELP)
  {
    hide TextOk;
    if c.flagged || |c.parameters| > MAX_PARAMETERS { return false; }
    ok := CheckText(c.id, MAX_IDENTIFIER, true);
    if !ok { return; }
    ok := CheckText(c.name, MAX_NAME, true);
    if !ok { return; }
    ok := CheckText(c.help, MAX_HELP, false);
  }

  /** Validate the manifest as far as configuration goes and list its declarations. */
  method Collect(m: Manifest) returns (ok: bool, ds: seq<Declaration>)
    ensures ok <==> CollectOk(m)
    ensures ok ==> ds == Declarations(m, |m.commands|) && InManifestOrder(m, ds)
  {
    DeclarationsInOrder(m);
    hide InManifestOrder;
    hide RuntimeParameterOk, KeysShared, TextOk;
    ds := [];
    if m.flagged || |m.roots| > MAX_ROOTS || |m.commands| > MAX_COMMANDS { return false, ds; }
    ok, ds := CollectRoots(m.roots);
    if !ok {
      DeclarationsPrefix(m, 0);
      return;
    }
    var c := 0;
    while c < |m.commands|
      invariant 0 <= c <= |m.commands| && forall k | 0 <= k < c :: RuntimeCommandOk(m.commands[k])
      invariant ds == Declarations(m, c) && KeysShared(ds)
    {
      ok := CheckCommand(m.commands[c]);
      if !ok { return; }
      ok, ds := CollectLocals(m.commands[c], c, ds);
      if !ok {
        DeclarationsPrefix(m, c + 1);
        return;
      }
      c := c + 1;
    }
    ok := true;
  }

  lemma {:induction false} DeclarationsPrefix(m: Manifest, k: nat)
    requires k <= |m.commands|
    ensures KeysShared(Declarations(m, |m.commands|)) ==> KeysShared(Declarations(m, k))
    decreases |m.commands| - k
  {
    hide KeysShared;
    if k < |m.commands| {
      DeclarationsPrefix(m, k + 1);
      if KeysShared(Declarations(m, k + 1)) {
        SharedPrefix(Declarations(m, k), LocalDeclarations(m.commands[k].parameters, k));
      }
    }
  }

  // ---- freezing -----------------------------------------------------------------------------------

  /** The declaration that owns a value, and the place the value takes. */
  method FindOwner(ds: seq<Declaration>, v: ConfigValue) returns (ordinal: Option<nat>)
    requires !v.flagged
    ensures ordinal.Some? <==> Backed(ds, v)
    ensures ordinal.Some? ==> IsOrdinal(ds, v, ordinal.value)
  {
    var first: Option<nat> := None;
    var k := 0;
    while k < |ds|
      invariant 0 <= k <= |ds| && forall j | 0 <= j < k :: !Covers(ds[j], v)
      invariant first.None? ==> forall j | 0 <= j < k :: !Fits(ds[j], v)
      invariant first.Some? ==> first.value < k && IsOrdinal(ds, v, first.value)
    {
      if ds[k].key == v.key && ds[k].parameter.kind == v.kind && ds[k].parameter.flags.sensitive == v.sensitive {
        if first.None? { first := Some(k); }
        if Covers(ds[k], v) { return first; }
      }
      k := k + 1;
    }
    return None;
  }

  method CheckShape(v: ConfigValue) returns (ok: bool)
    ensures ok <==> WellShaped(v)
  {
    ok := ValidKey(v.key);
    if !ok { return; }
    if v.kind != TEXT && v.kind != FLAG { return false; }
    if v.source != PLUGIN_DEFAULT && v.source != COMMAND_LINE { return false; }
    if v.flagged { return false; }
    if v.values == [] { return false; }
    var i := 0;
    while i < |v.values|
      invariant 0 <= i <= |v.values| && forall k | 0 <= k < i :: 0 !in v.values[k] && WellFormed(v.values[k])
    {
      if 0 in v.values[i] { return false; }
      ok := AcceptByMask(v.values[i]);
      if !ok { return; }
      i := i + 1;
    }
    if v.kind == FLAG && (|v.values| != 1 || (v.values[0] != YES && v.values[0] != NO)) { return false; }
    assert |v.values| == 1 ==> v.values == [v.values[0]];
    ok := true;
  }

  datatype Placed = Placed(ordinal: nat, value: ConfigValue)

  ghost predicate Holds(out: seq<Placed>, v: ConfigValue) {
    exists i | 0 <= i < |out| :: out[i].value == v
  }

  ghost predicate Frozen(ds: seq<Declaration>, values: seq<ConfigValue>, out: seq<Placed>) {
    && (forall i, j | 0 <= i < j < |out| :: out[i].ordinal < out[j].ordinal)
    && (forall i | 0 <= i < |out| :: IsOrdinal(ds, out[i].value, out[i].ordinal))
    && |out| == |values|
    && (forall v :: v in values <==> Holds(out, v))
  }

  function InsertPlaced(out: seq<Placed>, p: Placed): (r: seq<Placed>)
    ensures |r| == |out| + 1
    ensures forall q :: q in r <==> q in out || q == p
  {
    if out == [] || out[|out| - 1].ordinal < p.ordinal then out + [p]
    else
      var last := out[|out| - 1];
      assert out == out[..|out| - 1] + [last];
      InsertPlaced(out[..|out| - 1], p) + [last]
  }

  lemma {:induction false} InsertKeepsOrder(out: seq<Placed>, p: Placed)
    requires forall i, j | 0 <= i < j < |out| :: out[i].ordinal < out[j].ordinal
    requires forall q | q in out :: q.ordinal != p.ordinal
    ensures forall i, j | 0 <= i < j < |InsertPlaced(out, p)| :: InsertPlaced(out, p)[i].ordinal < InsertPlaced(out, p)[j].ordinal
  {
    if out != [] && out[|out| - 1].ordinal >= p.ordinal {
      var rest, last := out[..|out| - 1], out[|out| - 1];
      assert last in out;
      InsertKeepsOrder(rest, p);
      forall k | 0 <= k < |InsertPlaced(rest, p)| ensures InsertPlaced(rest, p)[k].ordinal < last.ordinal {
        assert InsertPlaced(rest, p)[k] in InsertPlaced(rest, p);
        if InsertPlaced(rest, p)[k] != p { assert InsertPlaced(rest, p)[k] in rest; }
      }
    }
  }

  /** Freeze one plugin's configuration: accepted exactly when freezable, and then every value is there
      once, in strictly increasing declaration order. */
  method Freeze(m: Manifest, values: seq<ConfigValue>) returns (ok: bool, out: seq<Placed>)
    ensures ok <==> Freezable(m, values)
    ensures ok ==> Frozen(Declarations(m, |m.commands|), values, out)
  {
    hide CollectOk, WellShaped, Backed, IsOrdinal, Declarations, FrozenUpTo, Frozen, KeySeen;
    out := [];
    var collected, ds := Collect(m);
    if !collected { return false, out; }
    FrozenNone(ds, values);
    var i := 0;
    while i < |values|
      invariant 0 <= i <= |values| && FrozenUpTo(ds, values, i, out)
    {
      var v := values[i];
      ok := CheckShape(v);
      if !ok { return; }
      if KeySeen(values[..i], v.key) {
        RepeatedKey(values, i);
        return false, out;
      }
      assert !v.flagged by { ShapedUnflagged(v); }
      var owner := FindOwner(ds, v);
      if owner.None? { return false, out; }
      FreezeStep(ds, values, i, out, owner.value);
      out := InsertPlaced(out, Placed(owner.value, v));
      i := i + 1;
    }
    FreezeDone(ds, values, out);
    ok := true;
  }

  predicate KeySeen(values: seq<ConfigValue>, key: Bytes) {
    exists k | 0 <= k < |values| :: values[k].key == key
  }

  lemma ShapedUnflagged(v: ConfigValue)
    requires WellShaped(v)
    ensures !v.flagged
  {
  }

  lemma RepeatedKey(values: seq<ConfigValue>, i: nat)
    requires i < |values| && KeySeen(values[..i], values[i].key)
    ensures !KeysDistinct(values)
  {
    var k :| 0 <= k < i && values[..i][k].key == values[i].key;
    assert values[k].key == values[i].key;
  }

  /** The values before `i` are placed. */
  ghost predicate FrozenUpTo(ds: seq<Declaration>, values: seq<ConfigValue>, i: nat, out: seq<Placed>) {
    && i <= |values| && |out| == i
    && (forall a, b | 0 <= a < b < |out| :: out[a].ordinal < out[b].ordinal)
    && (forall p | p in out :: IsOrdinal(ds, p.value, p.ordinal) && p.value in values[..i])
    && (forall k | 0 <= k < i :: WellShaped(values[k]) && Backed(ds, values[k]))
    && (forall k | 0 <= k < i :: Holds(out, values[k]))
    && (forall a, b | 0 <= a < b < i :: values[a].key != values[b].key)
  }

  lemma InsertHolds(out: seq<Placed>, p: Placed, v: ConfigValue)
    requires Holds(out, v) || p.value == v
    ensures Holds(InsertPlaced(out, p), v)
  {
    if p.value == v {
      assert p in InsertPlaced(out, p);
      var k :| 0 <= k < |InsertPlaced(out, p)| && InsertPlaced(out, p)[k] == p;
    } else {
      var i :| 0 <= i < |out| && out[i].value == v;
      assert out[i] in out;
      var k :| 0 <= k < |InsertPlaced(out, p)| && InsertPlaced(out, p)[k] == out[i];
    }
  }

  /** Different keys take different places. */
  lemma PlacesDiffer(ds: seq<Declaration>, v: ConfigValue, w: ConfigValue, i: nat, j: nat)
    requires IsOrdinal(ds, v, i) && IsOrdinal(ds, w, j) && v.key != w.key
    ensures i != j
  {
  }

  lemma FreezeStep(ds: seq<Declaration>, values: seq<ConfigValue>, i: nat, out: seq<Placed>, ordinal: nat)
    requires FrozenUpTo(ds, values, i, out) && i < |values|
    requires WellShaped(values[i]) && Backed(ds, values[i]) && IsOrdinal(ds, values[i], ordinal)
    requires !KeySeen(values[..i], values[i].key)
    ensures FrozenUpTo(ds, values, i + 1, InsertPlaced(out, Placed(ordinal, values[i])))
  {
    hide WellShaped, Backed, IsOrdinal, Holds, InsertPlaced;
    var p := Placed(ordinal, values[i]);
    assert values[..i + 1] == values[..i] + [values[i]];
    forall k | 0 <= k < i ensures values[k].key != values[i].key { assert values[..i][k] == values[k]; }
    forall q | q in out ensures q.ordinal != ordinal {
      PlacesDiffer(ds, q.value, values[i], q.ordinal, ordinal);
    }
    InsertKeepsOrder(out, p);
    forall k | 0 <= k < i + 1 ensures Holds(InsertPlaced(out, p), values[k]) { InsertHolds(out, p, values[k]); }
  }

  lemma FrozenNone(ds: seq<Declaration>, values: seq<ConfigValue>)
    ensures FrozenUpTo(ds, values, 0, [])
  {
  }

  lemma FreezeDone(ds: seq<Declaration>, values: seq<ConfigValue>, out: seq<Placed>)
    requires FrozenUpTo(ds, values, |values|, out)
    ensures Frozen(ds, values, out) && KeysDistinct(values)
    ensures forall k | 0 <= k < |values| :: WellShaped(values[k]) && Backed(ds, values[k])
  {
    hide WellShaped, Backed, IsOrdinal;
    assert values[..|values|] == values;
    forall i | 0 <= i < |out| ensures IsOrdinal(ds, out[i].value, out[i].ordinal) && out[i].value in values { assert out[i] in out; }
    forall v ensures v in values <==> Holds(out, v) {
      if v in values { var k :| 0 <= k < |values| && values[k] == v; }
    }
  }

  // ---- what is accepted, in the manifest's own terms --------------------------------------------------

  predicate Takes(p: Parameter, v: ConfigValue) {
    && p.kind == v.kind && (p.flags.sensitive <==> v.sensitive) && !v.flagged
    && (|v.values| <= 1 || p.flags.repeatable)
    && (p.allowed == [] || forall x | x in v.values :: x in p.allowed)
    && (v.source == PLUGIN_DEFAULT ==> v.values == p.defaults)
  }

  ghost predicate RootTakes(m: Manifest, v: ConfigValue) {
    exists i | 0 <= i < |m.roots| :: m.roots[i].id == v.key && Takes(m.roots[i], v)
  }

  ghost predicate CommandTakes(c: Command, v: ConfigValue) {
    v.key != [] && exists i | 0 <= i < |c.parameters| :: c.parameters[i].configKey == v.key && Takes(c.parameters[i], v)
  }

  lemma CoversMeans(d: Declaration, v: ConfigValue)
    ensures Covers(d, v) <==> d.key == v.key && Takes(d.parameter, v)
  {
  }

  /** A value is backed exactly if some root parameter of that identity, or some command parameter of that
      configuration key, has its kind and sensitivity, allows that many values and each of them, and
      declares it as its defaults if it claims to be one. */
  lemma BackedMeans(m: Manifest, v: ConfigValue)
    ensures Backed(Declarations(m, |m.commands|), v) <==>
              RootTakes(m, v) || exists c | 0 <= c < |m.commands| :: CommandTakes(m.commands[c], v)
  {
    var ds := Declarations(m, |m.commands|);
    var spots := DeclarationsMean(m, |m.commands|);
    hide Declarations, Takes, Covers, DeclaredAt, Backed;
    if Backed(ds, v) { BackedBy(m, v, ds, spots); }
    if RootTakes(m, v) || exists c | 0 <= c < |m.commands| :: CommandTakes(m.commands[c], v) { TakersBack(m, v, ds, spots); }
  }

  lemma TakersBack(m: Manifest, v: ConfigValue, ds: seq<Declaration>, spots: seq<Spot>)
    requires DeclaredAt(m, |m.commands|, ds, spots)
    requires RootTakes(m, v) || exists c | 0 <= c < |m.commands| :: CommandTakes(m.commands[c], v)
    ensures Backed(ds, v)
  {
    hide Takes, Covers;
    if RootTakes(m, v) {
      var i :| 0 <= i < |m.roots| && m.roots[i].id == v.key && Takes(m.roots[i], v);
      CoversMeans(ds[i], v);
    } else {
      var c :| 0 <= c < |m.commands| && CommandTakes(m.commands[c], v);
      var i :| 0 <= i < |m.commands[c].parameters| && m.commands[c].parameters[i].configKey == v.key && Takes(m.commands[c].parameters[i], v);
      assert Declares(m, |m.commands|, Spot(c, i));
      var k :| 0 <= k < |spots| && spots[k] == Spot(c, i);
      CoversMeans(ds[|m.roots| + k], v);
    }
  }

  lemma BackedBy(m: Manifest, v: ConfigValue, ds: seq<Declaration>, spots: seq<Spot>)
    requires DeclaredAt(m, |m.commands|, ds, spots) && Backed(ds, v)
    ensures RootTakes(m, v) || exists c | 0 <= c < |m.commands| :: CommandTakes(m.commands[c], v)
  {
    var k :| 0 <= k < |ds| && Covers(ds[k], v);
    CoversMeans(ds[k], v);
    hide Takes, Covers;
    if k >= |m.roots| {
      var x := spots[k - |m.roots|];
      assert Declares(m, |m.commands|, x);
      assert CommandTakes(m.commands[x.command], v);
    }
  }
}
