/**
 * Two validators written apart agree: whatever the catalog admits and the frontend parses, the runtime
 * accepts, plugin by plugin. And the payload loses nothing of the arguments.
 */
module CliAgreement {
  import opened Base
  import opened Utf8
  import opened Manifests
  import opened Catalogs
  import opened ConfigFreeze
  import opened Frontend
  import opened Configurations
  import Outcomes
  import Json

  // ---- the runtime collects what the catalog admitted -----------------------------------------------

  lemma ParameterCollects(p: Parameter, root: bool)
    requires ParameterOk(p, root)
    ensures RuntimeParameterOk(p)
    ensures root ==> p.configKey == [] && !p.flags.required
  {
    hide WellFormed, StableId, VisibleName;
  }

  lemma CommandCollects(c: Command)
    requires CommandOk(c)
    ensures RuntimeCommandOk(c)
  {
    hide TextOk, RuntimeParameterOk, ParameterOk;
    forall i | 0 <= i < |c.parameters| ensures RuntimeParameterOk(c.parameters[i]) { ParameterCollects(c.parameters[i], false); }
  }

  /** Where a declaration comes from. */
  ghost predicate Stems(m: Manifest, n: nat, d: Declaration)
    requires n <= |m.commands|
  {
    if d.root then exists r | 0 <= r < |m.roots| :: d.parameter == m.roots[r] && d.key == m.roots[r].id
    else
      && d.command < n && d.key != []
      && exists i | 0 <= i < |m.commands[d.command].parameters| ::
           d.parameter == m.commands[d.command].parameters[i] && d.key == d.parameter.configKey
  }

  lemma {:induction false} DeclarationsStem(m: Manifest, n: nat)
    requires n <= |m.commands|
    ensures forall k | 0 <= k < |Declarations(m, n)| :: Stems(m, n, Declarations(m, n)[k])
  {
    if n > 0 {
      DeclarationsStem(m, n - 1);
      var before, local := Declarations(m, n - 1), LocalDeclarations(m.commands[n - 1].parameters, n - 1);
      forall k | 0 <= k < |Declarations(m, n)| ensures Stems(m, n, Declarations(m, n)[k]) {
        if k < |before| {
          assert Stems(m, n - 1, before[k]);
        } else {
          var d := local[k - |before|];
          var i :| 0 <= i < |m.commands[n - 1].parameters| && m.commands[n - 1].parameters[i] == d.parameter;
        }
      }
    } else {
      forall k | 0 <= k < |RootDeclarations(m.roots)| ensures Stems(m, 0, RootDeclarations(m.roots)[k]) { }
    }
  }

  lemma {:induction false} LocalKeysDistinct(ps: seq<Parameter>, command: nat)
    requires LocallyUnique(ps)
    ensures forall i, j | 0 <= i < j < |LocalDeclarations(ps, command)| ::
              LocalDeclarations(ps, command)[i].key != LocalDeclarations(ps, command)[j].key
  {
    if ps != [] {
      var k := |ps| - 1;
      LocalKeysDistinct(ps[..k], command);
      var before := LocalDeclarations(ps[..k], command);
      forall i | 0 <= i < |before| ensures ps[k].configKey != [] ==> before[i].key != ps[k].configKey {
        var j :| 0 <= j < k && ps[..k][j] == before[i].parameter;
        assert Apart(ps[k], ps[j]);
      }
    }
  }

  lemma RootsShare(roots: seq<Parameter>)
    requires forall i, j | 0 <= i < j < |roots| :: RootsApart(roots[i], roots[j])
    ensures KeysShared(RootDeclarations(roots))
  {
    var ds := RootDeclarations(roots);
    forall i, j | 0 <= i < j < |ds| ensures MayShare(ds[j], ds[i]) {
      assert RootsApart(roots[i], roots[j]);
    }
  }

  lemma {:induction false} KeysAreShared(m: Manifest, n: nat)
    requires KeysOk(m) && n <= |m.commands|
    requires forall i, j | 0 <= i < j < |m.roots| :: RootsApart(m.roots[i], m.roots[j])
    requires forall c | 0 <= c < |m.commands| :: LocallyUnique(m.commands[c].parameters)
    ensures KeysShared(Declarations(m, n))
  {
    hide KeysOk, KeysShared, Stems, LocallyUnique, LocalDeclarations;
    if n == 0 {
      RootsShare(m.roots);
    } else {
      KeysAreShared(m, n - 1);
      DeclarationsStem(m, n - 1);
      LocalKeysDistinct(m.commands[n - 1].parameters, n - 1);
      NewcomersShare(m, n, Declarations(m, n - 1), LocalDeclarations(m.commands[n - 1].parameters, n - 1));
    }
  }

  lemma NewcomersShare(m: Manifest, n: nat, before: seq<Declaration>, local: seq<Declaration>)
    requires KeysOk(m) && 0 < n <= |m.commands| && KeysShared(before)
    requires forall k | 0 <= k < |before| :: Stems(m, n - 1, before[k])
    requires local == LocalDeclarations(m.commands[n - 1].parameters, n - 1)
    requires forall i, j | 0 <= i < j < |local| :: local[i].key != local[j].key
    ensures KeysShared(before + local)
  {
    hide KeysOk, MayShare, Stems;
    var all := before + local;
    forall i, j | 0 <= i < j < |all| ensures MayShare(all[j], all[i]) {
      if j < |before| {
        assert MayShare(before[j], before[i]);
      } else if i < |before| {
        NewcomerShares(m, n, before[i], local[j - |before|]);
      } else {
        DifferentKeys(local[j - |before|], local[i - |before|]);
      }
    }
  }

  lemma DifferentKeys(d: Declaration, e: Declaration)
    requires d.key != e.key
    ensures MayShare(d, e)
  {
  }

  /** A command's key may repeat a key of an earlier command, never one of a root option. */
  lemma NewcomerShares(m: Manifest, n: nat, e: Declaration, d: Declaration)
    requires KeysOk(m) && 0 < n <= |m.commands| && Stems(m, n - 1, e)
    requires !d.root && d.command == n - 1 && d.key == d.parameter.configKey != [] && d.parameter in m.commands[n - 1].parameters
    ensures MayShare(d, e)
  {
    var j :| 0 <= j < |m.commands[n - 1].parameters| && m.commands[n - 1].parameters[j] == d.parameter;
    if d.key == e.key && !e.root {
      var i :| 0 <= i < |m.commands[e.command].parameters| && e.parameter == m.commands[e.command].parameters[i];
      assert SameShape(m.commands[e.command].parameters[i], m.commands[n - 1].parameters[j]);
    }
  }

  /** Every manifest the catalog can hold is one the runtime collects from without complaint. */
  lemma ManifestCollects(m: Manifest)
    requires SelfOk(m)
    ensures CollectOk(m)
  {
    hide KeysShared, RuntimeParameterOk, RuntimeCommandOk, ParameterOk, CommandOk;
    forall i | 0 <= i < |m.roots|
      ensures RuntimeParameterOk(m.roots[i]) && m.roots[i].configKey == [] && !m.roots[i].flags.required
    {
      ParameterCollects(m.roots[i], true);
    }
    forall i | 0 <= i < |m.commands| ensures RuntimeCommandOk(m.commands[i]) && LocallyUnique(m.commands[i].parameters) {
      CommandCollects(m.commands[i]);
      CommandUnique(m.commands[i]);
    }
    KeysAreShared(m, |m.commands|);
  }

  lemma CommandUnique(c: Command)
    requires CommandOk(c)
    ensures LocallyUnique(c.parameters)
  {
  }

  // ---- one value ------------------------------------------------------------------------------------

  lemma YesIsWellFormed()
    ensures WellFormed(YES) && 0 !in YES
  {
    var cps: seq<bv32> := [0x74, 0x72, 0x75, 0x65];
    assert AllScalar(cps);
    assert EncodeAll(cps) == Encode(0x74) + EncodeAll(cps[1..]);
    assert cps[1..] == [0x72, 0x75, 0x65];
    assert EncodeAll(cps[1..]) == Encode(0x72) + EncodeAll(cps[1..][1..]);
    assert cps[1..][1..] == [0x75, 0x65];
    assert EncodeAll([0x75, 0x65]) == Encode(0x75) + EncodeAll([0x75, 0x65][1..]);
    assert [0x75, 0x65][1..] == [0x65];
    assert EncodeAll([0x65]) == Encode(0x65) + EncodeAll([0x65][1..]);
    assert EncodeAll(cps) == YES;
  }

  /** What a well-formed parameter resolves to, the runtime finds well shaped and accepts for its declaration. */
  lemma ValueAccepted(surface: Surface, s: Parse, r: Ref, key: Bytes, root: bool, d: Declaration)
    requires ParseOk(surface, s) && InRange(surface, s.selected, r)
    requires ParameterOk(Declared(surface, s.selected, r), root)
    requires InAllowedSet(Declared(surface, s.selected, r), Resolve(surface, s, r).values)
    requires StableId(key) && |key| <= MAX_IDENTIFIER && d.parameter == Declared(surface, s.selected, r) && d.key == key
    ensures forall v | v in EntryOf(key, Declared(surface, s.selected, r), Resolve(surface, s, r)) ::
              v.key == key && WellShaped(v) && Covers(d, v)
  {
    hide WellFormed, StableId, VisibleName;
    var p, a := Declared(surface, s.selected, r), Resolve(surface, s, r);
    if a.values != [] {
      var v := EntryOf(key, p, a)[0];
      YesIsWellFormed();
      if a.explicit {
        assert Recorded(p, s.occurrences[r], s.values[r]);
      } else {
        forall i | 0 <= i < |p.defaults| ensures 0 !in p.defaults[i] && WellFormed(p.defaults[i]) {
          assert TextOk(p.defaults[i], MAX_DECLARED_VALUE);
        }
      }
    }
  }

  lemma {:induction false} DeclarationsKeep(m: Manifest, n: nat, k: nat, d: Declaration)
    requires k <= n <= |m.commands| && d in Declarations(m, k)
    ensures d in Declarations(m, n)
    decreases n - k
  {
    if k < n { DeclarationsKeep(m, n - 1, k, d); }
  }

  lemma RootDeclared(m: Manifest, p: Parameter)
    requires p in m.roots
    ensures Declaration(p, p.id, 0, true) in Declarations(m, |m.commands|)
  {
    var r :| 0 <= r < |m.roots| && m.roots[r] == p;
    assert RootDeclarations(m.roots)[r] == Declaration(p, p.id, 0, true);
    DeclarationsKeep(m, |m.commands|, 0, Declaration(p, p.id, 0, true));
  }

  lemma {:induction false} LocalListed(ps: seq<Parameter>, i: nat, command: nat)
    requires i < |ps| && ps[i].configKey != []
    ensures Declaration(ps[i], ps[i].configKey, command, false) in LocalDeclarations(ps, command)
  {
    var k := |ps| - 1;
    if i < k {
      LocalListed(ps[..k], i, command);
    } else {
      var ds := LocalDeclarations(ps, command);
      assert ds[|ds| - 1] == Declaration(ps[i], ps[i].configKey, command, false);
    }
  }

  lemma LocalDeclared(m: Manifest, c: nat, i: nat)
    requires c < |m.commands| && i < |m.commands[c].parameters| && m.commands[c].parameters[i].configKey != []
    ensures Declaration(m.commands[c].parameters[i], m.commands[c].parameters[i].configKey, c, false)
            in Declarations(m, |m.commands|)
  {
    LocalListed(m.commands[c].parameters, i, c);
    DeclarationsKeep(m, |m.commands|, c + 1,
                     Declaration(m.commands[c].parameters[i], m.commands[c].parameters[i].configKey, c, false));
  }

  lemma BackedBy(ds: seq<Declaration>, d: Declaration, v: ConfigValue)
    requires d in ds && Covers(d, v)
    ensures Backed(ds, v)
  {
    var k :| 0 <= k < |ds| && ds[k] == d;
    assert Covers(ds[k], v);
  }

  // ---- one plugin ---------------------------------------------------------------------------------

  function SurfaceOf(entries: seq<Entry>): Surface {
    Surface(AllRoots(entries), AllCommands(entries))
  }

  lemma SamePlugin(entries: seq<Entry>, e: nat, f: nat)
    requires Accepted(entries) && e < |entries| && f < |entries| && entries[e].plugin == entries[f].plugin
    ensures e == f
  {
    hide PluginOk, SelfOk, Compatible;
  }

  lemma EntrySound(entries: seq<Entry>, e: nat)
    requires Accepted(entries) && e < |entries|
    ensures forall i | 0 <= i < |entries[e].manifest.roots| :: ParameterOk(entries[e].manifest.roots[i], true)
    ensures forall i | 0 <= i < |entries[e].manifest.commands| :: CommandOk(entries[e].manifest.commands[i])
  {
    hide ParameterOk, CommandOk, KeysOk, Compatible, PluginOk;
    assert SelfOk(entries[e].manifest);
  }

  /** A root option of the surface comes from its plugin's manifest. */
  lemma RootOrigin(entries: seq<Entry>, e: nat, i: nat)
    requires Accepted(entries) && e < |entries| && i < |AllRoots(entries)| && AllRoots(entries)[i].plugin == entries[e].plugin
    ensures AllRoots(entries)[i].parameter in entries[e].manifest.roots && ParameterOk(AllRoots(entries)[i].parameter, true)
  {
    hide ParameterOk, AllRoots, Accepted;
    EntrySound(entries, e);
    var r := AllRoots(entries)[i];
    assert r in AllRoots(entries);
    RootsListed(entries, r);
    var f :| 0 <= f < |entries| && entries[f].plugin == r.plugin && r.parameter in entries[f].manifest.roots;
    SamePlugin(entries, e, f);
    var k :| 0 <= k < |entries[e].manifest.roots| && entries[e].manifest.roots[k] == r.parameter;
  }

  lemma CommandOrigin(entries: seq<Entry>, e: nat, i: nat) returns (c: nat)
    requires Accepted(entries) && e < |entries| && i < |AllCommands(entries)| && AllCommands(entries)[i].plugin == entries[e].plugin
    ensures c < |entries[e].manifest.commands| && AllCommands(entries)[i].command == entries[e].manifest.commands[c]
    ensures CommandOk(entries[e].manifest.commands[c])
  {
    hide CommandOk, AllCommands, Accepted;
    EntrySound(entries, e);
    var o := AllCommands(entries)[i];
    assert o in AllCommands(entries);
    CommandsListed(entries, o);
    var f :| 0 <= f < |entries| && entries[f].plugin == o.plugin && o.command in entries[f].manifest.commands;
    SamePlugin(entries, e, f);
    c :| 0 <= c < |entries[e].manifest.commands| && entries[e].manifest.commands[c] == o.command;
  }

  /** Within one plugin no two root options of the surface share an identity. */
  lemma {:induction false} RootIdsDistinct(entries: seq<Entry>)
    requires Accepted(entries)
    ensures forall i, j | 0 <= i < j < |AllRoots(entries)| && AllRoots(entries)[i].plugin == AllRoots(entries)[j].plugin ::
              AllRoots(entries)[i].parameter.id != AllRoots(entries)[j].parameter.id
  {
    hide ManifestOk, Compatible;
    if entries != [] {
      var k := |entries| - 1;
      AcceptedPrefix(entries, k);
      RootIdsDistinct(entries[..k]);
      var before, last := AllRoots(entries[..k]), Tagged(entries[k].plugin, entries[k].manifest.roots);
      var all := before + last;
      forall i, j | 0 <= i < j < |all| && all[i].plugin == all[j].plugin ensures all[i].parameter.id != all[j].parameter.id {
        if i < |before| <= j {
          assert before[i] in before;
          RootsListed(entries[..k], before[i]);
        } else if |before| <= i {
          assert RootsApart(entries[k].manifest.roots[i - |before|], entries[k].manifest.roots[j - |before|]);
        }
      }
    }
  }

  /** The values root options contribute: keyed by their identities, each accepted. */
  lemma {:induction false} RootEntriesAccepted(entries: seq<Entry>, e: nat, s: Parse, n: nat)
    requires Accepted(entries) && e < |entries| && n <= |AllRoots(entries)| && ParseOk(SurfaceOf(entries), s)
    requires Selected(SurfaceOf(entries), s) && Satisfied(SurfaceOf(entries), s)
    ensures var vs := RootEntries(SurfaceOf(entries), s, entries[e].plugin, n);
            && KeysDistinct(vs)
            && (forall k | 0 <= k < |vs| :: WellShaped(vs[k])
                  && Backed(Declarations(entries[e].manifest, |entries[e].manifest.commands|), vs[k]))
            && (forall k | 0 <= k < |vs| :: RootKey(entries, e, n, vs[k].key))
  {
    hide RootKey, Accepted, ParseOk, AllRoots, AllCommands, Declarations, WellShaped, Covers, Resolve, EntryOf, InAllowedSet, ParameterOk;
    if n > 0 {
      RootEntriesAccepted(entries, e, s, n - 1);
      var surface, plugin := SurfaceOf(entries), entries[e].plugin;
      var before := RootEntries(surface, s, plugin, n - 1);
      var root := AllRoots(entries)[n - 1];
      if root.plugin == plugin {
        RootOrigin(entries, e, n - 1);
        RootDeclared(entries[e].manifest, root.parameter);
        RootKeyStable(root.parameter);
        var d := Declaration(root.parameter, root.parameter.id, 0, true);
        ValueAccepted(surface, s, RootRef(n - 1), root.parameter.id, true, d);
        var added := RootEntry(surface, s, plugin, n - 1);
        forall v | v in added ensures Backed(Declarations(entries[e].manifest, |entries[e].manifest.commands|), v) {
          BackedBy(Declarations(entries[e].manifest, |entries[e].manifest.commands|), d, v);
        }
        NewRootKey(entries, e, n);
        var vs := before + added;
        forall k | |before| <= k < |vs| ensures vs[k] in added && vs[k].key == root.parameter.id {
          assert vs[k] == added[k - |before|];
        }
        forall k | 0 <= k < |before| ensures before[k].key != root.parameter.id { RootKeyIsOld(entries, e, n, before[k].key); }
      }
      forall k | 0 <= k < |before| ensures RootKey(entries, e, n, before[k].key) { RootKeyStays(entries, e, n - 1, before[k].key); }
    }
  }

  /** The identity of one of this plugin's first `n` root options in the surface. */
  ghost predicate RootKey(entries: seq<Entry>, e: nat, n: nat, key: Bytes)
    requires e < |entries|
  {
    exists i | 0 <= i < n && i < |AllRoots(entries)| ::
      AllRoots(entries)[i].plugin == entries[e].plugin && AllRoots(entries)[i].parameter.id == key
  }

  lemma RootOfKey(entries: seq<Entry>, e: nat, key: Bytes) returns (k: nat)
    requires e < |entries| && RootKey(entries, e, |AllRoots(entries)|, key)
    ensures k < |AllRoots(entries)| && AllRoots(entries)[k].plugin == entries[e].plugin && AllRoots(entries)[k].parameter.id == key
  {
    hide AllRoots;
    k :| 0 <= k < |AllRoots(entries)| && k < |AllRoots(entries)|
         && AllRoots(entries)[k].plugin == entries[e].plugin && AllRoots(entries)[k].parameter.id == key;
  }

  lemma RootKeyStays(entries: seq<Entry>, e: nat, n: nat, key: Bytes)
    requires e < |entries| && RootKey(entries, e, n, key)
    ensures RootKey(entries, e, n + 1, key)
  {
    hide AllRoots;
  }

  lemma NewRootKey(entries: seq<Entry>, e: nat, n: nat)
    requires e < |entries| && 0 < n <= |AllRoots(entries)| && AllRoots(entries)[n - 1].plugin == entries[e].plugin
    ensures RootKey(entries, e, n, AllRoots(entries)[n - 1].parameter.id)
  {
    hide AllRoots;
  }

  lemma RootKeyIsOld(entries: seq<Entry>, e: nat, n: nat, key: Bytes)
    requires Accepted(entries) && e < |entries| && 0 < n <= |AllRoots(entries)| && RootKey(entries, e, n - 1, key)
    requires AllRoots(entries)[n - 1].plugin == entries[e].plugin
    ensures AllRoots(entries)[n - 1].parameter.id != key
  {
    hide Accepted, AllRoots;
    RootIdsDistinct(entries);
    var i :| 0 <= i < n - 1 && i < |AllRoots(entries)|
             && AllRoots(entries)[i].plugin == entries[e].plugin && AllRoots(entries)[i].parameter.id == key;
  }

  lemma RootKeyStable(p: Parameter)
    requires ParameterOk(p, true)
    ensures StableId(p.id) && |p.id| <= MAX_IDENTIFIER
  {
  }

  lemma LocalKeyStable(p: Parameter)
    requires ParameterOk(p, false) && p.configKey != []
    ensures StableId(p.configKey) && |p.configKey| <= MAX_IDENTIFIER
  {
  }

  /** The values the selected command contributes to its plugin: keyed by its configuration keys, each accepted. */
  lemma {:induction false} LocalEntriesAccepted(entries: seq<Entry>, e: nat, s: Parse, n: nat)
    requires Accepted(entries) && e < |entries| && ParseOk(SurfaceOf(entries), s)
    requires Selected(SurfaceOf(entries), s) && Satisfied(SurfaceOf(entries), s) && n <= |Locals(SurfaceOf(entries), s)|
    ensures var vs := LocalEntries(SurfaceOf(entries), s, entries[e].plugin, n);
            && KeysDistinct(vs)
            && (forall k | 0 <= k < |vs| :: WellShaped(vs[k])
                  && Backed(Declarations(entries[e].manifest, |entries[e].manifest.commands|), vs[k]))
            && (forall k | 0 <= k < |vs| :: LocalKey(entries, e, s, n, vs[k].key))
  {
    hide Accepted, ParseOk, AllRoots, AllCommands, Declarations, WellShaped, Covers, Resolve, EntryOf, InAllowedSet, ParameterOk,
      CommandOk, LocalKey;
    if n > 0 {
      LocalEntriesAccepted(entries, e, s, n - 1);
      var surface, plugin := SurfaceOf(entries), entries[e].plugin;
      var before := LocalEntries(surface, s, plugin, n - 1);
      var p, added := Locals(surface, s)[n - 1], LocalEntry(surface, s, plugin, n - 1);
      forall k | 0 <= k < |before| ensures LocalKey(entries, e, s, n, before[k].key) { KeyStays(entries, e, s, n - 1, before[k].key); }
      if surface.commands[s.selected.value].plugin == plugin && p.configKey != [] {
        var c := CommandOrigin(entries, e, s.selected.value);
        LocalSound(entries[e].manifest.commands[c], n - 1);
        LocalDeclared(entries[e].manifest, c, n - 1);
        var d := Declaration(p, p.configKey, c, false);
        ValueAccepted(surface, s, LocalRef(n - 1), p.configKey, false, d);
        forall v | v in added ensures Backed(Declarations(entries[e].manifest, |entries[e].manifest.commands|), v) {
          BackedBy(Declarations(entries[e].manifest, |entries[e].manifest.commands|), d, v);
        }
        NewKey(entries, e, s, n);
        var vs := before + added;
        forall k | |before| <= k < |vs| ensures vs[k] in added && vs[k].key == p.configKey { assert vs[k] == added[k - |before|]; }
        forall k | 0 <= k < |before| ensures before[k].key != p.configKey { KeyIsOld(entries, e, s, n, before[k].key); }
      }
    }
  }

  /** A configuration key among the first `n` parameters of the selected command, if it is this plugin's. */
  ghost predicate LocalKey(entries: seq<Entry>, e: nat, s: Parse, n: nat, key: Bytes)
    requires e < |entries|
  {
    var surface := SurfaceOf(entries);
    && Selected(surface, s) && surface.commands[s.selected.value].plugin == entries[e].plugin && key != []
    && exists i | 0 <= i < n && i < |Locals(surface, s)| :: Locals(surface, s)[i].configKey == key
  }

  lemma KeyStays(entries: seq<Entry>, e: nat, s: Parse, n: nat, key: Bytes)
    requires e < |entries| && LocalKey(entries, e, s, n, key)
    ensures LocalKey(entries, e, s, n + 1, key)
  {
    hide AllRoots, AllCommands;
  }

  lemma NewKey(entries: seq<Entry>, e: nat, s: Parse, n: nat)
    requires e < |entries| && Selected(SurfaceOf(entries), s) && 0 < n <= |Locals(SurfaceOf(entries), s)|
    requires SurfaceOf(entries).commands[s.selected.value].plugin == entries[e].plugin
    requires Locals(SurfaceOf(entries), s)[n - 1].configKey != []
    ensures LocalKey(entries, e, s, n, Locals(SurfaceOf(entries), s)[n - 1].configKey)
  {
    hide AllRoots, AllCommands;
  }

  /** Within one command no configuration key is used twice. */
  lemma KeyIsOld(entries: seq<Entry>, e: nat, s: Parse, n: nat, key: Bytes)
    requires e < |entries| && 0 < n && LocalKey(entries, e, s, n - 1, key) && n <= |Locals(SurfaceOf(entries), s)|
    requires LocallyUnique(Locals(SurfaceOf(entries), s))
    ensures Locals(SurfaceOf(entries), s)[n - 1].configKey != key
  {
    hide AllRoots, AllCommands;
    var ps := Locals(SurfaceOf(entries), s);
    var i :| 0 <= i < n - 1 && i < |ps| && ps[i].configKey == key;
    assert Apart(ps[n - 1], ps[i]);
  }

  lemma LocalSound(c: Command, i: nat)
    requires CommandOk(c) && i < |c.parameters|
    ensures ParameterOk(c.parameters[i], false) && LocallyUnique(c.parameters)
    ensures c.parameters[i].configKey != [] ==> StableId(c.parameters[i].configKey) && |c.parameters[i].configKey| <= MAX_IDENTIFIER
  {
    hide LocallyUnique, PositionsOk;
    if c.parameters[i].configKey != [] { LocalKeyStable(c.parameters[i]); }
  }

  /** No configuration key of a command repeats the identity of a root option of the same plugin. */
  lemma KeysApart(entries: seq<Entry>, e: nat, s: Parse, i: nat, key: Bytes)
    requires Accepted(entries) && e < |entries| && i < |AllRoots(entries)|
    requires AllRoots(entries)[i].plugin == entries[e].plugin
    requires Selected(SurfaceOf(entries), s) && LocalKey(entries, e, s, |Locals(SurfaceOf(entries), s)|, key)
    ensures AllRoots(entries)[i].parameter.id != key
  {
    hide Accepted, AllRoots, AllCommands, ParameterOk, CommandOk;
    RootOrigin(entries, e, i);
    var c := CommandOrigin(entries, e, s.selected.value);
    var m, root := entries[e].manifest, AllRoots(entries)[i].parameter;
    var r :| 0 <= r < |m.roots| && m.roots[r] == root;
    var j :| 0 <= j < |m.commands[c].parameters| && m.commands[c].parameters[j].configKey == key;
    EntryKeysOk(entries, e);
  }

  lemma EntryKeysOk(entries: seq<Entry>, e: nat)
    requires Accepted(entries) && e < |entries|
    ensures KeysOk(entries[e].manifest) && SelfOk(entries[e].manifest)
  {
    hide ParameterOk, CommandOk, KeysOk;
  }

  /** What the frontend builds for a plugin, the runtime freezes: for every catalog and every parse. */
  lemma FrontendAgreesWithRuntime(entries: seq<Entry>, e: nat, s: Parse)
    requires Accepted(entries) && e < |entries| && ParseOk(SurfaceOf(entries), s)
    requires Selected(SurfaceOf(entries), s) && Satisfied(SurfaceOf(entries), s)
    ensures Freezable(entries[e].manifest,
                      RootEntries(SurfaceOf(entries), s, entries[e].plugin, |AllRoots(entries)|)
                      + LocalEntries(SurfaceOf(entries), s, entries[e].plugin, |Locals(SurfaceOf(entries), s)|))
  {
    hide Accepted, ParseOk, AllRoots, AllCommands, Declarations, WellShaped, Backed, CollectOk, LocalKey, RootKey, Satisfied, SelfOk;
    var surface, plugin := SurfaceOf(entries), entries[e].plugin;
    var roots := RootEntries(surface, s, plugin, |AllRoots(entries)|);
    var locals := LocalEntries(surface, s, plugin, |Locals(surface, s)|);
    EntryKeysOk(entries, e);
    ManifestCollects(entries[e].manifest);
    RootEntriesAccepted(entries, e, s, |AllRoots(entries)|);
    LocalEntriesAccepted(entries, e, s, |Locals(surface, s)|);
    var all := roots + locals;
    forall i, j | 0 <= i < j < |all| ensures all[i].key != all[j].key {
      if i < |roots| <= j {
        var k := RootOfKey(entries, e, roots[i].key);
        KeysApart(entries, e, s, k, locals[j - |roots|].key);
      }
    }
  }

  // ---- the payload loses nothing ----------------------------------------------------------------------

  /** The values a payload member stands for. */
  function ValuesOf(v: Json.Value): seq<Bytes> {
    match v
    case Bool(flag) => [if flag then YES else NO]
    case Text(text) => [text]
    case List(items) => items
  }

  /** An argument as its parameter allows it: one value unless repeatable, "true" for a flag. */
  predicate Faithful(p: Parameter, a: Argument) {
    && a.id == p.id && a.kind == p.kind && a.values != []
    && (p.kind == FLAG ==> a.values == [YES])
    && (!p.flags.repeatable ==> |a.values| == 1)
  }

  lemma ShapeKeepsValues(p: Parameter, a: Argument)
    requires Faithful(p, a)
    ensures ValuesOf(Shape(p, a)) == a.values
  {
    if a.kind != FLAG && !p.flags.repeatable { assert a.values == [a.values[0]]; }
  }

  lemma ResolvedFaithful(surface: Surface, s: Parse, r: Ref, root: bool)
    requires ParseOk(surface, s) && InRange(surface, s.selected, r) && ParameterOk(Declared(surface, s.selected, r), root)
    requires Resolve(surface, s, r).values != []
    ensures Faithful(Declared(surface, s.selected, r), Resolve(surface, s, r))
  {
    hide WellFormed, StableId, VisibleName, TextOk, TextsOk;
    var p := Declared(surface, s.selected, r);
    if r in s.occurrences { assert Recorded(p, s.occurrences[r], s.values[r]); }
  }

  /** The declaration looked up by identity is the parameter itself: identities do not repeat. */
  lemma {:induction false} DeclarationIsIt(ps: seq<Parameter>, i: nat)
    requires i < |ps| && forall a, b | 0 <= a < b < |ps| :: ps[a].id != ps[b].id
    ensures DeclaredIn(ps, ps[i].id) && Configurations.Declaration(ps, ps[i].id) == ps[i]
  {
    FirstDeclaration(ps, ps[i].id, i);
  }

  ghost predicate IdsDistinct(ps: seq<Parameter>) {
    forall a, b | 0 <= a < b < |ps| :: ps[a].id != ps[b].id
  }

  /** A flag becomes a boolean, a repeatable parameter an array even of one value, any other a string. */
  predicate ShapedAs(ps: seq<Parameter>, m: Json.Member) {
    forall i | 0 <= i < |ps| && ps[i].id == m.name ::
      && (m.value.Bool? <==> ps[i].kind == FLAG)
      && (m.value.List? <==> ps[i].kind != FLAG && ps[i].flags.repeatable)
  }

  /** Reading the payload back gives every argument, in order, with all its values, shaped by its declaration. */
  ghost predicate Preserves(ps: seq<Parameter>, ms: seq<Json.Member>, arguments: seq<Argument>) {
    && |ms| == |arguments|
    && forall k | 0 <= k < |ms| ::
         ms[k].name == arguments[k].id && ValuesOf(ms[k].value) == arguments[k].values && ShapedAs(ps, ms[k])
  }

  lemma PreservesGrow(ps: seq<Parameter>, ms: seq<Json.Member>, arguments: seq<Argument>, m: Json.Member, a: Argument)
    requires Preserves(ps, ms, arguments) && m.name == a.id && ValuesOf(m.value) == a.values && ShapedAs(ps, m)
    ensures Preserves(ps, ms + [m], arguments + [a])
  {
    hide ValuesOf, ShapedAs;
  }

  lemma ShapeIsRight(ps: seq<Parameter>, i: nat, a: Argument)
    requires i < |ps| && IdsDistinct(ps) && Faithful(ps[i], a)
    ensures ShapedAs(ps, Json.Member(a.id, Shape(ps[i], a)))
  {
  }

  lemma {:induction false} MembersPreserve(surface: Surface, s: Parse, n: nat)
    requires ParseOk(surface, s) && Selected(surface, s) && n <= |Locals(surface, s)| && IdsDistinct(Locals(surface, s))
    requires forall i | 0 <= i < |Locals(surface, s)| :: ParameterOk(Locals(surface, s)[i], false)
    ensures Preserves(Locals(surface, s), PayloadMembers(Locals(surface, s), Arguments(surface, s, n)), Arguments(surface, s, n))
  {
    hide ParseOk, ParameterOk, Resolve, Shape, ValuesOf, Faithful, DeclaredIn, Configurations.Declaration, ShapedAs;
    if n > 0 {
      MembersPreserve(surface, s, n - 1);
      var ps, before := Locals(surface, s), Arguments(surface, s, n - 1);
      var p, a := ps[n - 1], Resolve(surface, s, LocalRef(n - 1));
      if p.configKey != [] || a.values == [] {
        assert Arguments(surface, s, n) == before;
      } else {
        assert Arguments(surface, s, n) == before + [a];
        ResolvedFaithful(surface, s, LocalRef(n - 1), false);
        FaithfulId(p, a);
        DeclarationIsIt(ps, n - 1);
        ShapeKeepsValues(p, a);
        assert (before + [a])[..|before|] == before && (before + [a])[|before|] == a;
        assert PayloadMembers(ps, before + [a]) == PayloadMembers(ps, before) + [Json.Member(a.id, Shape(p, a))];
        ShapeIsRight(ps, n - 1, a);
        PreservesGrow(ps, PayloadMembers(ps, before), before, Json.Member(a.id, Shape(p, a)), a);
      }
    }
  }

  lemma FaithfulId(p: Parameter, a: Argument)
    requires Faithful(p, a)
    ensures a.id == p.id
  {
  }

  predicate IdAmong(ps: seq<Parameter>, n: nat, id: Bytes) {
    exists i | 0 <= i < n && i < |ps| :: ps[i].id == id
  }

  /** Each argument has its own name in the payload. */
  lemma {:induction false} ArgumentNames(surface: Surface, s: Parse, n: nat)
    requires Selected(surface, s) && n <= |Locals(surface, s)| && IdsDistinct(Locals(surface, s))
    ensures forall i, j | 0 <= i < j < |Arguments(surface, s, n)| :: Arguments(surface, s, n)[i].id != Arguments(surface, s, n)[j].id
    ensures forall k | 0 <= k < |Arguments(surface, s, n)| :: IdAmong(Locals(surface, s), n, Arguments(surface, s, n)[k].id)
  {
    if n > 0 {
      ArgumentNames(surface, s, n - 1);
      var ps, all, before := Locals(surface, s), Arguments(surface, s, n), Arguments(surface, s, n - 1);
      forall k | 0 <= k < |before| ensures IdAmong(ps, n, before[k].id) && before[k].id != ps[n - 1].id {
        var i :| 0 <= i < n - 1 && i < |ps| && ps[i].id == before[k].id;
      }
      forall k | |before| <= k < |all| ensures all[k].id == ps[n - 1].id && IdAmong(ps, n, all[k].id) { }
    }
  }

  lemma CommandIdsDistinct(c: Command)
    requires CommandOk(c)
    ensures IdsDistinct(c.parameters) && forall i | 0 <= i < |c.parameters| :: ParameterOk(c.parameters[i], false)
  {
    hide ParameterOk, PositionsOk;
    forall a, b | 0 <= a < b < |c.parameters| ensures c.parameters[a].id != c.parameters[b].id {
      assert Apart(c.parameters[b], c.parameters[a]);
    }
  }

  /** The selected command comes from some manifest of the catalog, and is sound. */
  lemma SelectedSound(entries: seq<Entry>, s: Parse)
    requires Accepted(entries) && Selected(SurfaceOf(entries), s)
    ensures CommandOk(SurfaceOf(entries).commands[s.selected.value].command)
  {
    hide Accepted, AllCommands, AllRoots, CommandOk;
    var o := AllCommands(entries)[s.selected.value];
    assert o in AllCommands(entries);
    CommandsListed(entries, o);
    var e :| 0 <= e < |entries| && entries[e].plugin == o.plugin && o.command in entries[e].manifest.commands;
    EntrySound(entries, e);
    var c :| 0 <= c < |entries[e].manifest.commands| && entries[e].manifest.commands[c] == o.command;
  }

  /** For every accepted catalog and every parse, the payload decodes to exactly the arguments: in order,
      under distinct names, with all their values. */
  lemma PayloadRoundTrip(entries: seq<Entry>, s: Parse)
    requires Accepted(entries) && ParseOk(SurfaceOf(entries), s) && Selected(SurfaceOf(entries), s)
    ensures var ps := Locals(SurfaceOf(entries), s);
            var arguments := Arguments(SurfaceOf(entries), s, |ps|);
            var ms := PayloadMembers(ps, arguments);
            && Json.ParseObject(Json.Print(ms)) == Some(ms) && Preserves(ps, ms, arguments)
            && forall i, j | 0 <= i < j < |ms| :: ms[i].name != ms[j].name
  {
    hide Accepted, ParseOk, AllRoots, AllCommands, ParameterOk, CommandOk, ValuesOf, Json.Print, Json.ParseObject;
    var surface := SurfaceOf(entries);
    SelectedSound(entries, s);
    CommandIdsDistinct(surface.commands[s.selected.value].command);
    MembersPreserve(surface, s, |Locals(surface, s)|);
    ArgumentNames(surface, s, |Locals(surface, s)|);
    Json.ObjectRoundTrip(PayloadMembers(Locals(surface, s), Arguments(surface, s, |Locals(surface, s)|)));
  }

  // ---- end to end -----------------------------------------------------------------------------------

  /** One plugin's configuration as the frontend left it. */
  method ConfigurationOf(configs: seq<PluginConfig>, plugin: Bytes) returns (k: Option<nat>)
    ensures k.Some? ==> k.value < |configs| && configs[k.value].plugin == plugin
    ensures k.None? ==> !Named(configs, plugin)
  {
    var i := 0;
    while i < |configs|
      invariant 0 <= i <= |configs| && forall j | 0 <= j < i :: configs[j].plugin != plugin
    {
      if configs[i].plugin == plugin { return Some(i); }
      i := i + 1;
    }
    return None;
  }

  ghost predicate AsksHelp(line: Option<Parse>) {
    line.Some? && (line.value.rootHelp || line.value.commandHelp)
  }

  /** A command line that runs a command: the grammar admits it, nothing required is missing, and every
      value is allowed. */
  ghost predicate Executes(surface: Surface, line: Option<Parse>) {
    line.Some? && !AsksHelp(line) && Selected(surface, line.value) && Satisfied(surface, line.value)
  }

  /** What the runtime holds for one plugin: the values of its root options, then those of the selected
      command, each at the ordinal of its declaration. */
  ghost predicate Snapshot(entries: seq<Entry>, e: nat, s: Parse, out: seq<Placed>)
    requires e < |entries|
  {
    exists ds, values, sources ::
      && InManifestOrder(entries[e].manifest, ds)
      && Outcomes.Configured(SurfaceOf(entries), s, entries[e].plugin, values, sources)
      && Frozen(ds, values, out)
  }

  lemma SnapshotOf(entries: seq<Entry>, e: nat, s: Parse, values: seq<ConfigValue>, out: seq<Placed>)
    requires e < |entries| && Selected(SurfaceOf(entries), s)
    requires var surface := SurfaceOf(entries);
             values == RootEntries(surface, s, entries[e].plugin, |surface.roots|)
                       + LocalEntries(surface, s, entries[e].plugin, |Locals(surface, s)|)
    requires Frozen(Declarations(entries[e].manifest, |entries[e].manifest.commands|), values, out)
    requires s.values.Keys == s.occurrences.Keys
    ensures Snapshot(entries, e, s, out)
  {
    hide Frozen, Declarations, Outcomes.Configured, RootEntries, LocalEntries, InManifestOrder;
    var sources := Outcomes.BuiltIsConfigured(SurfaceOf(entries), s, entries[e].plugin);
    DeclarationsInOrder(entries[e].manifest);
  }

  /** A plugin the surface does not mention contributes nothing. */
  lemma UnnamedIsEmpty(surface: Surface, s: Parse, configs: seq<PluginConfig>, plugin: Bytes)
    requires Selected(surface, s) && !Named(configs, plugin)
    requires forall i | 0 <= i < |surface.roots| :: Named(configs, surface.roots[i].plugin)
    requires forall i | 0 <= i < |surface.commands| :: Named(configs, surface.commands[i].plugin)
    ensures RootEntries(surface, s, plugin, |surface.roots|) == []
    ensures LocalEntries(surface, s, plugin, |Locals(surface, s)|) == []
  {
    NoRootEntries(surface, s, configs, plugin, |surface.roots|);
    NoLocalEntries(surface, s, configs, plugin, |Locals(surface, s)|);
  }

  lemma {:induction false} NoRootEntries(surface: Surface, s: Parse, configs: seq<PluginConfig>, plugin: Bytes, n: nat)
    requires n <= |surface.roots| && !Named(configs, plugin)
    requires forall i | 0 <= i < |surface.roots| :: Named(configs, surface.roots[i].plugin)
    ensures RootEntries(surface, s, plugin, n) == []
  {
    if n > 0 { NoRootEntries(surface, s, configs, plugin, n - 1); }
  }

  lemma {:induction false} NoLocalEntries(surface: Surface, s: Parse, configs: seq<PluginConfig>, plugin: Bytes, n: nat)
    requires Selected(surface, s) && n <= |Locals(surface, s)| && !Named(configs, plugin)
    requires Named(configs, surface.commands[s.selected.value].plugin)
    ensures LocalEntries(surface, s, plugin, n) == []
  {
    if n > 0 { NoLocalEntries(surface, s, configs, plugin, n - 1); }
  }

  /** One configuration per plugin the surface mentions, each the values of its root options followed by
      those of the selected command. */
  ghost predicate Built(surface: Surface, s: Parse, configs: seq<PluginConfig>)
    requires Selected(surface, s)
  {
    && DistinctNames(configs)
    && (forall k | 0 <= k < |configs| ::
          configs[k].entries == RootEntries(surface, s, configs[k].plugin, |surface.roots|)
                                + LocalEntries(surface, s, configs[k].plugin, |Locals(surface, s)|))
    && (forall i | 0 <= i < |surface.roots| :: Named(configs, surface.roots[i].plugin))
    && (forall i | 0 <= i < |surface.commands| :: Named(configs, surface.commands[i].plugin))
  }

  /** The runtime's part of an activation: one snapshot per plugin, none of them refused. */
  method FreezeAll(entries: seq<Entry>, s: Parse, configs: seq<PluginConfig>) returns (frozen: seq<seq<Placed>>)
    requires Accepted(entries) && ParseOk(SurfaceOf(entries), s)
    requires Selected(SurfaceOf(entries), s) && Satisfied(SurfaceOf(entries), s) && s.values.Keys == s.occurrences.Keys
    requires Built(SurfaceOf(entries), s, configs)
    ensures |frozen| == |entries|
    ensures forall e | 0 <= e < |frozen| :: Snapshot(entries, e, s, frozen[e])
    ensures forall e, i, j | 0 <= e < |frozen| && 0 <= i < j < |frozen[e]| ::
              frozen[e][i].ordinal < frozen[e][j].ordinal && frozen[e][i].value.key != frozen[e][j].value.key
  {
    hide Accepted, ParseOk, Freezable, Frozen, Satisfied, AllRoots, AllCommands, Declarations, RootEntries, LocalEntries, Snapshot, DistinctNames;
    frozen := [];
    ghost var surface := SurfaceOf(entries);
    var e := 0;
    while e < |entries|
      invariant 0 <= e <= |entries| && |frozen| == e
      invariant forall f, i, j | 0 <= f < e && 0 <= i < j < |frozen[f]| ::
                  frozen[f][i].ordinal < frozen[f][j].ordinal && frozen[f][i].value.key != frozen[f][j].value.key
      invariant forall f | 0 <= f < e :: Snapshot(entries, f, s, frozen[f])
    {
      var k := ConfigurationOf(configs, entries[e].plugin);
      var values := if k.Some? then configs[k.value].entries else [];
      FrontendAgreesWithRuntime(entries, e, s);
      if k.None? { UnnamedIsEmpty(surface, s, configs, entries[e].plugin); }
      var ok, out := Freeze(entries[e].manifest, values);
      assert ok;
      FrozenKeysDistinct(Declarations(entries[e].manifest, |entries[e].manifest.commands|), entries[e].manifest, values, out);
      SnapshotOf(entries, e, s, values, out);
      frozen := frozen + [out];
      e := e + 1;
    }
  }

  /** Parse a command line over an accepted catalog and freeze every plugin's configuration: the command
      line may be refused, the runtime never refuses what the frontend built. */
  method Activate(entries: seq<Entry>, argv: seq<Bytes>) returns (st: Status, frozen: seq<seq<Placed>>, payload: Bytes)
    requires Accepted(entries) && forall k | 0 <= k < |argv| :: 0 !in argv[k]
    ensures var line := ReadLine(SurfaceOf(entries), argv);
            && (st == if Executes(SurfaceOf(entries), line) || AsksHelp(line) then Ok else InvalidArgument)
            && |frozen| == (if Executes(SurfaceOf(entries), line) then |entries| else 0)
            && (Executes(SurfaceOf(entries), line) ==>
                  var locals := Locals(SurfaceOf(entries), line.value);
                  && Json.ParseObject(payload)
                     == Some(PayloadMembers(locals, Arguments(SurfaceOf(entries), line.value, |locals|)))
                  && exists sources :: Outcomes.ArgumentsAre(SurfaceOf(entries), line.value, |locals|,
                                                             Arguments(SurfaceOf(entries), line.value, |locals|), sources))
    ensures var line := ReadLine(SurfaceOf(entries), argv);
            Executes(SurfaceOf(entries), line) ==>
              forall e | 0 <= e < |frozen| :: Snapshot(entries, e, line.value, frozen[e])
    ensures forall e, i, j | 0 <= e < |frozen| && 0 <= i < j < |frozen[e]| ::
              frozen[e][i].ordinal < frozen[e][j].ordinal && frozen[e][i].value.key != frozen[e][j].value.key
  {
    hide Accepted, ParseOk, Freezable, Frozen, Satisfied, AllRoots, AllCommands, Declarations, RootEntries, LocalEntries, Snapshot;
    frozen, payload := [], [];
    var surface := SurfaceOf(entries);
    var invocation := new Invocation(surface);
    st := invocation.Normalize(argv);
    ghost var line := ReadLine(surface, argv);
    if st != Ok || invocation.rootHelp || invocation.commandHelp { return; }
    var s := Parse(invocation.selected, invocation.rootHelp, invocation.commandHelp, invocation.occurrences, invocation.values);
    ParsedSelected(surface, s);
    ghost var sources := Outcomes.ArgumentsMean(surface, s, |Locals(surface, s)|);
    hide Outcomes.ArgumentsAre;
    var configs, arguments;
    st, configs, arguments := Build(surface, s);
    if st != Ok { return; }
    frozen := FreezeAll(entries, s, configs);
    payload := MakePayload(Locals(surface, s), arguments);
  }

  lemma ParsedSelected(surface: Surface, s: Parse)
    requires ParseOk(surface, s) && s.selected.Some?
    ensures Selected(surface, s) && s.values.Keys == s.occurrences.Keys
  {
  }

  lemma NothingToFreeze(entries: seq<Entry>, e: nat)
    requires Accepted(entries) && e < |entries|
    ensures Freezable(entries[e].manifest, [])
  {
    hide Accepted, CollectOk;
    EntryKeysOk(entries, e);
    ManifestCollects(entries[e].manifest);
  }

  /** A snapshot in strictly increasing order holds each key once. */
  lemma FrozenKeysDistinct(ds: seq<Declaration>, m: Manifest, values: seq<ConfigValue>, out: seq<Placed>)
    requires Freezable(m, values) && Frozen(ds, values, out)
    ensures forall i, j | 0 <= i < j < |out| :: out[i].ordinal < out[j].ordinal && out[i].value.key != out[j].value.key
  {
    hide CollectOk, WellShaped, Backed;
    forall i, j | 0 <= i < j < |out| ensures out[i].value.key != out[j].value.key {
      assert Holds(out, out[i].value) && Holds(out, out[j].value);
      if out[i].value == out[j].value {
        SameValueSamePlace(ds, out[i].value, out[i].ordinal, out[j].ordinal);
      } else {
        var a :| 0 <= a < |values| && values[a] == out[i].value;
        var b :| 0 <= b < |values| && values[b] == out[j].value;
      }
    }
  }

  lemma SameValueSamePlace(ds: seq<Declaration>, v: ConfigValue, i: nat, j: nat)
    requires IsOrdinal(ds, v, i) && IsOrdinal(ds, v, j)
    ensures i == j
  {
  }
}
