/** The catalog: manifests added one by one, checked against what is already there. */
module Catalogs {
  import opened Base
  import opened Utf8
  import opened Manifests
  import opened ManifestCopy

  datatype Root = Root(plugin: Bytes, parameter: Parameter)
  datatype Owned = Owned(plugin: Bytes, command: Command)
  datatype Entry = Entry(plugin: Bytes, manifest: Manifest)

  // ---- the rules --------------------------------------------------------------------------------

  ghost predicate PluginOk(id: Bytes) {
    id != [] && TextOk(id, MAX_PLUGIN_ID)
  }

  /** No local option of `c` carries the name of a root option. */
  predicate Shadows(r: Parameter, c: Command) {
    exists i | 0 <= i < |c.parameters| :: c.parameters[i].longName != [] && c.parameters[i].longName == r.longName
  }

  predicate RootsApart(p: Parameter, q: Parameter) {
    p.id != q.id && p.longName != q.longName
  }

  predicate CommandsApart(c: Command, d: Command) {
    c.id != d.id && c.name != d.name
  }

  /** A manifest that could be the only one. */
  ghost predicate SelfOk(m: Manifest) {
    && ManifestOk(m)
    && (forall i, j | 0 <= i < j < |m.roots| :: RootsApart(m.roots[i], m.roots[j]))
    && (forall i, j | 0 <= i < j < |m.commands| :: CommandsApart(m.commands[i], m.commands[j]))
    && (forall i, j | 0 <= i < |m.roots| && 0 <= j < |m.commands| :: !Shadows(m.roots[i], m.commands[j]))
  }

  /** Manifests of different plugins that may stand in one catalog: visible names do not clash. */
  ghost predicate Compatible(m: Manifest, n: Manifest) {
    && (forall i, j | 0 <= i < |m.roots| && 0 <= j < |n.roots| :: m.roots[i].longName != n.roots[j].longName)
    && (forall i, j | 0 <= i < |m.commands| && 0 <= j < |n.commands| :: m.commands[i].name != n.commands[j].name)
    && (forall i, j | 0 <= i < |m.roots| && 0 <= j < |n.commands| :: !Shadows(m.roots[i], n.commands[j]))
    && (forall i, j | 0 <= i < |n.roots| && 0 <= j < |m.commands| :: !Shadows(n.roots[i], m.commands[j]))
  }

  /** The whole-catalog rules, over every manifest at once. */
  ghost predicate Accepted(entries: seq<Entry>) {
    && (forall i | 0 <= i < |entries| :: PluginOk(entries[i].plugin) && SelfOk(entries[i].manifest))
    && (forall i, j | 0 <= i < j < |entries| ::
          entries[i].plugin != entries[j].plugin && Compatible(entries[i].manifest, entries[j].manifest))
  }

  /** What one more manifest must satisfy. */
  ghost predicate Addable(entries: seq<Entry>, plugin: Bytes, m: Manifest) {
    && PluginOk(plugin) && SelfOk(m)
    && (forall i | 0 <= i < |entries| :: entries[i].plugin != plugin && Compatible(entries[i].manifest, m))
  }

  /** Checking the newcomer against what is there is checking everything: incremental equals global. */
  lemma IncrementalIsGlobal(entries: seq<Entry>, plugin: Bytes, m: Manifest)
    requires Accepted(entries)
    ensures Accepted(entries + [Entry(plugin, m)]) <==> Addable(entries, plugin, m)
  {
    hide PluginOk, SelfOk, Compatible;
    var all := entries + [Entry(plugin, m)];
    assert forall i | 0 <= i < |entries| :: all[i] == entries[i];
    assert all[|entries|] == Entry(plugin, m);
    if Accepted(all) {
      forall i | 0 <= i < |entries| ensures entries[i].plugin != plugin && Compatible(entries[i].manifest, m) {
        assert all[i].plugin != all[|entries|].plugin && Compatible(all[i].manifest, all[|entries|].manifest);
      }
    }
  }

  lemma CompatibleSymmetric(m: Manifest, n: Manifest)
    ensures Compatible(m, n) <==> Compatible(n, m)
  {
  }

  /** Plugins are named once, every manifest is sound, and any two different ones are compatible. */
  ghost predicate AcceptedSet(entries: seq<Entry>) {
    && (forall x | x in entries :: PluginOk(x.plugin) && SelfOk(x.manifest))
    && (forall x, y | x in entries && y in entries && x.plugin != y.plugin :: Compatible(x.manifest, y.manifest))
  }

  ghost predicate DistinctPlugins(entries: seq<Entry>) {
    forall i, j | 0 <= i < j < |entries| :: entries[i].plugin != entries[j].plugin
  }

  lemma AcceptedIffSet(entries: seq<Entry>)
    ensures Accepted(entries) <==> AcceptedSet(entries) && DistinctPlugins(entries)
  {
    hide PluginOk, SelfOk, Compatible;
    if Accepted(entries) {
      forall x, y | x in entries && y in entries && x.plugin != y.plugin ensures Compatible(x.manifest, y.manifest) {
        var i :| 0 <= i < |entries| && entries[i] == x;
        var j :| 0 <= j < |entries| && entries[j] == y;
        CompatibleSymmetric(x.manifest, y.manifest);
      }
    }
    if AcceptedSet(entries) && DistinctPlugins(entries) {
      forall i | 0 <= i < |entries| ensures PluginOk(entries[i].plugin) && SelfOk(entries[i].manifest) {
        assert entries[i] in entries;
      }
      forall i, j | 0 <= i < j < |entries| ensures Compatible(entries[i].manifest, entries[j].manifest) {
        assert entries[i] in entries && entries[j] in entries;
      }
    }
  }

  lemma {:induction false} OncePerPlugin(entries: seq<Entry>, x: Entry)
    requires DistinctPlugins(entries)
    ensures multiset(entries)[x] <= 1
  {
    if entries != [] {
      var last := entries[|entries| - 1];
      OncePerPlugin(entries[..|entries| - 1], x);
      assert entries == entries[..|entries| - 1] + [last];
      if x == last { assert last !in entries[..|entries| - 1]; }
    }
  }

  lemma CountedTwice(entries: seq<Entry>, i: nat, j: nat)
    requires i < j < |entries| && entries[i] == entries[j]
    ensures multiset(entries)[entries[i]] >= 2
  {
    assert entries == entries[..i] + [entries[i]] + entries[i + 1..j] + [entries[j]] + entries[j + 1..];
  }

  lemma PermutedPlugins(a: seq<Entry>, b: seq<Entry>)
    requires multiset(a) == multiset(b) && DistinctPlugins(a)
    ensures DistinctPlugins(b)
  {
    forall i, j | 0 <= i < j < |b| ensures b[i].plugin != b[j].plugin {
      assert b[i] in multiset(b) && b[j] in multiset(b);
      assert b[i] in a && b[j] in a;
      if b[i] == b[j] {
        CountedTwice(b, i, j);
        OncePerPlugin(a, b[i]);
      }
    }
  }

  /** A list of manifests is accepted in full in one order exactly when it is in every order. */
  lemma OrderIndependent(a: seq<Entry>, b: seq<Entry>)
    requires multiset(a) == multiset(b)
    ensures Accepted(a) <==> Accepted(b)
  {
    hide Accepted, AcceptedSet;
    AcceptedIffSet(a);
    AcceptedIffSet(b);
    assert forall x :: x in a <==> x in multiset(a);
    assert forall x :: x in b <==> x in multiset(b);
    SameSet(a, b);
    if DistinctPlugins(a) { PermutedPlugins(a, b); }
    if DistinctPlugins(b) { PermutedPlugins(b, a); }
  }

  lemma SameSet(a: seq<Entry>, b: seq<Entry>)
    requires forall x :: x in a <==> x in b
    ensures AcceptedSet(a) <==> AcceptedSet(b)
  {
    hide PluginOk, SelfOk, Compatible;
  }

  // ---- the flat tables ----------------------------------------------------------------------------

  function Tagged(plugin: Bytes, roots: seq<Parameter>): (r: seq<Root>)
    ensures |r| == |roots| && forall i | 0 <= i < |r| :: r[i] == Root(plugin, roots[i])
  {
    seq(|roots|, i requires 0 <= i < |roots| => Root(plugin, roots[i]))
  }

  function TaggedCommands(plugin: Bytes, commands: seq<Command>): (r: seq<Owned>)
    ensures |r| == |commands| && forall i | 0 <= i < |r| :: r[i] == Owned(plugin, commands[i])
  {
    seq(|commands|, i requires 0 <= i < |commands| => Owned(plugin, commands[i]))
  }

  function AllRoots(entries: seq<Entry>): seq<Root> {
    if entries == [] then []
    else
      var last := entries[|entries| - 1];
      AllRoots(entries[..|entries| - 1]) + Tagged(last.plugin, last.manifest.roots)
  }

  function AllCommands(entries: seq<Entry>): seq<Owned> {
    if entries == [] then []
    else
      var last := entries[|entries| - 1];
      AllCommands(entries[..|entries| - 1]) + TaggedCommands(last.plugin, last.manifest.commands)
  }

  lemma {:induction false} RootsListed(entries: seq<Entry>, r: Root)
    ensures r in AllRoots(entries) <==>
              exists e | 0 <= e < |entries| :: entries[e].plugin == r.plugin && r.parameter in entries[e].manifest.roots
  {
    if entries != [] {
      var k := |entries| - 1;
      RootsListed(entries[..k], r);
      TaggedListed(entries[k].plugin, entries[k].manifest.roots, r);
      assert r in AllRoots(entries) <==> r in AllRoots(entries[..k]) || r in Tagged(entries[k].plugin, entries[k].manifest.roots);
    }
  }

  lemma TaggedListed(plugin: Bytes, roots: seq<Parameter>, r: Root)
    ensures r in Tagged(plugin, roots) <==> r.plugin == plugin && r.parameter in roots
  {
    var t := Tagged(plugin, roots);
    if r.plugin == plugin && r.parameter in roots {
      var i :| 0 <= i < |roots| && roots[i] == r.parameter;
      assert t[i] == r;
    }
  }

  lemma {:induction false} CommandsListed(entries: seq<Entry>, c: Owned)
    ensures c in AllCommands(entries) <==>
              exists e | 0 <= e < |entries| :: entries[e].plugin == c.plugin && c.command in entries[e].manifest.commands
  {
    if entries != [] {
      var k := |entries| - 1;
      CommandsListed(entries[..k], c);
      TaggedCommandsListed(entries[k].plugin, entries[k].manifest.commands, c);
      assert c in AllCommands(entries) <==>
               c in AllCommands(entries[..k]) || c in TaggedCommands(entries[k].plugin, entries[k].manifest.commands);
    }
  }

  lemma TaggedCommandsListed(plugin: Bytes, commands: seq<Command>, c: Owned)
    ensures c in TaggedCommands(plugin, commands) <==> c.plugin == plugin && c.command in commands
  {
    var t := TaggedCommands(plugin, commands);
    if c.plugin == plugin && c.command in commands {
      var i :| 0 <= i < |commands| && commands[i] == c.command;
      assert t[i] == c;
    }
  }

  // ---- the checks ---------------------------------------------------------------------------------

  /** Names (or plugin-local identities) that clash neither with what is there nor among themselves. */
  ghost predicate Fresh<T(!new)>(existing: seq<T>, added: seq<T>) {
    && (forall i | 0 <= i < |added| :: added[i] !in existing)
    && (forall i, j | 0 <= i < j < |added| :: added[i] != added[j])
  }

  method CheckFresh<T(!new, ==)>(existing: seq<T>, added: seq<T>) returns (st: Status)
    ensures st == if Fresh(existing, added) then Ok else Duplicate
  {
    var i := 0;
    while i < |added|
      invariant 0 <= i <= |added|
      invariant forall k | 0 <= k < i :: added[k] !in existing
      invariant forall a, b | 0 <= a < b < i :: added[a] != added[b]
    {
      if added[i] in existing { return Duplicate; }
      var earlier := 0;
      while earlier < i
        invariant 0 <= earlier <= i && forall a | 0 <= a < earlier :: added[a] != added[i]
      {
        if added[earlier] == added[i] { return Duplicate; }
        earlier := earlier + 1;
      }
      i := i + 1;
    }
    return Ok;
  }

  /** No root of `roots` is shadowed by a command of `commands`. */
  method CheckShadowing(roots: seq<Root>, commands: seq<Owned>) returns (st: Status)
    ensures st == Ok || st == Duplicate
    ensures st == Ok <==> forall r, c | r in roots && c in commands :: !Shadows(r.parameter, c.command)
  {
    hide Shadows;
    var i := 0;
    while i < |roots|
      invariant 0 <= i <= |roots|
      invariant forall a, c | 0 <= a < i && c in commands :: !Shadows(roots[a].parameter, c.command)
    {
      var j := 0;
      while j < |commands|
        invariant 0 <= j <= |commands|
        invariant forall b | 0 <= b < j :: !Shadows(roots[i].parameter, commands[b].command)
      {
        if Shadows(roots[i].parameter, commands[j].command) {
          assert roots[i] in roots && commands[j] in commands;
          return Duplicate;
        }
        j := j + 1;
      }
      i := i + 1;
    }
    return Ok;
  }

  /** Configuration keys within one manifest. */
  method CheckKeys(m: Manifest) returns (st: Status)
    ensures st == Ok <==> KeysOk(m)
  {
    hide SameShape;
    var r := 0;
    while r < |m.roots|
      invariant 0 <= r <= |m.roots|
      invariant forall a, c, i | 0 <= a < r && 0 <= c < |m.commands| && 0 <= i < |m.commands[c].parameters| ::
                  m.commands[c].parameters[i].configKey != [] ==> m.commands[c].parameters[i].configKey != m.roots[a].id
    {
      var clash := RootKeyClash(m.roots[r], m.commands);
      if clash { return Duplicate; }
      r := r + 1;
    }
    var left := 0;
    while left < |m.commands|
      invariant 0 <= left <= |m.commands|
      invariant forall a, b | 0 <= a < left && a < b < |m.commands| :: KeysAgree(m.commands[a], m.commands[b])
    {
      var right := left + 1;
      while right < |m.commands|
        invariant left < right <= |m.commands|
        invariant forall b | left < b < right :: KeysAgree(m.commands[left], m.commands[b])
      {
        var agree := CheckAgreement(m.commands[left], m.commands[right]);
        if !agree { return InvalidArgument; }
        right := right + 1;
      }
      left := left + 1;
    }
    return Ok;
  }

  method RootKeyClash(root: Parameter, commands: seq<Command>) returns (clash: bool)
    ensures clash <==> exists c, i | 0 <= c < |commands| && 0 <= i < |commands[c].parameters| ::
              commands[c].parameters[i].configKey != [] && commands[c].parameters[i].configKey == root.id
  {
    var c := 0;
    while c < |commands|
      invariant 0 <= c <= |commands|
      invariant forall a, i | 0 <= a < c && 0 <= i < |commands[a].parameters| ::
                  !(commands[a].parameters[i].configKey != [] && commands[a].parameters[i].configKey == root.id)
    {
      var i := 0;
      while i < |commands[c].parameters|
        invariant 0 <= i <= |commands[c].parameters|
        invariant forall k | 0 <= k < i ::
                    !(commands[c].parameters[k].configKey != [] && commands[c].parameters[k].configKey == root.id)
      {
        if commands[c].parameters[i].configKey != [] && commands[c].parameters[i].configKey == root.id { return true; }
        i := i + 1;
      }
      c := c + 1;
    }
    return false;
  }

  /** Two commands that use a configuration key alike. */
  ghost predicate KeysAgree(c: Command, d: Command) {
    forall i, j | 0 <= i < |c.parameters| && 0 <= j < |d.parameters| ::
      c.parameters[i].configKey != [] && c.parameters[i].configKey == d.parameters[j].configKey
      ==> SameShape(c.parameters[i], d.parameters[j])
  }

  method CheckAgreement(c: Command, d: Command) returns (agree: bool)
    ensures agree <==> KeysAgree(c, d)
  {
    hide SameShape;
    var i := 0;
    while i < |c.parameters|
      invariant 0 <= i <= |c.parameters|
      invariant forall a, j | 0 <= a < i && 0 <= j < |d.parameters| ::
                  c.parameters[a].configKey != [] && c.parameters[a].configKey == d.parameters[j].configKey
                  ==> SameShape(c.parameters[a], d.parameters[j])
    {
      if c.parameters[i].configKey != [] {
        var j := 0;
        while j < |d.parameters|
          invariant 0 <= j <= |d.parameters|
          invariant forall b | 0 <= b < j ::
                      c.parameters[i].configKey == d.parameters[b].configKey ==> SameShape(c.parameters[i], d.parameters[b])
        {
          if c.parameters[i].configKey == d.parameters[j].configKey && !SameShape(c.parameters[i], d.parameters[j]) {
            return false;
          }
          j := j + 1;
        }
      }
      i := i + 1;
    }
    return true;
  }

  // ---- the catalog --------------------------------------------------------------------------------

  class Catalog {
    var pluginIds: seq<Bytes>
    var roots: seq<Root>
    var commands: seq<Owned>
    // The manifests accepted so far.
    ghost var entries: seq<Entry>

    ghost predicate Valid()
      reads this
    {
      && Accepted(entries)
      && pluginIds == Plugins(entries)
      && roots == AllRoots(entries)
      && commands == AllCommands(entries)
    }

    constructor ()
      ensures Valid() && entries == []
    {
      pluginIds, roots, commands, entries := [], [], [], [];
    }

    /** Add one plugin's manifest: accepted exactly when the whole catalog stays in order with it, and a
        rejected one changes nothing. */
    method Add(plugin: Bytes, m: Manifest) returns (st: Status)
      requires Valid()
      modifies this
      ensures Valid()
      ensures st == Ok <==> Accepted(old(entries) + [Entry(plugin, m)])
      ensures st == Ok ==> entries == old(entries) + [Entry(plugin, m)]
      ensures st != Ok ==> entries == old(entries) && roots == old(roots) && commands == old(commands) && pluginIds == old(pluginIds)
      ensures PluginOk(plugin) && plugin in old(pluginIds) ==> st == Duplicate
    {
      hide Accepted, Addable, PluginOk, ManifestOk, SelfOk, Compatible;
      IncrementalIsGlobal(entries, plugin, m);
      st := CheckPlugin(plugin);
      if st != Ok {
        NotAddable(entries, plugin, m);
        return;
      }
      if plugin in pluginIds {
        PluginTaken(entries, plugin, m);
        return Duplicate;
      }
      st := CheckManifest(m);
      if st != Ok {
        NotAddable(entries, plugin, m);
        return;
      }
      st := CheckConflicts(roots, commands, plugin, m);
      ConflictsMean(entries, plugin, m);
      if st != Ok { return; }
      entries := entries + [Entry(plugin, m)];
      assert entries[..|entries| - 1] == old(entries);
      pluginIds := pluginIds + [plugin];
      roots := roots + Tagged(plugin, m.roots);
      commands := commands + TaggedCommands(plugin, m.commands);
    }
  }

  function Plugins(entries: seq<Entry>): (r: seq<Bytes>)
    ensures |r| == |entries| && forall i | 0 <= i < |r| :: r[i] == entries[i].plugin
  {
    if entries == [] then [] else Plugins(entries[..|entries| - 1]) + [entries[|entries| - 1].plugin]
  }

  method CheckPlugin(plugin: Bytes) returns (st: Status)
    ensures st == Ok <==> PluginOk(plugin)
    ensures |plugin| > MAX_PLUGIN_ID ==> st == LimitExceeded
  {
    if plugin == [] { return InvalidArgument; }
    if |plugin| > MAX_PLUGIN_ID { return LimitExceeded; }
    if 0 in plugin { return InvalidArgument; }
    var formed := AcceptByMask(plugin);
    return if formed then Ok else InvalidArgument;
  }

  /** Everything a manifest must satisfy on its own, before it is compared with the catalog. */
  method CheckManifest(m: Manifest) returns (st: Status)
    ensures st == Ok <==> ManifestOk(m)
  {
    hide ParameterOk, CommandOk, KeysOk;
    if m.flagged { return Unsupported; }
    if |m.roots| > MAX_ROOTS { return LimitExceeded; }
    if |m.commands| > MAX_COMMANDS { return LimitExceeded; }
    if PARAMETER_WIDTH * |m.roots| > MAX_COPY { return LimitExceeded; }
    var used := PARAMETER_WIDTH * |m.roots|;
    if COMMAND_WIDTH * |m.commands| > MAX_COPY - used { return LimitExceeded; }
    used := used + COMMAND_WIDTH * |m.commands|;
    st, used := CopyParameters(m.roots, true, used);
    if st != Ok { return; }
    st, used := CopyCommands(m.commands, used);
    if st != Ok { return; }
    st := CheckKeys(m);
  }

  function IdsOfRoots(roots: seq<Root>): (r: seq<(Bytes, Bytes)>)
    ensures |r| == |roots| && forall i | 0 <= i < |r| :: r[i] == (roots[i].plugin, roots[i].parameter.id)
  {
    seq(|roots|, i requires 0 <= i < |roots| => (roots[i].plugin, roots[i].parameter.id))
  }

  function IdsOfCommands(commands: seq<Owned>): (r: seq<(Bytes, Bytes)>)
    ensures |r| == |commands| && forall i | 0 <= i < |r| :: r[i] == (commands[i].plugin, commands[i].command.id)
  {
    seq(|commands|, i requires 0 <= i < |commands| => (commands[i].plugin, commands[i].command.id))
  }

  function NamesOfRoots(roots: seq<Root>): (r: seq<Bytes>)
    ensures |r| == |roots| && forall i | 0 <= i < |r| :: r[i] == roots[i].parameter.longName
  {
    seq(|roots|, i requires 0 <= i < |roots| => roots[i].parameter.longName)
  }

  function NamesOfCommands(commands: seq<Owned>): (r: seq<Bytes>)
    ensures |r| == |commands| && forall i | 0 <= i < |r| :: r[i] == commands[i].command.name
  {
    seq(|commands|, i requires 0 <= i < |commands| => commands[i].command.name)
  }

  /** No clash between the tables and one more manifest, nor within it. */
  ghost predicate NoConflicts(roots: seq<Root>, commands: seq<Owned>, plugin: Bytes, m: Manifest) {
    var newRoots, newCommands := Tagged(plugin, m.roots), TaggedCommands(plugin, m.commands);
    && Fresh(IdsOfRoots(roots), IdsOfRoots(newRoots)) && Fresh(IdsOfCommands(commands), IdsOfCommands(newCommands))
    && Fresh(NamesOfRoots(roots), NamesOfRoots(newRoots)) && Fresh(NamesOfCommands(commands), NamesOfCommands(newCommands))
    && (forall r, c | r in newRoots && c in commands + newCommands :: !Shadows(r.parameter, c.command))
    && (forall r, c | r in roots && c in newCommands :: !Shadows(r.parameter, c.command))
  }

  method CheckConflicts(roots: seq<Root>, commands: seq<Owned>, plugin: Bytes, m: Manifest) returns (st: Status)
    ensures st == if NoConflicts(roots, commands, plugin, m) then Ok else Duplicate
  {
    hide Fresh, Shadows;
    var newRoots, newCommands := Tagged(plugin, m.roots), TaggedCommands(plugin, m.commands);
    st := CheckFresh(IdsOfRoots(roots), IdsOfRoots(newRoots));
    if st != Ok { return; }
    st := CheckFresh(IdsOfCommands(commands), IdsOfCommands(newCommands));
    if st != Ok { return; }
    st := CheckFresh(NamesOfRoots(roots), NamesOfRoots(newRoots));
    if st != Ok { return; }
    st := CheckFresh(NamesOfCommands(commands), NamesOfCommands(newCommands));
    if st != Ok { return; }
    st := CheckShadowing(newRoots, commands + newCommands);
    if st != Ok { return; }
    st := CheckShadowing(roots, newCommands);
  }

  // ---- what the checks over the flat tables mean --------------------------------------------------

  lemma NotAddable(entries: seq<Entry>, plugin: Bytes, m: Manifest)
    requires !PluginOk(plugin) || !ManifestOk(m)
    ensures !Addable(entries, plugin, m)
  {
    hide PluginOk, ManifestOk;
  }

  lemma PluginTaken(entries: seq<Entry>, plugin: Bytes, m: Manifest)
    requires plugin in Plugins(entries)
    ensures !Addable(entries, plugin, m)
  {
    hide PluginOk, SelfOk, Compatible;
    var i :| 0 <= i < |entries| && Plugins(entries)[i] == plugin;
    assert entries[i].plugin == plugin;
  }

  lemma RootNameListed(entries: seq<Entry>, name: Bytes)
    ensures name in NamesOfRoots(AllRoots(entries)) <==>
              exists e, i | 0 <= e < |entries| && 0 <= i < |entries[e].manifest.roots| :: entries[e].manifest.roots[i].longName == name
  {
    var all := AllRoots(entries);
    if name in NamesOfRoots(all) {
      var k :| 0 <= k < |all| && NamesOfRoots(all)[k] == name;
      assert all[k] in all;
      RootsListed(entries, all[k]);
      var e :| 0 <= e < |entries| && entries[e].plugin == all[k].plugin && all[k].parameter in entries[e].manifest.roots;
      var i :| 0 <= i < |entries[e].manifest.roots| && entries[e].manifest.roots[i] == all[k].parameter;
      assert entries[e].manifest.roots[i].longName == name;
    }
    if e, i :| 0 <= e < |entries| && 0 <= i < |entries[e].manifest.roots| && entries[e].manifest.roots[i].longName == name {
      var r := Root(entries[e].plugin, entries[e].manifest.roots[i]);
      RootsListed(entries, r);
      var k :| 0 <= k < |all| && all[k] == r;
      assert NamesOfRoots(all)[k] == name;
    }
  }

  lemma CommandNameListed(entries: seq<Entry>, name: Bytes)
    ensures name in NamesOfCommands(AllCommands(entries)) <==>
              exists e, i | 0 <= e < |entries| && 0 <= i < |entries[e].manifest.commands| :: entries[e].manifest.commands[i].name == name
  {
    var all := AllCommands(entries);
    if name in NamesOfCommands(all) {
      var k :| 0 <= k < |all| && NamesOfCommands(all)[k] == name;
      assert all[k] in all;
      CommandsListed(entries, all[k]);
      var e :| 0 <= e < |entries| && entries[e].plugin == all[k].plugin && all[k].command in entries[e].manifest.commands;
      var i :| 0 <= i < |entries[e].manifest.commands| && entries[e].manifest.commands[i] == all[k].command;
      assert entries[e].manifest.commands[i].name == name;
    }
    if e, i :| 0 <= e < |entries| && 0 <= i < |entries[e].manifest.commands| && entries[e].manifest.commands[i].name == name {
      var c := Owned(entries[e].plugin, entries[e].manifest.commands[i]);
      CommandsListed(entries, c);
      var k :| 0 <= k < |all| && all[k] == c;
      assert NamesOfCommands(all)[k] == name;
    }
  }

  /** Root names: clear of the table and of each other. */
  lemma RootNamesFresh(entries: seq<Entry>, plugin: Bytes, m: Manifest)
    ensures Fresh(NamesOfRoots(AllRoots(entries)), NamesOfRoots(Tagged(plugin, m.roots))) <==>
              && (forall e, i, j | 0 <= e < |entries| && 0 <= i < |entries[e].manifest.roots| && 0 <= j < |m.roots| ::
                    entries[e].manifest.roots[i].longName != m.roots[j].longName)
              && (forall i, j | 0 <= i < j < |m.roots| :: m.roots[i].longName != m.roots[j].longName)
  {
    hide AllRoots;
    var names := NamesOfRoots(Tagged(plugin, m.roots));
    forall j | 0 <= j < |m.roots|
      ensures names[j] == m.roots[j].longName
      ensures names[j] in NamesOfRoots(AllRoots(entries)) <==>
                exists e, i | 0 <= e < |entries| && 0 <= i < |entries[e].manifest.roots| ::
                  entries[e].manifest.roots[i].longName == m.roots[j].longName
    {
      RootNameListed(entries, m.roots[j].longName);
    }
  }

  lemma CommandNamesFresh(entries: seq<Entry>, plugin: Bytes, m: Manifest)
    ensures Fresh(NamesOfCommands(AllCommands(entries)), NamesOfCommands(TaggedCommands(plugin, m.commands))) <==>
              && (forall e, i, j | 0 <= e < |entries| && 0 <= i < |entries[e].manifest.commands| && 0 <= j < |m.commands| ::
                    entries[e].manifest.commands[i].name != m.commands[j].name)
              && (forall i, j | 0 <= i < j < |m.commands| :: m.commands[i].name != m.commands[j].name)
  {
    hide AllCommands;
    var names := NamesOfCommands(TaggedCommands(plugin, m.commands));
    forall j | 0 <= j < |m.commands|
      ensures names[j] == m.commands[j].name
      ensures names[j] in NamesOfCommands(AllCommands(entries)) <==>
                exists e, i | 0 <= e < |entries| && 0 <= i < |entries[e].manifest.commands| ::
                  entries[e].manifest.commands[i].name == m.commands[j].name
    {
      CommandNameListed(entries, m.commands[j].name);
    }
  }

  /** Identities are plugin-local: only the newcomer's own can clash. */
  lemma IdsFresh(entries: seq<Entry>, plugin: Bytes, m: Manifest)
    requires plugin !in Plugins(entries)
    ensures Fresh(IdsOfRoots(AllRoots(entries)), IdsOfRoots(Tagged(plugin, m.roots))) <==>
              forall i, j | 0 <= i < j < |m.roots| :: m.roots[i].id != m.roots[j].id
    ensures Fresh(IdsOfCommands(AllCommands(entries)), IdsOfCommands(TaggedCommands(plugin, m.commands))) <==>
              forall i, j | 0 <= i < j < |m.commands| :: m.commands[i].id != m.commands[j].id
  {
    hide AllRoots, AllCommands;
    var roots, commands := AllRoots(entries), AllCommands(entries);
    forall k | 0 <= k < |roots| ensures IdsOfRoots(roots)[k].0 != plugin {
      assert roots[k] in roots;
      RootsListed(entries, roots[k]);
      OtherPlugin(entries, plugin);
    }
    forall k | 0 <= k < |commands| ensures IdsOfCommands(commands)[k].0 != plugin {
      assert commands[k] in commands;
      CommandsListed(entries, commands[k]);
      OtherPlugin(entries, plugin);
    }
    var ids, commandIds := IdsOfRoots(Tagged(plugin, m.roots)), IdsOfCommands(TaggedCommands(plugin, m.commands));
    assert forall i | 0 <= i < |ids| :: ids[i] == (plugin, m.roots[i].id);
    assert forall i | 0 <= i < |commandIds| :: commandIds[i] == (plugin, m.commands[i].id);
  }

  lemma OtherPlugin(entries: seq<Entry>, plugin: Bytes)
    requires plugin !in Plugins(entries)
    ensures forall e | 0 <= e < |entries| :: entries[e].plugin != plugin
  {
    forall e | 0 <= e < |entries| ensures entries[e].plugin != plugin { assert Plugins(entries)[e] in Plugins(entries); }
  }

  /** New roots shadowed nowhere: neither by the commands in the table nor by the new ones. */
  lemma NewRootsUnshadowed(entries: seq<Entry>, plugin: Bytes, m: Manifest)
    ensures (forall r, c | r in Tagged(plugin, m.roots) && c in AllCommands(entries) + TaggedCommands(plugin, m.commands) ::
               !Shadows(r.parameter, c.command)) <==>
              && (forall e, i, j | 0 <= e < |entries| && 0 <= i < |m.roots| && 0 <= j < |entries[e].manifest.commands| ::
                    !Shadows(m.roots[i], entries[e].manifest.commands[j]))
              && (forall i, j | 0 <= i < |m.roots| && 0 <= j < |m.commands| :: !Shadows(m.roots[i], m.commands[j]))
  {
    hide Shadows, AllCommands;
    var roots, commands := Tagged(plugin, m.roots), AllCommands(entries) + TaggedCommands(plugin, m.commands);
    if forall r, c | r in roots && c in commands :: !Shadows(r.parameter, c.command) {
      forall e, i, j | 0 <= e < |entries| && 0 <= i < |m.roots| && 0 <= j < |entries[e].manifest.commands|
        ensures !Shadows(m.roots[i], entries[e].manifest.commands[j])
      {
        var c := Owned(entries[e].plugin, entries[e].manifest.commands[j]);
        CommandsListed(entries, c);
        assert roots[i] in roots && c in commands;
      }
      forall i, j | 0 <= i < |m.roots| && 0 <= j < |m.commands| ensures !Shadows(m.roots[i], m.commands[j]) {
        var c := TaggedCommands(plugin, m.commands)[j];
        assert roots[i] in roots && c in TaggedCommands(plugin, m.commands) && c in commands;
      }
    }
    if (forall e, i, j | 0 <= e < |entries| && 0 <= i < |m.roots| && 0 <= j < |entries[e].manifest.commands| ::
          !Shadows(m.roots[i], entries[e].manifest.commands[j]))
       && (forall i, j | 0 <= i < |m.roots| && 0 <= j < |m.commands| :: !Shadows(m.roots[i], m.commands[j]))
    {
      forall r, c | r in roots && c in commands ensures !Shadows(r.parameter, c.command) {
        TaggedListed(plugin, m.roots, r);
        var i :| 0 <= i < |m.roots| && m.roots[i] == r.parameter;
        CommandsListed(entries, c);
        TaggedCommandsListed(plugin, m.commands, c);
        if c in AllCommands(entries) {
          var e :| 0 <= e < |entries| && entries[e].plugin == c.plugin && c.command in entries[e].manifest.commands;
          var j :| 0 <= j < |entries[e].manifest.commands| && entries[e].manifest.commands[j] == c.command;
          assert !Shadows(m.roots[i], entries[e].manifest.commands[j]);
        } else {
          var j :| 0 <= j < |m.commands| && m.commands[j] == c.command;
          assert !Shadows(m.roots[i], m.commands[j]);
        }
      }
    }
  }

  lemma OldRootsUnshadowed(entries: seq<Entry>, plugin: Bytes, m: Manifest)
    ensures (forall r, c | r in AllRoots(entries) && c in TaggedCommands(plugin, m.commands) :: !Shadows(r.parameter, c.command)) <==>
              forall e, i, j | 0 <= e < |entries| && 0 <= i < |entries[e].manifest.roots| && 0 <= j < |m.commands| ::
                !Shadows(entries[e].manifest.roots[i], m.commands[j])
  {
    hide Shadows, AllRoots;
    var roots, commands := AllRoots(entries), TaggedCommands(plugin, m.commands);
    if forall r, c | r in roots && c in commands :: !Shadows(r.parameter, c.command) {
      forall e, i, j | 0 <= e < |entries| && 0 <= i < |entries[e].manifest.roots| && 0 <= j < |m.commands|
        ensures !Shadows(entries[e].manifest.roots[i], m.commands[j])
      {
        var r := Root(entries[e].plugin, entries[e].manifest.roots[i]);
        RootsListed(entries, r);
        assert r in roots && commands[j] in commands;
      }
    }
    if forall e, i, j | 0 <= e < |entries| && 0 <= i < |entries[e].manifest.roots| && 0 <= j < |m.commands| ::
         !Shadows(entries[e].manifest.roots[i], m.commands[j])
    {
      forall r, c | r in roots && c in commands ensures !Shadows(r.parameter, c.command) {
        RootsListed(entries, r);
        TaggedCommandsListed(plugin, m.commands, c);
        var e :| 0 <= e < |entries| && entries[e].plugin == r.plugin && r.parameter in entries[e].manifest.roots;
        var i :| 0 <= i < |entries[e].manifest.roots| && entries[e].manifest.roots[i] == r.parameter;
        var j :| 0 <= j < |m.commands| && m.commands[j] == c.command;
        assert !Shadows(entries[e].manifest.roots[i], m.commands[j]);
      }
    }
  }

  /** The conflict checks over the flat tables are the pairwise rules between manifests. */
  lemma ConflictsMean(entries: seq<Entry>, plugin: Bytes, m: Manifest)
    requires PluginOk(plugin) && ManifestOk(m) && plugin !in Plugins(entries)
    ensures NoConflicts(AllRoots(entries), AllCommands(entries), plugin, m) <==> Addable(entries, plugin, m)
  {
    hide PluginOk, ManifestOk, Shadows, Fresh, AllRoots, AllCommands;
    IdsFresh(entries, plugin, m);
    RootNamesFresh(entries, plugin, m);
    CommandNamesFresh(entries, plugin, m);
    NewRootsUnshadowed(entries, plugin, m);
    OldRootsUnshadowed(entries, plugin, m);
    OtherPlugin(entries, plugin);
    AddableSpelledOut(entries, plugin, m);
  }

  /** `Addable`, clause by clause. */
  lemma AddableSpelledOut(entries: seq<Entry>, plugin: Bytes, m: Manifest)
    requires PluginOk(plugin) && ManifestOk(m) && forall e | 0 <= e < |entries| :: entries[e].plugin != plugin
    ensures Addable(entries, plugin, m) <==>
      && (forall i, j | 0 <= i < j < |m.roots| :: m.roots[i].id != m.roots[j].id)
      && (forall i, j | 0 <= i < j < |m.commands| :: m.commands[i].id != m.commands[j].id)
      && (forall e, i, j | 0 <= e < |entries| && 0 <= i < |entries[e].manifest.roots| && 0 <= j < |m.roots| ::
            entries[e].manifest.roots[i].longName != m.roots[j].longName)
      && (forall i, j | 0 <= i < j < |m.roots| :: m.roots[i].longName != m.roots[j].longName)
      && (forall e, i, j | 0 <= e < |entries| && 0 <= i < |entries[e].manifest.commands| && 0 <= j < |m.commands| ::
            entries[e].manifest.commands[i].name != m.commands[j].name)
      && (forall i, j | 0 <= i < j < |m.commands| :: m.commands[i].name != m.commands[j].name)
      && (forall e, i, j | 0 <= e < |entries| && 0 <= i < |m.roots| && 0 <= j < |entries[e].manifest.commands| ::
            !Shadows(m.roots[i], entries[e].manifest.commands[j]))
      && (forall i, j | 0 <= i < |m.roots| && 0 <= j < |m.commands| :: !Shadows(m.roots[i], m.commands[j]))
      && (forall e, i, j | 0 <= e < |entries| && 0 <= i < |entries[e].manifest.roots| && 0 <= j < |m.commands| ::
            !Shadows(entries[e].manifest.roots[i], m.commands[j]))
  {
    hide PluginOk, ManifestOk, Shadows;
  }

  /** A fresh catalog accepts a whole list of manifests, added in this order, exactly when the list obeys
      the whole-catalog rules. */
  method AddAll(list: seq<Entry>) returns (ok: bool)
    ensures ok <==> Accepted(list)
  {
    hide Accepted;
    var catalog := new Catalog();
    var i := 0;
    while i < |list|
      invariant 0 <= i <= |list| && catalog.Valid() && fresh(catalog) && catalog.entries == list[..i]
    {
      assert list[..i + 1] == list[..i] + [list[i]] && list[i] == Entry(list[i].plugin, list[i].manifest);
      var st := catalog.Add(list[i].plugin, list[i].manifest);
      if st != Ok {
        if Accepted(list) { AcceptedPrefix(list, i + 1); }
        return false;
      }
      i := i + 1;
    }
    assert list[..i] == list;
    return true;
  }

  lemma AcceptedPrefix(list: seq<Entry>, k: nat)
    requires Accepted(list) && k <= |list|
    ensures Accepted(list[..k])
  {
    hide PluginOk, SelfOk, Compatible;
    var prefix := list[..k];
    forall i, j | 0 <= i < j < |prefix|
      ensures prefix[i].plugin != prefix[j].plugin && Compatible(prefix[i].manifest, prefix[j].manifest)
    {
      assert prefix[i] == list[i] && prefix[j] == list[j];
    }
    forall i | 0 <= i < |prefix| ensures PluginOk(prefix[i].plugin) && SelfOk(prefix[i].manifest) {
      assert prefix[i] == list[i];
    }
  }
}
