/** From a parsed command line to plugin configurations, the command's arguments, and its payload. */
module Configurations {
  import opened Base
  import opened Utf8
  import opened Manifests
  import opened Catalogs
  import opened ConfigFreeze
  import opened Frontend
  import Json

  /** A parameter's values with where they came from: the command line, or the declared defaults. */
  datatype Argument = Argument(id: Bytes, kind: Word, explicit: bool, values: seq<Bytes>)

  datatype PluginConfig = PluginConfig(plugin: Bytes, entries: seq<ConfigValue>)

  function Resolve(surface: Surface, s: Parse, r: Ref): Argument
    requires InRange(surface, s.selected, r)
  {
    var p := Declared(surface, s.selected, r);
    if r in s.occurrences && r in s.values then
      Argument(p.id, p.kind, true, if p.kind == FLAG then [YES] else s.values[r])
    else Argument(p.id, p.kind, false, p.defaults)
  }

  /** What a parameter contributes to its plugin's configuration: nothing, or one value under its key. */
  function EntryOf(key: Bytes, p: Parameter, a: Argument): (r: seq<ConfigValue>)
    ensures |r| <= 1
  {
    if a.values == [] then []
    else [ConfigValue(key, p.kind, if a.explicit then COMMAND_LINE else PLUGIN_DEFAULT, p.flags.sensitive, false, a.values)]
  }

  function RootEntry(surface: Surface, s: Parse, plugin: Bytes, i: nat): seq<ConfigValue>
    requires i < |surface.roots|
  {
    if surface.roots[i].plugin != plugin then []
    else EntryOf(surface.roots[i].parameter.id, surface.roots[i].parameter, Resolve(surface, s, RootRef(i)))
  }

  function RootEntries(surface: Surface, s: Parse, plugin: Bytes, n: nat): seq<ConfigValue>
    requires n <= |surface.roots|
  {
    if n == 0 then [] else RootEntries(surface, s, plugin, n - 1) + RootEntry(surface, s, plugin, n - 1)
  }

  predicate Selected(surface: Surface, s: Parse) {
    s.selected.Some? && s.selected.value < |surface.commands|
  }

  function Locals(surface: Surface, s: Parse): seq<Parameter>
    requires Selected(surface, s)
  {
    surface.commands[s.selected.value].command.parameters
  }

  function LocalEntry(surface: Surface, s: Parse, plugin: Bytes, i: nat): seq<ConfigValue>
    requires Selected(surface, s) && i < |Locals(surface, s)|
  {
    var p := Locals(surface, s)[i];
    if surface.commands[s.selected.value].plugin != plugin || p.configKey == [] then []
    else EntryOf(p.configKey, p, Resolve(surface, s, LocalRef(i)))
  }

  function LocalEntries(surface: Surface, s: Parse, plugin: Bytes, n: nat): seq<ConfigValue>
    requires Selected(surface, s) && n <= |Locals(surface, s)|
  {
    if n == 0 then [] else LocalEntries(surface, s, plugin, n - 1) + LocalEntry(surface, s, plugin, n - 1)
  }

  /** The arguments that go into the payload: the command's parameters that feed no configuration key. */
  function Arguments(surface: Surface, s: Parse, n: nat): seq<Argument>
    requires Selected(surface, s) && n <= |Locals(surface, s)|
  {
    if n == 0 then []
    else
      var p, a := Locals(surface, s)[n - 1], Resolve(surface, s, LocalRef(n - 1));
      Arguments(surface, s, n - 1) + (if p.configKey == [] && a.values != [] then [a] else [])
  }

  predicate InAllowedSet(p: Parameter, vs: seq<Bytes>) {
    p.allowed != [] ==> forall i | 0 <= i < |vs| :: vs[i] in p.allowed
  }

  /** Required parameters were given, and every value is in its declared set. */
  predicate Satisfied(surface: Surface, s: Parse)
    requires Selected(surface, s)
  {
    && (forall i | 0 <= i < |surface.roots| ::
          InAllowedSet(surface.roots[i].parameter, Resolve(surface, s, RootRef(i)).values))
    && (forall i | 0 <= i < |Locals(surface, s)| ::
          && (Locals(surface, s)[i].flags.required ==> Resolve(surface, s, LocalRef(i)).explicit)
          && InAllowedSet(Locals(surface, s)[i], Resolve(surface, s, LocalRef(i)).values))
  }

  method ValuesAllowed(p: Parameter, vs: seq<Bytes>) returns (ok: bool)
    ensures ok <==> InAllowedSet(p, vs)
  {
    if p.allowed == [] { return true; }
    var i := 0;
    while i < |vs|
      invariant 0 <= i <= |vs| && forall k | 0 <= k < i :: vs[k] in p.allowed
    {
      if vs[i] !in p.allowed { return false; }
      i := i + 1;
    }
    return true;
  }

  ghost predicate DistinctNames(configs: seq<PluginConfig>) {
    forall i, j | 0 <= i < j < |configs| :: configs[i].plugin != configs[j].plugin
  }

  ghost predicate Named(configs: seq<PluginConfig>, plugin: Bytes) {
    exists i | 0 <= i < |configs| :: configs[i].plugin == plugin
  }

  /** Find or create one plugin's configuration, in first-declaration order. */
  method Ensure(configs: seq<PluginConfig>, plugin: Bytes) returns (more: seq<PluginConfig>, at: nat)
    requires DistinctNames(configs)
    ensures DistinctNames(more) && configs <= more && at < |more| && more[at].plugin == plugin
    ensures more == configs || more == configs + [PluginConfig(plugin, [])]
    ensures Named(configs, plugin) ==> more == configs
  {
    var i := 0;
    while i < |configs|
      invariant 0 <= i <= |configs| && forall k | 0 <= k < i :: configs[k].plugin != plugin
    {
      if configs[i].plugin == plugin { return configs, i; }
      i := i + 1;
    }
    return configs + [PluginConfig(plugin, [])], |configs|;
  }

  /** One empty configuration per plugin the surface mentions. */
  method NamePlugins(surface: Surface) returns (configs: seq<PluginConfig>)
    ensures DistinctNames(configs) && forall k | 0 <= k < |configs| :: configs[k].entries == []
    ensures forall i | 0 <= i < |surface.roots| :: Named(configs, surface.roots[i].plugin)
    ensures forall i | 0 <= i < |surface.commands| :: Named(configs, surface.commands[i].plugin)
  {
    configs := [];
    var i := 0;
    while i < |surface.roots|
      invariant 0 <= i <= |surface.roots| && DistinctNames(configs)
      invariant forall k | 0 <= k < |configs| :: configs[k].entries == []
      invariant forall k | 0 <= k < i :: Named(configs, surface.roots[k].plugin)
    {
      var before := configs;
      var at;
      configs, at := Ensure(configs, surface.roots[i].plugin);
      StillNamed(before, configs);
      i := i + 1;
    }
    i := 0;
    while i < |surface.commands|
      invariant 0 <= i <= |surface.commands| && DistinctNames(configs)
      invariant forall k | 0 <= k < |configs| :: configs[k].entries == []
      invariant forall k | 0 <= k < |surface.roots| :: Named(configs, surface.roots[k].plugin)
      invariant forall k | 0 <= k < i :: Named(configs, surface.commands[k].plugin)
    {
      var before := configs;
      var at;
      configs, at := Ensure(configs, surface.commands[i].plugin);
      StillNamed(before, configs);
      i := i + 1;
    }
  }

  lemma StillNamed(configs: seq<PluginConfig>, more: seq<PluginConfig>)
    requires configs <= more
    ensures forall plugin | Named(configs, plugin) :: Named(more, plugin)
  {
    forall plugin | Named(configs, plugin) ensures Named(more, plugin) {
      var i :| 0 <= i < |configs| && configs[i].plugin == plugin;
      assert more[i].plugin == plugin;
    }
  }

  /** Only entries change; the plugins listed stay the same. */
  ghost predicate SameNames(configs: seq<PluginConfig>, more: seq<PluginConfig>) {
    |more| == |configs| && forall k | 0 <= k < |configs| :: more[k].plugin == configs[k].plugin
  }

  ghost predicate Appended(configs: seq<PluginConfig>, more: seq<PluginConfig>, plugin: Bytes, extra: seq<ConfigValue>) {
    |more| == |configs| && forall k | 0 <= k < |more| ::
      more[k].entries == configs[k].entries + (if configs[k].plugin == plugin then extra else [])
  }

  /** The configurations hold what the first `n` root options contribute. */
  ghost predicate RootsFilled(surface: Surface, s: Parse, configs: seq<PluginConfig>, n: nat) {
    n <= |surface.roots| && forall k | 0 <= k < |configs| :: configs[k].entries == RootEntries(surface, s, configs[k].plugin, n)
  }

  lemma RootFilled(surface: Surface, s: Parse, configs: seq<PluginConfig>, more: seq<PluginConfig>, n: nat)
    requires RootsFilled(surface, s, configs, n) && n < |surface.roots| && SameNames(configs, more)
    requires Appended(configs, more, surface.roots[n].plugin,
                      EntryOf(surface.roots[n].parameter.id, surface.roots[n].parameter, Resolve(surface, s, RootRef(n))))
    ensures RootsFilled(surface, s, more, n + 1)
  {
    hide Resolve, EntryOf;
  }

  /** On top of `filled`, what the first `n` parameters of the selected command contribute. */
  ghost predicate LocalsFilled(surface: Surface, s: Parse, filled: seq<PluginConfig>, configs: seq<PluginConfig>, n: nat) {
    && Selected(surface, s) && n <= |Locals(surface, s)| && |configs| == |filled|
    && forall k | 0 <= k < |configs| ::
         configs[k].entries == filled[k].entries + LocalEntries(surface, s, configs[k].plugin, n)
  }

  lemma LocalFilled(surface: Surface, s: Parse, filled: seq<PluginConfig>, configs: seq<PluginConfig>, more: seq<PluginConfig>, n: nat)
    requires LocalsFilled(surface, s, filled, configs, n) && n < |Locals(surface, s)| && SameNames(configs, more)
    requires var p := Locals(surface, s)[n];
             if p.configKey == [] then more == configs
             else Appended(configs, more, surface.commands[s.selected.value].plugin,
                           EntryOf(p.configKey, p, Resolve(surface, s, LocalRef(n))))
    ensures LocalsFilled(surface, s, filled, more, n + 1)
  {
    hide Resolve, EntryOf;
  }

  /** Append to one plugin's configuration. */
  method Put(configs: seq<PluginConfig>, plugin: Bytes, extra: seq<ConfigValue>) returns (more: seq<PluginConfig>)
    requires DistinctNames(configs) && Named(configs, plugin)
    ensures SameNames(configs, more) && Appended(configs, more, plugin, extra)
  {
    var at;
    more, at := Ensure(configs, plugin);
    more := more[at := PluginConfig(plugin, more[at].entries + extra)];
    forall k | 0 <= k < |more|
      ensures more[k].entries == configs[k].entries + (if configs[k].plugin == plugin then extra else [])
    {
      if k != at { DistinctAt(configs, k, at); }
    }
  }

  /** The root options, each to its own plugin. */
  method FillRoots(surface: Surface, s: Parse, empty: seq<PluginConfig>) returns (ok: bool, configs: seq<PluginConfig>)
    requires DistinctNames(empty) && forall k | 0 <= k < |empty| :: empty[k].entries == []
    requires forall i | 0 <= i < |surface.roots| :: Named(empty, surface.roots[i].plugin)
    ensures ok <==> forall i | 0 <= i < |surface.roots| ::
              InAllowedSet(surface.roots[i].parameter, Resolve(surface, s, RootRef(i)).values)
    ensures ok ==> SameNames(empty, configs) && RootsFilled(surface, s, configs, |surface.roots|)
  {
    hide InAllowedSet, Resolve, EntryOf, RootEntries, Appended;
    configs := empty;
    assert RootsFilled(surface, s, configs, 0) by { NothingFilled(surface, s); }
    var i := 0;
    while i < |surface.roots|
      invariant 0 <= i <= |surface.roots| && SameNames(empty, configs)
      invariant forall k | 0 <= k < i :: InAllowedSet(surface.roots[k].parameter, Resolve(surface, s, RootRef(k)).values)
      invariant RootsFilled(surface, s, configs, i)
    {
      var root, resolved := surface.roots[i], Resolve(surface, s, RootRef(i));
      ok := ValuesAllowed(root.parameter, resolved.values);
      if !ok { return; }
      NamesKept(empty, configs, root.plugin);
      ghost var before := configs;
      configs := Put(configs, root.plugin, EntryOf(root.parameter.id, root.parameter, resolved));
      RootFilled(surface, s, before, configs, i);
      i := i + 1;
    }
    ok := true;
  }

  lemma NamesKept(empty: seq<PluginConfig>, configs: seq<PluginConfig>, plugin: Bytes)
    requires SameNames(empty, configs) && DistinctNames(empty)
    ensures DistinctNames(configs) && (Named(empty, plugin) ==> Named(configs, plugin))
  {
    if Named(empty, plugin) {
      var i :| 0 <= i < |empty| && empty[i].plugin == plugin;
      assert configs[i].plugin == plugin;
    }
  }

  lemma DistinctAt(configs: seq<PluginConfig>, k: nat, at: nat)
    requires DistinctNames(configs) && k < |configs| && at < |configs| && k != at
    ensures configs[k].plugin != configs[at].plugin
  {
  }

  lemma NothingFilled(surface: Surface, s: Parse)
    ensures forall plugin :: RootEntries(surface, s, plugin, 0) == []
  {
  }

  lemma NoLocalsFilled(surface: Surface, s: Parse, filled: seq<PluginConfig>)
    requires Selected(surface, s)
    ensures LocalsFilled(surface, s, filled, filled, 0)
  {
  }

  /** The selected command's parameters: to the configuration of its plugin, or to the payload. */
  method FillLocals(surface: Surface, s: Parse, filled: seq<PluginConfig>)
    returns (ok: bool, configs: seq<PluginConfig>, arguments: seq<Argument>)
    requires Selected(surface, s) && DistinctNames(filled)
    requires Named(filled, surface.commands[s.selected.value].plugin)
    ensures ok <==> forall i | 0 <= i < |Locals(surface, s)| ::
              && (Locals(surface, s)[i].flags.required ==> Resolve(surface, s, LocalRef(i)).explicit)
              && InAllowedSet(Locals(surface, s)[i], Resolve(surface, s, LocalRef(i)).values)
    ensures ok ==> SameNames(filled, configs) && LocalsFilled(surface, s, filled, configs, |Locals(surface, s)|)
    ensures ok ==> arguments == Arguments(surface, s, |Locals(surface, s)|)
  {
    hide InAllowedSet, Resolve, EntryOf, LocalEntries, Appended, LocalsFilled;
    configs, arguments := filled, [];
    var ps, plugin, i := Locals(surface, s), surface.commands[s.selected.value].plugin, 0;
    NoLocalsFilled(surface, s, filled);
    while i < |ps|
      invariant 0 <= i <= |ps| && SameNames(filled, configs)
      invariant forall k | 0 <= k < i ::
                  && (ps[k].flags.required ==> Resolve(surface, s, LocalRef(k)).explicit)
                  && InAllowedSet(ps[k], Resolve(surface, s, LocalRef(k)).values)
      invariant LocalsFilled(surface, s, filled, configs, i)
      invariant arguments == Arguments(surface, s, i)
    {
      var resolved := Resolve(surface, s, LocalRef(i));
      if ps[i].flags.required && !resolved.explicit { return false, configs, arguments; }
      ok := ValuesAllowed(ps[i], resolved.values);
      if !ok { return; }
      ghost var before := configs;
      if ps[i].configKey != [] {
        NamesKept(filled, configs, plugin);
        configs := Put(configs, plugin, EntryOf(ps[i].configKey, ps[i], resolved));
      } else if resolved.values != [] {
        arguments := arguments + [resolved];
      }
      LocalFilled(surface, s, filled, before, configs, i);
      i := i + 1;
    }
    ok := true;
  }

  /** Everything an accepted command line turns into. */
  method Build(surface: Surface, s: Parse) returns (st: Status, configs: seq<PluginConfig>, arguments: seq<Argument>)
    requires Selected(surface, s)
    ensures st == if Satisfied(surface, s) then Ok else InvalidArgument
    ensures st == Ok ==>
              && DistinctNames(configs)
              && (forall k | 0 <= k < |configs| ::
                    configs[k].entries == RootEntries(surface, s, configs[k].plugin, |surface.roots|)
                                          + LocalEntries(surface, s, configs[k].plugin, |Locals(surface, s)|))
              && (forall i | 0 <= i < |surface.roots| :: Named(configs, surface.roots[i].plugin))
              && (forall i | 0 <= i < |surface.commands| :: Named(configs, surface.commands[i].plugin))
              && arguments == Arguments(surface, s, |Locals(surface, s)|)
  {
    hide InAllowedSet, Resolve, DistinctNames;
    arguments := [];
    var named := NamePlugins(surface);
    var ok;
    ok, configs := FillRoots(surface, s, named);
    if !ok { return InvalidArgument, configs, arguments; }
    NamesKept(named, configs, []);
    forall plugin | Named(named, plugin) ensures Named(configs, plugin) { NamesKept(named, configs, plugin); }
    ghost var filled := configs;
    ok, configs, arguments := FillLocals(surface, s, configs);
    if !ok { return InvalidArgument, configs, arguments; }
    forall plugin | Named(filled, plugin) ensures Named(configs, plugin) { NamesKept(filled, configs, plugin); }
    NamesKept(filled, configs, []);
    st := Ok;
  }

  // ---- the payload --------------------------------------------------------------------------------

  predicate DeclaredIn(ps: seq<Parameter>, id: Bytes) {
    exists i | 0 <= i < |ps| :: ps[i].id == id
  }

  /** The first parameter of that identity. */
  function Declaration(ps: seq<Parameter>, id: Bytes): (p: Parameter)
    requires DeclaredIn(ps, id)
    ensures p in ps && p.id == id
  {
    if ps[0].id == id then ps[0] else Declaration(ps[1..], id)
  }

  /** The JSON value an argument becomes: a boolean, one string, or all its values as an array. */
  function Shape(p: Parameter, a: Argument): Json.Value
    requires a.values != []
  {
    if a.kind == FLAG then Json.Bool(a.values[0] == YES)
    else if p.flags.repeatable then Json.List(a.values)
    else Json.Text(a.values[0])
  }

  /** The members of the payload: the declared arguments that have a value, in order. */
  function PayloadMembers(ps: seq<Parameter>, arguments: seq<Argument>): seq<Json.Member> {
    if arguments == [] then []
    else
      var last, before := arguments[|arguments| - 1], PayloadMembers(ps, arguments[..|arguments| - 1]);
      if !DeclaredIn(ps, last.id) || last.values == [] then before
      else before + [Json.Member(last.id, Shape(Declaration(ps, last.id), last))]
  }

  method FindDeclaration(ps: seq<Parameter>, id: Bytes) returns (p: Option<Parameter>)
    ensures p.Some? <==> DeclaredIn(ps, id)
    ensures p.Some? ==> p.value == Declaration(ps, id)
  {
    var i := 0;
    while i < |ps|
      invariant 0 <= i <= |ps| && forall k | 0 <= k < i :: ps[k].id != id
    {
      if ps[i].id == id {
        FirstDeclaration(ps, id, i);
        return Some(ps[i]);
      }
      i := i + 1;
    }
    return None;
  }

  lemma {:induction false} FirstDeclaration(ps: seq<Parameter>, id: Bytes, i: nat)
    requires i < |ps| && ps[i].id == id && forall k | 0 <= k < i :: ps[k].id != id
    ensures Declaration(ps, id) == ps[i]
  {
    if i > 0 {
      assert forall k | 0 <= k < i - 1 :: ps[1..][k] == ps[k + 1];
      FirstDeclaration(ps[1..], id, i - 1);
    }
  }

  /** One string as a JSON literal, byte by byte. */
  method AppendJsonString(value: Bytes, out: Bytes) returns (more: Bytes)
    ensures more == out + Json.Quote(value)
  {
    hide Json.Escape;
    more := out + [Json.QUOTE];
    var i := 0;
    while i < |value|
      invariant 0 <= i <= |value| && more == out + [Json.QUOTE] + Json.EscapeAll(value[..i])
    {
      assert value[..i + 1][..i] == value[..i];
      more := more + Json.Escape(value[i]);
      i := i + 1;
    }
    assert value[..i] == value;
    more := more + [Json.QUOTE];
  }

  method AppendList(items: seq<Bytes>, out: Bytes) returns (more: Bytes)
    ensures more == out + [0x5B] + Json.Strings(items) + [0x5D]
  {
    hide Json.Quote;
    more := out + [0x5B];
    var i := 0;
    while i < |items|
      invariant 0 <= i <= |items| && more == out + [0x5B] + Json.Strings(items[..i])
    {
      assert items[..i + 1][..i] == items[..i];
      if i != 0 { more := more + [Json.COMMA]; }
      more := AppendJsonString(items[i], more);
      i := i + 1;
    }
    assert items[..i] == items;
    more := more + [0x5D];
  }

  method AppendValue(p: Parameter, a: Argument, out: Bytes) returns (more: Bytes)
    requires a.values != []
    ensures more == out + Json.PrintValue(Shape(p, a))
  {
    hide Json.Quote, Json.Strings;
    if a.kind == FLAG {
      return out + if a.values[0] == YES then Json.TRUE else Json.FALSE;
    }
    if p.flags.repeatable {
      more := AppendList(a.values, out);
    } else {
      more := AppendJsonString(a.values[0], out);
    }
  }

  /** Serialize the arguments as one JSON object. */
  method MakePayload(ps: seq<Parameter>, arguments: seq<Argument>) returns (payload: Bytes)
    ensures payload == Json.Print(PayloadMembers(ps, arguments))
    ensures Json.ParseObject(payload) == Some(PayloadMembers(ps, arguments))
  {
    hide DeclaredIn, Declaration, Shape, Json.ParseObject, Json.PrintValue, Json.Quote;
    payload := [0x7B];
    var first, i := true, 0;
    while i < |arguments|
      invariant 0 <= i <= |arguments|
      invariant payload == [0x7B] + Json.Members(PayloadMembers(ps, arguments[..i]))
      invariant first <==> PayloadMembers(ps, arguments[..i]) == []
    {
      assert arguments[..i + 1][..i] == arguments[..i];
      var a := arguments[i];
      var declaration := FindDeclaration(ps, a.id);
      if declaration.Some? && a.values != [] {
        MembersGrow(PayloadMembers(ps, arguments[..i]), Json.Member(a.id, Shape(declaration.value, a)));
        if !first { payload := payload + [Json.COMMA]; }
        first := false;
        payload := AppendJsonString(a.id, payload);
        payload := payload + [Json.COLON];
        payload := AppendValue(declaration.value, a, payload);
      }
      i := i + 1;
    }
    assert arguments[..i] == arguments;
    payload := payload + [0x7D];
    Json.ObjectRoundTrip(PayloadMembers(ps, arguments));
  }

  lemma MembersGrow(ms: seq<Json.Member>, m: Json.Member)
    ensures Json.Members(ms + [m]) ==
              (if ms == [] then [] else Json.Members(ms) + [Json.COMMA]) + (Json.Quote(m.name) + [Json.COLON] + Json.PrintValue(m.value))
  {
    hide Json.Quote, Json.PrintValue;
    assert (ms + [m])[..|ms|] == ms;
  }
}
