/** What a parse comes to for plugins and commands, parameter by parameter: given values win over defaults. */
module Outcomes {
  import opened Base
  import opened Manifests
  import opened Catalogs
  import opened ConfigFreeze
  import opened Frontend
  import opened Configurations

  const TRUE_TEXT: Bytes := [0x74, 0x72, 0x75, 0x65]

  /** The values of a parameter: those given on the command line, "true" for a flag that was given, and the
      declared defaults only where nothing was given. */
  function Effective(p: Parameter, s: Parse, r: Ref): seq<Bytes> {
    if r !in s.occurrences then p.defaults
    else if p.kind == FLAG then [TRUE_TEXT]
    else if r in s.values then s.values[r]
    else []
  }

  lemma ResolvedIsEffective(surface: Surface, s: Parse, r: Ref)
    requires InRange(surface, s.selected, r) && s.values.Keys == s.occurrences.Keys
    ensures var p := Declared(surface, s.selected, r);
            Resolve(surface, s, r) == Argument(p.id, p.kind, r in s.occurrences, Effective(p, s, r))
  {
  }

  // ---- configuration --------------------------------------------------------------------------------

  /** The key a parameter feeds, if it belongs to that plugin: a root option its identity, a parameter of
      the selected command its configuration key. */
  function KeyFed(surface: Surface, s: Parse, plugin: Bytes, r: Ref): (key: Bytes)
    requires InRange(surface, s.selected, r)
  {
    match r
    case RootRef(i) => if surface.roots[i].plugin == plugin then surface.roots[i].parameter.id else []
    case LocalRef(i) =>
      if surface.commands[s.selected.value].plugin == plugin
      then surface.commands[s.selected.value].command.parameters[i].configKey else []
  }

  predicate Feeds(surface: Surface, s: Parse, plugin: Bytes, r: Ref) {
    && InRange(surface, s.selected, r)
    && (r.RootRef? ==> surface.roots[r.index].plugin == plugin)
    && (r.LocalRef? ==> KeyFed(surface, s, plugin, r) != [])
    && Effective(Declared(surface, s.selected, r), s, r) != []
  }

  function ValueFrom(surface: Surface, s: Parse, plugin: Bytes, r: Ref): ConfigValue
    requires Feeds(surface, s, plugin, r)
  {
    var p := Declared(surface, s.selected, r);
    ConfigValue(KeyFed(surface, s, plugin, r), p.kind, if r in s.occurrences then COMMAND_LINE else PLUGIN_DEFAULT,
                p.flags.sensitive, false, Effective(p, s, r))
  }

  /** Root options come first, each kind in the order of declaration. */
  function Place(surface: Surface, r: Ref): nat {
    if r.RootRef? then r.index else |surface.roots| + r.index
  }

  /** The configuration of one plugin: value `k` comes from parameter `sources[k]`, no parameter that feeds
      the plugin is left out, and the order is that of declaration. */
  ghost predicate Configured(surface: Surface, s: Parse, plugin: Bytes, vs: seq<ConfigValue>, sources: seq<Ref>) {
    && |sources| == |vs|
    && (forall k | 0 <= k < |vs| :: Feeds(surface, s, plugin, sources[k]) && vs[k] == ValueFrom(surface, s, plugin, sources[k]))
    && (forall j, k | 0 <= j < k < |sources| :: Place(surface, sources[j]) < Place(surface, sources[k]))
    && (forall r | Feeds(surface, s, plugin, r) :: r in sources)
  }

  /** As `Configured`, for the parameters at the first `n` places. */
  ghost predicate ConfiguredTo(surface: Surface, s: Parse, plugin: Bytes, n: nat, vs: seq<ConfigValue>, sources: seq<Ref>) {
    && |sources| == |vs|
    && (forall k | 0 <= k < |vs| ::
          && Feeds(surface, s, plugin, sources[k]) && Place(surface, sources[k]) < n
          && vs[k] == ValueFrom(surface, s, plugin, sources[k]))
    && (forall j, k | 0 <= j < k < |sources| :: Place(surface, sources[j]) < Place(surface, sources[k]))
    && (forall r | Feeds(surface, s, plugin, r) && Place(surface, r) < n :: r in sources)
  }

  lemma SamePlace(surface: Surface, s: Parse, plugin: Bytes, q: Ref, r: Ref)
    requires Feeds(surface, s, plugin, q) && InRange(surface, s.selected, r) && Place(surface, q) == Place(surface, r)
    ensures q == r
  {
    hide Effective, KeyFed;
  }

  /** One more parameter: it adds its value if it feeds the plugin, and nothing otherwise. */
  lemma OneMoreParameter(surface: Surface, s: Parse, plugin: Bytes, vs: seq<ConfigValue>, sources: seq<Ref>, r: Ref) returns (more: seq<Ref>)
    requires InRange(surface, s.selected, r) && ConfiguredTo(surface, s, plugin, Place(surface, r), vs, sources)
    ensures ConfiguredTo(surface, s, plugin, Place(surface, r) + 1,
                         vs + (if Feeds(surface, s, plugin, r) then [ValueFrom(surface, s, plugin, r)] else []), more)
  {
    forall q | Feeds(surface, s, plugin, q) && Place(surface, q) == Place(surface, r) ensures q == r {
      SamePlace(surface, s, plugin, q, r);
    }
    hide ValueFrom, Feeds, Place;
    if Feeds(surface, s, plugin, r) {
      more := sources + [r];
      forall q | Feeds(surface, s, plugin, q) && Place(surface, q) < Place(surface, r) + 1 ensures q in more {
        if Place(surface, q) < Place(surface, r) { assert q in sources; } else { assert more[|sources|] == q; }
      }
    } else {
      more := sources;
      assert vs + [] == vs;
    }
  }

  lemma {:induction false} RootsConfigured(surface: Surface, s: Parse, plugin: Bytes, m: nat) returns (sources: seq<Ref>)
    requires m <= |surface.roots| && s.values.Keys == s.occurrences.Keys
    ensures ConfiguredTo(surface, s, plugin, m, RootEntries(surface, s, plugin, m), sources)
  {
    if m == 0 {
      sources := [];
    } else {
      sources := RootsConfigured(surface, s, plugin, m - 1);
      RootContribution(surface, s, plugin, m - 1);
      hide ConfiguredTo, Effective, Feeds, ValueFrom, RootEntry;
      sources := OneMoreParameter(surface, s, plugin, RootEntries(surface, s, plugin, m - 1), sources, RootRef(m - 1));
    }
  }

  lemma RootContribution(surface: Surface, s: Parse, plugin: Bytes, i: nat)
    requires i < |surface.roots| && s.values.Keys == s.occurrences.Keys
    ensures RootEntry(surface, s, plugin, i)
         == if Feeds(surface, s, plugin, RootRef(i)) then [ValueFrom(surface, s, plugin, RootRef(i))] else []
  {
    ResolvedIsEffective(surface, s, RootRef(i));
    hide Effective, Resolve;
  }

  lemma LocalContribution(surface: Surface, s: Parse, plugin: Bytes, i: nat)
    requires Selected(surface, s) && i < |Locals(surface, s)| && s.values.Keys == s.occurrences.Keys
    ensures LocalEntry(surface, s, plugin, i)
         == if Feeds(surface, s, plugin, LocalRef(i)) then [ValueFrom(surface, s, plugin, LocalRef(i))] else []
  {
    ResolvedIsEffective(surface, s, LocalRef(i));
    hide Effective, Resolve;
  }

  lemma {:induction false} LocalsConfigured(surface: Surface, s: Parse, plugin: Bytes, n: nat) returns (sources: seq<Ref>)
    requires Selected(surface, s) && n <= |Locals(surface, s)| && s.values.Keys == s.occurrences.Keys
    ensures ConfiguredTo(surface, s, plugin, |surface.roots| + n,
                         RootEntries(surface, s, plugin, |surface.roots|) + LocalEntries(surface, s, plugin, n), sources)
  {
    var roots := RootEntries(surface, s, plugin, |surface.roots|);
    if n == 0 {
      sources := RootsConfigured(surface, s, plugin, |surface.roots|);
      assert roots + LocalEntries(surface, s, plugin, 0) == roots;
    } else {
      hide ConfiguredTo, Effective, Feeds, ValueFrom, LocalEntry, RootEntries;
      sources := LocalsConfigured(surface, s, plugin, n - 1);
      sources := LocalConfigured(surface, s, plugin, n - 1, sources);
    }
  }

  lemma LocalConfigured(surface: Surface, s: Parse, plugin: Bytes, i: nat, earlier: seq<Ref>) returns (sources: seq<Ref>)
    requires Selected(surface, s) && i < |Locals(surface, s)| && s.values.Keys == s.occurrences.Keys
    requires ConfiguredTo(surface, s, plugin, |surface.roots| + i,
                          RootEntries(surface, s, plugin, |surface.roots|) + LocalEntries(surface, s, plugin, i), earlier)
    ensures ConfiguredTo(surface, s, plugin, |surface.roots| + i + 1,
                         RootEntries(surface, s, plugin, |surface.roots|) + LocalEntries(surface, s, plugin, i + 1), sources)
  {
    LocalContribution(surface, s, plugin, i);
    hide ConfiguredTo, Effective, Feeds, ValueFrom, LocalEntry, RootEntries;
    var before := RootEntries(surface, s, plugin, |surface.roots|) + LocalEntries(surface, s, plugin, i);
    sources := OneMoreParameter(surface, s, plugin, before, earlier, LocalRef(i));
    Regroup(RootEntries(surface, s, plugin, |surface.roots|), LocalEntries(surface, s, plugin, i), LocalEntry(surface, s, plugin, i));
  }

  /** What the frontend builds for a plugin is its configuration, parameter by parameter. */
  lemma BuiltIsConfigured(surface: Surface, s: Parse, plugin: Bytes) returns (sources: seq<Ref>)
    requires Selected(surface, s) && s.values.Keys == s.occurrences.Keys
    ensures Configured(surface, s, plugin,
                       RootEntries(surface, s, plugin, |surface.roots|) + LocalEntries(surface, s, plugin, |Locals(surface, s)|),
                       sources)
  {
    sources := LocalsConfigured(surface, s, plugin, |Locals(surface, s)|);
    hide Effective, KeyFed, ValueFrom;
  }

  // ---- arguments ------------------------------------------------------------------------------------

  predicate Passed(surface: Surface, s: Parse, i: nat)
    requires Selected(surface, s)
  {
    i < |Locals(surface, s)| && Locals(surface, s)[i].configKey == [] && Effective(Locals(surface, s)[i], s, LocalRef(i)) != []
  }

  /** The arguments of the command: one for each parameter without a configuration key that has a value. */
  ghost predicate ArgumentsAre(surface: Surface, s: Parse, n: nat, arguments: seq<Argument>, sources: seq<nat>)
    requires Selected(surface, s)
  {
    && |sources| == |arguments|
    && (forall k | 0 <= k < |arguments| ::
          && Passed(surface, s, sources[k]) && sources[k] < n
          && (var p := Locals(surface, s)[sources[k]];
              arguments[k] == Argument(p.id, p.kind, LocalRef(sources[k]) in s.occurrences, Effective(p, s, LocalRef(sources[k])))))
    && (forall j, k | 0 <= j < k < |sources| :: sources[j] < sources[k])
    && (forall i: nat | Passed(surface, s, i) && i < n :: i in sources)
  }

  lemma {:induction false} ArgumentsMean(surface: Surface, s: Parse, n: nat) returns (sources: seq<nat>)
    requires Selected(surface, s) && n <= |Locals(surface, s)| && s.values.Keys == s.occurrences.Keys
    ensures ArgumentsAre(surface, s, n, Arguments(surface, s, n), sources)
  {
    if n == 0 {
      sources := [];
    } else {
      sources := ArgumentsMean(surface, s, n - 1);
      ResolvedIsEffective(surface, s, LocalRef(n - 1));
      hide Effective, Resolve;
      if Passed(surface, s, n - 1) {
        var earlier := sources;
        sources := earlier + [n - 1];
        hide Passed;
        forall i: nat | Passed(surface, s, i) && i < n ensures i in sources {
          if i < n - 1 { assert i in earlier; } else { assert sources[|earlier|] == i; }
        }
      }
    }
  }

  // ---- refusals -------------------------------------------------------------------------------------

  /** A command line is satisfied: what is required was given, and no effective value is outside the
      declared set, be it given or a default. */
  lemma SatisfiedMeans(surface: Surface, s: Parse)
    requires Selected(surface, s) && s.values.Keys == s.occurrences.Keys
    ensures Satisfied(surface, s) <==>
      && (forall i | 0 <= i < |surface.roots| && surface.roots[i].parameter.allowed != [] ::
            forall v | v in Effective(surface.roots[i].parameter, s, RootRef(i)) :: v in surface.roots[i].parameter.allowed)
      && (forall i | 0 <= i < |Locals(surface, s)| && Locals(surface, s)[i].flags.required :: LocalRef(i) in s.occurrences)
      && (forall i | 0 <= i < |Locals(surface, s)| && Locals(surface, s)[i].allowed != [] ::
            forall v | v in Effective(Locals(surface, s)[i], s, LocalRef(i)) :: v in Locals(surface, s)[i].allowed)
  {
    forall i | 0 <= i < |surface.roots|
      ensures Resolve(surface, s, RootRef(i)).values == Effective(surface.roots[i].parameter, s, RootRef(i))
    {
      ResolvedIsEffective(surface, s, RootRef(i));
    }
    forall i | 0 <= i < |Locals(surface, s)|
      ensures Resolve(surface, s, LocalRef(i)).values == Effective(Locals(surface, s)[i], s, LocalRef(i))
      ensures Resolve(surface, s, LocalRef(i)).explicit == (LocalRef(i) in s.occurrences)
    {
      ResolvedIsEffective(surface, s, LocalRef(i));
    }
    hide Effective, Resolve;
  }
}
