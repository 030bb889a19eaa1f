/** Command-line manifests as plugins declare them, and the rules one manifest must obey on its own. */
module Manifests {
  import opened Base
  import opened Utf8

  const MAX_IDENTIFIER: nat := 128
  const MAX_NAME: nat := 64
  const MAX_HELP: nat := 4096
  const MAX_VALUE_NAME: nat := 64
  const MAX_DECLARED_VALUE: nat := 64 * 1024
  const MAX_ROOTS: nat := 256
  const MAX_COMMANDS: nat := 256
  const MAX_PARAMETERS: nat := 256
  const MAX_DEFAULTS: nat := 256
  const MAX_ALLOWED: nat := 1024
  const MAX_COPY: nat := 4 * 1024 * 1024
  const MAX_PLUGIN_ID: nat := 64 * 1024

  // Bytes of one array element in the 64-bit descriptor layout.
  const TEXT_WIDTH: nat := 16
  const PARAMETER_WIDTH: nat := 136
  const COMMAND_WIDTH: nat := 88

  const NO_POSITION: Word := 0xFFFF_FFFF
  const TEXT: Word := 1
  const FLAG: Word := 2

  /** The flag word of a parameter: three known bits, and whether any other is set. */
  datatype ParameterFlags = ParameterFlags(required: bool, repeatable: bool, sensitive: bool, unknown: bool)

  datatype Parameter = Parameter(
    flags: ParameterFlags, kind: Word, position: Word, id: Bytes, longName: Bytes, help: Bytes,
    valueName: Bytes, configKey: Bytes, defaults: seq<Bytes>, allowed: seq<Bytes>)

  datatype Command = Command(
    flagged: bool, handler: Word, id: Bytes, name: Bytes, help: Bytes, parameters: seq<Parameter>)

  datatype Manifest = Manifest(flagged: bool, roots: seq<Parameter>, commands: seq<Command>)

  // ---- texts ------------------------------------------------------------------------------------

  ghost predicate TextOk(t: Bytes, limit: nat) {
    |t| <= limit && 0 !in t && WellFormed(t)
  }

  predicate Letter(c: bv8) {
    (0x61 <= c <= 0x7A) || (0x41 <= c <= 0x5A)
  }

  predicate Lower(c: bv8) {
    0x61 <= c <= 0x7A
  }

  predicate Digit(c: bv8) {
    0x30 <= c <= 0x39
  }

  /** Stable identifiers: a letter, then letters, digits, underscore, hyphen and dot. */
  predicate StableId(t: Bytes) {
    && t != [] && Letter(t[0])
    && (forall i | 0 <= i < |t| :: StableByte(t[i]))
  }

  predicate StableByte(c: bv8) {
    Letter(c) || Digit(c) || c == 0x5F || c == 0x2D || c == 0x2E
  }

  /** Visible names: lowercase words joined by single hyphens. */
  predicate VisibleName(t: Bytes) {
    && t != [] && Lower(t[0]) && t[|t| - 1] != 0x2D
    && (forall i | 0 <= i < |t| :: t[i] == 0x2D || Lower(t[i]) || Digit(t[i]))
    && (forall i | 0 < i < |t| :: !(t[i] == 0x2D && t[i - 1] == 0x2D))
  }

  const HELP: Bytes := [0x68, 0x65, 0x6C, 0x70]
  const VERSION: Bytes := [0x76, 0x65, 0x72, 0x73, 0x69, 0x6F, 0x6E]

  predicate Reserved(name: Bytes) {
    name == HELP || name == VERSION
  }

  // ---- one parameter ----------------------------------------------------------------------------

  ghost predicate TextsOk(ts: seq<Bytes>, count: nat) {
    |ts| <= count && forall i | 0 <= i < |ts| :: TextOk(ts[i], MAX_DECLARED_VALUE)
  }

  /** What a parameter's kind, defaults and allowed values must satisfy together. */
  ghost predicate ValuesConsistent(p: Parameter) {
    if p.kind == FLAG then
      !p.flags.repeatable && p.valueName == [] && p.defaults == [] && p.allowed == []
    else
      && (!p.flags.repeatable ==> |p.defaults| <= 1)
      && (p.flags.required ==> p.defaults == [])
      && (forall i, j | 0 <= i < j < |p.allowed| :: p.allowed[i] != p.allowed[j])
      && (p.allowed != [] ==> forall i | 0 <= i < |p.defaults| :: p.defaults[i] in p.allowed)
  }

  predicate Positional(p: Parameter) {
    p.position != NO_POSITION
  }

  ghost predicate Placed(p: Parameter, root: bool) {
    if root then p.longName != [] && !Positional(p) && !p.flags.required && p.configKey == []
    else
      && (Positional(p) <==> p.longName == [])
      && (Positional(p) ==> p.kind == TEXT && !p.flags.repeatable)
  }

  ghost predicate ParameterOk(p: Parameter, root: bool) {
    && !p.flags.unknown && (p.kind == TEXT || p.kind == FLAG)
    && TextOk(p.id, MAX_IDENTIFIER) && StableId(p.id)
    && TextOk(p.longName, MAX_NAME) && TextOk(p.help, MAX_HELP) && TextOk(p.valueName, MAX_VALUE_NAME)
    && TextOk(p.configKey, MAX_IDENTIFIER) && (p.configKey != [] ==> StableId(p.configKey))
    && TextsOk(p.defaults, MAX_DEFAULTS) && TextsOk(p.allowed, MAX_ALLOWED)
    && Placed(p, root)
    && (p.longName != [] ==> VisibleName(p.longName) && !Reserved(p.longName))
    && ValuesConsistent(p)
  }

  /** What keeps a parameter out, wherever it is declared. */
  lemma RefusedParameters(p: Parameter, root: bool)
    ensures p.flags.unknown || (p.kind != 1 && p.kind != 2) ==> !ParameterOk(p, root)
    ensures p.id == [] || |p.id| > 128 || |p.longName| > 64 || |p.help| > 4096 || |p.valueName| > 64 || |p.configKey| > 128
            ==> !ParameterOk(p, root)
    ensures |p.defaults| > 256 || |p.allowed| > 1024 ==> !ParameterOk(p, root)
    ensures forall t | t in [p.id, p.longName, p.help, p.valueName, p.configKey] + p.defaults + p.allowed ::
              0 in t || !WellFormed(t) || |t| > 65536 ==> !ParameterOk(p, root)
    ensures forall c: bv8 | c in p.id || c in p.configKey ::
              !(0x61 <= c <= 0x7A || 0x41 <= c <= 0x5A || 0x30 <= c <= 0x39 || c == 0x5F || c == 0x2D || c == 0x2E) ==> !ParameterOk(p, root)
    ensures forall c: bv8 | c in p.longName :: !(0x61 <= c <= 0x7A || 0x30 <= c <= 0x39 || c == 0x2D) ==> !ParameterOk(p, root)
    ensures p.longName == [0x68, 0x65, 0x6C, 0x70] || p.longName == [0x76, 0x65, 0x72, 0x73, 0x69, 0x6F, 0x6E] ==> !ParameterOk(p, root)
    ensures root && (p.longName == [] || p.position != 0xFFFF_FFFF || p.flags.required || p.configKey != []) ==> !ParameterOk(p, root)
    ensures !root && (p.position != 0xFFFF_FFFF <==> p.longName != []) ==> !ParameterOk(p, root)
    ensures !root && p.longName == [] && (p.kind != 1 || p.flags.repeatable) ==> !ParameterOk(p, root)
    ensures p.kind == 2 && (p.flags.repeatable || p.valueName != [] || p.defaults != [] || p.allowed != []) ==> !ParameterOk(p, root)
    ensures p.kind == 1 && ((!p.flags.repeatable && |p.defaults| > 1) || (p.flags.required && p.defaults != [])) ==> !ParameterOk(p, root)
    ensures p.kind == 1 && p.allowed != [] && (exists d :: d in p.defaults && d !in p.allowed) ==> !ParameterOk(p, root)
    ensures p.kind == 1 && (exists i, j :: 0 <= i < j < |p.allowed| && p.allowed[i] == p.allowed[j]) ==> !ParameterOk(p, root)
  {
    hide WellFormed;
    if ParameterOk(p, root) {
      forall c: bv8 | c in p.id || c in p.configKey
        ensures 0x61 <= c <= 0x7A || 0x41 <= c <= 0x5A || 0x30 <= c <= 0x39 || c == 0x5F || c == 0x2D || c == 0x2E
      {
        assert StableByte(c);
      }
      forall c: bv8 | c in p.longName ensures 0x61 <= c <= 0x7A || 0x30 <= c <= 0x39 || c == 0x2D {
        var i :| 0 <= i < |p.longName| && p.longName[i] == c;
      }
    }
  }

  function TotalSize(ts: seq<Bytes>): nat {
    if ts == [] then 0 else TotalSize(ts[..|ts| - 1]) + |ts[|ts| - 1]|
  }

  /** What copying a parameter costs of the per-plugin budget. */
  function ParameterCost(p: Parameter): nat {
    |p.id| + |p.longName| + |p.help| + |p.valueName| + |p.configKey|
    + TEXT_WIDTH * |p.defaults| + TotalSize(p.defaults) + TEXT_WIDTH * |p.allowed| + TotalSize(p.allowed)
  }

  function ParametersCost(ps: seq<Parameter>): nat {
    if ps == [] then 0 else ParametersCost(ps[..|ps| - 1]) + ParameterCost(ps[|ps| - 1])
  }

  // ---- one command ------------------------------------------------------------------------------

  /** Two parameters of one command that may stand side by side. */
  predicate Apart(p: Parameter, q: Parameter) {
    && p.id != q.id
    && (p.longName != [] ==> p.longName != q.longName)
    && (Positional(p) ==> p.position != q.position)
    && (p.configKey != [] ==> p.configKey != q.configKey)
  }

  function Positionals(ps: seq<Parameter>): (r: seq<Parameter>)
    ensures forall k | 0 <= k < |r| :: r[k] in ps && Positional(r[k])
  {
    if ps == [] then []
    else if Positional(ps[|ps| - 1]) then Positionals(ps[..|ps| - 1]) + [ps[|ps| - 1]]
    else Positionals(ps[..|ps| - 1])
  }

  /** Positional indices are exactly 0..n-1, and the required ones come first. */
  ghost predicate PositionsOk(ps: seq<Parameter>) {
    && (forall i | 0 <= i < |ps| && Positional(ps[i]) :: ps[i].position < |Positionals(ps)|)
    && (forall i, j | 0 <= i < |ps| && 0 <= j < |ps| && Positional(ps[i]) && Positional(ps[j])
          && ps[i].position < ps[j].position && ps[j].flags.required :: ps[i].flags.required)
  }

  ghost predicate LocallyUnique(ps: seq<Parameter>) {
    forall i, j | 0 <= i < j < |ps| :: Apart(ps[j], ps[i])
  }

  ghost predicate CommandOk(c: Command) {
    && !c.flagged && |c.parameters| <= MAX_PARAMETERS
    && TextOk(c.id, MAX_IDENTIFIER) && StableId(c.id)
    && TextOk(c.name, MAX_NAME) && VisibleName(c.name) && !Reserved(c.name)
    && TextOk(c.help, MAX_HELP)
    && (forall i | 0 <= i < |c.parameters| :: ParameterOk(c.parameters[i], false))
    && LocallyUnique(c.parameters) && PositionsOk(c.parameters)
  }

  function CommandCost(c: Command): nat {
    |c.id| + |c.name| + |c.help| + PARAMETER_WIDTH * |c.parameters| + ParametersCost(c.parameters)
  }

  function CommandsCost(cs: seq<Command>): nat {
    if cs == [] then 0 else CommandsCost(cs[..|cs| - 1]) + CommandCost(cs[|cs| - 1])
  }

  // ---- one manifest -----------------------------------------------------------------------------

  function ManifestCost(m: Manifest): nat {
    PARAMETER_WIDTH * |m.roots| + COMMAND_WIDTH * |m.commands| + ParametersCost(m.roots) + CommandsCost(m.commands)
  }

  /** Two command parameters may feed the same configuration key. */
  predicate SameShape(p: Parameter, q: Parameter) {
    p.kind == q.kind && p.flags.sensitive == q.flags.sensitive
  }

  /** Root parameters own their keys; commands share a key only with the same kind and sensitivity. */
  ghost predicate KeysOk(m: Manifest) {
    && (forall r, c, i | 0 <= r < |m.roots| && 0 <= c < |m.commands| && 0 <= i < |m.commands[c].parameters| ::
          m.commands[c].parameters[i].configKey != [] ==> m.commands[c].parameters[i].configKey != m.roots[r].id)
    && (forall a, b, i, j | 0 <= a < b < |m.commands| && 0 <= i < |m.commands[a].parameters| && 0 <= j < |m.commands[b].parameters| ::
          m.commands[a].parameters[i].configKey != []
          && m.commands[a].parameters[i].configKey == m.commands[b].parameters[j].configKey
          ==> SameShape(m.commands[a].parameters[i], m.commands[b].parameters[j]))
  }

  ghost predicate ManifestOk(m: Manifest) {
    && !m.flagged && |m.roots| <= MAX_ROOTS && |m.commands| <= MAX_COMMANDS
    && (forall i | 0 <= i < |m.roots| :: ParameterOk(m.roots[i], true))
    && (forall i | 0 <= i < |m.commands| :: CommandOk(m.commands[i]))
    && ManifestCost(m) <= MAX_COPY
    && KeysOk(m)
  }
}
