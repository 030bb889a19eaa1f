/** What the context services answer, and why, as functions of the engine's tables. */
module RackVerdicts {
  import opened Base
  import opened RackProtocol
  import opened RackState
  import opened RackSteps

  const TEXT_LIMIT: nat := 64 * 1024
  const ANNOUNCE_LIMIT: nat := 4096

  datatype Options = Options(eventCapacity: nat, payloadLimit: nat, outputLimit: nat, dispatchBudget: nat)

  datatype Selector = ByName(name: Bytes) | ById(id: Word)

  function CheckKey(text: Bytes): Status {
    if |text| > TEXT_LIMIT then LimitExceeded else if text == [] then InvalidArgument else Ok
  }

  /** Event names beginning "u42." belong to the host. */
  predicate ReservedName(name: Bytes) {
    |name| >= 4 && name[..4] == [0x75, 0x34, 0x32, 0x2e]
  }

  predicate Discloses(methods: seq<MethodInfo>, wanted: Selector) {
    exists i | 0 <= i < |methods| ::
      match wanted case ByName(n) => methods[i].name == n case ById(k) => methods[i].id == k
  }

  ghost predicate Registered(s: State, o: Owner) {
    o.Plugin? ==> o.id in s.records && s.records[o.id].gen == o.gen
  }

  ghost function PhaseOf(s: State, o: Owner): Option<Phase> {
    if o.Plugin? && o.id in s.records && s.records[o.id].gen == o.gen then Some(s.records[o.id].phase) else None
  }

  ghost function LeaseOn(s: State, self: Owner, id: Bytes): LeaseInfo {
    if id in s.records then LeaseInfo(self, id, s.records[id].gen, s.records[id].version)
    else LeaseInfo(self, id, 0, Version(0, 0, 0))
  }

  ghost function AcquireVerdict(s: State, self: Owner, id: Bytes, allowed: VersionRange, receiver: bool): Status {
    if !receiver || !ValidRange(allowed) then InvalidArgument
    else if s.shutting then InvalidState
    else if self.Plugin? && PhaseOf(s, self) != Some(Initialized) && PhaseOf(s, self) != Some(Active) then InvalidState
    else if CheckKey(id) != Ok then CheckKey(id)
    else if id !in s.records || !s.records[id].published then NotFound
    else if s.records[id].phase != Active || !s.records[id].live then InvalidState
    else if !Accepts(allowed, s.records[id].version) then Unsupported
    else if s.nextToken == 0 then LimitExceeded
    else Ok
  }

  ghost function ReleaseVerdict(s: State, self: Owner, c: Token): Status {
    if c == 0 then InvalidArgument
    else if c !in s.leases then Stale
    else if s.leases[c].info.consumer != self then InvalidArgument
    else if s.leases[c].activeCalls != 0 then Busy
    else Ok
  }

  /** Everything a business call checks before it enters the provider. */
  ghost function CallVerdict(s: State, self: Owner, c: Token, wanted: Selector, size: nat, limit: nat): Status
  {
    if c == 0 then InvalidArgument
    else if wanted.ByName? && CheckKey(wanted.name) != Ok then CheckKey(wanted.name)
    else if c !in s.leases then Stale
    else if s.leases[c].info.consumer != self then InvalidArgument
    else
      var p := s.leases[c].info.provider;
      if p !in s.records || s.records[p].gen != s.leases[c].info.gen then Stale
      else if !s.records[p].published then NotFound
      else if s.records[p].phase != Active || !s.records[p].live then InvalidState
      else if self.Plugin? && PhaseOf(s, self) != Some(Active) then InvalidState
      else if s.shutting then InvalidState
      else if size > limit then LimitExceeded
      else if !Discloses(s.records[p].methods, wanted) then NotFound
      else if !s.records[p].invoker then Failed
      else if s.records[p].depth != 0 then Busy
      else Ok
  }

  lemma AcquirePermitted(s: State, self: Owner, id: Bytes, allowed: VersionRange)
    requires Core(s) && AcquireVerdict(s, self, id, allowed, true) == Ok
    ensures Permitted(s.ledger, Leased(s.nextToken, LeaseOn(s, self, id)))
  {
    hide RecordsOk, LeasesOk, NoticesOk, DeferredOk, OrderOk, Sound;
    RecordFacts(s, id);
    if self.Plugin? { RecordFacts(s, self.id); }
    NextTokenIsNew(s);
  }

  lemma ReleasePermitted(s: State, self: Owner, c: Token)
    requires Core(s) && ReleaseVerdict(s, self, c) == Ok
    ensures Permitted(s.ledger, Returned(c))
  {
    hide RecordsOk, TokensOk, NoticesOk, DeferredOk, OrderOk, Sound;
  }

  /** Everything the call checks adds up to: the provider may be entered, under this lease. */
  lemma CallPermitted(s: State, self: Owner, c: Token, wanted: Selector, size: nat, limit: nat)
    requires Core(s) && CallVerdict(s, self, c, wanted, size, limit) == Ok
    ensures c in s.leases && Permitted(s.ledger, CallOpened(c))
    ensures Callable(CallBegun(s, c), s.leases[c].info.provider, Invoke(c))
  {
    hide Core, CalmTo, Discloses;
    LeaseFacts(s, c);
    var p := s.leases[c].info.provider;
    RecordFacts(s, p);
    if self.Plugin? { RecordFacts(s, self.id); }
    CallBegunCore(s, c);
  }

  predicate Growing(phase: Phase) {
    phase == Initializing || phase == Initialized || phase == Starting || phase == Active
  }

  predicate Receives(phase: Phase) {
    phase == Initialized || phase == Active
  }

  ghost predicate MayGrow(s: State, self: Owner) {
    PhaseOf(s, self).Some? && Growing(PhaseOf(s, self).value)
  }

  ghost function SubscribeVerdict(s: State, self: Owner, name: Bytes): Status {
    if name == [] then InvalidArgument
    else if s.shutting || !MayGrow(s, self) then InvalidState
    else if s.nextToken == 0 then LimitExceeded
    else Ok
  }

  ghost function WatchVerdict(s: State, self: Owner): Status {
    if s.shutting || !MayGrow(s, self) then InvalidState
    else if s.nextToken == 0 then LimitExceeded
    else Ok
  }

  ghost function UnsubscribeVerdict(s: State, self: Owner, t: Token): Status {
    if t == 0 then InvalidArgument
    else if t !in s.subscriptions || s.subscriptions[t].owner != self then Stale
    else Ok
  }

  ghost function UnwatchVerdict(s: State, self: Owner, t: Token): Status {
    if t == 0 then InvalidArgument
    else if t !in s.watches then Stale
    else if s.watches[t] != self then InvalidArgument
    else Ok
  }

  ghost function PublishVerdict(s: State, self: Owner, name: Bytes, payload: Bytes, options: Options): Status {
    if name == [] || ReservedName(name) then InvalidArgument
    else if self.Plugin? && PhaseOf(s, self) != Some(Active) then InvalidState
    else if |payload| > options.payloadLimit || |s.events| >= options.eventCapacity then LimitExceeded
    else Ok
  }

  /** What is wrong with one announced method, given the ones before it. */
  function MethodFault(methods: seq<MethodInfo>, i: nat): Status
    requires i < |methods|
  {
    if |methods[i].name| > TEXT_LIMIT then LimitExceeded
    else if methods[i].name == [] then InvalidArgument
    else if exists j | 0 <= j < i :: methods[j].id == methods[i].id || methods[j].name == methods[i].name then Duplicate
    else Ok
  }

  ghost function AnnounceGate(s: State, self: Owner, count: nat): Status {
    if count > ANNOUNCE_LIMIT then LimitExceeded
    else if PhaseOf(s, self) != Some(Starting) || s.records[self.id].announced then InvalidState
    else Ok
  }

  // ---- what the answers mean, condition by condition --------------------------------------------------

  /** The phase of a caller that is the instance it claims to be. */
  ghost predicate CallerIn(s: State, self: Owner, phases: set<Phase>) {
    self.Plugin? && self.id in s.records && s.records[self.id].gen == self.gen && s.records[self.id].phase in phases
  }

  lemma AcquireMeans(s: State, self: Owner, id: Bytes, allowed: VersionRange, receiver: bool)
    ensures var st := AcquireVerdict(s, self, id, allowed, receiver);
            var asked := receiver && !VersionLess(allowed.maximum, allowed.minimum);
            var open := asked && !s.shutting && (self.Plugin? ==> CallerIn(s, self, {Initialized, Active}));
            var named := open && 0 < |id| <= 65536;
            var there := named && id in s.records && s.records[id].published;
            var serving := there && s.records[id].phase == Active && s.records[id].live;
            var fits := serving && !VersionLess(s.records[id].version, allowed.minimum) && !VersionLess(allowed.maximum, s.records[id].version);
            && (st == InvalidArgument <==> !asked || (open && id == []))
            && (st == InvalidState <==> (asked && !open) || (there && !serving))
            && (st == NotFound <==> named && !there)
            && (st == Unsupported <==> serving && !fits)
            && (st == LimitExceeded <==> (open && |id| > 65536) || (fits && s.nextToken == 0))
            && (st == Ok <==> fits && s.nextToken != 0)
  {
  }

  lemma ReleaseMeans(s: State, self: Owner, c: Token)
    ensures var st := ReleaseVerdict(s, self, c);
            && (st == Ok <==> c != 0 && c in s.leases && s.leases[c].info.consumer == self && s.leases[c].activeCalls == 0)
            && (st == Stale <==> c != 0 && c !in s.leases)
            && (st == Busy <==> c != 0 && c in s.leases && s.leases[c].info.consumer == self && s.leases[c].activeCalls > 0)
            && (st == InvalidArgument <==> c == 0 || (c in s.leases && s.leases[c].info.consumer != self))
  {
  }

  /** A call goes through to the provider exactly under these conditions. */
  lemma CallMeans(s: State, self: Owner, c: Token, wanted: Selector, size: nat, limit: nat)
    ensures CallVerdict(s, self, c, wanted, size, limit) == Ok <==>
      && c != 0 && c in s.leases && s.leases[c].info.consumer == self
      && (wanted.ByName? ==> 0 < |wanted.name| <= 65536) && size <= limit
      && !s.shutting && (self.Plugin? ==> CallerIn(s, self, {Active}))
      && s.leases[c].info.provider in s.records
      && var p := s.records[s.leases[c].info.provider];
         && p.gen == s.leases[c].info.gen && p.published && p.phase == Active && p.live && p.invoker && p.depth == 0
         && exists i | 0 <= i < |p.methods| ::
              if wanted.ByName? then p.methods[i].name == wanted.name else p.methods[i].id == wanted.id
  {
    if c in s.leases && s.leases[c].info.provider in s.records {
      var ms := s.records[s.leases[c].info.provider].methods;
      assert forall i | 0 <= i < |ms| ::
          (match wanted case ByName(n) => ms[i].name == n case ById(k) => ms[i].id == k)
          == if wanted.ByName? then ms[i].name == wanted.name else ms[i].id == wanted.id;
    }
  }

  /** What refuses it: the first condition that fails, in this order. */
  lemma CallRefused(s: State, self: Owner, c: Token, wanted: Selector, size: nat, limit: nat)
    requires c in s.leases && c != 0 && s.leases[c].info.consumer == self && (wanted.ByName? ==> 0 < |wanted.name| <= 65536)
    ensures var st, p := CallVerdict(s, self, c, wanted, size, limit), s.leases[c].info.provider;
            var same := p in s.records && s.records[p].gen == s.leases[c].info.gen;
            var there := same && s.records[p].published;
            var serving := there && s.records[p].phase == Active && s.records[p].live;
            var open := serving && (self.Plugin? ==> CallerIn(s, self, {Active})) && !s.shutting;
            && (st == Stale <==> !same)
            && (st == InvalidState <==> there && !open)
            && (st == LimitExceeded <==> open && size > limit)
            && (same && !there ==> st == NotFound)
            && (st == NotFound ==> (same && !there) || (open && size <= limit))
            && (st == Failed ==> open && !s.records[p].invoker)
            && (st == Busy ==> open && s.records[p].depth != 0)
  {
    hide Discloses;
  }

  /** Who may listen: an instance between the beginning of its init() and the beginning of its end. */
  lemma ListenMeans(s: State, self: Owner, name: Bytes)
    ensures var open := !s.shutting && CallerIn(s, self, {Initializing, Initialized, Starting, Active});
            && (SubscribeVerdict(s, self, name) == Ok <==> name != [] && open && s.nextToken != 0)
            && (SubscribeVerdict(s, self, name) == InvalidState <==> name != [] && !open)
            && (SubscribeVerdict(s, self, name) == LimitExceeded <==> name != [] && open && s.nextToken == 0)
            && (SubscribeVerdict(s, self, name) == InvalidArgument <==> name == [])
            && (WatchVerdict(s, self) == Ok <==> open && s.nextToken != 0)
            && (WatchVerdict(s, self) == InvalidState <==> !open)
            && (WatchVerdict(s, self) == LimitExceeded <==> open && s.nextToken == 0)
  {
  }

  lemma UnlistenMeans(s: State, self: Owner, t: Token)
    ensures UnsubscribeVerdict(s, self, t) == Ok <==> t != 0 && t in s.subscriptions && s.subscriptions[t].owner == self
    ensures UnsubscribeVerdict(s, self, t) == Stale <==> t != 0 && (t in s.subscriptions ==> s.subscriptions[t].owner != self)
    ensures UnwatchVerdict(s, self, t) == Ok <==> t != 0 && t in s.watches && s.watches[t] == self
    ensures UnwatchVerdict(s, self, t) == Stale <==> t != 0 && t !in s.watches
  {
  }

  /** The host's own event names are the ones that begin with "u42.". */
  lemma PublishMeans(s: State, self: Owner, name: Bytes, payload: Bytes, options: Options)
    ensures var st := PublishVerdict(s, self, name, payload, options);
            var named := name != [] && !([0x75, 0x34, 0x32, 0x2e] <= name);
            var open := named && (self.Plugin? ==> CallerIn(s, self, {Active}));
            && (st == Ok <==> open && |payload| <= options.payloadLimit && |s.events| < options.eventCapacity)
            && (st == InvalidArgument <==> !named) && (st == InvalidState <==> named && !open)
            && (st == LimitExceeded <==> open && (|payload| > options.payloadLimit || |s.events| >= options.eventCapacity))
  {
    assert |name| >= 4 ==> (name[..4] == [0x75, 0x34, 0x32, 0x2e] <==> [0x75, 0x34, 0x32, 0x2e] <= name);
  }

  /** A method table is in order exactly if names are bounded and not empty, and neither names nor numbers repeat. */
  lemma MethodsMean(methods: seq<MethodInfo>)
    ensures (forall i | 0 <= i < |methods| :: MethodFault(methods, i) == Ok) <==>
      && (forall i | 0 <= i < |methods| :: 0 < |methods[i].name| <= 65536)
      && (forall i, j | 0 <= i < j < |methods| :: methods[i].id != methods[j].id && methods[i].name != methods[j].name)
    ensures forall i | 0 <= i < |methods| && MethodFault(methods, i) == Duplicate ::
              exists j | 0 <= j < i :: methods[j].id == methods[i].id || methods[j].name == methods[i].name
  {
    if forall i | 0 <= i < |methods| :: MethodFault(methods, i) == Ok {
      forall i | 0 <= i < |methods| ensures 0 < |methods[i].name| <= 65536 { assert MethodFault(methods, i) == Ok; }
      forall i, j | 0 <= i < j < |methods| ensures methods[i].id != methods[j].id && methods[i].name != methods[j].name {
        assert MethodFault(methods, j) == Ok;
      }
    }
  }

  lemma AnnounceMeans(s: State, self: Owner, count: nat)
    ensures AnnounceGate(s, self, count) == Ok <==>
              count <= 4096 && CallerIn(s, self, {Starting}) && !s.records[self.id].announced
  {
  }
}
