/**
 * The rack engine: staging, two-phase start, leases, dispatch, teardown. Plugin code is any finite
 * sequence of the operations a plugin can reach (`RunPlugin`), so it may re-enter every operation
 * of this class, including those the engine refuses while a plugin call is on the stack.
 */
module RackEngine {
  import opened Base
  import opened Ordering
  import opened RackProtocol
  import opened RackState
  import opened RackSteps
  import opened RackVerdicts
  import opened RackMoves
  import opened RackAnswers
  import RackTheorems
  import opened RackDispatch
  import opened RackBatch
  import opened RackStage
  import opened RackDown
  import opened PlanRules
  import opened Planner

  // Plugin code nests below host operations; its own depth is measured by `fuel` alone.
  const NoIds: set<Bytes> := {}

  class Engine {
    const options: Options

    var records: map<Bytes, Record>
    var initOrder: seq<Bytes>
    var subscriptions: map<Token, Subscription>
    var watches: map<Token, Owner>
    var leases: map<Token, Lease>
    var events: seq<QueuedEvent>
    var notices: seq<Notice>
    var deferred: seq<Bytes>
    var nextToken: Token
    var nextGen: Gen
    var depth: nat
    var initializing: bool
    var starting: bool
    var shutting: bool
    var draining: bool
    var retiring: set<Bytes>
    // For every queued unload, the generation it was queued for.
    ghost var deferredGens: seq<Gen>
    ghost var ledger: Ledger
    ghost var trace: seq<Event>

    ghost function Abs(): State
      reads this
    {
      State(records, initOrder, subscriptions, watches, leases, events, notices, deferred, deferredGens,
            nextToken, nextGen, depth, initializing, starting, shutting, draining, retiring, ledger, trace)
    }

    ghost predicate Valid()
      reads this
    {
      && Core(Abs()) && Quiet(Abs())
      && (depth == 0 ==> Orderly(Abs()))
    }

    constructor (options: Options)
      ensures Valid() && this.options == options
      ensures records == map[] && leases == map[] && trace == [] && !shutting && !starting && depth == 0 && retiring == {}
    {
      this.options := options;
      records, initOrder := map[], [];
      subscriptions, watches, leases := map[], map[], map[];
      events, notices, deferred, deferredGens := [], [], [], [];
      nextToken, nextGen, depth := 1, 1, 0;
      initializing, starting, shutting, draining := false, false, false, false;
      retiring := {};
      ledger, trace := EmptyLedger, [];
    }

    /** Append one event to the run's trace. */
    ghost method Note(e: Event)
      requires Permitted(ledger, e)
      modifies `ledger, `trace
      ensures ledger == Step(old(ledger), e) && trace == old(trace) + [e]
    {
      ledger, trace := Step(ledger, e), trace + [e];
    }

    /** Plugin-level activity keeps the engine valid. */
    lemma CalmKeepsValid(s: State)
      requires Core(Abs()) && Calm(s, Abs()) && Quiet(s) && (s.depth == 0 ==> Orderly(s))
      ensures Valid()
    {
      hide Core, Sound;
      if depth == 0 { CalmKeepsOrder(s, Abs()); }
    }

    // ---- context services -----------------------------------------------------------------------

    /** Take the next token; nothing is stored under it. */
    method BurnToken()
      requires Valid() && nextToken != 0
      modifies this
      ensures Valid() && Calm(old(Abs()), Abs()) && Abs() == old(TokenBurned(Abs()))
    {
      hide Core, Quiet, Orderly, CalmTo, Permitted, Step;
      ghost var s := Abs();
      TokenPermitted(s);
      Note(TokenSpent(nextToken));
      nextToken := NextToken(nextToken);
      TokenBurnedCore(s);
      CalmKeepsValid(s);
    }

    lemma FreshCredential(s: State)
      requires Core(s)
      ensures s.nextToken != 0 ==> s.nextToken !in s.leases
    {
      if s.nextToken != 0 { NextTokenIsNew(s); }
    }

    method StoreLease(info: LeaseInfo) returns (credential: Token)
      requires Valid() && !shutting && Permitted(ledger, Leased(nextToken, info))
      modifies this
      ensures Valid() && Calm(old(Abs()), Abs()) && Abs() == old(LeaseTaken(Abs(), info))
      ensures credential == old(nextToken) && records == old(records)
      ensures leases == old(leases)[credential := Lease(info, 0)] && trace == old(trace) + [Leased(credential, info)]
    {
      hide Core, Quiet, Orderly, CalmTo, Permitted, Step;
      ghost var s := Abs();
      credential := nextToken;
      leases := leases[credential := Lease(info, 0)];
      Note(Leased(credential, info));
      nextToken := NextToken(nextToken);
      LeaseTakenCore(s, info);
      CalmKeepsValid(s);
    }

    method Acquire(self: Owner, id: Bytes, allowed: VersionRange, receiver: bool)
      returns (st: Status, credential: Token, version: Version)
      requires Valid() && Registered(Abs(), self)
      modifies this
      ensures Valid() && Calm(old(Abs()), Abs())
      ensures st == old(AcquireVerdict(Abs(), self, id, allowed, receiver))
              || (st == Failed && old(AcquireVerdict(Abs(), self, id, allowed, receiver)) == Ok)
      ensures st == Ok ==>
                && credential == old(nextToken) && version == old(LeaseOn(Abs(), self, id)).version
                && Abs() == old(LeaseTaken(Abs(), LeaseOn(Abs(), self, id)))
      ensures st == Failed ==> Abs() == old(TokenBurned(Abs()))
      ensures st != Ok && st != Failed ==> Abs() == old(Abs())
      ensures st != Ok ==> credential == 0 && leases == old(leases)
      ensures st == Ok ==>
                && id in old(records) && version == old(records[id].version) && credential !in old(leases)
                && leases == old(leases)[credential := Lease(LeaseInfo(self, id, old(records[id].gen), version), 0)]
                && trace == old(trace) + [Leased(credential, LeaseInfo(self, id, old(records[id].gen), version))]
    {
      hide Core, Quiet, Orderly, CalmTo, Permitted, Step;
      CalmReflexive(Abs());
      FreshCredential(Abs());
      hide LeaseTaken;
      credential, version := 0, Version(0, 0, 0);
      if !receiver { return InvalidArgument, credential, version; }
      if !ValidRange(allowed) { return InvalidArgument, credential, version; }
      if shutting { return InvalidState, credential, version; }
      if self.Plugin? && records[self.id].phase != Initialized && records[self.id].phase != Active {
        return InvalidState, credential, version;
      }
      var checked := CheckKey(id);
      if checked != Ok { return checked, credential, version; }
      if id !in records { return NotFound, credential, version; }
      var provider := records[id];
      if !provider.published { return NotFound, credential, version; }
      if provider.phase != Active { return InvalidState, credential, version; }
      if !provider.live { return InvalidState, credential, version; }
      if !Accepts(allowed, provider.version) { return Unsupported, credential, version; }
      if nextToken == 0 { return LimitExceeded, credential, version; }
      AcquirePermitted(Abs(), self, id, allowed);
      var stored: bool := *;
      if !stored {
        BurnToken();
        return Failed, credential, version;
      }
      credential := StoreLease(LeaseInfo(self, id, provider.gen, provider.version));
      return Ok, credential, provider.version;
    }

    lemma TokenPermitted(s: State)
      requires Core(s) && s.nextToken != 0
      ensures Permitted(s.ledger, TokenSpent(s.nextToken))
      ensures forall o: Owner | o.Plugin? :: Permitted(s.ledger, Watched(s.nextToken, o))
    {
      NextTokenIsNew(s);
    }

    method Release(self: Owner, credential: Token) returns (st: Status)
      requires Valid()
      modifies this
      ensures Valid() && Calm(old(Abs()), Abs())
      ensures st == old(ReleaseVerdict(Abs(), self, credential))
      ensures st == Ok ==> Abs() == old(LeaseReturned(Abs(), credential))
      ensures st != Ok ==> Abs() == old(Abs())
      ensures st == Ok ==> leases == old(leases) - {credential} && trace == old(trace) + [Returned(credential)]
    {
      hide Core, Quiet, Orderly, CalmTo, Permitted, Step;
      CalmReflexive(Abs());
      if credential == 0 { return InvalidArgument; }
      if credential !in leases { return Stale; }
      if leases[credential].info.consumer != self { return InvalidArgument; }
      if leases[credential].activeCalls != 0 { return Busy; }
      ghost var s := Abs();
      ReleasePermitted(s, self, credential);
      leases := leases - {credential};
      Note(Returned(credential));
      LeaseReturnedCore(s, credential);
      CalmKeepsValid(s);
      return Ok;
    }

    method Subscribe(self: Owner, name: Bytes) returns (st: Status, token: Token)
      requires Valid() && Registered(Abs(), self) && self.Plugin?
      modifies this
      ensures Valid() && Calm(old(Abs()), Abs())
      ensures st == old(SubscribeVerdict(Abs(), self, name))
              || (st == Failed && old(SubscribeVerdict(Abs(), self, name)) == Ok)
      ensures st == Ok ==> token == old(nextToken) && Abs() == old(SubscriptionAdded(Abs(), self, name))
      ensures st != Ok ==> token == 0 && Abs() == old(Abs())
      ensures st == Ok ==>
                && subscriptions == old(subscriptions)[token := Subscription(self, name)]
                && trace == old(trace) + [Subscribed(token, Subscription(self, name))]
    {
      hide Core, Quiet, Orderly, CalmTo, Permitted, Step;
      CalmReflexive(Abs());
      if name == [] { return InvalidArgument, 0; }
      if shutting { return InvalidState, 0; }
      if !Growing(records[self.id].phase) { return InvalidState, 0; }
      if nextToken == 0 { return LimitExceeded, 0; }
      var stored: bool := *;
      if !stored { return Failed, 0; }
      token := StoreSubscription(self, name);
      return Ok, token;
    }

    method StoreSubscription(self: Owner, name: Bytes) returns (token: Token)
      requires Valid() && self.Plugin? && nextToken != 0
      modifies this
      ensures Valid() && Calm(old(Abs()), Abs())
      ensures token == old(nextToken) && Abs() == old(SubscriptionAdded(Abs(), self, name))
    {
      hide Core, Quiet, Orderly, CalmTo, Permitted, Step;
      ghost var s := Abs();
      SubscriptionAddedCore(s, self, name);
      token := nextToken;
      subscriptions := subscriptions[token := Subscription(self, name)];
      Note(Subscribed(token, Subscription(self, name)));
      nextToken := NextToken(token);
      CalmKeepsValid(s);
    }

    method Unsubscribe(self: Owner, token: Token) returns (st: Status)
      requires Valid()
      modifies this
      ensures Valid() && Calm(old(Abs()), Abs())
      ensures st == old(UnsubscribeVerdict(Abs(), self, token))
      ensures Abs() == if st == Ok then old(SubscriptionDropped(Abs(), token)) else old(Abs())
      ensures st == Ok ==> subscriptions == old(subscriptions) - {token} && trace == old(trace) + [Unsubscribed(token)]
    {
      hide Core, Quiet, Orderly, CalmTo, Permitted, Step;
      ghost var s := Abs();
      CalmReflexive(s);
      if token == 0 { return InvalidArgument; }
      if token !in subscriptions { return Stale; }
      if subscriptions[token].owner != self { return Stale; }
      SubscriptionDroppedCore(s, token);
      subscriptions := subscriptions - {token};
      Note(Unsubscribed(token));
      CalmKeepsValid(s);
      return Ok;
    }

    method Publish(self: Owner, name: Bytes, payload: Bytes) returns (st: Status)
      requires Valid() && Registered(Abs(), self)
      modifies this
      ensures Valid() && Calm(old(Abs()), Abs())
      ensures st == old(PublishVerdict(Abs(), self, name, payload, options))
              || (st == Failed && old(PublishVerdict(Abs(), self, name, payload, options)) == Ok)
      ensures Abs() == if st == Ok then old(Abs()).(events := old(events) + [QueuedEvent(name, payload)]) else old(Abs())
    {
      hide Core, Quiet, Orderly, CalmTo, Permitted, Step;
      ghost var s := Abs();
      CalmReflexive(s);
      if name == [] { return InvalidArgument; }
      if ReservedName(name) { return InvalidArgument; }
      if self.Plugin? && records[self.id].phase != Active { return InvalidState; }
      if |payload| > options.payloadLimit { return LimitExceeded; }
      if |events| >= options.eventCapacity { return LimitExceeded; }
      var stored: bool := *;
      if !stored { return Failed; }
      events := events + [QueuedEvent(name, payload)];
      QueueChange(s, Abs());
      CalmKeepsValid(s);
      return Ok;
    }

    /** The first fault of an announced method table, row by row. */
    method ScanMethods(methods: seq<MethodInfo>) returns (st: Status)
      ensures st == Ok <==> forall i | 0 <= i < |methods| :: MethodFault(methods, i) == Ok
      ensures st != Ok ==> exists i | 0 <= i < |methods| ::
                MethodFault(methods, i) == st && forall j | 0 <= j < i :: MethodFault(methods, j) == Ok
    {
      var i := 0;
      while i < |methods|
        invariant 0 <= i <= |methods|
        invariant forall j | 0 <= j < i :: MethodFault(methods, j) == Ok
      {
        if |methods[i].name| > TEXT_LIMIT { assert MethodFault(methods, i) == LimitExceeded; return LimitExceeded; }
        if methods[i].name == [] { assert MethodFault(methods, i) == InvalidArgument; return InvalidArgument; }
        var known := 0;
        while known < i
          invariant 0 <= known <= i
          invariant forall j | 0 <= j < known :: methods[j].id != methods[i].id && methods[j].name != methods[i].name
        {
          if methods[known].id == methods[i].id || methods[known].name == methods[i].name {
            assert MethodFault(methods, i) == Duplicate;
            return Duplicate;
          }
          known := known + 1;
        }
        assert MethodFault(methods, i) == Ok;
        i := i + 1;
      }
      return Ok;
    }

    method Announce(self: Owner, methods: seq<MethodInfo>) returns (st: Status)
      requires Valid() && Registered(Abs(), self)
      modifies this
      ensures Valid() && Calm(old(Abs()), Abs())
      ensures old(AnnounceGate(Abs(), self, |methods|)) != Ok ==> st == old(AnnounceGate(Abs(), self, |methods|))
      ensures old(AnnounceGate(Abs(), self, |methods|)) == Ok && st == Ok ==>
                forall i | 0 <= i < |methods| :: MethodFault(methods, i) == Ok
      ensures st != Ok && st != Failed && old(AnnounceGate(Abs(), self, |methods|)) == Ok ==>
                exists i | 0 <= i < |methods| :: MethodFault(methods, i) == st
      ensures st == Ok ==> self.Plugin? && self.id in old(records) && Abs() == old(Announced(Abs(), self.id, methods))
      ensures st == Ok ==> records == old(records)[self.id := old(records[self.id]).(methods := methods, announced := true)]
      ensures st != Ok ==> Abs() == old(Abs())
    {
      hide Core, Quiet, Orderly, CalmTo, Permitted, Step;
      CalmReflexive(Abs());
      if |methods| > ANNOUNCE_LIMIT { return LimitExceeded; }
      if self.Admin? { return InvalidState; }
      if records[self.id].phase != Starting || records[self.id].announced { return InvalidState; }
      var scanned := ScanMethods(methods);
      if scanned != Ok { return scanned; }
      var stored: bool := *;
      if !stored { return Failed; }
      StoreMethods(self.id, methods);
      return Ok;
    }

    method StoreMethods(id: Bytes, methods: seq<MethodInfo>)
      requires Valid() && id in records && records[id].phase == Starting && !records[id].announced
      modifies this
      ensures Valid() && Calm(old(Abs()), Abs()) && Abs() == old(Announced(Abs(), id, methods))
    {
      hide Core, Quiet, Orderly, CalmTo, Permitted, Step;
      ghost var s := Abs();
      StartingIsUnpublished(s, id);
      records := records[id := records[id].(methods := methods, announced := true)];
      AnnouncedCore(s, id, methods);
      CalmKeepsValid(s);
    }

    lemma StartingIsUnpublished(s: State, id: Bytes)
      requires Core(s) && id in s.records && s.records[id].phase == Starting
      ensures !s.records[id].published
    {
      hide Core;
      RecordFacts(s, id);
    }

    /** The notices a new watch starts with: one per instance in service, walking the registry in order. */
    method SnapshotNotices(w: Token) returns (notes: seq<Notice>)
      ensures notes == FirstNotices(w, records) && NewsOfService(notes, w, records)
    {
      notes := [];
      assert Snapshot([], w, records) == [];
      hide Ascending, Snapshot, NewsOfService, BytesLess;
      var order := Ascending(records.Keys);
      assert forall i | 0 <= i < |order| :: order[i] in order;
      var i := 0;
      assert order[..0] == [];
      while i < |order|
        invariant 0 <= i <= |order|
        invariant notes == Snapshot(order[..i], w, records)
      {
        SnapshotNext(order, i, w, records);
        var provider := records[order[i]];
        if provider.published && provider.phase == Active {
          notes := notes + [Notice(w, order[i], provider.gen, true, provider.version)];
        }
        i := i + 1;
      }
      assert order[..i] == order;
      FirstNoticesMean(w, records);
    }

    method StoreWatch(self: Owner) returns (token: Token)
      requires Valid() && self.Plugin? && nextToken != 0
      modifies this
      ensures Valid() && Calm(old(Abs()), Abs())
      ensures token == old(nextToken)
      ensures Abs() == old(WatchAdded(Abs(), self, FirstNotices(nextToken, records)))
    {
      hide Core, Quiet, Orderly, CalmTo, Permitted, Step, FirstNotices, NoticesOk;
      ghost var s := Abs();
      TokenPermitted(s);
      SnapshotOk(s, self);
      FirstNoticesAbout(s);
      token := nextToken;
      var notes := SnapshotNotices(token);
      watches, notices := watches[token := self], notices + notes;
      Note(Watched(token, self));
      nextToken := NextToken(token);
      WatchAddedCore(s, self, notes);
      CalmKeepsValid(s);
    }

    method Watch(self: Owner) returns (st: Status, token: Token)
      requires Valid() && Registered(Abs(), self) && self.Plugin?
      modifies this
      ensures Valid() && Calm(old(Abs()), Abs())
      ensures st == old(WatchVerdict(Abs(), self)) || (st == Failed && old(WatchVerdict(Abs(), self)) == Ok)
      ensures st == Ok ==>
                && token == old(nextToken) && Abs() == old(WatchAdded(Abs(), self, FirstNotices(nextToken, records)))
                && watches == old(watches)[token := self] && trace == old(trace) + [Watched(token, self)] && old(notices) <= notices
                && NewsOfService(notices[|old(notices)|..], token, records)
      ensures st == Failed ==> Abs() == old(TokenBurned(Abs()))
      ensures st != Ok ==> token == 0
      ensures st != Ok && st != Failed ==> Abs() == old(Abs())
    {
      hide Core, Quiet, Orderly, CalmTo, Permitted, Step, FirstNotices;
      CalmReflexive(Abs());
      if shutting { return InvalidState, 0; }
      if !Growing(records[self.id].phase) { return InvalidState, 0; }
      if nextToken == 0 { return LimitExceeded, 0; }
      var stored: bool := *;
      if !stored {
        BurnToken();
        return Failed, 0;
      }
      FirstNoticesMean(nextToken, records);
      hide NewsOfService;
      token := StoreWatch(self);
      return Ok, token;
    }

    method Unwatch(self: Owner, token: Token) returns (st: Status)
      requires Valid()
      modifies this
      ensures Valid() && Calm(old(Abs()), Abs())
      ensures st == old(UnwatchVerdict(Abs(), self, token))
      ensures Abs() == if st == Ok then old(WatchRemoved(Abs(), token)) else old(Abs())
      ensures st == Ok ==> watches == old(watches) - {token} && trace == old(trace) + [Unwatched(token)]
    {
      hide Core, Quiet, Orderly, CalmTo, Step;
      ghost var s := Abs();
      CalmReflexive(s);
      if token == 0 { return InvalidArgument; }
      if token !in watches { return Stale; }
      if watches[token] != self { return InvalidArgument; }
      WatchKnown(s, token);
      watches := watches - {token};
      Note(Unwatched(token));
      WatchRemovedCore(s, token);
      CalmKeepsValid(s);
      return Ok;
    }

    lemma WatchKnown(s: State, token: Token)
      requires Core(s) && token in s.watches
      ensures token in s.ledger.watched
    {
    }

    /** Events come and go without touching an instance. */
    lemma QueueChange(s: State, t: State)
      requires Core(s)
      requires t == s.(events := t.events)
      ensures Core(t) && Calm(s, t)
    {
      hide RecordsOk, LeasesOk, TokensOk, NoticesOk, DeferredOk, OrderOk, Sound;
      QueueCore(s, t);
      assert forall c | c in t.leases :: Carried(s, t, c);
    }

    // ---- calls into plugin code -----------------------------------------------------------------

    method EnterPlugin(id: Bytes, entry: Entry)
      requires Callable(Abs(), id, entry)
      modifies this
      ensures id in old(records) && Core(Abs()) && Abs() == old(Opened(Abs(), id, entry))
    {
      hide Core, Callable, Permitted, Step, Match;
      ghost var s := Abs();
      CallOpens(s, id, entry);
      Note(Entered(PluginFrame(records[id].gen, entry)));
      records := records[id := records[id].(depth := records[id].depth + 1)];
      depth := depth + 1;
    }

    method LeavePlugin(id: Bytes, entry: Entry, status: Status)
      requires id in records && 0 < records[id].depth && 0 < depth
      requires Permitted(ledger, Left(PluginFrame(records[id].gen, entry), status))
      modifies this
      ensures Abs() == old(Closed(Abs(), id, entry, status))
    {
      hide Permitted, Step;
      Note(Left(PluginFrame(records[id].gen, entry), status));
      records := records[id := records[id].(depth := records[id].depth - 1)];
      depth := depth - 1;
    }

    /** One call into an instance, under a call scope: everything the plugin does meanwhile is calm. */
    method CallPlugin(id: Bytes, entry: Entry, fuel: nat) returns (st: Status)
      requires Callable(Abs(), id, entry)
      modifies this
      ensures Core(Abs())
      ensures id in old(records)
      ensures CalmTo(old(Abs()), Abs(), old(LivesAfter(Abs(), id, entry, st)), old(DeedsOf(Abs(), id, entry)))
      ensures old(trace) + [Entered(PluginFrame(old(records[id].gen), entry))] <= trace
      ensures trace[|trace| - 1..] == [Left(PluginFrame(old(records[id].gen), entry), st)]
      ensures entry.OnRevoke? ==> st == Failed || st == if entry.credential in leases then Busy else Ok
      decreases 1, NoIds, fuel, 5
    {
      hide Core, Callable, CalmTo, Permitted, Step, Match, Opened, Closed, LivesAfter, DeedsOf, MayOpen;
      ghost var s := Abs();
      EnterPlugin(id, entry);
      OpenedRunning(s, id, entry);
      RunPlugin(fuel);
      st := *;
      if entry.OnRevoke? && st != Failed { st := if entry.credential in leases then Busy else Ok; }
      ghost var t := Abs();
      CallEnds(s, t, id, entry, st);
      LeavePlugin(id, entry, st);
      ClosedTrace(t, id, entry, st);
      CalmGen(Opened(s, id, entry), t, id);
      CalmTrace(Opened(s, id, entry), t, Opened(s, id, entry).ledger.lives, []);
    }

    /** Plugin code: any finite number of the operations it can reach. */
    method RunPlugin(fuel: nat)
      requires Valid() && 0 < depth
      modifies this
      ensures Valid() && Calm(old(Abs()), Abs())
      decreases 1, NoIds, fuel, 4
    {
      hide Core, CalmTo;
      ghost var s := Abs();
      CalmReflexive(s);
      var steps: nat := *;
      while steps > 0
        invariant Valid() && Calm(s, Abs()) && 0 < depth
      {
        ghost var t := Abs();
        PluginStep(fuel);
        CalmFacts(t, Abs());
        CalmTransitive(s, t, Abs(), s.ledger.lives, []);
        steps := steps - 1;
      }
    }

    /** One thing plugin code may do: use a context service, or call the host back. */
    method PluginStep(fuel: nat)
      requires Valid() && 0 < depth
      modifies this
      ensures Valid() && Calm(old(Abs()), Abs())
      decreases 1, NoIds, fuel, 3
    {
      hide Core, CalmTo, Quiet, Orderly;
      var service: bool := *;
      if service { PluginService(fuel); } else { PluginHostCall(fuel); }
    }

    /** Some service of some registered context, with whatever arguments. */
    method PluginService(fuel: nat)
      requires Valid() && 0 < depth
      modifies this
      ensures Valid() && Calm(old(Abs()), Abs())
      decreases 1, NoIds, fuel, 2
    {
      hide Core, CalmTo, Quiet, Orderly, Announced, FirstNotices, WatchAdded, SubscriptionAdded, LeaseTaken, LeaseReturned, TokenBurned;
      CalmReflexive(Abs());
      var op: nat := *;
      var self: Owner := *;
      var token: Token := *;
      var text: Bytes := *;
      var body: Bytes := *;
      var allowed: VersionRange := *;
      var receiver: bool := *;
      var wanted: Selector := *;
      var methods: seq<MethodInfo> := *;
      if self.Plugin? && (self.id !in records || records[self.id].gen != self.gen) { return; }
      if op == 0 { var _, _, _ := Acquire(self, text, allowed, receiver); }
      else if op == 1 { var _ := Release(self, token); }
      else if op == 2 && 0 < fuel { var _ := Call(self, token, wanted, |body|, fuel); }
      else if op == 3 { var _ := Publish(self, text, body); }
      else if op == 4 { var _ := Announce(self, methods); }
      else if op == 5 { var _ := Unsubscribe(self, token); }
      else if op == 6 { var _ := Unwatch(self, token); }
      else if op == 7 && self.Plugin? { var _, _ := Subscribe(self, text); }
      else if op == 8 && self.Plugin? { var _, _ := Watch(self); }
    }

    /** The structural operations, reached from inside a callback: refused, or only queued. */
    method PluginHostCall(fuel: nat)
      requires Valid() && 0 < depth
      modifies this
      ensures Valid() && Calm(old(Abs()), Abs())
      decreases 1, NoIds, fuel, 2
    {
      hide Core, CalmTo, Quiet, Orderly, Batch, TwoPhase, Swept, Admitted, ValidIdentity, AllDeeds, TeardownOrder, Smooth, NoneFaulted;
      CalmReflexive(Abs());
      var op: nat := *;
      if op == 0 {
        var node: OrderNode := *;
        var version: Version := *;
        var _ := Stage(node, version);
      } else if op == 1 {
        var _ := StartPending();
      } else if op == 2 {
        var id: Bytes := *;
        var _ := UnloadOne(id);
      } else if op == 3 {
        ghost var turns, served;
        var st;
        st, turns, served := Poll();
      } else if op == 4 {
        var _ := ShutdownAll();
      }
    }

    method BeginCall(credential: Token)
      requires Core(Abs()) && credential in leases && Permitted(ledger, CallOpened(credential))
      modifies this
      ensures Core(Abs()) && credential in old(leases) && Abs() == old(CallBegun(Abs(), credential))
    {
      hide Core, Permitted, Step;
      ghost var s := Abs();
      leases := leases[credential := leases[credential].(activeCalls := leases[credential].activeCalls + 1)];
      Note(CallOpened(credential));
      CallBegunCore(s, credential);
    }

    method EndCall(credential: Token)
      requires Core(Abs()) && credential in leases && 0 < leases[credential].activeCalls
      requires Permitted(ledger, CallClosed(credential))
      modifies this
      ensures Core(Abs())
      ensures credential in old(leases) && 0 < old(leases[credential].activeCalls)
      ensures Abs() == old(CallEnded(Abs(), credential))
    {
      hide Core, Permitted, Step;
      ghost var s := Abs();
      leases := leases[credential := leases[credential].(activeCalls := leases[credential].activeCalls - 1)];
      Note(CallClosed(credential));
      CallEndedCore(s, credential);
    }

    /** Hand a result to the caller; the result writer of a plugin caller is plugin code. */
    method DeliverResult(fuel: nat) returns (st: Status)
      requires Core(Abs())
      modifies this
      ensures Core(Abs()) && Calm(old(Abs()), Abs()) && old(trace) <= trace
      decreases 1, NoIds, fuel, 5
    {
      hide Core, CalmTo;
      ghost var s := Abs();
      CalmReflexive(s);
      if depth != 0 {
        RunPlugin(fuel);
        CalmTrace(s, Abs(), s.ledger.lives, []);
      }
      st := *;
    }

    /** Enter the provider under a lease, then deliver its result; the slot is held over both. */
    method CallProvider(credential: Token, fuel: nat) returns (st: Status, ghost back: nat)
      requires Core(Abs()) && 0 < fuel
      requires credential in leases && leases[credential].info.provider in records
      requires Permitted(ledger, CallOpened(credential))
      requires Callable(CallBegun(Abs(), credential), leases[credential].info.provider, Invoke(credential))
      modifies this
      ensures Core(Abs()) && Calm(old(Abs()), Abs())
      ensures old(trace) + [CallOpened(credential),
                            Entered(PluginFrame(old(records[leases[credential].info.provider].gen), Invoke(credential)))] <= trace
      ensures Answers(trace, back, old(records[leases[credential].info.provider].gen), credential, st)
      ensures |old(trace)| < back
      decreases 1, NoIds, fuel, 0
    {
      hide Core, Callable, CalmTo, Permitted, Step, CallBegun, CallEnded, LivesAfter, DeedsOf;
      ghost var s := Abs();
      var provider := leases[credential].info.provider;
      BeginCall(credential);
      ghost var o := Abs();
      CallBegunTrace(s, credential);
      ghost var first := Entered(PluginFrame(s.records[provider].gen, Invoke(credential)));
      assert s.trace + [CallOpened(credential), first] == s.trace + [CallOpened(credential)] + [first];
      st := CallPlugin(provider, Invoke(credential), fuel - 1);
      VisitIsCalm(o, Abs(), provider, Invoke(credential), st);
      back := |trace| - 1;
      ghost var returned := trace;
      if st == Ok {
        ghost var m := Abs();
        st := DeliverResult(fuel - 1);
        CalmTransitive(o, m, Abs(), o.ledger.lives, []);
      }
      ghost var u := Abs();
      CallBracket(s, Abs(), credential);
      EndCall(credential);
      CallEndedTrace(u, credential);
      assert returned <= u.trace;
    }

    /** The provider's answer is at `back`; a failure is passed on at once, after success the result is
        delivered, and the slot on the lease is the last thing given back. */
    ghost predicate Answers(tr: seq<Event>, back: nat, g: Gen, credential: Token, st: Status) {
      && back < |tr| - 1 && tr[back].Left? && tr[back].frame == PluginFrame(g, Invoke(credential))
      && tr[|tr| - 1] == CallClosed(credential)
      && (tr[back].status != Ok ==> st == tr[back].status && |tr| == back + 2)
    }

    method Call(self: Owner, credential: Token, wanted: Selector, size: nat, fuel: nat) returns (st: Status)
      requires Valid() && Registered(Abs(), self) && 0 < fuel
      modifies this
      ensures Valid() && Calm(old(Abs()), Abs())
      ensures old(CallVerdict(Abs(), self, credential, wanted, size, options.payloadLimit)) != Ok ==>
                st == old(CallVerdict(Abs(), self, credential, wanted, size, options.payloadLimit)) && Abs() == old(Abs())
      ensures old(CallVerdict(Abs(), self, credential, wanted, size, options.payloadLimit)) == Ok ==>
                && credential in old(leases) && old(leases[credential].info.provider in records)
                && old(trace) + [CallOpened(credential),
                                 Entered(PluginFrame(old(leases[credential].info.gen), Invoke(credential)))] <= trace
                && exists back | |old(trace)| < back :: Answers(trace, back, old(leases[credential].info.gen), credential, st)
      decreases 1, NoIds, fuel, 1
    {
      hide Core, Quiet, Orderly, CalmTo, Callable, Permitted, Step, Discloses;
      ghost var s := Abs();
      CalmReflexive(s);
      if credential == 0 { return InvalidArgument; }
      if wanted.ByName? && CheckKey(wanted.name) != Ok { return CheckKey(wanted.name); }
      if credential !in leases { return Stale; }
      var lease := leases[credential].info;
      if lease.consumer != self { return InvalidArgument; }
      if lease.provider !in records || records[lease.provider].gen != lease.gen { return Stale; }
      var provider := records[lease.provider];
      if !provider.published { return NotFound; }
      if provider.phase != Active { return InvalidState; }
      if !provider.live { return InvalidState; }
      if self.Plugin? && records[self.id].phase != Active { return InvalidState; }
      if shutting { return InvalidState; }
      if size > options.payloadLimit { return LimitExceeded; }
      if !Discloses(provider.methods, wanted) { return NotFound; }
      if !provider.invoker { return Failed; }
      if provider.depth != 0 { return Busy; }
      CallPermitted(s, self, credential, wanted, size, options.payloadLimit);
      ghost var back;
      st, back := CallProvider(credential, fuel);
      CalmKeepsValid(s);
    }

    // ---- plugin-side code outside any instance ----------------------------------------------------

    /** A factory or an administration revoker runs: the depth is raised, no record is entered. */
    method CallHost(call: HostCall, fuel: nat) returns (st: Status)
      requires Core(Abs()) && Permitted(ledger, Entered(HostFrame(call)))
      modifies this
      ensures Core(Abs()) && Calm(old(Abs()), Abs())
      ensures old(trace) + [Entered(HostFrame(call))] <= trace
      ensures trace[|trace| - 1..] == [Left(HostFrame(call), st)]
      ensures call.AdminRevoke? ==> st == Failed || st == if call.credential in leases then Busy else Ok
      decreases 1, NoIds, fuel, 5
    {
      hide Core, CalmTo, Permitted, Step, HostOpened, HostClosed;
      ghost var s := Abs();
      OpenHost(call);
      HostOpenedTrace(s, call);
      ghost var o := Abs();
      RunPlugin(fuel);
      CalmTrace(o, Abs(), o.ledger.lives, []);
      st := *;
      if call.AdminRevoke? && st != Failed { st := if call.credential in leases then Busy else Ok; }
      ghost var t := Abs();
      HostBracket(s, t, call, st);
      CloseHost(call, st);
      HostClosedTrace(t, call, st);
    }

    method OpenHost(call: HostCall)
      requires Core(Abs()) && Permitted(ledger, Entered(HostFrame(call)))
      modifies this
      ensures Core(Abs()) && 0 < depth && Abs() == old(HostOpened(Abs(), call))
    {
      hide Core, Permitted, Step;
      ghost var s := Abs();
      Note(Entered(HostFrame(call)));
      depth := depth + 1;
      HostOpenedCore(s, call);
    }

    method CloseHost(call: HostCall, status: Status)
      requires Core(Abs()) && 0 < depth && Permitted(ledger, Left(HostFrame(call), status))
      modifies this
      ensures Core(Abs()) && 0 < old(depth) && Abs() == old(HostClosed(Abs(), call, status))
    {
      hide Core, Permitted, Step;
      ghost var s := Abs();
      Note(Left(HostFrame(call), status));
      depth := depth - 1;
      HostClosedCore(s, call, status);
    }

    // ---- publication ------------------------------------------------------------------------------

    /** One notice per watch, in token order, about one instance. */
    method NoticesFor(id: Bytes, available: bool) returns (notes: seq<Notice>)
      requires id in records
      ensures notes == NoticesAbout(AscendingTokens(watches.Keys), id, records[id], available)
    {
      hide AscendingTokens;
      notes := [];
      var order := AscendingTokens(watches.Keys);
      var i := 0;
      while i < |order|
        invariant 0 <= i <= |order|
        invariant notes == NoticesAbout(order[..i], id, records[id], available)
      {
        assert order[..i + 1][..i] == order[..i];
        notes := notes + [Notice(order[i], id, records[id].gen, available, records[id].version)];
        i := i + 1;
      }
      assert order[..i] == order;
    }

    /** Withdrawing queues one notice per watch and unpublishes, or fails and changes no table. */
    method Withdraw(id: Bytes) returns (st: Status)
      requires Valid() && depth == 0 && id in records
      modifies this
      ensures Valid() && Swept(old(Abs()), Abs(), {id}) && Still(old(Abs()), Abs())
      ensures id in records && records == old(records[id := records[id].(published := records[id].published && st != Ok)])
      ensures ledger.lives == old(ledger.lives)
      ensures st == Ok ==> Abs() == old(if records[id].published then Retracted(Abs(), id) else Abs())
      ensures st != Ok ==> st == Failed && Abs() == old(MemoryLost(Abs()))
      ensures st != Ok ==> !Smooth(trace, |old(trace)|)
      ensures st == Ok && old(records[id].published) ==>
                && notices == old(notices + NoticesAbout(AscendingTokens(watches.Keys), id, records[id], false))
                && trace == old(trace + [Withdrawn(records[id].gen)])
    {
      hide Core, Quiet, Orderly, CalmTo, Permitted, Step, Swept, AscendingTokens;
      ghost var s := Abs();
      if !records[id].published {
        CalmReflexive(s);
        CalmIsSwept(s, s);
        SweptWider(s, s, {}, {id});
        assert records == records[id := records[id].(published := false)];
        return Ok;
      }
      var stored: bool := *;
      if !stored {
        LoseMemory();
        CalmIsSwept(s, Abs());
        CalmIsStill(s, Abs());
        SweptWider(s, Abs(), {}, {id});
        assert records == records[id := records[id].(published := true)];
        return Failed;
      }
      Retract(id);
      return Ok;
    }

    /** Storage for a queue ran out; no table changes. */
    method LoseMemory()
      requires Valid()
      modifies this
      ensures Valid() && Calm(old(Abs()), Abs()) && Abs() == old(MemoryLost(Abs()))
      ensures !Smooth(trace, |old(trace)|) && records == old(records) && ledger.lives == old(ledger.lives)
    {
      hide Core, Quiet, Orderly, CalmTo;
      ghost var s := Abs();
      Note(MemoryFailed);
      MemoryLostCore(s);
      CalmKeepsValid(s);
      RoughEnd(trace, |old(trace)|, MemoryFailed);
    }

    method Retract(id: Bytes)
      requires Valid() && depth == 0 && id in records && records[id].published
      modifies this
      ensures Valid() && Swept(old(Abs()), Abs(), {id}) && Still(old(Abs()), Abs())
      ensures Abs() == old(Retracted(Abs(), id))
      ensures id in old(records) && records == old(records[id := records[id].(published := false)])
      ensures ledger.lives == old(ledger.lives)
      ensures notices == old(notices + NoticesAbout(AscendingTokens(watches.Keys), id, records[id], false))
      ensures trace == old(trace + [Withdrawn(records[id].gen)])
    {
      hide Core, Orderly, CalmTo, Permitted, Step, Swept, AscendingTokens, NoticesAbout, Still, Retracted;
      ghost var s := Abs();
      WithdrawPermitted(s, id);
      RetractedFields(s, id);
      Unpublish(id);
    }

    method Unpublish(id: Bytes)
      requires Core(Abs()) && id in records && Permitted(ledger, Withdrawn(records[id].gen))
      modifies this
      ensures Core(Abs()) && id in old(records) && Abs() == old(Retracted(Abs(), id))
      ensures notices == old(notices + NoticesAbout(AscendingTokens(watches.Keys), id, records[id], false))
      ensures trace == old(trace + [Withdrawn(records[id].gen)])
    {
      hide Core, Permitted, Step, AscendingTokens, NoticesAbout;
      ghost var s := Abs();
      var notes := NoticesFor(id, false);
      notices := notices + notes;
      Note(Withdrawn(records[id].gen));
      records := records[id := records[id].(published := false)];
      RetractedCore(s, id);
    }

    // ---- revocation ---------------------------------------------------------------------------------

    /** Ask the holder of one lease to return it. */
    method RevokeOne(credential: Token, fuel: nat) returns (st: Status)
      requires Valid() && depth == 0 && credential in leases && leases[credential].info.gen !in ledger.published
      modifies this
      ensures Valid() && Calm(old(Abs()), Abs())
      ensures AskTurn(old(Abs()), Abs(), credential, st)
      ensures st == Ok ==> credential !in leases
      ensures st != Ok ==> (st == Busy || st == Failed) && !Smooth(trace, |old(trace)|)
      decreases 1, NoIds, fuel, 6
    {
      hide Core, Orderly, CalmTo, Permitted, Step, Callable;
      ghost var s := Abs();
      HolderRegistered(s, credential);
      var holder := leases[credential].info.consumer;
      if holder.Plugin? {
        AtRest(s, holder.id);
        assert leases[credential].activeCalls == 0 && records[holder.id].depth == 0;
        OrderlyAt(s, holder.id);
        RevokeCallable(s, credential, holder.id);
        st := CallPlugin(holder.id, OnRevoke(credential), fuel);
        VisitIsCalm(s, Abs(), holder.id, OnRevoke(credential), st);
        if st != Ok { RoughEnd(trace, |old(trace)|, Left(PluginFrame(s.records[holder.id].gen, OnRevoke(credential)), st)); }
      } else {
        AdminRevokeRule(s, credential);
        st := CallHost(AdminRevoke(credential), fuel);
        if st != Ok { RoughEnd(trace, |old(trace)|, Left(HostFrame(AdminRevoke(credential)), st)); }
      }
      CalmKeepsValid(s);
    }

    lemma OrderlyAt(s: State, id: Bytes)
      requires Orderly(s) && id in s.records
      ensures s.records[id].gen in s.ledger.lives
      ensures Settled(s.records[id], s.ledger.lives[s.records[id].gen], s.starting, id in s.retiring)
    {
    }

    /** Ask every holder of a lease on one instance to return it; Ok exactly when none is left. */
    method Revoke(id: Bytes) returns (st: Status)
      requires Valid() && depth == 0 && id in records && !records[id].published
      modifies this
      ensures Valid() && Calm(old(Abs()), Abs())
      ensures id in old(records) && (st == Ok ==> forall c | c in leases :: leases[c].info.gen != old(records[id].gen))
      ensures st != Ok ==> (st == Busy || st == Failed) && !Smooth(trace, |old(trace)|)
      ensures Solicited(old(Abs()), Abs(), old(records[id].gen), st)
      decreases 2, records.Keys - retiring, 0, 2
    {
      hide Core, Quiet, Orderly, CalmTo, AskTurn, AskPass, Solicited;
      ghost var s := Abs();
      AtRest(s, id);
      var g := records[id].gen;
      var pending := AscendingTokens(set c | c in leases && leases[c].info.gen == g);
      forall k | 0 <= k < |pending| ensures pending[k] in leases && leases[pending[k]].info.gen == g { assert pending[k] in pending; }
      ghost var turns, answers;
      st, turns, answers := AskHolders(pending, g);
      AskedOfAll(pending, turns, answers);
      AllAsked(s, g, pending, turns, answers, st);
      if st == Ok {
        forall c | c in s.leases && s.leases[c].info.gen == g ensures c !in leases { assert c in pending; }
        AllReturned(s, Abs(), g);
      }
    }

    method AskHolders(pending: seq<Token>, ghost g: Gen) returns (st: Status, ghost turns: seq<State>, ghost answers: seq<Status>)
      requires Valid() && depth == 0 && g !in ledger.published
      requires forall k | 0 <= k < |pending| :: pending[k] in leases && leases[pending[k]].info.gen == g
      modifies this
      ensures Valid() && Calm(old(Abs()), Abs())
      ensures AskPass(pending, turns, answers) && turns[0] == old(Abs()) && turns[|pending|] == Abs()
      ensures st == if Failed in answers then Failed else if Busy in answers then Busy else Ok
      ensures st == Ok ==> forall k | 0 <= k < |pending| :: pending[k] !in leases
      ensures st != Ok ==> !Smooth(trace, |old(trace)|)
      decreases 2, records.Keys - retiring, 0, 1
    {
      hide Core, Quiet, Orderly, CalmTo, AskTurn, AskPass;
      ghost var s := Abs();
      CalmReflexive(s);
      forall k | 0 <= k < |pending| ensures pending[k] in s.ledger.issued { LeaseFacts(s, pending[k]); }
      var anyBusy, anyFailed := false, false;
      turns, answers := [s], [];
      NobodyAsked(s);
      var i := 0;
      assert pending[..i] == [];
      while i < |pending|
        invariant 0 <= i <= |pending| && |turns| == i + 1 && turns[0] == s && turns[i] == Abs()
        invariant AskPass(pending[..i], turns, answers) && (anyFailed <==> Failed in answers) && (anyBusy <==> Busy in answers)
        invariant Valid() && Calm(s, Abs()) && depth == 0 && records.Keys == s.records.Keys && retiring == s.retiring && g !in ledger.published
        invariant anyBusy || anyFailed ==> !Smooth(trace, |s.trace|)
        invariant forall k | 0 <= k < |pending| :: pending[k] in ledger.issued
        invariant !anyBusy && !anyFailed ==> forall k | 0 <= k < i :: pending[k] !in leases
      {
        var asked := AskOne(s, pending, g, i);
        AskNext(pending, turns, answers, i, Abs(), asked);
        answers := answers + [asked];
        if asked == Failed { anyFailed := true; } else if asked != Ok { anyBusy := true; }
        turns := turns + [Abs()];
        i := i + 1;
      }
      assert pending[..i] == pending;
      if anyFailed { st := Failed; } else if anyBusy { st := Busy; } else { st := Ok; }
    }

    /** The turn of one lease; an earlier callback may have ended it. */
    method AskOne(ghost s: State, pending: seq<Token>, ghost g: Gen, i: nat) returns (st: Status)
      requires Valid() && Core(s) && Calm(s, Abs()) && depth == 0 && g !in ledger.published && i < |pending|
      requires pending[i] in s.leases && s.leases[pending[i]].info.gen == g
      requires forall k | 0 <= k < |pending| :: pending[k] in ledger.issued
      modifies this
      ensures Valid() && Calm(s, Abs()) && Calm(old(Abs()), Abs())
      ensures depth == 0 && records.Keys == old(records.Keys) && retiring == old(retiring) && g !in ledger.published
      ensures AskTurn(old(Abs()), Abs(), pending[i], st) && (st == Ok || st == Busy || st == Failed)
      ensures st == Ok ==> pending[i] !in leases
      ensures forall k | 0 <= k < |pending| :: pending[k] in ledger.issued && (pending[k] in leases ==> pending[k] in old(leases))
      ensures st != Ok || !old(Smooth(trace, |s.trace|)) ==> !Smooth(trace, |s.trace|)
      decreases 2, records.Keys - retiring, 0, 0
    {
      hide Core, Quiet, Orderly, CalmTo, AskTurn, Smooth;
      ghost var t := Abs();
      CalmReflexive(t);
      if pending[i] !in leases {
        AskSkips(t, pending[i]);
        return Ok;
      }
      LeaseFacts(s, pending[i]);
      CredentialSteady(s, t, pending[i]);
      var fuel: nat := *;
      st := RevokeOne(pending[i], fuel);
      CalmOnward(s, t, Abs());
      CalmFrame(t, Abs(), g);
      forall k | 0 <= k < |pending| ensures pending[k] in ledger.issued && (pending[k] in leases ==> pending[k] in t.leases) {
        CredentialSteady(t, Abs(), pending[k]);
      }
      if st != Ok { RoughStays(trace, |t.trace|, trace, |s.trace|); }
      else if !Smooth(t.trace, |s.trace|) { RoughStays(t.trace, |s.trace|, trace, |s.trace|); }
    }

    lemma CalmFrame(s: State, t: State, g: Gen)
      requires Calm(s, t)
      ensures t.depth == s.depth && t.records.Keys == s.records.Keys && t.retiring == s.retiring
      ensures g in t.ledger.published <==> g in s.ledger.published
    {
    }

    /** Ask an instance that announced methods for its invoke interface. */
    method QueryInvoke(id: Bytes) returns (st: Status, invoker: bool)
      requires Valid() && depth == 0 && id in records && records[id].phase == Active
      modifies this
      ensures Valid() && Calm(old(Abs()), Abs())
      ensures invoker <==> st == Ok
      ensures old(trace) + [Entered(PluginFrame(old(records[id].gen), Query))] <= trace
      ensures trace[|trace| - 1..] == [Left(PluginFrame(old(records[id].gen), Query), st)]
      ensures st != Ok ==> !Faultless(trace, |old(trace)|)
      decreases 2, records.Keys - retiring, 0, 0
    {
      hide Core, Orderly, CalmTo, Callable;
      ghost var s := Abs();
      QueryCallable(s, id);
      var fuel: nat := *;
      st := CallPlugin(id, Query, fuel);
      VisitIsCalm(s, Abs(), id, Query, st);
      CalmKeepsValid(s);
      // An answer without an interface counts as a failed one.
      if st != Ok { FaultEnd(trace, |s.trace|, Left(PluginFrame(s.records[id].gen, Query), st)); }
      return st, st == Ok;
    }

    /** Storage for the notices is found for all of them, or no table changes. */
    method QueueNews(id: Bytes, invoker: bool) returns (st: Status)
      requires Valid() && depth == 0 && id in records && records[id].phase == Active && !shutting
      requires records[id].gen !in ledger.everPublished && (records[id].methods != [] ==> invoker)
      modifies this
      ensures Valid() && (st == Ok ==> Swept(old(Abs()), Abs(), {id}) && Still(old(Abs()), Abs()))
      ensures st != Ok ==> Calm(old(Abs()), Abs()) && !Faultless(trace, |old(trace)|) && records == old(records)
      ensures st == Ok ==>
                && records == old(records[id := records[id].(published := true, invoker := invoker)])
                && ledger.lives == old(ledger.lives) && watches == old(watches)
                && notices == old(notices + NoticesAbout(AscendingTokens(watches.Keys), id, records[id], true))
    {
      hide Core, Quiet, Orderly, CalmTo, Swept, Still, AscendingTokens, NoticesAbout, Committed;
      var stored: bool := *;
      if !stored {
        LoseMemory();
        FaultEnd(trace, |old(trace)|, MemoryFailed);
        return Failed;
      }
      PublishRecord(id, invoker);
      st := Ok;
    }

    method PublishRecord(id: Bytes, invoker: bool)
      requires Valid() && depth == 0 && id in records && records[id].phase == Active && !shutting
      requires records[id].gen !in ledger.everPublished && (records[id].methods != [] ==> invoker)
      modifies this
      ensures Valid() && Swept(old(Abs()), Abs(), {id}) && Still(old(Abs()), Abs())
      ensures id in old(records) && Abs() == old(Committed(Abs(), id, invoker))
      ensures records == old(records[id := records[id].(published := true, invoker := invoker)])
      ensures ledger.lives == old(ledger.lives) && watches == old(watches)
      ensures notices == old(notices + NoticesAbout(AscendingTokens(watches.Keys), id, records[id], true))
    {
      hide Core, Orderly, CalmTo, Permitted, Step, Swept, AscendingTokens, NoticesAbout;
      ghost var s := Abs();
      CommitPermitted(s, id);
      var notes := NoticesFor(id, true);
      notices := notices + notes;
      Note(Published(records[id].gen));
      records := records[id := records[id].(published := true, invoker := invoker)];
      CommittedCore(s, id, invoker);
      CommittedFields(s, id, invoker);
    }

    /** May the instance publish, and does it answer for the methods it announced? */
    method PrepareCommit(id: Bytes) returns (st: Status, invoker: bool)
      requires Valid() && depth == 0 && id in records && records[id].phase != Starting
      modifies this
      ensures Valid() && Calm(old(Abs()), Abs())
      ensures old(shutting || records[id].phase != Active || records[id].published) ==> st == InvalidState
      ensures st == Ok ==> !old(shutting) && old(records[id].phase) == Active && (invoker <==> old(records[id].methods) != [])
      ensures Queried(old(Abs()), Abs(), id, st)
      ensures st != Ok && !old(shutting || records[id].phase != Active || records[id].published) ==>
                !Faultless(trace, |old(trace)|)
      decreases 2, records.Keys - retiring, 0, 1
    {
      hide Core, Quiet, Orderly, CalmTo;
      CalmReflexive(Abs());
      if shutting { return InvalidState, false; }
      if records[id].phase != Active { return InvalidState, false; }
      if records[id].published { return InvalidState, false; }
      if records[id].methods == [] { return Ok, false; }
      hide Faultless;
      st, invoker := QueryInvoke(id);
    }

    /** An instance that may be published and announced methods was asked for its invoke interface, and
        answered `st`; any other was not entered at all. */
    ghost predicate Queried(s: State, t: State, id: Bytes, st: Status) {
      && id in s.records
      && if !s.shutting && s.records[id].phase == Active && !s.records[id].published && s.records[id].methods != [] then
           && s.trace + [Entered(PluginFrame(s.records[id].gen, Query))] <= t.trace
           && t.trace[|t.trace| - 1..] == [Left(PluginFrame(s.records[id].gen, Query), st)]
         else t == s
    }

    /** Publish the methods of an instance that just started: one notice per watch, or nothing changes. */
    method Commit(id: Bytes) returns (st: Status)
      requires Valid() && depth == 0 && id in records && records[id].phase != Starting
      requires records[id].gen in ledger.everPublished ==> records[id].published
      modifies this
      ensures Valid() && Swept(old(Abs()), Abs(), {id}) && Still(old(Abs()), Abs())
      ensures old(shutting || records[id].phase != Active || records[id].published) ==> st == InvalidState
      ensures st != Ok ==> Calm(old(Abs()), Abs())
      ensures st != Ok && !old(shutting || records[id].phase != Active || records[id].published) ==>
                !Faultless(trace, |old(trace)|)
      ensures id in old(records) && records.Keys == old(records.Keys) && id in records
      ensures records[id] == old(records[id]).(published := st == Ok || old(records[id].published), invoker := records[id].invoker)
      ensures ledger.lives == old(ledger.lives)
      ensures st == Ok ==>
                && (records[id].invoker <==> old(records[id].methods) != [])
                && (exists mid :: Queried(old(Abs()), mid, id, Ok) && mid.trace <= trace)
                && |watches| <= |notices|
                && notices[|notices| - |watches|..] == NoticesAbout(AscendingTokens(watches.Keys), id, records[id], true)
      decreases 2, records.Keys - retiring, 0, 2
    {
      hide Core, Quiet, Orderly, CalmTo, Permitted, Step, Swept, AscendingTokens, NoticesAbout, Committed, NoticeOk, Faultless, Smooth, Queried;
      ghost var s := Abs();
      var invoker;
      st, invoker := PrepareCommit(id);
      ghost var t := Abs();
      CalmAllowsCommit(s, t, id);
      if st != Ok { return; }
      st := QueueNews(id, invoker);
      ghost var u := Abs();
      if st != Ok {
        CalmOnward(s, t, u);
        FaultStays(trace, |t.trace|, trace, |s.trace|);
        CalmAllowsCommit(s, u, id);
        return;
      }
      CalmTrace(t, t, t.ledger.lives, []) by { CalmReflexive(t); }
      SweptFacts(t, Abs(), {id});
      SweptTransitive(s, t, Abs(), {id}, {id});
      assert {id} + {id} == {id};
      TokenCount(watches.Keys);
      NoticesAboutSame(AscendingTokens(watches.Keys), id, t.records[id], records[id]);
    }

    lemma NoticesAboutSame(order: seq<Token>, id: Bytes, r: Record, q: Record)
      requires r.gen == q.gen && r.version == q.version
      ensures NoticesAbout(order, id, r, true) == NoticesAbout(order, id, q, true)
      ensures |NoticesAbout(order, id, r, true)| == |order|
    {
    }

    lemma CommitPermitted(s: State, id: Bytes)
      requires Core(s) && s.depth == 0 && id in s.records && s.records[id].phase == Active
      requires s.records[id].gen !in s.ledger.everPublished
      ensures Permitted(s.ledger, Published(s.records[id].gen))
    {
      hide Core;
      AtRest(s, id);
    }

    /** While its methods are being queried, the record to be committed stays as it was. */
    lemma CalmAllowsCommit(s: State, t: State, id: Bytes)
      requires Core(s) && Calm(s, t) && s.depth == 0 && id in s.records && s.records[id].phase != Starting
      ensures Swept(s, t, {id}) && Still(s, t) && t.records.Keys == s.records.Keys && id in t.records
      ensures t.records[id] == s.records[id] && t.ledger.lives == s.ledger.lives
      ensures t.depth == 0 && t.shutting == s.shutting && t.ledger.everPublished == s.ledger.everPublished
    {
      hide Core;
      CalmIsSwept(s, t);
      SweptWider(s, t, {}, {id});
    }

    lemma TokenCount(tokens: set<Token>)
      ensures |AscendingTokens(tokens)| == |tokens|
    {
      if tokens != {} { TokenCount(tokens - {LeastToken(tokens)}); }
    }

    // ---- dispatch -----------------------------------------------------------------------------------

    /** May a queued callback still be delivered to this owner? */
    predicate Reachable(o: Owner)
      reads this
    {
      o.Plugin? && o.id in records && records[o.id].gen == o.gen && Receives(records[o.id].phase)
    }

    /** Does a queued notice still concern anybody: a reachable watcher and, if it announces an instance,
        that very instance in service? */
    predicate Hearable(n: Notice)
      reads this
    {
      && n.watch in watches && Reachable(watches[n.watch])
      && (n.available ==>
            && n.provider in records && records[n.provider].gen == n.gen
            && records[n.provider].published && records[n.provider].phase == Active)
    }

    method LoseDelivery()
      requires Valid()
      modifies this
      ensures Valid() && Calm(old(Abs()), Abs()) && Abs() == old(DeliveryLost(Abs()))
    {
      hide Core, Quiet, Orderly, CalmTo;
      ghost var s := Abs();
      Note(Dropped);
      DeliveryLostCore(s);
      CalmKeepsValid(s);
    }

    /** Deliver one capability notice, or drop it silently when nobody may hear it any more. */
    method DeliverNotice(n: Notice)
      requires Valid() && depth == 0 && Due(Abs(), n)
      modifies this
      ensures Valid() && Calm(old(Abs()), Abs()) && NoticeTurn(old(Abs()), Abs(), n)
      decreases 2, records.Keys - retiring, 0, 0
    {
      hide Core, Quiet, Orderly, CalmTo, Callable, Due, LivesAfter, DeedsOf;
      ghost var s := Abs();
      CalmReflexive(s);
      if !Hearable(n) { return; }
      var described: bool := *;
      if !described {
        LoseDelivery();
        return;
      }
      var consumer := watches[n.watch];
      AtRest(s, consumer.id);
      assert records[consumer.id].depth == 0;
      NoticeCallable(s, n, consumer.id);
      var fuel: nat := *;
      var st := CallPlugin(consumer.id, OnCapability(n.watch, n.gen, n.available, n.version), fuel);
      VisitIsCalm(s, Abs(), consumer.id, OnCapability(n.watch, n.gen, n.available, n.version), st);
      CalmKeepsValid(s);
    }

    /** Deliver one event to one subscription of the snapshot, if it is still there and may hear it. */
    method DeliverTo(token: Token, e: QueuedEvent)
      requires Valid() && depth == 0
      modifies this
      ensures Valid() && Calm(old(Abs()), Abs()) && EventTurn(old(Abs()), Abs(), token, e)
      decreases 2, records.Keys - retiring, 0, 0
    {
      hide Core, Quiet, Orderly, CalmTo, Callable, LivesAfter, DeedsOf;
      ghost var s := Abs();
      CalmReflexive(s);
      if token !in subscriptions { return; }
      if subscriptions[token].name != e.name { return; }
      var consumer := subscriptions[token].owner;
      if !Reachable(consumer) { return; }
      AtRest(s, consumer.id);
      assert records[consumer.id].depth == 0;
      EventCallable(s, token, consumer.id);
      var fuel: nat := *;
      var st := CallPlugin(consumer.id, OnEvent(token), fuel);
      VisitIsCalm(s, Abs(), consumer.id, OnEvent(token), st);
      CalmKeepsValid(s);
    }

    /** Deliver one event to the subscriptions present now, in token order. */
    method DeliverEvent(e: QueuedEvent)
      requires Valid() && depth == 0
      modifies this
      ensures Valid() && Calm(old(Abs()), Abs()) && EventOffered(old(Abs()), Abs(), e)
      decreases 2, records.Keys - retiring, 0, 1
    {
      hide Core, Quiet, Orderly, CalmTo, AscendingTokens, EventTurn, EventPass, EventOffered;
      ghost var s := Abs();
      CalmReflexive(s);
      var listed: bool := *;
      if !listed {
        LoseDelivery();
        EventLost(s, e);
        return;
      }
      var tokens := AscendingTokens(subscriptions.Keys);
      var i := 0;
      ghost var turns := [s];
      EventStarts(s, tokens, e);
      while i < |tokens|
        invariant 0 <= i <= |tokens| && |turns| == i + 1 && turns[0] == s && turns[i] == Abs()
        invariant EventPass(turns, tokens[..i], e)
        invariant Valid() && Calm(s, Abs()) && depth == 0 && records.Keys == s.records.Keys && retiring == s.retiring
      {
        ghost var t := Abs();
        DeliverTo(tokens[i], e);
        CalmOnward(s, t, Abs());
        EventNext(turns, tokens, e, i, Abs());
        turns := turns + [Abs()];
        i := i + 1;
      }
      assert tokens[..i] == tokens;
      EventHeard(turns, e, s);
    }

    /** Take one queued notice or event, notices first; false when both queues are empty. */
    method DispatchOne() returns (took: bool)
      requires Valid() && depth == 0
      modifies this
      ensures Valid() && Calm(old(Abs()), Abs())
      ensures took <==> old(notices) != [] || old(events) != []
      ensures if took then Dispatched(old(Abs()), Abs()) else Abs() == old(Abs())
      ensures old(notices) != [] ==> NoticeTurn(old(Abs()).(notices := old(notices)[1..]), Abs(), old(notices)[0])
      ensures old(notices) == [] && old(events) != [] ==>
                EventOffered(old(Abs()).(events := old(events)[1..]), Abs(), old(events)[0])
      decreases 2, records.Keys - retiring, 0, 2
    {
      hide Core, Quiet, Orderly, CalmTo, Due, NoticeTurn, EventOffered;
      ghost var s := Abs();
      CalmReflexive(s);
      if notices != [] {
        var n := notices[0];
        NoticeTaken(s);
        notices := notices[1..];
        CalmKeepsValid(s);
        ghost var t := Abs();
        DeliverNotice(n);
        CalmOnward(s, t, Abs());
        return true;
      }
      if events != [] {
        var e := events[0];
        EventTaken(s);
        events := events[1..];
        CalmKeepsValid(s);
        ghost var t := Abs();
        DeliverEvent(e);
        CalmOnward(s, t, Abs());
        return true;
      }
      return false;
    }

    /** The bounded dispatch loop: at most the budget is spent, and work left over is reported. */
    method DispatchQueues() returns (st: Status, ghost turns: seq<State>)
      requires Valid() && depth == 0 && !draining
      modifies this
      ensures Valid() && Calm(old(Abs()), Abs())
      ensures st == if notices == [] && events == [] then Ok else LimitExceeded
      ensures DispatchPass(turns, options.dispatchBudget)
      ensures turns[0] == old(Abs()).(draining := true) && Abs() == turns[|turns| - 1].(draining := false)
      decreases 2, records.Keys - retiring, 0, 3
    {
      hide Core, Quiet, Orderly, CalmTo, Dispatched;
      ghost var s := Abs();
      ghost var t := RaiseDraining(true);
      CalmReflexive(t);
      turns := [t];
      var budget := options.dispatchBudget;
      while budget != 0
        invariant Valid() && Calm(t, Abs()) && depth == 0 && records.Keys == s.records.Keys && retiring == s.retiring
        invariant |turns| + budget == options.dispatchBudget + 1 && turns[0] == t && turns[|turns| - 1] == Abs()
        invariant forall k | 0 <= k < |turns| - 1 :: Dispatched(turns[k], turns[k + 1])
      {
        ghost var u := Abs();
        var took := DispatchOne();
        CalmOnward(t, u, Abs());
        if !took { break; }
        DispatchNext(turns, options.dispatchBudget, Abs());
        turns := turns + [Abs()];
        budget := budget - 1;
      }
      ghost var u := Abs();
      ghost var v := RaiseDraining(false);
      DrainingFramed(s, t, u, v);
      return if notices != [] || events != [] then LimitExceeded else Ok, turns;
    }

    /** Raise or lower the dispatch flag. */
    method RaiseDraining(value: bool) returns (ghost t: State)
      requires Valid()
      modifies this
      ensures Valid() && t == Abs() && Abs() == old(Abs()).(draining := value)
    {
      hide RecordsOk, LeasesOk, TokensOk, NoticesOk, DeferredOk, OrderOk, Sound;
      ghost var s := Abs();
      draining := value;
      QueueCore(s, Abs());
      t := Abs();
    }

    lemma DrainingFramed(s: State, t: State, u: State, v: State)
      requires Calm(t, u) && t == s.(draining := t.draining) && v == u.(draining := s.draining)
      ensures Calm(s, v)
    {
      forall c | c in v.leases ensures Carried(s, v, c) || Fresh(s, v, c) { assert Carried(t, u, c) || Fresh(t, u, c); }
      forall id | id in s.records ensures SameButAnnounced(s.records[id], v.records[id]) {
        assert SameButAnnounced(t.records[id], u.records[id]);
      }
    }

    // ---- teardown of one instance -------------------------------------------------------------------

    /** Drop everything one instance registered: subscriptions, watches, and the leases it holds. */
    method RemoveOwner(id: Bytes)
      requires Core(Abs()) && id in records && Permitted(ledger, OwnerCleared(records[id].gen))
      modifies this
      ensures Core(Abs()) && Calm(old(Abs()), Abs())
      ensures id in old(records) && Abs() == old(OwnerRemoved(Abs(), records[id].gen))
      ensures NotBorrowing(ledger, old(records[id].gen)) && NotListening(ledger, old(records[id].gen))
      ensures OthersLeft(old(Abs()), Abs(), old(records[id].gen))
      ensures records == old(records) && retiring == old(retiring) && depth == old(depth)
    {
      hide Core, CalmTo, Permitted, Step, NotBorrowing, NotListening, OthersLeft, OtherSubscriptions, OtherWatches, OtherLeases;
      ghost var s := Abs();
      var g := records[id].gen;
      subscriptions := OtherSubscriptions(subscriptions, g);
      watches := OtherWatches(watches, g);
      leases := OtherLeases(leases, g);
      Note(OwnerCleared(g));
      OwnerRemovedCore(s, g);
      OthersKept(s, g);
    }

    /** Call destroy() once, with the instance pointer cleared first. */
    method DestroyInstance(id: Bytes)
      requires Core(Abs()) && depth == 0 && id in records && records[id].gen in ledger.lives
      requires Destroyable(records[id].phase, ledger.lives[records[id].gen])
      requires NotBorrowing(ledger, records[id].gen) && NotListening(ledger, records[id].gen)
      modifies this
      ensures Core(Abs()) && id in old(records) && id in records
      ensures Apart(old(Abs()), Abs(), id, [Deed(old(records[id].gen), Destroy)])
      ensures records[id].gen in ledger.lives && ledger.lives[records[id].gen] == Idle(Gone)
      decreases 2, records.Keys - retiring, 0, 0
    {
      hide Core, CalmTo, Callable, LivesAfter, DeedsOf, Permitted, Apart;
      ghost var s := Abs();
      records := records[id := records[id].(live := false)];
      DarkenedCore(s, id);
      ghost var t := Abs();
      assert t == Darkened(s, id);
      EditIsApart(s, t, id);
      DestroyCallable(t, id);
      var fuel: nat := *;
      var st := CallPlugin(id, Destroy, fuel);
      CallIsApart(t, Abs(), id, Destroy, st);
      ApartTransitive(s, t, Abs(), id, [], [Deed(s.records[id].gen, Destroy)]);
      assert [] + [Deed(s.records[id].gen, Destroy)] == [Deed(s.records[id].gen, Destroy)];
    }

    /** Forget a record whose instance is gone, and every queued request that names it. */
    method EraseRecord(id: Bytes)
      requires Core(Abs()) && id in records && records[id].gen in ledger.lives && Departed(ledger.lives[records[id].gen])
      modifies this
      ensures Core(Abs()) && |old(deferred)| == |old(deferredGens)| && Abs() == old(Erased(Abs(), id))
      ensures records == old(records) - {id} && deferred == old(Without(deferred, id))
      ensures id !in old(initOrder) ==> initOrder == old(initOrder)
      ensures forall k | 0 <= k < |old(initOrder)| && old(initOrder)[k] == id :: initOrder == old(initOrder)[..k] + old(initOrder)[k + 1..]
    {
      hide Core, Without, GensWithout, Departed;
      ghost var s := Abs();
      QueuedPairs(s);
      PlaceCut(s, id);
      ErasedCore(s, id);
      initOrder := Without(initOrder, id);
      deferred, deferredGens := Without(deferred, id), GensWithout(deferred, deferredGens, id);
      records := records - {id};
    }

    lemma PlaceCut(s: State, id: Bytes)
      requires Core(s)
      ensures forall k | 0 <= k < |s.initOrder| && s.initOrder[k] == id ::
                Without(s.initOrder, id) == s.initOrder[..k] + s.initOrder[k + 1..]
    {
      hide Without;
      forall k | 0 <= k < |s.initOrder| && s.initOrder[k] == id ensures Without(s.initOrder, id) == s.initOrder[..k] + s.initOrder[k + 1..] {
        WithoutCuts(s.initOrder, id, k);
      }
    }

    /** Destroy an instance that was never initialized, or whose init() failed, and forget it. */
    method DiscardRecord(id: Bytes)
      requires Valid() && depth == 0
      requires id in records ==> records[id].phase == Created || records[id].phase == Initializing
      modifies this
      ensures Valid() && Swept(old(Abs()), Abs(), {id})
      ensures id !in records
      ensures id in old(records) ==>
                && old(records[id].gen) in ledger.lives && ledger.lives[old(records[id].gen)] == Idle(Gone)
                && ledger.history == old(ledger.history + [Deed(records[id].gen, Destroy)])
                && initOrder == old(Without(initOrder, id)) && records.Keys == old(records.Keys) - {id}
      ensures id !in old(records) ==> Abs() == old(Abs())
      decreases 2, records.Keys - retiring, 0, 1
    {
      hide Core, Orderly, CalmTo, Permitted, Apart, Swept, Without, NotBorrowing, NotListening;
      ghost var s := Abs();
      if id !in records {
        CalmReflexive(s);
        CalmIsSwept(s, s);
        SweptWider(s, s, {}, {id});
        return;
      }
      DiscardPermitted(s, id);
      RemoveOwner(id);
      ghost var t := Abs();
      CalmIsApart(s, t, id);
      CalmKeepsRecord(s, t, id);
      DestroyInstance(id);
      ghost var u := Abs();
      ApartTransitive(s, t, u, id, [], [Deed(s.records[id].gen, Destroy)]);
      ApartFacts(s, t, id, []);
      ApartFacts(s, u, id, [] + [Deed(s.records[id].gen, Destroy)]);
      EraseRecord(id);
      ErasedSweeps(s, u, id, [] + [Deed(s.records[id].gen, Destroy)]);
      assert [] + [Deed(s.records[id].gen, Destroy)] == [Deed(s.records[id].gen, Destroy)];
    }

    lemma DiscardPermitted(s: State, id: Bytes)
      requires Core(s) && s.depth == 0 && Quiet(s) && Orderly(s) && id in s.records
      requires s.records[id].phase == Created || s.records[id].phase == Initializing
      ensures s.records[id].gen in s.ledger.lives
      ensures Destroyable(s.records[id].phase, s.ledger.lives[s.records[id].gen])
      ensures Permitted(s.ledger, OwnerCleared(s.records[id].gen))
    {
      hide Core;
      AtRest(s, id);
    }

    /** Calm activity leaves a record that is not starting exactly as it was. */
    lemma CalmKeepsRecord(s: State, t: State, id: Bytes)
      requires Calm(s, t) && id in s.records && s.records[id].phase != Starting
      ensures id in t.records && t.records[id] == s.records[id] && t.ledger.lives == s.ledger.lives
      ensures t.depth == s.depth
    {
    }

    lemma ApartFacts(s: State, t: State, id: Bytes, deeds: seq<Deed>)
      requires Apart(s, t, id, deeds)
      ensures SameFlags(s, t) && t.records.Keys == s.records.Keys && t.initOrder == s.initOrder
      ensures t.ledger.history == s.ledger.history + deeds && t.ledger.inflight == s.ledger.inflight
      ensures forall k | k in s.records :: k in t.records && t.records[k].gen == s.records[k].gen
      ensures s.trace <= t.trace
    {
    }

    /** Drop queued unloads of identities that are not registered: there never are any. */
    method PruneDeferred()
      requires Core(Abs())
      modifies this
      ensures Abs() == old(Abs())
    {
      hide Core;
      QueuedPairs(Abs());
      var kept: seq<Bytes> := [];
      var i := 0;
      while i < |deferred|
        invariant 0 <= i <= |deferred| && kept == deferred[..i] && Abs() == old(Abs())
      {
        if deferred[i] in records { kept := kept + [deferred[i]]; }
        i := i + 1;
      }
      deferred := kept;
    }

    /** stop(), then unregister, destroy and forget; a failed stop() quarantines the record for good. */
    method FinishRetire(id: Bytes) returns (st: Status)
      requires Valid() && depth == 0 && id in records && records[id].phase == Revoking
      requires !records[id].published && forall c | c in leases :: leases[c].info.gen != records[id].gen
      modifies this
      ensures Valid() && Swept(old(Abs()), Abs(), {id})
      ensures id in old(records)
      ensures st == Ok ==>
                && id !in records && records.Keys == old(records.Keys) - {id}
                && old(records[id].gen) in ledger.lives && ledger.lives[old(records[id].gen)] == Idle(Gone)
                && ledger.history == old(ledger.history + [Deed(records[id].gen, Entry.Stop), Deed(records[id].gen, Destroy)])
      ensures st != Ok ==>
                && id in records && records[id].phase == Faulted && records.Keys == old(records.Keys)
                && ledger.history == old(ledger.history + [Deed(records[id].gen, Entry.Stop)])
                && !Smooth(trace, |old(trace)|)
      ensures Answered(old(Abs()), Abs(), old(records[id].gen), st)
      decreases 2, records.Keys - retiring, 0, 3
    {
      hide Core, Orderly, CalmTo, Permitted, Apart, Swept, Callable;
      ghost var s := Abs();
      st := StopInstance(id);
      ghost var t := Abs();
      ApartFacts(s, t, id, [Deed(s.records[id].gen, Entry.Stop)]);
      if st != Ok {
        Quarantine(id);
        ghost var u := Abs();
        ApartTransitive(s, t, u, id, [Deed(s.records[id].gen, Entry.Stop)], []);
        assert [Deed(s.records[id].gen, Entry.Stop)] + [] == [Deed(s.records[id].gen, Entry.Stop)];
        ApartFacts(s, u, id, [Deed(s.records[id].gen, Entry.Stop)]);
        ApartIsSwept(s, u, id, [Deed(s.records[id].gen, Entry.Stop)]);
        ApartKeepsOrder(s, u, id, [Deed(s.records[id].gen, Entry.Stop)]);
        GaveOnward(t.trace, u.trace, |s.trace|, s.records[id].gen, st);
        return;
      }
      DestroyAndErase(id, s);
      GaveOnward(t.trace, trace, |s.trace|, s.records[id].gen, st);
    }

    /** Call stop() on an instance being revoked that lends nothing. */
    method StopInstance(id: Bytes) returns (st: Status)
      requires Valid() && depth == 0 && id in records && records[id].phase == Revoking
      requires !records[id].published && forall c | c in leases :: leases[c].info.gen != records[id].gen
      modifies this
      ensures Core(Abs()) && id in old(records) && Apart(old(Abs()), Abs(), id, [Deed(old(records[id].gen), Entry.Stop)])
      ensures id in records && records[id] == old(records[id]) && records[id].live && records[id].gen in ledger.lives
      ensures ledger.lives[records[id].gen] == Idle(if st == Ok then Halted else HaltFailed)
      ensures old(trace) <= trace && StopGave(trace, |old(trace)|, old(records[id].gen), st)
      ensures st != Ok ==> !Smooth(trace, |old(trace)|)
      decreases 2, records.Keys - retiring, 0, 1
    {
      hide Core, Orderly, CalmTo, Permitted, Apart, Callable;
      ghost var s := Abs();
      OrderlyAt(s, id);
      UnborrowedByTable(s, records[id].gen);
      StopCallable(s, id);
      var fuel: nat := *;
      st := CallPlugin(id, Entry.Stop, fuel);
      CallIsApart(s, Abs(), id, Entry.Stop, st);
      LastGave(trace, |s.trace|, s.records[id].gen, st);
      if st != Ok { RoughEnd(trace, |s.trace|, Left(PluginFrame(s.records[id].gen, Entry.Stop), st)); }
    }

    /** Pin a record whose stop() failed: its resources stay, and stop() is never tried again. */
    method Quarantine(id: Bytes)
      requires Core(Abs()) && depth == 0 && id in records && records[id].phase == Revoking && records[id].live
      requires records[id].gen in ledger.lives && ledger.lives[records[id].gen] == Idle(HaltFailed)
      requires !records[id].published
      modifies this
      ensures Core(Abs()) && Apart(old(Abs()), Abs(), id, [])
      ensures id in old(records) && Abs() == old(Rephased(Abs(), id, Faulted))
    {
      hide Core, Apart;
      ghost var s := Abs();
      AtRest(s, id);
      RephasedCore(s, id, Faulted);
      records := records[id := records[id].(phase := Faulted)];
      EditIsApart(s, Abs(), id);
    }

    /** The second half of a retirement, after stop() succeeded in a run that began at `s`. */
    method DestroyAndErase(id: Bytes, ghost s: State)
      requires Core(Abs()) && Orderly(s) && depth == 0 && Quiet(s) && id in s.records
      requires Apart(s, Abs(), id, [Deed(s.records[id].gen, Entry.Stop)])
      requires id in records && records[id].phase == Revoking && records[id].live && records[id].gen in ledger.lives
      requires ledger.lives[records[id].gen] == Idle(Halted)
      modifies this
      ensures Valid() && Swept(s, Abs(), {id})
      ensures id !in records && records.Keys == s.records.Keys - {id}
      ensures s.records[id].gen in ledger.lives && ledger.lives[s.records[id].gen] == Idle(Gone)
      ensures ledger.history == s.ledger.history + [Deed(s.records[id].gen, Entry.Stop), Deed(s.records[id].gen, Destroy)]
      ensures old(trace) <= trace
      decreases 2, records.Keys - retiring, 0, 2
    {
      hide Core, Orderly, CalmTo, Permitted, Apart, Swept, NotBorrowing, NotListening, OthersLeft, OwnerRemoved;
      ghost var t, g := Abs(), records[id].gen;
      ApartFacts(s, t, id, [Deed(s.records[id].gen, Entry.Stop)]);
      HaltedPermitted(t, id);
      RemoveOwner(id);
      ghost var u := Abs();
      CalmIsApart(t, u, id);
      CalmKeepsRecord(t, u, id);
      assert !HasLeaseReferences(id) by { NoLeaseReferences(u, id); }
      DestroyInstance(id);
      ghost var v := Abs();
      ApartTransitive(t, u, v, id, [], [Deed(g, Destroy)]);
      ApartTransitive(s, t, v, id, [Deed(g, Entry.Stop)], [] + [Deed(g, Destroy)]);
      assert [Deed(g, Entry.Stop)] + ([] + [Deed(g, Destroy)]) == [Deed(g, Entry.Stop), Deed(g, Destroy)];
      assert s.ledger.history + [Deed(g, Entry.Stop), Deed(g, Destroy)]
             == s.ledger.history + [Deed(g, Entry.Stop)] + [Deed(g, Destroy)];
      ApartFacts(t, v, id, [] + [Deed(g, Destroy)]);
      ApartFacts(s, v, id, [Deed(g, Entry.Stop), Deed(g, Destroy)]);
      EraseRecord(id);
      ErasedSweeps(s, v, id, [Deed(g, Entry.Stop), Deed(g, Destroy)]);
    }

    /** Does any lease still point at this record, as provider or as holder? */
    ghost predicate HasLeaseReferences(id: Bytes)
      reads this
      requires id in records
    {
      exists c | c in leases :: leases[c].info.gen == records[id].gen || OwnedBy(leases[c].info.consumer, records[id].gen)
    }

    lemma HaltedPermitted(s: State, id: Bytes)
      requires Core(s) && s.depth == 0 && s.ledger.inflight == multiset{} && id in s.records
      requires s.records[id].gen in s.ledger.lives && s.ledger.lives[s.records[id].gen] == Idle(Halted)
      ensures Permitted(s.ledger, OwnerCleared(s.records[id].gen))
    {
      hide Core;
      AtRest(s, id);
    }

    /** After a successful stop() and the owner's clean-up no lease refers to the instance: the branch
        that would keep it for outstanding borrowings is never taken. */
    lemma NoLeaseReferences(s: State, id: Bytes)
      requires Core(s) && id in s.records && s.records[id].gen in s.ledger.lives
      requires s.ledger.lives[s.records[id].gen] == Idle(Halted) && NotBorrowing(s.ledger, s.records[id].gen)
      ensures forall c | c in s.leases ::
                s.leases[c].info.gen != s.records[id].gen && !OwnedBy(s.leases[c].info.consumer, s.records[id].gen)
    {
      hide Core;
      IdleIsUnborrowed(s, s.records[id].gen);
      forall c | c in s.leases
        ensures s.leases[c].info.gen != s.records[id].gen && !OwnedBy(s.leases[c].info.consumer, s.records[id].gen)
      {
        LeaseFacts(s, c);
      }
    }

    /** Withdraw, let the withdrawal be heard, and have every lease on the instance returned. */
    method QuietDown(id: Bytes) returns (st: Status, ghost rounds: seq<Round>)
      requires Valid() && depth == 0 && id in records && id in retiring && records[id].phase == Revoking
      modifies this
      ensures Valid() && Swept(old(Abs()), Abs(), {id})
      ensures id in old(records) && id in records && records[id].gen == old(records[id].gen) && records[id].phase == Revoking
      ensures st == Ok ==> !records[id].published && forall c | c in leases :: leases[c].info.gen != records[id].gen
      ensures starting || shutting ==> Still(old(Abs()), Abs()) && records.Keys == old(records.Keys)
      ensures st != Ok ==> Blamed(old(Abs()), Abs(), st) && (st == Busy || !Soft(st))
      ensures st == Ok ==>
                exists heard | Soft(heard) ::
                  Heard(old(if records[id].published then Retracted(Abs(), id) else Abs()), Abs(), rounds, options.dispatchBudget, heard)
      decreases 2, records.Keys - retiring, 0, 11
    {
      hide Core, Quiet, Orderly, CalmTo, Swept, Retracted, NoticeOk, Still, Heard, Smooth, MemoryLost;
      ghost var s := Abs();
      rounds := [];
      st := Withdraw(id);
      ghost var t := Abs();
      SweptFacts(s, t, {id});
      if st != Ok { return; }
      st, rounds := HearOut(id);
      ghost var u := Abs();
      SweptOnward(s, t, u, {id});
      if starting || shutting { StillOnward(s, t, u); }
      if !Soft(st) { return; }
      ghost var heard := st;
      st := Revoke(id);
      ghost var v := Abs();
      HeardOnward(t, u, v, rounds, options.dispatchBudget, heard);
      CalmIsSwept(u, v);
      CalmIsStill(u, v);
      CalmFacts(u, v);
      CalmKeepsRecord(u, v, id);
      SweptOnward(s, u, v, {id});
      if starting || shutting { StillOnward(s, u, v); }
      if st != Ok { RoughStays(trace, |u.trace|, trace, |s.trace|); }
    }

    /** Deliver what a withdrawal queued; the record being retired stays through it. */
    method HearOut(id: Bytes) returns (st: Status, ghost rounds: seq<Round>)
      requires Valid() && depth == 0 && id in records && id in retiring && records[id].phase == Revoking
      modifies this
      ensures Valid() && Swept(old(Abs()), Abs(), {})
      ensures id in old(records) && id in records && records[id] == old(records[id])
      ensures starting || shutting ==> Still(old(Abs()), Abs()) && records.Keys == old(records.Keys) && Soft(st)
      ensures Heard(old(Abs()), Abs(), rounds, options.dispatchBudget, st)
      decreases 2, records.Keys - retiring, 0, 10
    {
      hide Core, Quiet, Orderly, CalmTo, Swept, Still, Heard;
      ghost var s := Abs();
      PruneDeferred();
      st, rounds := DrainBounded();
      SweptKeeps(s, Abs(), id);
      SweptFacts(s, Abs(), {});
      if starting || shutting { CalmOnward(s, s, Abs()) by { CalmReflexive(s); } CalmIsStill(s, Abs()); }
    }

    /** The measure of a retirement only shrinks while records leave. */
    lemma MeasureKept(s: State, t: State)
      requires t.records.Keys <= s.records.Keys && t.retiring == s.retiring
      ensures t.records.Keys - t.retiring == s.records.Keys - s.retiring || t.records.Keys - t.retiring < s.records.Keys - s.retiring
    {
    }

    /** What a failed retirement failed on: a setback, or a queued unload of another instance that failed
        hard while the withdrawal was dispatched. */
    ghost predicate Blamed(s: State, t: State, st: Status) {
      !Smooth(t.trace, |s.trace|) || (!Soft(st) && !s.starting && !s.shutting)
    }

    /** Whatever a retirement returned: what became of the record, and which lifecycle calls it made. */
    ghost predicate Retired(s: State, t: State, id: Bytes, st: Status) {
      && id in s.records
      && var g := s.records[id].gen;
      && (st == Ok ==> id !in t.records && g in t.ledger.lives && t.ledger.lives[g] == Idle(Gone))
      && (st != Ok ==>
            && id in t.records && t.records[id].gen == g
            && (t.records[id].phase == Revoking || t.records[id].phase == Faulted))
      && (s.starting || s.shutting ==>
            && t.records.Keys == s.records.Keys - (if st == Ok then {id} else {})
            && t.ledger.history == s.ledger.history + TeardownDeeds(g, st, |t.ledger.history| > |s.ledger.history|))
      && (st != Ok ==> Blamed(s, t, st))
      && Answered(s, t, g, st)
    }

    /** The calls of one retirement: stop and destroy when it succeeded, at most a failed stop otherwise. */
    function TeardownDeeds(g: Gen, st: Status, stopped: bool): seq<Deed> {
      if st == Ok then [Deed(g, Entry.Stop), Deed(g, Destroy)] else if stopped then [Deed(g, Entry.Stop)] else []
    }

    /** Tear one instance down. Re-entry for the same identity is refused; otherwise the record is
        gone afterwards, or pinned: waiting for its leases, or quarantined. */
    method Retire(id: Bytes, active: bool) returns (st: Status)
      requires Valid() && depth == 0
      requires id in records && id !in retiring ==>
                 Retirable(Abs(), id) && (active <==> records[id].phase == Active || records[id].phase == Revoking)
      modifies this
      ensures Valid() && Swept(old(Abs()), Abs(), {id})
      ensures id in old(retiring) ==> st == Busy && Abs() == old(Abs())
      ensures id !in old(retiring) && id !in old(records) ==> st == Ok && Abs() == old(Abs())
      ensures id !in old(retiring) && id in old(records) ==> Retired(old(Abs()), Abs(), id, st)
      decreases 2, records.Keys - retiring, 0, 4
    {
      hide Core, Quiet, Orderly, CalmTo, Swept, Condemned, Smooth, Retired, Retirable, Marking, Unmarking;
      ghost var s := Abs();
      CalmIsSweptAtRest(s);
      SweptWider(s, s, {}, {id});
      if id in retiring { return Busy; }
      if id !in records {
        QueuedPairs(s);
        deferred := Without(deferred, id);
        return Ok;
      }
      BeginRetire(id, active);
      ghost var t := Abs();
      assert t.records.Keys - t.retiring < s.records.Keys - s.retiring by { assert id in s.records.Keys - s.retiring; }
      st := RetireMarked(id, active);
      ghost var u := Abs();
      SweptOnward(Marking(s, id), t, u, {id});
      EndRetire(id);
      MarkerLowered(s, u, id);
      MarkerFields(u, id);
      RetiredOutside(s, t, u, Abs(), id, st);
    }

    /** Raise the retirement marker, drop queued requests for the identity, and start revoking. */
    method BeginRetire(id: Bytes, active: bool)
      requires Valid() && depth == 0 && id !in retiring && Retirable(Abs(), id)
      requires active <==> records[id].phase == Active || records[id].phase == Revoking
      modifies this
      ensures Valid() && Swept(old(Marking(Abs(), id)), Abs(), {id})
      ensures Begun(old(Abs()), Abs(), id)
      ensures depth == 0 && id in records && records.Keys == old(records.Keys) && retiring == old(retiring) + {id}
      ensures records[id].phase == Revoking
      ensures !active ==> !records[id].published && forall c | c in leases :: leases[c].info.gen != records[id].gen
    {
      hide Core, Quiet, Orderly, Permitted, Apart, Swept, Condemned, Marking;
      ghost var s := Abs();
      RetirablePermitted(s, id);
      CondemnedCore(s, id);
      CondemnedApart(s, id);
      CondemnedFields(s, id);
      if !active { InactiveUnborrowed(s, id); }
      Condemn(id);
      CondemnedQuiet(s, id);
      ApartIsSwept(Marking(s, id), Abs(), id, []);
    }

    method Condemn(id: Bytes)
      requires id in records && |deferred| == |deferredGens| && Permitted(ledger, Retiring(records[id].gen))
      modifies this
      ensures |old(deferred)| == |old(deferredGens)| && id in old(records) && Abs() == old(Condemned(Abs(), id))
      ensures deferred == Without(old(deferred), id) && trace == old(trace + [Retiring(records[id].gen)])
    {
      hide Permitted, Step, Without, GensWithout;
      MarkAndForget(id);
      StartRevoking(id);
    }

    method MarkAndForget(id: Bytes)
      requires |deferred| == |deferredGens|
      modifies this
      ensures |old(deferred)| == |old(deferredGens)| && Abs() == old(Undeferred(Marking(Abs(), id), id))
    {
      hide Without, GensWithout;
      retiring := retiring + {id};
      deferred, deferredGens := Without(deferred, id), GensWithout(deferred, deferredGens, id);
    }

    method StartRevoking(id: Bytes)
      requires id in records && Permitted(ledger, Retiring(records[id].gen))
      modifies this
      ensures id in old(records) && Abs() == old(TornDown(Abs(), id))
    {
      hide Permitted, Step;
      records := records[id := records[id].(phase := Revoking)];
      Note(Retiring(records[id].gen));
    }

    /** What a retirement's first step leaves of the state it found. */
    ghost predicate Begun(s: State, t: State, id: Bytes) {
      && id in s.records && id in t.records && t.records[id].gen == s.records[id].gen
      && t.records.Keys == s.records.Keys && t.ledger.history == s.ledger.history && s.trace <= t.trace
      && t.starting == s.starting && t.shutting == s.shutting
    }

    lemma CondemnedQuiet(s: State, id: Bytes)
      requires Quiet(s) && id in s.records && |s.deferred| == |s.deferredGens|
      requires Permitted(s.ledger, Retiring(s.records[id].gen))
      ensures Quiet(Condemned(s, id)) && Begun(s, Condemned(s, id), id)
    {
      hide Condemned, Permitted;
      CondemnedFields(s, id);
    }

    method EndRetire(id: Bytes)
      requires Valid() && depth == 0
      modifies this
      ensures Valid() && Abs() == old(Unmarking(Abs(), id))
    {
      hide Core, Orderly;
      MarkerKeepsCore(Abs(), retiring - {id});
      MarkerKeepsOrder(Abs(), id);
      retiring := retiring - {id};
    }

    lemma RetiredOutside(s: State, t: State, u: State, v: State, id: Bytes, st: Status)
      requires Begun(s, t, id) && Retired(t, u, id, st)
      requires v.records == u.records && v.ledger == u.ledger && v.trace == u.trace && t.trace <= u.trace
      ensures Retired(s, v, id, st)
    {
      hide Smooth, Answered;
      AnsweredOnward(s, t, u, v, s.records[id].gen, st);
      if st != Ok && !Smooth(u.trace, |t.trace|) { RoughStays(u.trace, |t.trace|, u.trace, |s.trace|); }
    }

    lemma InactiveUnborrowed(s: State, id: Bytes)
      requires Core(s) && Orderly(s) && s.depth == 0 && id in s.records
      requires s.records[id].phase == Initialized || s.records[id].phase == Starting
      ensures !s.records[id].published && forall c | c in s.leases :: s.leases[c].info.gen != s.records[id].gen
    {
      hide Core;
      AtRest(s, id);
      forall c | c in s.leases ensures s.leases[c].info.gen != s.records[id].gen { LeaseFacts(s, c); }
    }

    /** A retirement under its marker. */
    method RetireMarked(id: Bytes, active: bool) returns (st: Status)
      requires Valid() && depth == 0 && id in records && id in retiring && records[id].phase == Revoking
      requires !active ==> !records[id].published && forall c | c in leases :: leases[c].info.gen != records[id].gen
      modifies this
      ensures Valid() && Swept(old(Abs()), Abs(), {id}) && Retired(old(Abs()), Abs(), id, st)
      decreases 2, records.Keys - retiring, 0, 12
    {
      hide Core, Quiet, Orderly, CalmTo, Swept, Smooth, Heard, Retracted, Answered;
      ghost var s := Abs();
      CalmIsSweptAtRest(s);
      SweptWider(s, s, {}, {id});
      if active {
        ghost var rounds;
        st, rounds := QuietDown(id);
        SweptOnward(s, s, Abs(), {id});
        if st != Ok {
          AnsweredEarly(s, Abs(), id, st);
          return;
        }
        MeasureKept(s, Abs());
      }
      ghost var t := Abs();
      st := FinishRetire(id);
      SweptOnward(s, t, Abs(), {id});
      AnsweredOnward(s, t, Abs(), Abs(), s.records[id].gen, st);
      if st != Ok { RoughStays(trace, |t.trace|, trace, |s.trace|); }
    }

    lemma Unstopped(s: State, id: Bytes)
      requires Core(s) && Orderly(s) && s.depth == 0 && id in s.records && s.records[id].phase == Revoking
      ensures NeverStopped(s.trace, s.records[id].gen)
    {
      hide Core, RackTheorems.Rank;
      CoreIsLawful(s);
      AtRest(s, id);
      StopReadyRank(s.ledger.lives[s.records[id].gen]);
      NotYetStopped(s.trace, s.records[id].gen);
    }

    /** A retirement that did not come to stop() answers for the engine. */
    lemma AnsweredEarly(s: State, t: State, id: Bytes, st: Status)
      requires Core(t) && Orderly(t) && t.depth == 0 && id in t.records && t.records[id].phase == Revoking
      requires st == Busy || !Soft(st)
      ensures Answered(s, t, t.records[id].gen, st)
    {
      hide Core, Orderly, NeverStopped, StopGave;
      Unstopped(t, id);
    }

    lemma StopReadyRank(life: Life)
      requires life.Idle? && StopReady(life.stage)
      ensures RackTheorems.Rank(life) < 6
    {
    }

    /** Give the dispatcher a few bounded chances to converge. */
    method DrainBounded() returns (st: Status, ghost rounds: seq<Round>)
      requires Valid() && depth == 0
      modifies this
      ensures Valid() && Swept(old(Abs()), Abs(), {})
      ensures Heard(old(Abs()), Abs(), rounds, options.dispatchBudget, st)
      ensures starting || shutting ==> Calm(old(Abs()), Abs()) && Soft(st)
      decreases 2, records.Keys - retiring, 0, 9
    {
      hide Core, Quiet, Orderly, CalmTo, Swept, RoundsSoFar, DrainPass;
      ghost var s := Abs();
      CalmReflexive(s);
      CalmIsSweptAtRest(s);
      st, rounds := Ok, [];
      assert RoundsSoFar(s, rounds, options.dispatchBudget) by { NoRounds(s, options.dispatchBudget); }
      var round := 0;
      while round < DRAIN_ROUNDS
        invariant Valid() && Swept(s, Abs(), {}) && SameFlags(s, Abs()) && records.Keys <= s.records.Keys
        invariant starting || shutting ==> Calm(s, Abs()) && Soft(st)
        invariant 0 <= round <= DRAIN_ROUNDS && |rounds| == round && RoundsSoFar(s, rounds, options.dispatchBudget)
        invariant RoundStart(s, rounds, round) == Abs()
        invariant forall k | 0 <= k < round :: rounds[k].st != Ok && Soft(rounds[k].st)
        invariant round > 0 ==> rounds[round - 1].st == st
      {
        ghost var t := Abs();
        MeasureKept(s, t);
        ghost var turns, served;
        var current;
        current, turns, served := Drain();
        SweptOnward(s, t, Abs(), {});
        if starting || shutting { CalmOnward(s, t, Abs()); }
        RoundNext(s, rounds, Round(Abs(), turns, served, current), options.dispatchBudget);
        rounds := rounds + [Round(Abs(), turns, served, current)];
        CalmReflexive(Abs());
        if current == Ok { return Ok, rounds; }
        st := current;
        if !Soft(current) { return; }
        round := round + 1;
      }
      CalmReflexive(Abs());
    }

    /** Deliver queued work within the budget, then serve the unloads queued meanwhile. */
    method Drain() returns (st: Status, ghost turns: seq<State>, ghost served: seq<State>)
      requires Valid()
      modifies this
      ensures Valid()
      ensures old(depth != 0 || draining) ==> st == Busy && Abs() == old(Abs())
      ensures old(depth == 0 && !draining && initializing) ==> st == Ok && Abs() == old(Abs())
      ensures old(depth == 0 && !draining && !initializing) ==>
                DrainPass(old(Abs()), Abs(), options.dispatchBudget, turns, served, st)
      ensures st == NotFound ==> SomeStopGave(old(Abs()), Abs(), NotFound)
      ensures old(depth) == 0 ==> Swept(old(Abs()), Abs(), {})
      ensures old(depth) == 0 && (starting || shutting) ==> Calm(old(Abs()), Abs()) && Soft(st)
      ensures old(depth == 0 && !draining && !initializing) && (starting || shutting) && st == Ok ==> notices == [] && events == []
      decreases if depth != 0 then 0 else 2, records.Keys - retiring, 0, 8
    {
      hide Core, Quiet, Orderly, CalmTo, Swept, DispatchPass, ServePass;
      ghost var s := Abs();
      turns, served := [], [];
      CalmReflexive(s);
      CalmIsSweptAtRest(s);
      if depth != 0 { return Busy, turns, served; }
      if draining { return Busy, turns, served; }
      if initializing { return Ok, turns, served; }
      st, turns := DispatchQueues();
      ghost var t := Abs();
      CalmOnward(s, s, t);
      CalmIsSwept(s, t);
      if st != Ok { return; }
      if starting { return; }
      st, served := DrainDeferred();
      SweptOnward(s, t, Abs(), {});
      DrainNotFound(s, Abs(), options.dispatchBudget, turns, served, st);
    }

    /** Serve the unloads that were queued when the drain got here; one that fails goes back to the front. */
    method DrainDeferred() returns (st: Status, ghost turns: seq<State>)
      requires Valid() && depth == 0 && !starting
      modifies this
      ensures Valid() && Swept(old(Abs()), Abs(), {})
      ensures shutting ==> st == Ok && Abs() == old(Abs())
      ensures ServePass(turns, old(|deferred|), st) && turns[0] == old(Abs()) && turns[|turns| - 1] == Abs()
      ensures st == NotFound <==> |turns| > 1 && HeadStopGave(turns[|turns| - 2], turns[|turns| - 1], NotFound)
      decreases 2, records.Keys - retiring, 0, 7
    {
      hide Core, Quiet, Orderly, CalmTo, Swept, ServedTurn;
      ghost var s := Abs();
      CalmIsSweptAtRest(s);
      QueuedPairs(s);
      var bound := |deferred|;
      var i := 0;
      turns := [s];
      while i < bound
        invariant Valid() && Swept(s, Abs(), {}) && SameFlags(s, Abs()) && records.Keys <= s.records.Keys
        invariant 0 <= i <= bound && |turns| == i + 1 && turns[0] == s && turns[i] == Abs()
        invariant forall k | 0 <= k < i :: ServedTurn(turns[k], turns[k + 1], Ok)
        invariant shutting ==> bound == 0 && Abs() == s
      {
        if deferred == [] { break; }
        ghost var t := Abs();
        MeasureKept(s, t);
        st := ServeDeferred();
        SweptOnward(s, t, Abs(), {});
        ServedNext(turns, Abs(), st);
        turns := turns + [Abs()];
        if st != Ok {
          ServeNotFound(turns, bound, st);
          return;
        }
        i := i + 1;
      }
      ServeNotFound(turns, bound, Ok);
      return Ok, turns;
    }

    /** Serve the unload at the head of the queue; a failure puts it back where it was. */
    method ServeDeferred() returns (st: Status)
      requires Valid() && depth == 0 && !starting && !shutting && deferred != []
      modifies this
      ensures Valid() && Swept(old(Abs()), Abs(), {}) && ServedTurn(old(Abs()), Abs(), st)
      decreases 2, records.Keys - retiring, 0, 6
    {
      hide Core, Quiet, Orderly, CalmTo, Swept, Forwarded;
      ghost var s := Abs();
      CalmReflexive(s);
      var id := TakeDeferred();
      ghost var t := Abs();
      CalmIsSwept(s, t);
      CalmOnward(s, s, t);
      st := UnloadOne(id);
      ghost var u := Abs();
      SweptOnward(s, t, u, {});
      if st != Ok {
        RestoreDeferred(id);
        CalmIsSwept(u, Abs());
        SweptOnward(s, u, Abs(), {});
      }
      ForwardedOnward(s, t, u, Abs(), s.records[id].gen, st);
    }

    /** The head of the queue names a registered record of the generation it was queued for. */
    method TakeDeferred() returns (id: Bytes)
      requires Valid() && depth == 0 && deferred != []
      modifies this
      ensures Valid() && Calm(old(Abs()), Abs())
      ensures id == old(deferred[0]) && deferred == old(deferred[1..]) && records == old(records) && trace == old(trace)
      ensures id in records && old(deferredGens) == [records[id].gen] + deferredGens
    {
      hide Core, Quiet, Orderly, CalmTo;
      ghost var s := Abs();
      QueuedPairs(s);
      id := deferred[0];
      DeferredTaken(s);
      deferred, deferredGens := deferred[1..], deferredGens[1..];
      CalmKeepsValid(s);
    }

    method RestoreDeferred(id: Bytes)
      requires Valid() && depth == 0 && !shutting && id in records
      modifies this
      ensures Valid() && Calm(old(Abs()), Abs())
      ensures deferred == [id] + old(deferred) && records == old(records) && trace == old(trace)
    {
      hide Core, Quiet, Orderly, CalmTo;
      ghost var s := Abs();
      DeferredAdded(s, s.(deferred := [id] + deferred, deferredGens := [records[id].gen] + deferredGens));
      deferred, deferredGens := [id] + deferred, [records[id].gen] + deferredGens;
      CalmKeepsValid(s);
    }

    /** Unload one instance; from inside a plugin call the request is only queued. */
    method UnloadOne(id: Bytes) returns (st: Status)
      requires Valid() && (depth == 0 ==> !starting)
      modifies this
      ensures Valid()
      ensures old(shutting) ==> st == InvalidState && Abs() == old(Abs())
      ensures !old(shutting) && id !in old(records) ==> st == NotFound && Abs() == old(Abs())
      ensures old(depth) != 0 ==> Calm(old(Abs()), Abs())
      ensures old(depth) != 0 && !old(shutting) && id in old(records) ==>
                st == Deferred && deferred == if id in old(deferred) then old(deferred) else old(deferred) + [id]
      ensures old(depth) == 0 ==> Swept(old(Abs()), Abs(), {})
      ensures old(depth) == 0 && st == Ok ==>
                && id in old(records) && id !in records
                && old(records[id].gen) in ledger.lives && ledger.lives[old(records[id].gen)] == Idle(Gone)
      ensures old(depth) == 0 && st != Ok && id in old(records) ==> id in records && records[id].gen == old(records[id].gen)
      ensures old(depth) == 0 && id in old(records) && old(records[id].phase) == Faulted ==>
                st == InvalidState && Abs() == old(Abs())
      ensures old(depth == 0 && !shutting) && id in old(records) && id !in old(retiring) && st != Ok ==>
                || old(records[id].phase == Faulted || records[id].phase == Initializing || records[id].phase == Starting)
                || Blamed(old(Abs()), Abs(), st)
      ensures old(depth == 0 && !shutting) && id in old(records) ==> Forwarded(old(Abs()), Abs(), old(records[id].gen), st)
      ensures RackTheorems.ListenersKept(old(Abs()), Abs())
      decreases if depth != 0 then 0 else 2, records.Keys - retiring, 0, 5
    {
      hide Core, Quiet, Orderly, CalmTo, Swept;
      ghost var s := Abs();
      CalmReflexive(s);
      CalmIsSweptAtRest(s);
      hide RackTheorems.ListenersKept;
      RackTheorems.RunKeepsListeners(s, s);
      if shutting { return InvalidState; }
      PruneDeferred();
      if depth != 0 {
        if id !in records { return NotFound; }
        if id !in deferred { QueueUnload(id); }
        CalmIsSwept(s, Abs());
        RackTheorems.SweepKeepsListeners(s, Abs(), {});
        return Deferred;
      }
      if id !in records { return NotFound; }
      OrderlyAt(s, id);
      var phase := records[id].phase;
      if phase == Created {
        DiscardRecord(id);
        RackTheorems.SweepKeepsListeners(s, Abs(), {id});
        SweptLoose(s, Abs(), id);
        CoreIsLawful(Abs());
        GoneIsForwarded(s, Abs(), s.records[id].gen);
        return Ok;
      }
      if phase == Initialized || phase == Active || phase == Revoking {
        hide Blamed;
        st := Retire(id, phase != Initialized);
        RackTheorems.SweepKeepsListeners(s, Abs(), {id});
        if id !in s.retiring {
          SweptLoose(s, Abs(), id);
          CoreIsLawful(Abs());
          AnsweredIsForwarded(s, Abs(), s.records[id].gen, st);
        }
        return;
      }
      // Quarantined, stopped, or inside its own lifecycle call.
      return InvalidState;
    }

    method QueueUnload(id: Bytes)
      requires Valid() && depth != 0 && !shutting && id in records
      modifies this
      ensures Valid() && Calm(old(Abs()), Abs()) && deferred == old(deferred) + [id]
    {
      hide Core, Quiet, Orderly, CalmTo;
      ghost var s := Abs();
      DeferredAdded(s, s.(deferred := deferred + [id], deferredGens := deferredGens + [records[id].gen]));
      deferred, deferredGens := deferred + [id], deferredGens + [records[id].gen];
      CalmKeepsValid(s);
    }

    // ---- start batches ------------------------------------------------------------------------------

    /** Move one record to another phase that its instance's life allows. */
    method Rephase(id: Bytes, phase: Phase)
      requires Core(Abs()) && depth == 0 && id in records
      requires (phase.Created? || phase.Initializing?) == (records[id].phase.Created? || records[id].phase.Initializing?)
      requires records[id].gen in ledger.lives && !records[id].published
      requires Match(phase, records[id].live, ledger.lives[records[id].gen], records[id].gen in ledger.retiring)
      modifies this
      ensures Core(Abs()) && Apart(old(Abs()), Abs(), id, [])
      ensures id in old(records) && Abs() == old(Rephased(Abs(), id, phase))
    {
      hide Core, Apart, Match;
      RephasedCore(Abs(), id, phase);
      RephasedApart(Abs(), id, phase);
      records := records[id := records[id].(phase := phase)];
    }

    /** init() one staged instance; success records it in the initialization order. */
    method InitOne(id: Bytes) returns (st: Status)
      requires Valid() && depth == 0 && starting && id in records && records[id].phase == Created
      modifies this
      ensures Valid() && Swept(old(Abs()), Abs(), {id})
      ensures id in old(records) && id in records && records.Keys == old(records.Keys)
      ensures ledger.history == old(ledger.history + [Deed(records[id].gen, Init)])
      ensures st == Ok ==> records[id].phase == Initialized && initOrder == old(initOrder) + [id]
      ensures st != Ok ==> records[id].phase == Initializing && initOrder == old(initOrder)
      ensures st != Ok ==> !Faultless(trace, |old(trace)|)
      decreases 2, records.Keys - retiring, 0, 1
    {
      hide Core, Orderly, CalmTo, Callable, Apart, Swept, Faultless, LivesAfter, DeedsOf;
      ghost var s := Abs();
      CreatedIsMade(s, id);
      Rephase(id, Initializing);
      ghost var t := Abs();
      InitCallable(t, id);
      var fuel: nat := *;
      st := CallPlugin(id, Init, fuel);
      ghost var u, deeds := Abs(), [Deed(s.records[id].gen, Init)];
      CallIsApart(t, u, id, Init, st);
      ApartTransitive(s, t, u, id, [], deeds);
      assert [] + deeds == deeds;
      ApartFacts(s, u, id, deeds);
      if st != Ok {
        FaultEnd(trace, |t.trace|, Left(PluginFrame(s.records[id].gen, Init), st));
        FaultStays(trace, |t.trace|, trace, |s.trace|);
        ApartIsSwept(s, u, id, deeds);
        ApartKeepsOrder(s, u, id, deeds);
        return;
      }
      ReadiedSweeps(s, u, id, deeds);
      MarkInitialized(id);
    }

    method MarkInitialized(id: Bytes)
      requires Core(Abs()) && id in records && records[id].phase == Initializing && records[id].live
      requires records[id].gen in ledger.lives && ledger.lives[records[id].gen] == Idle(Ready)
      modifies this
      ensures Core(Abs()) && id in old(records) && Abs() == old(Readied(Abs(), id))
    {
      hide Core;
      ReadiedCore(Abs(), id);
      records := records[id := records[id].(phase := Initialized)];
      initOrder := initOrder + [id];
    }

    /** start() one initialized instance, publish what it announced, and let its consumers hear of it. */
    method StartOne(id: Bytes) returns (st: Status, ghost committed: State, ghost rounds: seq<Round>)
      requires Valid() && depth == 0 && starting && !shutting && id in records && records[id].phase == Initialized
      modifies this
      ensures Valid() && Swept(old(Abs()), Abs(), {id})
      ensures id in old(records) && id in records && records.Keys == old(records.Keys) && initOrder == old(initOrder)
      ensures ledger.history == old(ledger.history + [Deed(records[id].gen, Entry.Start)])
      ensures st == Ok ==> records[id].phase == Active && records[id].published
      ensures st == Ok ==> Told(committed, Abs(), id, rounds, options.dispatchBudget)
      ensures st != Ok ==> records[id].phase == Starting || records[id].phase == Active
      ensures st != Ok ==> !Faultless(trace, |old(trace)|)
      decreases 2, records.Keys - retiring, 0, 11
    {
      hide Core, Quiet, Orderly, CalmTo, Callable, Apart, Swept, Told;
      ghost var s := Abs();
      committed, rounds := s, [];
      st := LaunchOne(id);
      ghost var t := Abs();
      SweptFacts(s, t, {id});
      if st != Ok { return; }
      MeasureKept(s, t);
      st, committed, rounds := ServeOne(id);
      SweptOnward(s, t, Abs(), {id});
      if st != Ok { FaultStays(trace, |t.trace|, trace, |s.trace|); }
    }

    /** Commit what a started instance announced, and let its consumers hear of it. */
    method ServeOne(id: Bytes) returns (st: Status, ghost committed: State, ghost rounds: seq<Round>)
      requires Valid() && depth == 0 && starting && !shutting && id in records && records[id].phase == Active
      requires records[id].gen !in ledger.everPublished && !records[id].published
      modifies this
      ensures Valid() && Swept(old(Abs()), Abs(), {id}) && Still(old(Abs()), Abs())
      ensures id in old(records) && id in records && records.Keys == old(records.Keys) && records[id].phase == Active
      ensures st != Ok ==> !Faultless(trace, |old(trace)|)
      ensures st == Ok ==> records[id].published && Told(committed, Abs(), id, rounds, options.dispatchBudget)
      decreases 2, records.Keys - retiring, 0, 10
    {
      hide Core, Quiet, Orderly, CalmTo, Swept, NoticesAbout, AscendingTokens, Heard, Told, Still, Smooth;
      ghost var t := Abs();
      committed, rounds := t, [];
      st := Commit(id);
      ghost var u := Abs();
      SweptFacts(t, u, {id});
      if st != Ok { return; }
      committed := u;
      assert Queued(u, id);
      hide Queued;
      st, rounds := DrainBounded();
      SweptFacts(u, Abs(), {});
      ToldBy(u, Abs(), id, rounds, options.dispatchBudget, st);
      CalmIsSwept(u, Abs());
      CalmIsStill(u, Abs());
      CalmFacts(u, Abs());
      CalmKeepsRecord(u, Abs(), id);
      SweptOnward(t, u, Abs(), {id});
      StillOnward(t, u, Abs());
      // The dispatcher only defers work here: unloads wait for the batch.
      st := Ok;
    }

    /** The start() call itself; success makes the instance active, unpublished as yet. */
    method LaunchOne(id: Bytes) returns (st: Status)
      requires Valid() && depth == 0 && starting && id in records && records[id].phase == Initialized
      modifies this
      ensures Valid() && Swept(old(Abs()), Abs(), {id}) && Apart(old(Abs()), Abs(), id, [Deed(old(records[id].gen), Entry.Start)])
      ensures id in old(records) && id in records && records.Keys == old(records.Keys) && initOrder == old(initOrder)
      ensures ledger.history == old(ledger.history + [Deed(records[id].gen, Entry.Start)])
      ensures records[id].phase == if st == Ok then Active else Starting
      ensures records[id].gen !in ledger.everPublished && !records[id].published
      ensures st != Ok ==> !Faultless(trace, |old(trace)|)
      decreases 2, records.Keys - retiring, 0, 1
    {
      hide Core, Orderly, CalmTo, Callable, Apart, Swept, Faultless, LivesAfter, DeedsOf;
      ghost var s := Abs();
      ReadyIsUnpublished(s, id);
      Rephase(id, Starting);
      ghost var t := Abs();
      StartCallable(t, id);
      var fuel: nat := *;
      st := CallPlugin(id, Entry.Start, fuel);
      ghost var u, deeds := Abs(), [Deed(s.records[id].gen, Entry.Start)];
      CallIsApart(t, u, id, Entry.Start, st);
      ApartTransitive(s, t, u, id, [], deeds);
      assert [] + deeds == deeds;
      ApartFacts(s, u, id, deeds);
      if st == Ok {
        AtRest(u, id);
        Rephase(id, Active);
        ApartTransitive(s, u, Abs(), id, deeds, []);
        assert deeds + [] == deeds;
        ApartFacts(s, Abs(), id, deeds);
      } else {
        FaultEnd(trace, |t.trace|, Left(PluginFrame(s.records[id].gen, Entry.Start), st));
        FaultStays(trace, |t.trace|, trace, |s.trace|);
      }
      OrderlyAt(s, id);
      ApartIsSwept(s, Abs(), id, deeds);
      ApartKeepsOrder(s, Abs(), id, deeds);
    }

    /** May a batch member be rolled back from where the attempt left it? */
    predicate InBatch(phase: Phase) {
      phase == Created || phase == Initializing || phase == Initialized || phase == Starting || phase == Active
    }

    /** Undo one batch member: destroyed silently before init() succeeded, retired after. */
    method RollbackOne(id: Bytes) returns (st: Status)
      requires Valid() && depth == 0 && starting && (id in records ==> InBatch(records[id].phase))
      modifies this
      ensures Valid() && Batch(old(Abs()), Abs(), {id})
      ensures starting && initializing == old(initializing) && depth == 0 && retiring == old(retiring)
      ensures GoneOrPinned(records, id)
      ensures st == Ok ==> id !in records
      ensures st != Ok ==> !Smooth(trace, |old(trace)|)
      ensures if id in old(records) then OwnDeeds(old(ledger.history), ledger.history, old(records[id].gen))
              else ledger.history == old(ledger.history)
      decreases 2, records.Keys - retiring, 0, 5
    {
      hide Core, Orderly, CalmTo, Swept, Batch;
      ghost var s := Abs();
      if id !in records {
        BatchReflexive(s, {id});
        return Ok;
      }
      OrderlyAt(s, id);
      var phase := records[id].phase;
      if phase == Created || phase == Initializing {
        DiscardRecord(id);
        st := Ok;
      } else {
        st := Retire(id, phase == Active);
      }
      SweptIsBatch(s, Abs(), {id});
      SweptFacts(s, Abs(), {id});
    }

    /** Undo the batch in reverse planned order: every member ends gone, or pinned with its resources. */
    method RollbackBatch(order: seq<Bytes>) returns (st: Status)
      requires Valid() && depth == 0 && starting
      requires forall k | 0 <= k < |order| && order[k] in records :: InBatch(records[order[k]].phase)
      requires forall j, k | 0 <= j < k < |order| :: order[j] != order[k]
      modifies this
      ensures Valid() && Batch(old(Abs()), Abs(), Elements(order))
      ensures starting == old(starting) && initializing == old(initializing)
      ensures forall k | 0 <= k < |order| :: GoneOrPinned(records, order[k])
      ensures st == Ok ==> forall k | 0 <= k < |order| :: order[k] !in records
      ensures Backwards(old(Abs()), old(ledger.history), ledger.history, order, 0)
      ensures Cleaned(old(Abs()), Abs(), Elements(order))
      decreases 2, records.Keys - retiring, 0, 6
    {
      hide Core, Quiet, Orderly, Undone, Backwards, OwnDeeds, Smooth, Batch;
      ghost var s := Abs();
      BackwardsNone(s, ledger.history, order);
      BatchReflexive(s, Elements(order));
      st := Ok;
      var k := |order|;
      UndoneNone(s, order);
      while k > 0
        invariant 0 <= k <= |order| && Valid() && Undone(s, Abs(), order, k, st)
        invariant depth == 0 && retiring == s.retiring && records.Keys <= s.records.Keys && starting
        invariant Backwards(s, s.ledger.history, ledger.history, order, k)
        invariant s.trace <= trace && (st != Ok ==> !Smooth(trace, |s.trace|))
      {
        k := k - 1;
        ghost var t := Abs();
        MeasureKept(s, t);
        assert order[k] in records ==> InBatch(records[order[k]].phase) by { UndoneNext(s, t, order, k, st); }
        var undone := RollbackOne(order[k]);
        UndoneStep(s, t, Abs(), order, k, st, undone);
        UndoneDeeds(s, t, Abs(), order, k, st);
        BatchFacts(t, Abs(), {order[k]});
        if undone != Ok { RoughStays(trace, |t.trace|, trace, |s.trace|); }
        else if st != Ok { RoughStays(t.trace, |s.trace|, trace, |s.trace|); }
        if undone != Ok { st := Busy; }
      }
      UndoneAll(s, Abs(), order, st);
    }

    /** The batch members from `k` on have been undone; `st` says whether all of them are gone. */
    ghost predicate Undone(s: State, t: State, order: seq<Bytes>, k: nat, st: Status) {
      && Batch(s, t, Elements(order)) && t.starting && t.initializing == s.initializing && k <= |order|
      && (forall j | 0 <= j < k && order[j] in t.records :: InBatch(t.records[order[j]].phase))
      && (forall j | k <= j < |order| :: GoneOrPinned(t.records, order[j]))
      && (st == Ok ==> forall j | k <= j < |order| :: order[j] !in t.records)
    }

    lemma UndoneNone(s: State, order: seq<Bytes>)
      requires Batch(s, s, Elements(order)) && s.starting
      requires forall k | 0 <= k < |order| && order[k] in s.records :: InBatch(s.records[order[k]].phase)
      ensures Undone(s, s, order, |order|, Ok)
    {
    }

    lemma UndoneNext(s: State, t: State, order: seq<Bytes>, k: nat, st: Status)
      requires k < |order| && Undone(s, t, order, k + 1, st)
      ensures order[k] in t.records ==> InBatch(t.records[order[k]].phase)
    {
    }

    lemma UndoneDeeds(s: State, t: State, u: State, order: seq<Bytes>, k: nat, st: Status)
      requires Core(s) && k < |order| && Undone(s, t, order, k + 1, st)
      requires forall i, j | 0 <= i < j < |order| :: order[i] != order[j]
      requires Backwards(s, s.ledger.history, t.ledger.history, order, k + 1)
      requires if order[k] in t.records then OwnDeeds(t.ledger.history, u.ledger.history, t.records[order[k]].gen)
               else u.ledger.history == t.ledger.history
      ensures Backwards(s, s.ledger.history, u.ledger.history, order, k)
    {
      hide Core, Backwards, InBatch, GoneOrPinned;
      if order[k] in s.records && order[k] !in t.records {
        assert OwnDeeds(t.ledger.history, u.ledger.history, s.records[order[k]].gen);
      }
      BackwardsStep(s, s.ledger.history, t.ledger.history, u.ledger.history, order, k);
    }

    lemma UndoneAll(s: State, t: State, order: seq<Bytes>, st: Status)
      requires Undone(s, t, order, 0, st)
      ensures Batch(s, t, Elements(order)) && t.starting && t.initializing == s.initializing
      ensures forall k | 0 <= k < |order| :: GoneOrPinned(t.records, order[k])
      ensures st == Ok ==> forall k | 0 <= k < |order| :: order[k] !in t.records
    {
    }

    lemma UndoneStep(s: State, t: State, u: State, order: seq<Bytes>, k: nat, st: Status, undone: Status)
      requires k < |order| && Undone(s, t, order, k + 1, st) && Batch(t, u, {order[k]})
      requires u.starting && u.initializing == t.initializing
      requires GoneOrPinned(u.records, order[k]) && (undone == Ok ==> order[k] !in u.records)
      requires forall i, j | 0 <= i < j < |order| :: order[i] != order[j]
      ensures Undone(s, u, order, k, if undone != Ok then Busy else st) && u.records.Keys <= s.records.Keys
    {
      hide Batch;
      assert order[k] in Elements(order);
      BatchOnward(s, t, u, Elements(order), {order[k]});
      BatchFacts(s, u, Elements(order));
      OthersUntouched(t, u, order[k], order);
    }

    lemma BatchReflexive(s: State, touched: set<Bytes>)
      requires Core(s)
      ensures Batch(s, s, touched)
    {
      FlagsKeepCore(s, s.starting, s.initializing);
      assert s.(starting := s.starting, initializing := s.initializing) == s;
    }

    /** Handling one member leaves the phases of the others, and what is gone stays gone. */
    lemma OthersUntouched(t: State, u: State, id: Bytes, order: seq<Bytes>)
      requires Batch(t, u, {id})
      ensures forall k | 0 <= k < |order| && order[k] != id && order[k] in t.records ::
                order[k] in u.records && u.records[order[k]].phase == t.records[order[k]].phase
                && u.records[order[k]].published == t.records[order[k]].published
                && u.records[order[k]].gen == t.records[order[k]].gen
      ensures forall k | 0 <= k < |order| && order[k] !in t.records :: order[k] !in u.records
      ensures forall k | 0 <= k < |order| && order[k] != id && GoneOrPinned(t.records, order[k]) :: GoneOrPinned(u.records, order[k])
    {
      forall k | 0 <= k < |order| && order[k] != id && order[k] in t.records
        ensures order[k] in u.records && SameButAnnounced(t.records[order[k]], u.records[order[k]])
      {
        assert Untouched(t, u, order[k]);
      }
    }

    /** Drop every staged record: a rejected plan leaves none of the batch. */
    method RollbackCreated()
      requires Valid() && depth == 0 && starting
      modifies this
      ensures Valid() && Batch(old(Abs()), Abs(), old(PendingIds(Abs())))
      ensures starting == old(starting) && initializing == old(initializing)
      ensures forall id | id in old(PendingIds(Abs())) :: id !in records
      decreases 2, records.Keys - retiring, 0, 7
    {
      hide Core, Quiet, Orderly, CalmTo, Swept, Batch, Ascending;
      ghost var s := Abs();
      var doomed := Ascending(set id | id in records && records[id].phase == Created);
      assert forall id :: id in doomed <==> id in PendingIds(s);
      assert forall k | 0 <= k < |doomed| :: doomed[k] in doomed;
      var _ := RollbackBatchOfCreated(doomed);
      assert Elements(doomed) == PendingIds(s);
      forall id | id in PendingIds(s) ensures id !in records {
        var k :| 0 <= k < |doomed| && doomed[k] == id;
      }
    }

    /** Discard staged records, last first. */
    method RollbackBatchOfCreated(order: seq<Bytes>) returns (count: nat)
      requires Valid() && depth == 0 && starting
      requires forall k | 0 <= k < |order| :: order[k] in records && records[order[k]].phase == Created
      requires forall j, k | 0 <= j < k < |order| :: order[j] != order[k]
      modifies this
      ensures Valid() && Batch(old(Abs()), Abs(), Elements(order)) && count == |order|
      ensures starting == old(starting) && initializing == old(initializing)
      ensures forall k | 0 <= k < |order| :: order[k] !in records
      decreases 2, records.Keys - retiring, 0, 6
    {
      hide Core, Quiet, Orderly, CalmTo, Swept, Batch;
      ghost var s := Abs();
      BatchReflexive(s, Elements(order));
      count := 0;
      var k := |order|;
      while k > 0
        invariant 0 <= k <= |order| && count == |order| - k
        invariant Valid() && Batch(s, Abs(), Elements(order)) && depth == 0 && retiring == s.retiring
        invariant starting && initializing == s.initializing && records.Keys <= s.records.Keys
        invariant forall j | 0 <= j < k :: order[j] in records && records[order[j]].phase == Created
        invariant forall j | k <= j < |order| :: order[j] !in records
      {
        k := k - 1;
        var id := order[k];
        assert id in Elements(order);
        ghost var t := Abs();
        MeasureKept(s, t);
        DiscardRecord(id);
        count := count + 1;
        SweptIsBatch(t, Abs(), {id});
        BatchOnward(s, t, Abs(), Elements(order), {id});
        BatchFacts(t, Abs(), {id});
        OthersUntouched(t, Abs(), id, order);
      }
    }

    /** Raise or lower the batch flags. */
    method SetFlags(starting: bool, initializing: bool)
      requires Valid() && depth == 0
      requires !starting ==> forall id | id in records ::
                 records[id].phase == Created || records[id].phase == Active || GoneOrPinned(records, id)
      modifies this
      ensures Valid() && Abs() == old(Abs()).(starting := starting, initializing := initializing)
      ensures Batch(old(Abs()), Abs(), {})
    {
      hide Core, Batch;
      FlagsKeepCore(Abs(), starting, initializing);
      this.starting, this.initializing := starting, initializing;
    }

    /** Phase one: init() every member in planned order before any of them starts. */
    method InitAll(order: seq<Bytes>) returns (st: Status)
      requires Valid() && depth == 0 && starting && initializing
      requires forall k | 0 <= k < |order| :: order[k] in records && records[order[k]].phase == Created
      requires forall i, j | 0 <= i < j < |order| :: order[i] != order[j]
      modifies this
      ensures Valid() && Batch(old(Abs()), Abs(), Elements(order)) && starting && initializing
      ensures st == Ok ==> Initing(old(Abs()), Abs(), order, |order|)
      ensures st != Ok ==> forall k | 0 <= k < |order| :: GoneOrPinned(records, order[k])
      ensures st != Ok ==> Cleaned(old(Abs()), Abs(), Elements(order))
      ensures st != Ok ==> !Faultless(trace, |old(trace)|)
      decreases 2, records.Keys - retiring, 0, 13
    {
      hide Core, Quiet, Orderly, Batch, Swept, Initing, Cleaned, Faultless, Smooth;
      ghost var s := Abs();
      BatchReflexive(s, Elements(order));
      assert Initing(s, s, order, 0) by { InitNone(s, order); }
      var k := 0;
      while k < |order|
        invariant 0 <= k <= |order| && Valid() && Initing(s, Abs(), order, k) && Batch(s, Abs(), Elements(order))
        invariant depth == 0 && starting && initializing && retiring == s.retiring && records.Keys == s.records.Keys
      {
        ghost var t := Abs();
        InitNext(s, t, order, k);
        st := InitOne(order[k]);
        SweptIsBatch(t, Abs(), {order[k]});
        SweptFacts(t, Abs(), {order[k]});
        assert order[k] in Elements(order);
        BatchOnward(s, t, Abs(), Elements(order), {order[k]});
        if st != Ok {
          ghost var u := Abs();
          InitHalted(s, t, u, order, k);
          var _ := RollbackBatch(order);
          BatchOnward(s, u, Abs(), Elements(order), Elements(order));
          FaultKept(s, t, u, Abs(), Elements(order));
          return;
        }
        InitStep(s, t, Abs(), order, k);
        k := k + 1;
      }
      st := Ok;
    }

    lemma InitNone(s: State, order: seq<Bytes>)
      requires s.starting && s.initializing
      requires forall k | 0 <= k < |order| :: order[k] in s.records && s.records[order[k]].phase == Created
      ensures Initing(s, s, order, 0)
    {
    }

    lemma InitNext(s: State, t: State, order: seq<Bytes>, k: nat)
      requires Initing(s, t, order, k) && k < |order|
      ensures order[k] in t.records && t.records[order[k]].phase == Created
    {
    }

    lemma InitHalted(s: State, t: State, u: State, order: seq<Bytes>, k: nat)
      requires Initing(s, t, order, k) && k < |order| && Batch(t, u, {order[k]})
      requires order[k] in u.records && u.records[order[k]].phase == Initializing
      ensures forall j | 0 <= j < |order| && order[j] in u.records :: InBatch(u.records[order[j]].phase)
    {
      hide Batch;
      forall j | 0 <= j < |order| && order[j] in u.records ensures InBatch(u.records[order[j]].phase) {
        if order[j] != order[k] { BatchOther(t, u, order[k], order[j]); }
      }
    }

    /** Phase two: start() every member in the same order. */
    method StartAll(order: seq<Bytes>) returns (st: Status)
      requires Valid() && depth == 0 && starting && !initializing && !shutting
      requires forall k | 0 <= k < |order| :: order[k] in records && records[order[k]].phase == Initialized
      requires forall i, j | 0 <= i < j < |order| :: order[i] != order[j]
      modifies this
      ensures Valid() && Batch(old(Abs()), Abs(), Elements(order)) && starting && !initializing
      ensures st == Ok ==> Launching(old(Abs()), Abs(), order, |order|)
      ensures st != Ok ==> forall k | 0 <= k < |order| :: GoneOrPinned(records, order[k])
      ensures st != Ok ==> Cleaned(old(Abs()), Abs(), Elements(order))
      ensures st != Ok ==> !Faultless(trace, |old(trace)|)
      decreases 2, records.Keys - retiring, 0, 13
    {
      hide Core, Quiet, Orderly, Batch, Swept, Launching, Told, CalmTo;
      ghost var s := Abs();
      BatchReflexive(s, Elements(order));
      assert Launching(s, s, order, 0) by { LaunchNone(s, order); }
      var k := 0;
      while k < |order|
        invariant 0 <= k <= |order| && Valid() && Launching(s, Abs(), order, k) && Batch(s, Abs(), Elements(order))
        invariant depth == 0 && starting && !initializing && !shutting && retiring == s.retiring && records.Keys == s.records.Keys
      {
        ghost var t := Abs();
        LaunchNext(s, t, order, k);
        ghost var committed, rounds;
        st, committed, rounds := StartOne(order[k]);
        SweptIsBatch(t, Abs(), {order[k]});
        SweptFacts(t, Abs(), {order[k]});
        assert order[k] in Elements(order);
        BatchOnward(s, t, Abs(), Elements(order), {order[k]});
        if st != Ok {
          ghost var u := Abs();
          LaunchHalted(s, t, u, order, k);
          var _ := RollbackBatch(order);
          BatchOnward(s, u, Abs(), Elements(order), Elements(order));
          FaultKept(s, t, u, Abs(), Elements(order));
          return;
        }
        LaunchStep(s, t, Abs(), order, k);
        k := k + 1;
      }
      st := Ok;
    }

    /** A fault met on the way is still on record once the batch is rolled back. */
    lemma FaultKept(s: State, t: State, u: State, v: State, touched: set<Bytes>)
      requires Batch(s, t, touched) && !Faultless(u.trace, |t.trace|) && Batch(u, v, touched)
      requires t.trace <= u.trace && Cleaned(u, v, touched)
      ensures !Faultless(v.trace, |s.trace|) && Cleaned(s, v, touched)
    {
      CleanedOnward(s, u, v, v, touched);
      FaultStays(u.trace, |t.trace|, v.trace, |s.trace|);
    }

    lemma LaunchNone(s: State, order: seq<Bytes>)
      requires s.starting && !s.initializing
      requires forall k | 0 <= k < |order| :: order[k] in s.records && s.records[order[k]].phase == Initialized
      ensures Launching(s, s, order, 0)
    {
    }

    lemma LaunchNext(s: State, t: State, order: seq<Bytes>, k: nat)
      requires Launching(s, t, order, k) && k < |order|
      ensures order[k] in t.records && t.records[order[k]].phase == Initialized
    {
    }

    lemma LaunchHalted(s: State, t: State, u: State, order: seq<Bytes>, k: nat)
      requires Launching(s, t, order, k) && k < |order| && Batch(t, u, {order[k]})
      requires order[k] in u.records && (u.records[order[k]].phase == Starting || u.records[order[k]].phase == Active)
      ensures forall j | 0 <= j < |order| && order[j] in u.records :: InBatch(u.records[order[j]].phase)
    {
      hide Batch;
      forall j | 0 <= j < |order| && order[j] in u.records ensures InBatch(u.records[order[j]].phase) {
        if order[j] != order[k] { BatchOther(t, u, order[k], order[j]); }
      }
    }

    /** Plan, initialize and start every staged instance. Success runs the one plan the constraints allow,
        in two phases; failure leaves every member gone or pinned. Nobody else is removed or moved. */
    method StartPending() returns (st: Status)
      requires Valid()
      modifies this
      ensures Valid()
      ensures old(shutting || starting || depth != 0) ==> st == InvalidState && Abs() == old(Abs())
      ensures !old(shutting || starting || depth != 0) ==>
                && !starting && Batch(old(Abs()), Abs(), old(PendingIds(Abs())))
                && (st == Ok ==> exists plan :: TwoPhase(old(Abs()), Abs(), plan))
                && (st != Ok ==> forall id | id in old(PendingIds(Abs())) :: GoneOrPinned(records, id))
                && (st != Ok ==> Cleaned(old(Abs()), Abs(), old(PendingIds(Abs()))))
                && (st == Ok ==> old(Plannable(Abs())))
                && (st != Ok ==> !old(Plannable(Abs())) || !Faultless(trace, |old(trace)|))
      decreases if depth != 0 then 0 else 3, records.Keys - retiring, 0, 2
    {
      hide Core, Orderly, Batch, TwoPhase, Ascending;
      ghost var s := Abs();
      if shutting { return InvalidState; }
      if starting { return InvalidState; }
      if depth != 0 { return InvalidState; }
      SetFlags(true, initializing);
      ghost var t := Abs();
      st := StartBatch();
      ghost var u := Abs();
      BatchEnded(s, t, u, st);
      SetFlags(false, initializing);
      BatchOnward(s, t, u, PendingIds(s), PendingIds(s));
      BatchOnward(s, u, Abs(), PendingIds(s), {});
      if st == Ok {
        ghost var plan :| TwoPhase(t, u, plan);
        TwoPhaseOutside(s, t, u, Abs(), plan);
      }
    }

    /** When a batch has ended, no record is left half way. */
    lemma BatchEnded(s: State, t: State, u: State, st: Status)
      requires Orderly(s) && !s.starting && t == s.(starting := true) && Batch(s, t, {})
      requires Batch(t, u, PendingIds(t))
      requires st == Ok ==> exists plan :: TwoPhase(t, u, plan)
      requires st != Ok ==> forall id | id in PendingIds(t) :: GoneOrPinned(u.records, id)
      ensures PendingIds(t) == PendingIds(s) && Batch(s, t, PendingIds(s)) && u.depth == s.depth
      ensures forall id | id in u.records ::
                u.records[id].phase == Created || u.records[id].phase == Active || GoneOrPinned(u.records, id)
    {
      BatchWider(s, t, {}, PendingIds(s));
      forall id | id in u.records
        ensures u.records[id].phase == Created || u.records[id].phase == Active || GoneOrPinned(u.records, id)
      {
        if id !in PendingIds(t) { assert Untouched(t, u, id); }
      }
    }

    lemma BatchWider(s: State, t: State, touched: set<Bytes>, wider: set<Bytes>)
      requires Batch(s, t, touched) && touched <= wider
      ensures Batch(s, t, wider)
    {
    }

    lemma TwoPhaseOutside(s: State, t: State, u: State, v: State, plan: seq<OrderNode>)
      requires t == s.(starting := true) && v == u.(starting := false) && TwoPhase(t, u, plan)
      ensures TwoPhase(s, v, plan)
    {
      assert PendingNodes(s) == PendingNodes(t) && PendingIds(s) == PendingIds(t);
      DeedsSame(s, t, IdsOf(plan), Init);
      DeedsSame(s, t, IdsOf(plan), Entry.Start);
    }

    /** The staged identities, in registry order, and their nodes. */
    method ListPending() returns (pending: seq<Bytes>, nodes: seq<OrderNode>)
      ensures |nodes| == |pending|
      ensures forall k | 0 <= k < |pending| ::
                pending[k] in records && records[pending[k]].phase == Created && nodes[k] == records[pending[k]].node
      ensures forall i, j | 0 <= i < j < |pending| :: pending[i] != pending[j]
      ensures forall id | id in records && records[id].phase == Created :: id in pending
    {
      hide Ascending;
      pending, nodes := [], [];
      var order, i := Ascending(records.Keys), 0;
      assert forall k | 0 <= k < |order| :: order[k] in order;
      while i < |order|
        invariant 0 <= i <= |order| && |nodes| == |pending|
        invariant forall k | 0 <= k < |pending| ::
                    pending[k] in records && records[pending[k]].phase == Created && nodes[k] == records[pending[k]].node
                    && pending[k] in order[..i]
        invariant forall a, b | 0 <= a < b < |pending| :: pending[a] != pending[b]
        invariant forall k | 0 <= k < i && records[order[k]].phase == Created :: order[k] in pending
      {
        var id := order[i];
        assert order[..i + 1] == order[..i] + [id];
        if records[id].phase == Created {
          pending, nodes := pending + [id], nodes + [records[id].node];
          assert pending[|pending| - 1] == id;
        }
        i := i + 1;
      }
    }

    /** One batch, under the flag that holds unloads back. */
    method StartBatch() returns (st: Status)
      requires Valid() && depth == 0 && starting && !shutting
      modifies this
      ensures Valid() && depth == 0 && starting && Batch(old(Abs()), Abs(), old(PendingIds(Abs())))
      ensures st == Ok ==> exists plan :: TwoPhase(old(Abs()), Abs(), plan)
      ensures st != Ok ==> forall id | id in old(PendingIds(Abs())) :: GoneOrPinned(records, id)
      ensures st != Ok ==> Cleaned(old(Abs()), Abs(), old(PendingIds(Abs())))
      ensures st == Ok ==> old(Plannable(Abs()))
      ensures st != Ok ==> !old(Plannable(Abs())) || !Faultless(trace, |old(trace)|)
      ensures initializing ==> old(initializing)
      decreases 3, records.Keys - retiring, 0, 1
    {
      hide Core, Quiet, Orderly, Batch, TwoPhase, IsPlan, PlanVerdict;
      ghost var s := Abs();
      BatchReflexive(s, PendingIds(s));
      var planned, order, plan := PlanPending();
      if planned != Ok {
        RollbackCreated();
        forall id | id in PendingIds(s) ensures GoneOrPinned(records, id) { }
        BatchFacts(s, Abs(), PendingIds(s));
        return planned;
      }
      if order == [] {
        assert forall id | id in records && records[id].phase == Created :: id in PendingIds(s);
        NothingToStart(s);
        return Ok;
      }
      st := RunBatch(order);
      BatchFacts(s, Abs(), PendingIds(s));
      if st == Ok {
        BatchDone(s, Abs(), order, plan);
      } else {
        forall id | id in PendingIds(s) ensures GoneOrPinned(records, id) {
          assert id in Elements(order);
          var k :| 0 <= k < |order| && order[k] == id;
        }
      }
    }

    /** Plan the staged instances against the established ones; with none staged there is nothing to plan. */
    method PlanPending() returns (st: Status, order: seq<Bytes>, ghost plan: seq<OrderNode>)
      requires Valid()
      ensures st == Ok <==> Plannable(Abs())
      ensures st == Ok ==>
                && Elements(order) == PendingIds(Abs()) && order == IdsOf(plan)
                && (order != [] ==> IsPlan(PendingNodes(Abs()), plan))
                && (forall i, j | 0 <= i < j < |order| :: order[i] != order[j])
                && (forall k | 0 <= k < |order| :: order[k] in records && records[order[k]].phase == Created)
    {
      hide Core, Quiet, Orderly, Ascending, IsPlan, PlanVerdict, InputVerdict, Blocked, BytesLess;
      var pending, nodes := ListPending();
      if pending == [] {
        NothingIsPlannable(Abs());
        return Ok, [], [];
      }
      var established := Ascending(set id | id in records && (Receives(records[id].phase) || records[id].phase == Starting));
      PlannableNodes(Abs(), pending, nodes, established);
      var planned, indices, _ := PlanOrder(nodes, established);
      if planned != Ok { return planned, [], []; }
      order := seq(|indices|, k requires 0 <= k < |indices| && indices[k] < |pending| => pending[indices[k]]);
      plan := Picked(nodes, indices);
      PlannedOrder(Abs(), pending, nodes, indices, order);
      st := Ok;
    }

    /** The verdict on the lists the planner is given, said of the sets they list. */
    lemma PlannableNodes(s: State, pending: seq<Bytes>, nodes: seq<OrderNode>, established: seq<Bytes>)
      requires Core(s) && |nodes| == |pending|
      requires forall k | 0 <= k < |pending| ::
                 pending[k] in s.records && s.records[pending[k]].phase == Created && nodes[k] == s.records[pending[k]].node
      requires forall i, j | 0 <= i < j < |pending| :: pending[i] != pending[j]
      requires forall id | id in s.records && s.records[id].phase == Created :: id in pending
      requires Elements(established) == EstablishedIds(s)
      requires forall i, j | 0 <= i < j < |established| :: established[i] != established[j]
      ensures PlanVerdict(nodes, established) == Ok <==> Plannable(s)
    {
      hide Core, Acyclic, Sensible, PlanVerdict;
      forall k | 0 <= k < |nodes| ensures nodes[k].id == pending[k] { RecordFacts(s, pending[k]); }
      forall i | 0 <= i < |established| ensures established[i] != [] {
        assert established[i] in Elements(established);
        RecordFacts(s, established[i]);
      }
      forall x | x in PendingNodes(s) ensures x in Elements(nodes) {
        var id :| id in s.records && s.records[id].phase == Created && s.records[id].node == x;
        var j :| 0 <= j < |pending| && pending[j] == id;
        assert nodes[j] == x;
      }
      assert Elements(nodes) == PendingNodes(s);
      PlannableIff(nodes, established);
    }

    lemma NothingIsPlannable(s: State)
      requires forall id | id in s.records :: s.records[id].phase != Created
      ensures Plannable(s)
    {
      assert PendingNodes(s) == {};
      forall p ensures !PlanRules.Cycle({}, p) { }
    }

    lemma NothingToStart(s: State)
      requires forall id | id in s.records :: s.records[id].phase != Created
      ensures TwoPhase(s, s, [])
    {
      assert PendingNodes(s) == {};
    }

    /** The planned indices, read back as identities: each staged one once, in the order of the plan. */
    lemma PlannedOrder(s: State, pending: seq<Bytes>, nodes: seq<OrderNode>, plan: seq<nat>, order: seq<Bytes>)
      requires Core(s) && |nodes| == |pending| == |plan| == |order| && DistinctIndices(plan, |nodes|)
      requires forall k | 0 <= k < |pending| ::
                 pending[k] in s.records && s.records[pending[k]].phase == Created && nodes[k] == s.records[pending[k]].node
      requires forall i, j | 0 <= i < j < |pending| :: pending[i] != pending[j]
      requires forall id | id in s.records && s.records[id].phase == Created :: id in pending
      requires forall k | 0 <= k < |plan| :: order[k] == pending[plan[k]]
      ensures Elements(order) == PendingIds(s) && Elements(nodes) == PendingNodes(s)
      ensures order == IdsOf(Picked(nodes, plan))
      ensures forall i, j | 0 <= i < j < |order| :: order[i] != order[j]
      ensures forall k | 0 <= k < |order| :: order[k] in s.records && s.records[order[k]].phase == Created
    {
      hide Core;
      IndexPigeonhole(plan, |nodes|);
      forall id | id in PendingIds(s) ensures id in order {
        var j :| 0 <= j < |pending| && pending[j] == id;
        assert j in plan;
        var k :| 0 <= k < |plan| && plan[k] == j;
        assert order[k] == id;
      }
      forall k | 0 <= k < |order| ensures order[k] == Picked(nodes, plan)[k].id { RecordFacts(s, order[k]); }
      forall x | x in PendingNodes(s) ensures x in Elements(nodes) {
        var id :| id in s.records && s.records[id].phase == Created && s.records[id].node == x;
        var j :| 0 <= j < |pending| && pending[j] == id;
        assert nodes[j] == x;
      }
    }

    /** Both phases over one planned order. */
    method RunBatch(order: seq<Bytes>) returns (st: Status)
      requires Valid() && depth == 0 && starting && !shutting
      requires forall k | 0 <= k < |order| :: order[k] in records && records[order[k]].phase == Created
      requires forall i, j | 0 <= i < j < |order| :: order[i] != order[j]
      modifies this
      ensures Valid() && starting && !initializing && Batch(old(Abs()), Abs(), Elements(order))
      ensures st == Ok ==> Completed(old(Abs()), Abs(), order)
      ensures st != Ok ==> Cleaned(old(Abs()), Abs(), Elements(order))
      ensures st != Ok ==> forall k | 0 <= k < |order| :: GoneOrPinned(records, order[k])
      ensures st != Ok ==> !Faultless(trace, |old(trace)|)
      decreases 3, records.Keys - retiring, 0, 0
    {
      hide Core, Quiet, Orderly, Batch, Initing, Launching, Completed, GoneOrPinned;
      ghost var s := Abs();
      SetFlags(true, true);
      ghost var a := Abs();
      BatchWider(s, a, {}, Elements(order));
      BatchFacts(s, a, {});
      st := InitAll(order);
      ghost var b := Abs();
      BatchOnward(s, a, b, Elements(order), Elements(order));
      BatchFacts(s, b, Elements(order));
      SetFlags(true, false);
      ghost var c := Abs();
      BatchOnward(s, b, c, Elements(order), {});
      BatchFacts(s, c, Elements(order));
      if st != Ok {
        FaultStays(b.trace, |a.trace|, trace, |s.trace|);
        CleanedOnward(s, a, b, c, Elements(order));
        return;
      }
      InitDone(a, b, order);
      st := StartAll(order);
      BatchOnward(s, c, Abs(), Elements(order), Elements(order));
      if st == Ok { BothDone(s, a, b, c, Abs(), order); } else {
        BatchFacts(c, Abs(), Elements(order));
        FaultStays(trace, |c.trace|, trace, |s.trace|);
        CleanedOnward(s, c, Abs(), Abs(), Elements(order));
      }
    }

    /** Every init() was made before every start(), in the same order, and all members run. */
    ghost predicate Completed(s: State, t: State, order: seq<Bytes>) {
      && t.records.Keys == s.records.Keys
      && (forall k | 0 <= k < |order| ::
            order[k] in t.records && t.records[order[k]].phase == Active && t.records[order[k]].published)
      && t.initOrder == s.initOrder + order
      && t.ledger.history == s.ledger.history + DeedsFor(s, order, Init) + DeedsFor(s, order, Entry.Start)
    }

    lemma InitDone(s: State, t: State, order: seq<Bytes>)
      requires Initing(s, t, order, |order|)
      ensures forall k | 0 <= k < |order| :: order[k] in t.records && t.records[order[k]].phase == Initialized
    {
    }

    lemma BothDone(s: State, a: State, b: State, c: State, d: State, order: seq<Bytes>)
      requires a == s.(starting := a.starting, initializing := a.initializing) && Initing(a, b, order, |order|)
      requires c == b.(starting := c.starting, initializing := c.initializing) && Launching(c, d, order, |order|)
      requires Batch(a, b, Elements(order))
      ensures Completed(s, d, order)
    {
      assert order[..|order|] == order;
      DeedsSame(a, s, order, Init);
      BatchFacts(a, b, Elements(order));
      DeedsSame(c, s, order, Entry.Start);
    }

    lemma BatchDone(s: State, t: State, order: seq<Bytes>, plan: seq<OrderNode>)
      requires Completed(s, t, order) && order == IdsOf(plan) && Elements(order) == PendingIds(s)
      requires IsPlan(PendingNodes(s), plan) && Batch(s, t, PendingIds(s))
      ensures TwoPhase(s, t, plan)
    {
      PlanInOrder(PendingNodes(s), plan);
      hide IsPlan, InPlanOrder, Batch;
      BatchFacts(s, t, PendingIds(s));
      forall id | id in PendingIds(s)
        ensures id in t.records && t.records[id].gen == s.records[id].gen && t.records[id].phase == Active && t.records[id].published
      {
        assert id in Elements(order);
        var k :| 0 <= k < |order| && order[k] == id;
      }
    }

    // ---- staging ------------------------------------------------------------------------------------

    /** Register a plugin under a new generation and create its instance; a refused creation is undone. */
    method Stage(node: OrderNode, version: Version) returns (st: Status)
      requires Valid() && (depth == 0 ==> retiring == {})
      modifies this
      ensures Valid()
      ensures old(depth) != 0 ==> st == Busy && Abs() == old(Abs())
      ensures old(depth) == 0 ==>
                && (old(shutting) ==> st == InvalidState && Abs() == old(Abs()))
                && (!old(shutting) && !ValidIdentity(node.id) ==> st == InvalidArgument && Abs() == old(Abs()))
                && (!old(shutting) && ValidIdentity(node.id) && node.id in old(records) ==> st == Duplicate && Abs() == old(Abs()))
                && (!old(shutting) && ValidIdentity(node.id) && node.id !in old(records) ==>
                      Admitted(old(Abs()), Abs(), node, version, st))
      decreases if depth != 0 then 0 else 3, records.Keys - retiring, 0, 1
    {
      hide Core, Orderly, ValidIdentity, Admitted;
      if depth != 0 { return Busy; }
      if shutting { return InvalidState; }
      var bounded := CheckIdentity(node.id);
      if !bounded { return InvalidArgument; }
      if node.id in records { return Duplicate; }
      IdentityNonEmpty(node.id);
      st := Admit(node, version);
    }

    /** What staging a new identity leaves: the record, waiting to be initialized, or nothing but a spent generation. */
    ghost predicate Admitted(s: State, t: State, node: OrderNode, version: Version, st: Status) {
      if st == Ok then
        && Beside(s, t, node.id, [])
        && t.records[node.id] == Record(s.nextGen, version, node, Created, 0, false, false, [], false, true)
      else
        TakenBack(s, t, []) || TakenBack(s, t, [Deed(s.nextGen, Destroy)])
    }

    method Admit(node: OrderNode, version: Version) returns (st: Status)
      requires Valid() && depth == 0 && !shutting && node.id != [] && node.id !in records && node.id !in retiring
      modifies this
      ensures Valid() && Admitted(old(Abs()), Abs(), node, version, st)
      decreases 3, records.Keys - retiring, 0, 0
    {
      hide Core, Orderly, CalmTo, Callable, Apart, Beside, TakenBack, Permitted, NotBorrowing;
      ghost var s := Abs();
      var id := node.id;
      AddRecord(node, version);
      ghost var a := Abs();
      AtRest(a, id);
      CreatePermitted(a);
      var fuel: nat := *;
      var created := CallHost(Create, fuel);
      ghost var b := Abs();
      CalmBeside(s, a, b, id, []);
      CalmKeepsRecord(a, b, id);
      NewcomerFacts(b, id);
      var given: bool := *;
      if created != Ok || !given {
        st := if created != Ok then created else Failed;
        Refuse(id, given, s);
        return;
      }
      Obtain(id, true);
      ghost var c := Abs();
      ApartBeside(s, b, c, id, [], []);
      ghost var none: seq<Deed> := [];
      assert none + none == none;
      BesideFlags(s, c, id, []);
      BesideKeepsOrder(s, c, id, []);
      st := Ok;
    }

    lemma BesideFlags(s: State, t: State, id: Bytes, deeds: seq<Deed>)
      requires Beside(s, t, id, deeds)
      ensures t.depth == s.depth && t.retiring == s.retiring && t.ledger.inflight == s.ledger.inflight && id in t.records
    {
    }

    lemma TakenBackFlags(s: State, t: State, deeds: seq<Deed>)
      requires TakenBack(s, t, deeds)
      ensures t.depth == s.depth && t.ledger.inflight == s.ledger.inflight
    {
    }

    lemma CreatePermitted(s: State)
      requires Core(s) && s.ledger.stack == []
      ensures Permitted(s.ledger, Entered(HostFrame(Create))) && Permitted(s.ledger, Entered(HostFrame(Describe)))
    {
    }

    method AddRecord(node: OrderNode, version: Version)
      requires Valid() && depth == 0 && node.id != [] && node.id !in records
      modifies this
      ensures Core(Abs()) && Beside(old(Abs()), Abs(), node.id, []) && depth == 0
      ensures node.id in records && records[node.id] == old(FreshRecord(nextGen, version, node))
      ensures records[node.id].gen in ledger.lives && ledger.lives[records[node.id].gen] == Idle(Unmade)
    {
      hide Core, Beside, Permitted, Step;
      ghost var s := Abs();
      AtRest(s, node.id);
      StagingPermitted(s, node.id, version);
      records := records[node.id := FreshRecord(nextGen, version, node)];
      Note(Staged(nextGen, node.id, version));
      nextGen := nextGen + 1;
      StagedInCore(s, node, version);
      StagedBeside(s, node, version);
      StagedLife(s, node, version);
    }

    lemma StagedLife(s: State, node: OrderNode, version: Version)
      requires Permitted(s.ledger, Staged(s.nextGen, node.id, version))
      ensures s.nextGen in StagedIn(s, node, version).ledger.lives
      ensures StagedIn(s, node, version).ledger.lives[s.nextGen] == Idle(Unmade)
    {
    }

    method Obtain(id: Bytes, accepted: bool)
      requires Core(Abs()) && id in records && Permitted(ledger, Obtained(records[id].gen, accepted))
      requires records[id].phase == Created && !records[id].live
      modifies this
      ensures Core(Abs()) && Apart(old(Abs()), Abs(), id, []) && depth == old(depth)
      ensures id in old(records) && id in records && records[id] == old(records[id]).(live := accepted)
      ensures records[id].gen in ledger.lives && ledger.lives[records[id].gen] == Idle(if accepted then Made else Refused)
      ensures ledger.outstanding == old(ledger.outstanding)
    {
      hide Core, Apart, Permitted;
      ghost var s := Abs();
      ObtainedByCore(s, id, accepted);
      ObtainedApart(s, id, accepted);
      Note(Obtained(records[id].gen, accepted));
      records := records[id := records[id].(live := accepted)];
      assert Abs() == ObtainedBy(s, id, accepted);
    }

    /** Creation was refused: destroy an instance handed over all the same, and drop the record. */
    method Refuse(id: Bytes, given: bool, ghost s: State)
      requires Core(Abs()) && depth == 0 && Orderly(s) && Quiet(s) && Core(s) && s.depth == 0
      requires Beside(s, Abs(), id, []) && id in records && records[id].phase == Created && !records[id].live
      requires records[id].gen in ledger.lives && ledger.lives[records[id].gen] == Idle(Unmade)
      requires Permitted(ledger, Obtained(records[id].gen, false)) && NotBorrowing(ledger, records[id].gen)
      requires records[id].gen == s.nextGen
      modifies this
      ensures Valid() && (TakenBack(s, Abs(), []) || TakenBack(s, Abs(), [Deed(s.nextGen, Destroy)]))
      decreases 2, records.Keys - retiring, 0, 1
    {
      hide Core, Orderly, CalmTo, Callable, Apart, Beside, TakenBack, Permitted, NotBorrowing;
      ghost var b := Abs();
      ghost var deeds: seq<Deed> := [];
      if given {
        Obtain(id, false);
        ghost var c := Abs();
        ApartBeside(s, b, c, id, [], []);
        SameBorrowing(b.ledger, c.ledger, records[id].gen);
        DestroyCallable(c, id);
        var fuel: nat := *;
        var st := CallPlugin(id, Destroy, fuel);
        CallIsApart(c, Abs(), id, Destroy, st);
        deeds := [Deed(s.nextGen, Destroy)];
        ApartBeside(s, c, Abs(), id, [] + [], deeds);
        assert [] + [] + deeds == deeds;
      }
      ghost var d := Abs();
      BesideFlags(s, d, id, deeds);
      EraseRecord(id);
      ErasedBeside(s, d, id, deeds);
      TakenBackKeepsOrder(s, Abs(), deeds);
      TakenBackFlags(s, Abs(), deeds);
    }

    lemma SameBorrowing(l: Ledger, r: Ledger, g: Gen)
      requires NotBorrowing(l, g) && r.outstanding == l.outstanding
      ensures NotBorrowing(r, g)
    {
    }

    // ---- shutdown -----------------------------------------------------------------------------------

    /** Close the business entry points; the global pass covers every queued request. */
    method CloseDoors()
      requires Valid() && depth == 0
      modifies this
      ensures Valid() && shutting && deferred == []
      ensures Abs() == old(Abs()).(shutting := true, deferred := [], deferredGens := [])
    {
      hide RecordsOk, LeasesOk, TokensOk, NoticesOk, OrderOk, Sound;
      ghost var s := Abs();
      shutting := true;
      deferred, deferredGens := [], [];
      QueueCore(s, Abs());
    }

    /** The snapshot shutdown walks: it survives the erasures of later passes. */
    method ListTeardown() returns (ids: seq<Bytes>)
      requires Core(Abs())
      ensures ids == TeardownOrder(initOrder, records.Keys) && Placed(Abs(), ids)
    {
      hide Core, Ascending, Placed, TeardownOrder, BytesLess, Reversed;
      TeardownIsPlaced(Abs());
      ids := [];
      var k := |initOrder|;
      while k > 0
        invariant 0 <= k <= |initOrder| && ids == Reversed(initOrder)[..|initOrder| - k]
      {
        k := k - 1;
        assert Reversed(initOrder)[..|initOrder| - k] == Reversed(initOrder)[..|initOrder| - k - 1] + [initOrder[k]];
        ids := ids + [initOrder[k]];
      }
      ids := ids + Ascending(records.Keys - Elements(initOrder));
      TeardownParts(initOrder, records.Keys);
    }

    /** Pass one: withdraw every published instance before any is stopped. */
    method WithdrawAll(order: seq<Bytes>) returns (st: Status)
      requires Valid() && depth == 0
      modifies this
      ensures Valid() && Steady(old(Abs()), Abs())
      ensures st == Ok || (st == Failed && !Smooth(trace, |old(trace)|))
      ensures st == Ok ==> forall k | 0 <= k < |order| && order[k] in records &&
                (records[order[k]].phase == Active || records[order[k]].phase == Revoking) :: !records[order[k]].published
    {
      hide Core, Quiet, Orderly, Steady, Smooth;
      ghost var s := Abs();
      CalmReflexive(s);
      CalmIsSteady(s, s);
      var k := 0;
      while k < |order|
        invariant 0 <= k <= |order| && Valid() && Steady(s, Abs()) && depth == 0
        invariant forall j | 0 <= j < k && order[j] in records &&
                    (records[order[j]].phase == Active || records[order[j]].phase == Revoking) :: !records[order[j]].published
      {
        var id := order[k];
        if id in records && (records[id].phase == Active || records[id].phase == Revoking) {
          ghost var t := Abs();
          st := Withdraw(id);
          WithdrawIsSteady(t, Abs(), id);
          SteadyOnward(s, t, Abs());
          if st != Ok {
            SteadyTrace(s, t);
            RoughStays(trace, |t.trace|, trace, |s.trace|);
            return Failed;
          }
        }
        k := k + 1;
      }
      st := Ok;
    }

    lemma WithdrawIsSteady(t: State, u: State, id: Bytes)
      requires Swept(t, u, {id}) && Still(t, u) && id in t.records && id in u.records
      requires u.records == t.records[id := t.records[id].(published := u.records[id].published)]
      requires u.ledger.lives == t.ledger.lives
      ensures Steady(t, u) && u.depth == t.depth
    {
    }

    lemma SteadyTrace(s: State, t: State)
      requires Steady(s, t)
      ensures s.trace <= t.trace && SameFlags(s, t) && t.records.Keys == s.records.Keys
    {
    }

    /** Pass two: ask for every lease on an instance out of service; what is kept is met again later. */
    method RevokeAll(order: seq<Bytes>) returns (ghost visits: seq<State>)
      requires Valid() && depth == 0
      requires forall k | 0 <= k < |order| && order[k] in records &&
                 (records[order[k]].phase == Active || records[order[k]].phase == Revoking) :: !records[order[k]].published
      modifies this
      ensures Valid() && Calm(old(Abs()), Abs())
      ensures AskedAll(order, visits) && visits[0] == old(Abs()) && visits[|order|] == Abs()
      decreases 2, records.Keys - retiring, 0, 3
    {
      hide Core, Quiet, Orderly, CalmTo, Solicited, AskedAbout, AskedAll;
      ghost var s := Abs();
      CalmReflexive(s);
      visits := [s];
      AskedNone(s, order);
      var k := 0;
      while k < |order|
        invariant 0 <= k <= |order| && Valid() && Calm(s, Abs()) && depth == 0
        invariant AskedAll(order[..k], visits) && |visits| == k + 1 && visits[0] == s && visits[k] == Abs()
        invariant records.Keys == s.records.Keys && retiring == s.retiring
        invariant forall id | id in records :: SameButAnnounced(s.records[id], records[id])
      {
        var id := order[k];
        ghost var t := Abs();
        if id in records && (records[id].phase == Active || records[id].phase == Revoking) {
          var st := Revoke(id);
          AskedThere(t, Abs(), id, st);
          CalmOnward(s, t, Abs());
          CalmFacts(s, Abs());
        } else {
          AskedNot(t, id);
        }
        AskedMore(order, visits, k, Abs());
        visits := visits + [Abs()];
        k := k + 1;
      }
      assert order[..k] == order;
    }

    /** Pass three, one record: destroyed, retired, or pinned. */
    method TearDownOne(id: Bytes) returns (pinned: bool)
      requires Valid() && depth == 0 && shutting && !starting && retiring == {} && id in records
      modifies this
      ensures Valid() && shutting && Visited(old(Abs()), Abs(), id, pinned)
      decreases 2, records.Keys - retiring, 0, 5
    {
      hide Core, Orderly, Swept, Batch, Smooth;
      ghost var s := Abs();
      OrderlyAt(s, id);
      var phase := records[id].phase;
      if phase == Created {
        DiscardRecord(id);
        SweptFacts(s, Abs(), {id});
        SweptIsBatch(s, Abs(), {id});
        return false;
      }
      if phase == Faulted {
        BatchReflexive(s, {id});
        return true;
      }
      var st := Retire(id, true);
      SweptFacts(s, Abs(), {id});
      SweptIsBatch(s, Abs(), {id});
      return st != Ok;
    }

    /** Pass three: every record once, in teardown order. */
    method TearDownAll(order: seq<Bytes>) returns (pinned: seq<Bytes>)
      requires Valid() && depth == 0 && shutting && !starting && retiring == {}
      requires Elements(order) == records.Keys && forall i, j | 0 <= i < j < |order| :: order[i] != order[j]
      modifies this
      ensures Valid() && shutting && Downed(old(Abs()), Abs(), order, |order|, pinned)
      ensures depth == 0 && !starting && retiring == {}
      decreases 2, records.Keys - retiring, 0, 6
    {
      hide Core, Quiet, Orderly, Batch, Downed, Visited;
      ghost var s := Abs();
      BatchReflexive(s, {});
      DownedNone(s, order);
      pinned := [];
      var k := 0;
      while k < |order|
        invariant 0 <= k <= |order| && Valid() && Downed(s, Abs(), order, k, pinned)
        invariant depth == 0 && shutting && !starting && retiring == {} && records.Keys <= s.records.Keys
      {
        ghost var t := Abs();
        assert order[k] in Elements(order);
        SettledPhase(s, order[k]);
        DownedNext(s, t, order, k, pinned);
        MeasureKept(s, t);
        var kept := TearDownOne(order[k]);
        VisitedFacts(t, Abs(), order[k], kept);
        DownedStep(s, t, Abs(), order, k, pinned, kept);
        if kept { pinned := pinned + [order[k]]; }
        k := k + 1;
      }
    }

    lemma SettledPhase(s: State, id: Bytes)
      requires Orderly(s) && !s.starting && id in s.records
      ensures s.records[id].phase != Starting
    {
    }

    lemma VisitedFacts(t: State, u: State, id: Bytes, pinned: bool)
      requires Visited(t, u, id, pinned)
      ensures u.depth == t.depth && u.shutting == t.shutting && u.starting == t.starting && u.retiring == t.retiring
      ensures u.records.Keys <= t.records.Keys
    {
    }

    /** A record is left waiting for its leases only after a setback; otherwise it is quarantined. */
    ghost predicate Tried(s: State, t: State, id: Bytes) {
      id in t.records && (t.records[id].phase != Revoking || !Smooth(t.trace, |s.trace|))
    }

    lemma NotTried(s: State, t: State, id: Bytes)
      requires id in t.records && t.records[id].phase != Revoking
      ensures Tried(s, t, id)
    {
    }

    lemma RetiredTried(s: State, t: State, u: State, id: Bytes, st: Status)
      requires s.trace <= t.trace <= u.trace && t.shutting && Retired(t, u, id, st)
      ensures if st == Ok then id !in u.records else Tried(s, u, id)
    {
      if st != Ok { RoughStays(u.trace, |t.trace|, u.trace, |s.trace|); }
    }

    lemma StillTried(s: State, t: State, u: State, id: Bytes, other: Bytes)
      requires t.shutting && Swept(t, u, {id}) && s.trace <= t.trace && other in u.records && other != id && Tried(s, t, other)
      ensures Tried(s, u, other)
    {
      if !Smooth(t.trace, |s.trace|) { RoughStays(t.trace, |s.trace|, u.trace, |s.trace|); }
      assert Untouched(t, u, other);
    }

    /** Pass four: a record that only waited for its leases is tried once more. */
    method RetryPinned(pinned: seq<Bytes>) returns (remaining: seq<Bytes>)
      requires Valid() && depth == 0 && shutting && !starting && retiring == {}
      modifies this
      ensures Valid() && depth == 0 && shutting && retiring == {} && old(trace) <= trace && !starting
      ensures pinned == [] ==> remaining == [] && Abs() == old(Abs())
      ensures forall j | 0 <= j < |pinned| && pinned[j] in records :: pinned[j] in remaining && Tried(old(Abs()), Abs(), pinned[j])
      decreases 2, records.Keys - retiring, 0, 6
    {
      hide Core, Orderly, Swept, Retired, Tried;
      ghost var s := Abs();
      remaining := [];
      var k := 0;
      while k < |pinned|
        invariant 0 <= k <= |pinned| && Valid() && depth == 0 && shutting && !starting && retiring == {}
        invariant s.trace <= trace && records.Keys <= s.records.Keys
        invariant k == 0 ==> remaining == [] && Abs() == s
        invariant forall j | 0 <= j < k && pinned[j] in records :: pinned[j] in remaining && Tried(s, Abs(), pinned[j])
      {
        var id := pinned[k];
        ghost var t, was := Abs(), remaining;
        if id in records {
          if records[id].phase != Revoking {
            remaining := remaining + [id];
            NotTried(s, t, id);
          } else {
            MeasureKept(s, t);
            var st := Retire(id, true);
            SweptFacts(t, Abs(), {id});
            RetiredTried(s, t, Abs(), id, st);
            if st != Ok { remaining := remaining + [id]; }
            forall j | 0 <= j < k && pinned[j] in records ensures Tried(s, Abs(), pinned[j]) {
              if pinned[j] != id { StillTried(s, t, Abs(), id, pinned[j]); }
            }
          }
        }
        forall j | 0 <= j <= k && pinned[j] in records ensures pinned[j] in remaining {
          if j < k { assert pinned[j] in was; }
        }
        k := k + 1;
      }
    }

    /** Drop what only the host still holds: nobody is left to hear or to be heard. */
    method ClearTables()
      requires Valid() && depth == 0 && shutting
      modifies this
      ensures Valid() && subscriptions == map[] && watches == map[] && events == [] && notices == []
      ensures records == old(records) && leases == old(leases) && shutting && deferred == [] && initOrder == old(initOrder)
      ensures ledger.history == old(ledger.history) && trace == old(trace) + [ListenersCleared]
      ensures retiring == old(retiring) && starting == old(starting) && depth == 0
    {
      hide Core, Quiet, Orderly, Permitted;
      ghost var s := Abs();
      AtRest(s, []);
      QueuedPairs(s);
      ClearedCore(s);
      WipeTables();
      ClearedQuiet(s);
    }

    method WipeTables()
      requires Permitted(ledger, ListenersCleared)
      modifies this
      ensures Abs() == old(Cleared(Abs()))
    {
      hide Permitted, Step;
      EmptyTables();
      Note(ListenersCleared);
    }

    method EmptyTables()
      modifies this
      ensures Abs() == old(Abs()).(subscriptions := map[], watches := map[], events := [], notices := [])
    {
      subscriptions, watches, events, notices := map[], map[], [], [];
    }

    lemma ClearedQuiet(s: State)
      requires s.ledger.stack == []
      ensures Quiet(s) ==> Quiet(Cleared(s))
      ensures Cleared(s).ledger.history == s.ledger.history
    {
    }

    ghost function Cleared(s: State): State {
      Logged(s.(subscriptions := map[], watches := map[], events := [], notices := []), ListenersCleared)
    }

    lemma ClearedCore(s: State)
      requires Core(s) && s.depth == 0 && s.ledger.stack == []
      ensures Permitted(s.ledger, ListenersCleared) && Core(Cleared(s))
      ensures Orderly(s) ==> Orderly(Cleared(s))
    {
      hide RecordsOk, LeasesOk, DeferredOk, OrderOk, Sound;
      TableCore(s, Cleared(s), ListenersCleared);
    }

    /** Withdraw everywhere, let it be heard, take every lease back, then tear down in reverse
        initialization order. Ok means nothing is left; only a quarantine or a setback prevents it. */
    method ShutdownAll() returns (st: Status)
      requires Valid() && (depth == 0 ==> !starting && retiring == {})
      modifies this
      ensures Valid()
      ensures old(depth) != 0 ==> st == Busy && Abs() == old(Abs())
      ensures old(depth) == 0 ==> shutting && !starting && retiring == {} && depth == 0
      ensures old(depth) == 0 && st == Ok ==>
                && records == map[] && leases == map[] && subscriptions == map[] && watches == map[]
                && events == [] && notices == [] && deferred == []
      ensures old(depth) == 0 && (forall id | id in old(records) :: old(records)[id].phase != Faulted) && Smooth(trace, |old(trace)|) ==>
                st == Ok && TakenDown(old(Abs()), Abs())
      decreases if depth != 0 then 0 else 3, records.Keys - retiring, 0, 2
    {
      NobodyFaulted(Abs());
      hide Core, Quiet, Orderly, Smooth, AllDeeds, TeardownOrder, NoneFaulted, DownInOrder, TakenDown;
      ghost var s := Abs();
      if depth != 0 { return Busy; }
      if records == map[] && leases == map[] && deferred == [] {
        ShutEmpty();
        return Ok;
      }
      CloseDoors();
      st := ShutLive(s);
    }

    /** The passes, and the tables cleared if they left nothing behind. */
    method ShutLive(ghost s: State) returns (st: Status)
      requires Valid() && depth == 0 && shutting && !starting && retiring == {} && deferred == [] && Core(s)
      requires Abs() == s.(shutting := true, deferred := [], deferredGens := [])
      modifies this
      ensures Valid() && shutting && !starting && retiring == {} && depth == 0
      ensures st == Ok ==>
                && records == map[] && leases == map[] && subscriptions == map[] && watches == map[]
                && events == [] && notices == [] && deferred == []
      ensures NoneFaulted(s) && Smooth(trace, |s.trace|) ==> st == Ok && TakenDown(s, Abs())
      decreases 2, records.Keys - retiring, 0, 13
    {
      hide Core, Quiet, Orderly, Smooth, AllDeeds, TeardownOrder, NoneFaulted, DownInOrder, TakenDown;
      st := RunShutdown(s);
      ghost var u := Abs();
      if st == Ok {
        ClearTables();
        SmoothShorter(u, |s.trace|);
        if TakenDown(s, u) { StillTakenDown(s, u, Abs()); }
      }
    }

    /** Nothing to stop and nothing to wait for. */
    method ShutEmpty()
      requires Valid() && depth == 0 && !starting && retiring == {} && records == map[] && leases == map[] && deferred == []
      modifies this
      ensures Valid() && shutting && !starting && retiring == {} && depth == 0 && TakenDown(old(Abs()), Abs())
      ensures records == map[] && leases == map[] && subscriptions == map[] && watches == map[]
      ensures events == [] && notices == [] && deferred == []
    {
      hide Core, Quiet, Orderly, AllDeeds, TeardownOrder, DownInOrder, TakenDown;
      ghost var s := Abs();
      TeardownRunsInOrder(s);
      NobodysDeeds(s, TeardownOrder(initOrder, records.Keys));
      shutting := true;
      ShuttingCore(s);
      ClearTables();
      assert s.ledger.history + [] == s.ledger.history;
      TakenDownBy(s, Abs());
    }

    lemma NobodyFaulted(s: State)
      ensures NoneFaulted(s) <==> forall id | id in s.records :: s.records[id].phase != Faulted
    {
    }

    /** The four passes, from doors closed to the final count; `s` is the state shutdown began in. */
    method RunShutdown(ghost s: State) returns (st: Status)
      requires Valid() && depth == 0 && shutting && !starting && retiring == {} && deferred == [] && Core(s)
      requires Abs() == s.(shutting := true, deferred := [], deferredGens := [])
      modifies this
      ensures Valid() && depth == 0 && shutting && !starting && retiring == {}
      ensures st == Ok ==> records == map[] && leases == map[]
      ensures |s.trace| <= |trace|
      ensures NoneFaulted(s) && Smooth(trace, |s.trace|) ==>
                st == Ok && TakenDown(s, Abs())
      decreases 2, records.Keys - retiring, 0, 12
    {
      hide Core, Quiet, Orderly, Smooth, Steady, Downed, AllDeeds, TeardownOrder, NoneFaulted, DownInOrder, TakenDown, Placed;
      TeardownRunsInOrder(s);
      ghost var a := Abs();
      TeardownCovers(a);
      var order := ListTeardown();
      ghost var withdrawn, rounds, visits;
      st, withdrawn, rounds, visits := DrainPasses(order);
      ghost var b := Abs();
      SteadyTrace(a, b);
      MeasureKept(a, b);
      if st != Ok { return; }
      var pinned := TearDownAll(order);
      ghost var c := Abs();
      DownedFacts(b, c, order, pinned);
      MeasureKept(a, c);
      var remaining := RetryPinned(pinned);
      ShutdownSmooth(s, a, b, c, Abs(), order, pinned);
      if ledger.history == s.ledger.history + AllDeeds(s, TeardownOrder(s.initOrder, s.records.Keys)) { TakenDownBy(s, Abs()); }
      if records == map[] { NoRecordsNoLeases(Abs()); }
      if remaining != [] || leases != map[] || records != map[] { st := Busy; }
    }

    lemma DownedFacts(s: State, t: State, order: seq<Bytes>, pinned: seq<Bytes>)
      requires Downed(s, t, order, |order|, pinned)
      ensures t.records.Keys <= s.records.Keys && t.retiring == s.retiring
    {
    }

    lemma ShuttingCore(s: State)
      requires Core(s) && s.deferred == []
      ensures Core(s.(shutting := true))
      ensures Orderly(s) ==> Orderly(s.(shutting := true))
      ensures Quiet(s) ==> Quiet(s.(shutting := true))
    {
      hide RecordsOk, LeasesOk, TokensOk, NoticesOk, OrderOk, Sound;
      QueueCore(s, s.(shutting := true));
    }

    /** Passes one and two, with the bounded dispatch between them. */
    method DrainPasses(order: seq<Bytes>) returns (st: Status, ghost withdrawn: State, ghost rounds: seq<Round>, ghost visits: seq<State>)
      requires Valid() && depth == 0 && shutting && !starting && retiring == {}
      modifies this
      ensures Valid() && Steady(old(Abs()), Abs())
      ensures st == Ok || (st == Failed && !Smooth(trace, |old(trace)|))
      ensures st == Ok ==>
                && (forall k | 0 <= k < |order| && order[k] in withdrawn.records &&
                      (withdrawn.records[order[k]].phase == Active || withdrawn.records[order[k]].phase == Revoking) ::
                      !withdrawn.records[order[k]].published)
                && AskedAll(order, visits) && visits[|order|] == Abs()
                && (exists heard | Soft(heard) :: Heard(withdrawn, visits[0], rounds, options.dispatchBudget, heard))
      decreases 2, records.Keys - retiring, 0, 11
    {
      hide Core, Quiet, Orderly, CalmTo, Swept, Smooth, Steady, Heard, AskedAll;
      ghost var s := Abs();
      withdrawn, rounds, visits := s, [], [];
      st := WithdrawAll(order);
      ghost var t := Abs();
      SteadyTrace(s, t);
      if st != Ok { return; }
      withdrawn := t;
      var drained;
      drained, rounds := DrainBounded();
      ghost var u := Abs();
      SweptFacts(t, u, {});
      assert Soft(drained);
      CalmIsSteady(t, u);
      SteadyOnward(s, t, u);
      SteadyTrace(t, u);
      CalmFacts(t, u);
      visits := RevokeAll(order);
      CalmIsSteady(u, Abs());
      SteadyOnward(s, u, Abs());
      st := Ok;
    }

    /** With nothing quarantined and no setback, the passes leave nothing behind. */
    lemma ShutdownSmooth(s: State, a: State, b: State, c: State, d: State, order: seq<Bytes>, pinned: seq<Bytes>)
      requires Core(s) && a == s.(shutting := true, deferred := [], deferredGens := []) && Steady(a, b)
      requires order == TeardownOrder(s.initOrder, s.records.Keys)
      requires Downed(b, c, order, |order|, pinned) && (pinned == [] ==> d == c) && c.trace <= d.trace
      requires Elements(order) == s.records.Keys
      ensures s.trace <= b.trace <= c.trace
      ensures NoneFaulted(s) && Smooth(d.trace, |s.trace|) ==>
                d == c && pinned == [] && d.records == map[]
                && d.ledger.history == s.ledger.history + AllDeeds(s, TeardownOrder(s.initOrder, s.records.Keys))
    {
      hide Core, Smooth, AllDeeds, TeardownOrder;
      BatchTrace(b, c, Elements(order[..|order|]));
      assert order[..|order|] == order;
      AllDeedsSame(s, b, order);
      if NoneFaulted(s) && Smooth(d.trace, |s.trace|) {
        SmoothParts(s, b, d, []);
        SmoothParts(b, c, d, []);
        assert NoneFaulted(b);
        AllDown(b, c, order, pinned);
      }
    }

    /** Clearing the tables is no setback. */
    lemma SmoothShorter(t: State, from: nat)
      ensures Smooth(t.trace + [ListenersCleared], from) ==> Smooth(t.trace, from)
    {
      if Smooth(t.trace + [ListenersCleared], from) {
        forall i | from <= i < |t.trace| ensures !Setback(t.trace[i]) {
          assert t.trace[i] == (t.trace + [ListenersCleared])[i];
        }
      }
    }

    // ---- the host -----------------------------------------------------------------------------------

    /** Dispatch queued work; what cannot be done now stays queued. */
    method Poll() returns (st: Status, ghost turns: seq<State>, ghost served: seq<State>)
      requires Valid()
      modifies this
      ensures Valid()
      ensures old(depth != 0 || draining) ==> st == Busy && Abs() == old(Abs())
      ensures old(depth == 0 && !draining && !initializing) ==>
                DrainPass(old(Abs()), Abs(), options.dispatchBudget, turns, served, st)
      ensures st == NotFound ==> SomeStopGave(old(Abs()), Abs(), NotFound)
      ensures old(depth) == 0 ==> Swept(old(Abs()), Abs(), {})
      decreases if depth != 0 then 0 else 3, records.Keys - retiring, 0, 9
    {
      hide Core, Quiet, Orderly, CalmTo, Swept, DrainPass;
      PruneDeferred();
      st, turns, served := Drain();
    }

    /** Anything the host application may do between plugin calls. */
    method HostStep()
      requires Valid() && depth == 0 && !starting && retiring == {}
      modifies this
      ensures Valid() && depth == 0 && !starting && retiring == {}
      ensures old(trace) <= trace
      decreases 4, NoIds, 0, 0
    {
      hide Core, CalmTo, Quiet, Orderly, TwoPhase, Swept, Batch, ValidIdentity, AllDeeds, TeardownOrder, Smooth, NoneFaulted;
      ghost var s := Abs();
      CalmReflexive(s);
      var op: nat := *;
      if op < 4 {
        HostStructure(op);
        return;
      }
      var text: Bytes := *;
      var token: Token := *;
      if op == 4 {
        var allowed: VersionRange := *;
        var receiver: bool := *;
        var _, _, _ := Acquire(Admin, text, allowed, receiver);
        CalmOnward(s, s, Abs());
      } else if op == 5 {
        var _ := Release(Admin, token);
        CalmOnward(s, s, Abs());
      } else if op == 6 {
        var wanted: Selector := *;
        var fuel: nat := *;
        if 0 < fuel { var _ := Call(Admin, token, wanted, |text|, fuel); }
        CalmOnward(s, s, Abs());
      }
    }

    method HostStructure(op: nat)
      requires Valid() && depth == 0 && !starting && retiring == {} && op < 4
      modifies this
      ensures Valid() && depth == 0 && !starting && retiring == {} && old(trace) <= trace
      decreases 3, records.Keys - retiring, 0, 3
    {
      hide Core, CalmTo, Quiet, Orderly, TwoPhase, Swept, Batch, ValidIdentity, AllDeeds, TeardownOrder, Smooth, NoneFaulted;
      ghost var s := Abs();
      if op == 0 {
        var node: OrderNode := *;
        var version: Version := *;
        var st := Stage(node, version);
        StagedFlags(s, Abs(), node, version, st);
      } else if op == 1 {
        var _ := StartPending();
        if !s.shutting { BatchFacts(s, Abs(), PendingIds(s)); BatchTrace(s, Abs(), PendingIds(s)); }
      } else if op == 2 {
        var id: Bytes := *;
        var _ := UnloadOne(id);
        SweptFacts(s, Abs(), {});
      } else {
        ghost var turns, served;
        var st;
        st, turns, served := Poll();
        SweptFacts(s, Abs(), {});
      }
    }

    lemma StagedFlags(s: State, t: State, node: OrderNode, version: Version, st: Status)
      ensures Admitted(s, t, node, version, st) ==>
                t.depth == s.depth && t.starting == s.starting && t.retiring == s.retiring && s.trace <= t.trace
    {
    }
  }

  /** Every run: whatever the host does, whatever plugins do inside it, the trace is lawful. */
  method AnyRun(options: Options) returns (e: Engine)
    ensures e.Valid() && Lawful(e.trace) && Sound(e.ledger) && e.depth == 0
  {
    hide Core, Quiet, Orderly, Lawful, Sound;
    e := new Engine(options);
    var steps: nat := *;
    while steps > 0
      invariant e.Valid() && e.depth == 0 && !e.starting && e.retiring == {}
    {
      var down: bool := *;
      if down { var _ := e.ShutdownAll(); } else { e.HostStep(); }
      steps := steps - 1;
    }
    CoreIsLawful(e.Abs());
  }

  lemma CoreIsLawful(s: State)
    requires Core(s)
    ensures Lawful(s.trace) && Sound(s.ledger) && Replay(s.trace) == Some(s.ledger)
  {
  }
}
