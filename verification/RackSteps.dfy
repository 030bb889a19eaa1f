/** The engine's elementary table updates, each shown to keep the representation invariant. */
module RackSteps {
  import opened Base
  import opened Ordering
  import opened RackProtocol
  import opened RackState

  /** `s` after one more event. */
  ghost function Logged(s: State, e: Event): State {
    s.(ledger := Advance(s.ledger, e), trace := s.trace + [e])
  }

  lemma LoggedReplays(s: State, e: Event)
    requires Core(s) && Permitted(s.ledger, e)
    ensures Replay(Logged(s, e).trace) == Some(Logged(s, e).ledger) && Sound(Logged(s, e).ledger)
  {
    hide RecordsOk, LeasesOk, TokensOk, NoticesOk, DeferredOk, OrderOk, Sound;
    ReplayExtends(s.trace, e);
    StepKeepsSound(s.ledger, e);
  }

  /** Queued notices stay deliverable when nothing they mention is taken back. */
  lemma NoticesKept(notices: seq<Notice>, l: Ledger, r: Ledger)
    requires NoticesOk(notices, l)
    requires l.issued <= r.issued && l.everPublished <= r.everPublished
    requires forall g | g in l.everPublished :: g in l.births ==> g in r.births && r.births[g] == l.births[g]
    requires forall g | g in l.everPublished && g !in l.published :: g !in r.published
    requires r.delivered == l.delivered
    ensures NoticesOk(notices, r)
  {
    forall i | 0 <= i < |notices| ensures NoticeOk(notices[i], r) {
      assert NoticeOk(notices[i], l);
    }
  }

  /** What the invariant says about one registered record. */
  lemma RecordFacts(s: State, id: Bytes)
    requires Core(s) && id in s.records
    ensures s.records[id].gen in s.ledger.births && s.records[id].gen in s.ledger.lives
    ensures id != [] && 0 < s.records[id].gen < s.nextGen && s.records[id].node.id == id
    ensures s.ledger.births[s.records[id].gen] == Birth(id, s.records[id].version)
    ensures RecordOk(s.records[id], s.ledger.lives[s.records[id].gen],
                     s.records[id].gen in s.ledger.published, s.records[id].gen in s.ledger.retiring)
  {
  }

  /** A generation whose instance still exists is the one registered under its identity. */
  lemma Accounted(s: State, g: Gen)
    requires Core(s) && g in s.ledger.births && g in s.ledger.lives && !Departed(s.ledger.lives[g])
    ensures s.ledger.births[g].id in s.records && s.records[s.ledger.births[g].id].gen == g
  {
  }

  // ---- table updates that move no instance ----------------------------------------------------

  /** `t` differs from `s` by one event that moves no instance; its own tables are checked separately. */
  lemma TableCore(s: State, t: State, e: Event)
    requires Core(s) && Permitted(s.ledger, e) && t.ledger == Step(s.ledger, e) && t.trace == s.trace + [e]
    requires t.ledger.births == s.ledger.births && t.ledger.lives == s.ledger.lives && t.ledger.stack == s.ledger.stack
    requires t.ledger.published == s.ledger.published && t.ledger.retiring == s.ledger.retiring
    requires t.records == s.records && t.nextGen == s.nextGen && t.initOrder == s.initOrder && t.depth == s.depth
    requires t.deferred == s.deferred && t.deferredGens == s.deferredGens && t.shutting == s.shutting
    requires LeasesOk(t.leases, t.ledger.outstanding, t.ledger.inflight)
    requires t.watches == t.ledger.watched && t.subscriptions == t.ledger.subscribed
    requires TokensOk(t.nextToken, t.ledger.issued, t.subscriptions)
    requires NoticesOk(t.notices, t.ledger)
    ensures Core(t)
  {
    hide RecordsOk, LeasesOk, TokensOk, NoticesOk, DeferredOk, OrderOk, Sound;
    LoggedReplays(s, e);
  }

  /** Queues change, nothing else does. */
  lemma QueueCore(s: State, t: State)
    requires Core(s)
    requires t == s.(events := t.events, notices := t.notices, deferred := t.deferred, deferredGens := t.deferredGens,
                     initializing := t.initializing, starting := t.starting, shutting := t.shutting,
                     draining := t.draining, retiring := t.retiring)
    requires NoticesOk(t.notices, t.ledger)
    requires DeferredOk(t.deferred, t.deferredGens, t.records)
    requires t.shutting ==> t.deferred == []
    ensures Core(t)
  {
    hide RecordsOk, LeasesOk, NoticesOk, DeferredOk, OrderOk, Sound;
  }

  lemma TokensAdvanced(s: State, issued: set<Token>)
    requires Core(s) && s.nextToken != 0 && issued == s.ledger.issued + {s.nextToken}
    ensures TokensOk(NextToken(s.nextToken), issued, s.subscriptions)
  {
    hide RecordsOk, LeasesOk, NoticesOk, DeferredOk, OrderOk, Sound;
  }

  /** The next token is new: it was never issued, leased, watched or subscribed under. */
  lemma NextTokenIsNew(s: State)
    requires Core(s) && s.nextToken != 0
    ensures s.nextToken !in s.ledger.issued && s.nextToken !in s.leases && s.nextToken !in s.watches
    ensures s.nextToken !in s.subscriptions && s.nextToken !in s.ledger.inflight
  {
    hide RecordsOk, NoticesOk, DeferredOk, OrderOk;
  }

  ghost function LeaseTaken(s: State, info: LeaseInfo): State
  {
    Logged(s, Leased(s.nextToken, info)).(
      leases := s.leases[s.nextToken := Lease(info, 0)], nextToken := NextToken(s.nextToken))
  }

  lemma LeaseTakenCore(s: State, info: LeaseInfo)
    requires Core(s) && Permitted(s.ledger, Leased(s.nextToken, info)) && !s.shutting
    ensures Core(LeaseTaken(s, info)) && Calm(s, LeaseTaken(s, info))
  {
    hide RecordsOk, TokensOk, NoticesOk, DeferredOk, OrderOk, Sound;
    var t, c := LeaseTaken(s, info), s.nextToken;
    NextTokenIsNew(s);
    TokensAdvanced(s, t.ledger.issued);
    NoticesKept(s.notices, s.ledger, t.ledger);
    TableCore(s, t, Leased(c, info));
    assert Fresh(s, t, c);
    assert forall k | k in t.leases && k != c :: Carried(s, t, k);
  }

  ghost function LeaseReturned(s: State, c: Token): State
  {
    Logged(s, Returned(c)).(leases := s.leases - {c})
  }

  lemma LeaseReturnedCore(s: State, c: Token)
    requires Core(s) && Permitted(s.ledger, Returned(c))
    ensures Core(LeaseReturned(s, c)) && Calm(s, LeaseReturned(s, c))
  {
    hide RecordsOk, TokensOk, NoticesOk, DeferredOk, OrderOk, Sound;
    var t := LeaseReturned(s, c);
    NoticesKept(s.notices, s.ledger, t.ledger);
    TableCore(s, t, Returned(c));
    assert forall k | k in t.leases :: Carried(s, t, k);
  }

  ghost function CallBegun(s: State, c: Token): State
    requires c in s.leases
  {
    Logged(s, CallOpened(c)).(leases := s.leases[c := s.leases[c].(activeCalls := s.leases[c].activeCalls + 1)])
  }

  lemma CallBegunCore(s: State, c: Token)
    requires Core(s) && Permitted(s.ledger, CallOpened(c)) && c in s.leases
    ensures Core(CallBegun(s, c))
  {
    hide RecordsOk, TokensOk, NoticesOk, DeferredOk, OrderOk, Sound;
    var t := CallBegun(s, c);
    NoticesKept(s.notices, s.ledger, t.ledger);
    TableCore(s, t, CallOpened(c));
  }

  ghost function CallEnded(s: State, c: Token): State
    requires c in s.leases && 0 < s.leases[c].activeCalls
  {
    Logged(s, CallClosed(c)).(leases := s.leases[c := s.leases[c].(activeCalls := s.leases[c].activeCalls - 1)])
  }

  lemma CallEndedCore(s: State, c: Token)
    requires Core(s) && Permitted(s.ledger, CallClosed(c)) && c in s.leases && 0 < s.leases[c].activeCalls
    ensures Core(CallEnded(s, c))
  {
    hide RecordsOk, TokensOk, NoticesOk, DeferredOk, OrderOk, Sound;
    var t := CallEnded(s, c);
    NoticesKept(s.notices, s.ledger, t.ledger);
    TableCore(s, t, CallClosed(c));
  }

  lemma CallBegunTrace(s: State, c: Token)
    requires c in s.leases
    ensures CallBegun(s, c).trace == s.trace + [CallOpened(c)] && CallBegun(s, c).records == s.records
  {
    hide Advance;
  }

  lemma CallEndedTrace(s: State, c: Token)
    requires c in s.leases && 0 < s.leases[c].activeCalls
    ensures CallEnded(s, c).trace == s.trace + [CallClosed(c)]
  {
    hide Advance;
  }

  /** A call on a lease is open exactly while its counter is positive, and the lease stays meanwhile. */
  lemma OpenCallFacts(s: State, c: Token)
    requires Core(s) && c in s.ledger.inflight
    ensures c in s.leases && s.leases[c].activeCalls == s.ledger.inflight[c]
  {
    hide RecordsOk, TokensOk, NoticesOk, DeferredOk, OrderOk;
  }

  lemma LeaseFacts(s: State, c: Token)
    requires Core(s) && c in s.leases
    ensures c in s.ledger.outstanding && s.leases[c] == Lease(s.ledger.outstanding[c], s.ledger.inflight[c])
    ensures Pinned(s.ledger, s.leases[c].info) && Answerable(s.ledger, s.leases[c].info.consumer)
    ensures c in s.ledger.issued && 0 < c
  {
    hide RecordsOk, NoticesOk, DeferredOk, OrderOk;
  }

  /** Spend the next token without storing anything under it. */
  ghost function TokenBurned(s: State): State
  {
    Logged(s, TokenSpent(s.nextToken)).(nextToken := NextToken(s.nextToken))
  }

  lemma TokenBurnedCore(s: State)
    requires Core(s) && Permitted(s.ledger, TokenSpent(s.nextToken))
    ensures Core(TokenBurned(s)) && Calm(s, TokenBurned(s))
  {
    hide RecordsOk, LeasesOk, TokensOk, NoticesOk, DeferredOk, OrderOk, Sound;
    var t := TokenBurned(s);
    TokensAdvanced(s, t.ledger.issued);
    NoticesKept(s.notices, s.ledger, t.ledger);
    TableCore(s, t, TokenSpent(s.nextToken));
    assert forall k | k in t.leases :: Carried(s, t, k);
  }

  ghost function SubscriptionAdded(s: State, owner: Owner, name: Bytes): State
  {
    Logged(s, Subscribed(s.nextToken, Subscription(owner, name))).(
      nextToken := NextToken(s.nextToken), subscriptions := s.subscriptions[s.nextToken := Subscription(owner, name)])
  }

  lemma SubscriptionAddedCore(s: State, owner: Owner, name: Bytes)
    requires Core(s) && s.nextToken != 0 && owner.Plugin?
    ensures Permitted(s.ledger, Subscribed(s.nextToken, Subscription(owner, name)))
    ensures Core(SubscriptionAdded(s, owner, name)) && Calm(s, SubscriptionAdded(s, owner, name))
  {
    hide RecordsOk, LeasesOk, NoticesOk, DeferredOk, OrderOk, Sound;
    NextTokenIsNew(s);
    var t := SubscriptionAdded(s, owner, name);
    TokensAdvanced(s, t.ledger.issued);
    NoticesKept(s.notices, s.ledger, t.ledger);
    TableCore(s, t, Subscribed(s.nextToken, Subscription(owner, name)));
    assert forall k | k in t.leases :: Carried(s, t, k);
  }

  ghost function SubscriptionDropped(s: State, token: Token): State {
    Logged(s, Unsubscribed(token)).(subscriptions := s.subscriptions - {token})
  }

  lemma SubscriptionDroppedCore(s: State, token: Token)
    requires Core(s) && token in s.subscriptions
    ensures Permitted(s.ledger, Unsubscribed(token))
    ensures Core(SubscriptionDropped(s, token)) && Calm(s, SubscriptionDropped(s, token))
  {
    hide RecordsOk, LeasesOk, NoticesOk, DeferredOk, OrderOk, Sound;
    var t := SubscriptionDropped(s, token);
    NoticesKept(s.notices, s.ledger, t.ledger);
    TableCore(s, t, Unsubscribed(token));
    assert forall k | k in t.leases :: Carried(s, t, k);
  }

  ghost function WatchAdded(s: State, owner: Owner, notes: seq<Notice>): State
  {
    Logged(s, Watched(s.nextToken, owner)).(
      watches := s.watches[s.nextToken := owner], nextToken := NextToken(s.nextToken), notices := s.notices + notes)
  }

  /** Appending notices about generations or watches the queue does not mention keeps it in order. */
  lemma NoticesAppended(notices: seq<Notice>, notes: seq<Notice>, l: Ledger)
    requires NoticesOk(notices, l) && NoticesOk(notes, l)
    requires forall i, j | 0 <= i < |notices| && 0 <= j < |notes| :: InOrder(notices[i], notes[j])
    ensures NoticesOk(notices + notes, l)
  {
    var all := notices + notes;
    forall i, j | 0 <= i < j < |all| ensures InOrder(all[i], all[j]) {
      if i < |notices| <= j { assert all[j] == notes[j - |notices|]; }
    }
  }

  lemma WatchAddedCore(s: State, owner: Owner, notes: seq<Notice>)
    requires Core(s) && Permitted(s.ledger, Watched(s.nextToken, owner))
    requires NoticesOk(notes, Step(s.ledger, Watched(s.nextToken, owner)))
    requires forall i | 0 <= i < |notes| :: notes[i].watch == s.nextToken
    ensures Core(WatchAdded(s, owner, notes)) && Calm(s, WatchAdded(s, owner, notes))
  {
    hide RecordsOk, LeasesOk, TokensOk, DeferredOk, OrderOk, Sound;
    var t := WatchAdded(s, owner, notes);
    TokensAdvanced(s, t.ledger.issued);
    NoticesKept(s.notices, s.ledger, t.ledger);
    NextTokenIsNew(s);
    forall i, j | 0 <= i < |s.notices| && 0 <= j < |notes| ensures InOrder(s.notices[i], notes[j]) {
      assert NoticeOk(s.notices[i], s.ledger);
    }
    NoticesAppended(s.notices, notes, t.ledger);
    TableCore(s, t, Watched(s.nextToken, owner));
    assert forall k | k in t.leases :: Carried(s, t, k);
  }

  /** The available notices a new watch starts with: one per published, active instance. */
  function Snapshot(order: seq<Bytes>, w: Token, records: map<Bytes, Record>): (notes: seq<Notice>)
    requires forall i | 0 <= i < |order| :: order[i] in records
    ensures forall i | 0 <= i < |notes| ::
              && notes[i].provider in order && notes[i].watch == w && notes[i].available
              && records[notes[i].provider].published && records[notes[i].provider].phase == Active
              && notes[i].gen == records[notes[i].provider].gen && notes[i].version == records[notes[i].provider].version
    ensures forall id | id in order && records[id].published && records[id].phase == Active ::
              Notice(w, id, records[id].gen, true, records[id].version) in notes
  {
    if order == [] then []
    else
      var last := order[|order| - 1];
      var r, earlier := records[last], Snapshot(order[..|order| - 1], w, records);
      if r.published && r.phase == Active then earlier + [Notice(w, last, r.gen, true, r.version)] else earlier
  }

  lemma {:induction false} SnapshotDistinct(order: seq<Bytes>, w: Token, records: map<Bytes, Record>)
    requires forall i | 0 <= i < |order| :: order[i] in records
    requires forall i, j | 0 <= i < j < |order| :: order[i] != order[j]
    ensures forall i, j | 0 <= i < j < |Snapshot(order, w, records)| ::
              Snapshot(order, w, records)[i].provider != Snapshot(order, w, records)[j].provider
  {
    if order != [] { SnapshotDistinct(order[..|order| - 1], w, records); }
  }

  /** The notices a new watch starts with, walking the registry in ascending order. */
  function FirstNotices(w: Token, records: map<Bytes, Record>): seq<Notice> {
    var order := Ascending(records.Keys);
    assert forall i | 0 <= i < |order| :: order[i] in order;
    Snapshot(order, w, records)
  }

  lemma SnapshotNext(order: seq<Bytes>, i: nat, w: Token, records: map<Bytes, Record>)
    requires i < |order| && forall k | 0 <= k < |order| :: order[k] in records
    ensures var r := records[order[i]];
            Snapshot(order[..i + 1], w, records)
            == Snapshot(order[..i], w, records)
               + (if r.published && r.phase == Active then [Notice(w, order[i], r.gen, true, r.version)] else [])
  {
    assert order[..i + 1][..i] == order[..i];
  }

  /** One available notice for `w` about each instance in service, and nothing else, in ascending order of
      the identities' bytes. */
  ghost predicate NewsOfService(notes: seq<Notice>, w: Token, records: map<Bytes, Record>) {
    && (forall i | 0 <= i < |notes| ::
          && notes[i].watch == w && notes[i].available && notes[i].provider in records
          && records[notes[i].provider].published && records[notes[i].provider].phase == Active
          && notes[i].gen == records[notes[i].provider].gen && notes[i].version == records[notes[i].provider].version)
    && (forall id | id in records && records[id].published && records[id].phase == Active ::
          exists i | 0 <= i < |notes| :: notes[i].provider == id)
    && (forall i, j | 0 <= i < j < |notes| :: SortsFirst(notes[i].provider, notes[j].provider))
  }

  lemma {:induction false} SnapshotAscends(order: seq<Bytes>, w: Token, records: map<Bytes, Record>)
    requires forall i | 0 <= i < |order| :: order[i] in records
    requires forall i, j | 0 <= i < j < |order| :: BytesLess(order[i], order[j])
    ensures forall i | 0 <= i < |Snapshot(order, w, records)| :: Snapshot(order, w, records)[i].provider in order
    ensures forall i, j | 0 <= i < j < |Snapshot(order, w, records)| ::
              BytesLess(Snapshot(order, w, records)[i].provider, Snapshot(order, w, records)[j].provider)
  {
    hide BytesLess;
    if order != [] {
      var front, last := order[..|order| - 1], order[|order| - 1];
      SnapshotAscends(front, w, records);
      forall x | x in front ensures x in order && BytesLess(x, last) {
        var k :| 0 <= k < |front| && front[k] == x;
        assert order[k] == x;
      }
    }
  }

  lemma FirstNoticesMean(w: Token, records: map<Bytes, Record>)
    ensures NewsOfService(FirstNotices(w, records), w, records)
  {
    hide SortsFirst, BytesLess, Snapshot, Ascending;
    var order := Ascending(records.Keys);
    assert forall i | 0 <= i < |order| :: order[i] in order;
    var notes := Snapshot(order, w, records);
    SnapshotAscends(order, w, records);
    forall i, j | 0 <= i < j < |notes| ensures SortsFirst(notes[i].provider, notes[j].provider) {
      LessIsFirstDifference(notes[i].provider, notes[j].provider);
    }
    forall id | id in records && records[id].published && records[id].phase == Active
      ensures exists i | 0 <= i < |notes| :: notes[i].provider == id
    {
      var r := records[id];
      assert id in order;
      assert Notice(w, id, r.gen, true, r.version) in notes;
      var i :| 0 <= i < |notes| && notes[i] == Notice(w, id, r.gen, true, r.version);
    }
  }

  lemma NewWatchNotice(s: State, owner: Owner, n: Notice)
    requires Core(s) && Permitted(s.ledger, Watched(s.nextToken, owner))
    requires n.watch == s.nextToken && n.provider in s.records && n.available && s.records[n.provider].published
    requires n.gen == s.records[n.provider].gen && n.version == s.records[n.provider].version
    ensures NoticeOk(n, Step(s.ledger, Watched(s.nextToken, owner)))
  {
    hide LeasesOk, NoticesOk, DeferredOk, OrderOk;
    RecordFacts(s, n.provider);
  }

  /** Notices about different instances are never out of turn. */
  lemma SnapshotInOrder(s: State, notes: seq<Notice>)
    requires Core(s)
    requires forall i | 0 <= i < |notes| ::
               notes[i].provider in s.records && notes[i].gen == s.records[notes[i].provider].gen
    requires forall i, j | 0 <= i < j < |notes| :: notes[i].provider != notes[j].provider
    ensures forall i, j | 0 <= i < j < |notes| :: InOrder(notes[i], notes[j])
  {
    hide Core;
    forall i, j | 0 <= i < j < |notes| ensures InOrder(notes[i], notes[j]) {
      RecordFacts(s, notes[i].provider);
      RecordFacts(s, notes[j].provider);
    }
  }

  lemma SnapshotOk(s: State, owner: Owner)
    requires Core(s) && Permitted(s.ledger, Watched(s.nextToken, owner))
    ensures NoticesOk(FirstNotices(s.nextToken, s.records), Step(s.ledger, Watched(s.nextToken, owner)))
  {
    hide Core, NoticeOk, InOrder, Step, Permitted, Snapshot, Ascending;
    var order := Ascending(s.records.Keys);
    assert forall i | 0 <= i < |order| :: order[i] in order;
    var notes := Snapshot(order, s.nextToken, s.records);
    SnapshotDistinct(order, s.nextToken, s.records);
    forall i | 0 <= i < |notes| ensures NoticeOk(notes[i], Step(s.ledger, Watched(s.nextToken, owner))) {
      NewWatchNotice(s, owner, notes[i]);
    }
    SnapshotInOrder(s, notes);
  }

  lemma FirstNoticesAbout(s: State)
    ensures forall i | 0 <= i < |FirstNotices(s.nextToken, s.records)| ::
              FirstNotices(s.nextToken, s.records)[i].watch == s.nextToken
  {
    hide Ascending, Snapshot;
  }

  ghost function WatchRemoved(s: State, w: Token): State
  {
    Logged(s, Unwatched(w)).(watches := s.watches - {w})
  }

  lemma WatchRemovedCore(s: State, w: Token)
    requires Core(s) && Permitted(s.ledger, Unwatched(w))
    ensures Core(WatchRemoved(s, w)) && Calm(s, WatchRemoved(s, w))
  {
    hide RecordsOk, LeasesOk, TokensOk, NoticesOk, DeferredOk, OrderOk, Sound;
    var t := WatchRemoved(s, w);
    NoticesKept(s.notices, s.ledger, t.ledger);
    TableCore(s, t, Unwatched(w));
    assert forall k | k in t.leases :: Carried(s, t, k);
  }

  ghost function MemoryLost(s: State): State {
    Logged(s, MemoryFailed)
  }

  lemma MemoryLostCore(s: State)
    requires Core(s)
    ensures Core(MemoryLost(s)) && Calm(s, MemoryLost(s))
  {
    hide RecordsOk, LeasesOk, TokensOk, NoticesOk, DeferredOk, OrderOk, Sound;
    TableCore(s, MemoryLost(s), MemoryFailed);
    assert forall k | k in s.leases :: Carried(s, MemoryLost(s), k);
  }

  /** A notice or event could not be set up for delivery, for lack of memory; it is lost, and nothing else is. */
  ghost function DeliveryLost(s: State): State {
    Logged(s, Dropped)
  }

  lemma DeliveryLostCore(s: State)
    requires Core(s)
    ensures Core(DeliveryLost(s)) && Calm(s, DeliveryLost(s))
  {
    hide RecordsOk, LeasesOk, TokensOk, NoticesOk, DeferredOk, OrderOk, Sound;
    TableCore(s, DeliveryLost(s), Dropped);
    assert forall k | k in s.leases :: Carried(s, DeliveryLost(s), k);
  }

  predicate OwnedBy(o: Owner, g: Gen) {
    o.Plugin? && o.gen == g
  }

  function OtherSubscriptions(subscriptions: map<Token, Subscription>, g: Gen): map<Token, Subscription> {
    map k | k in subscriptions && !OwnedBy(subscriptions[k].owner, g) :: subscriptions[k]
  }

  function OtherWatches(watches: map<Token, Owner>, g: Gen): map<Token, Owner> {
    map k | k in watches && !OwnedBy(watches[k], g) :: watches[k]
  }

  function OtherLeases(leases: map<Token, Lease>, g: Gen): map<Token, Lease> {
    map k | k in leases && !OwnedBy(leases[k].info.consumer, g) :: leases[k]
  }

  /** Everything one instance registered is dropped: subscriptions, watches, the leases it holds. */
  ghost function OwnerRemoved(s: State, g: Gen): State
  {
    Logged(s, OwnerCleared(g)).(
      subscriptions := OtherSubscriptions(s.subscriptions, g), watches := OtherWatches(s.watches, g),
      leases := OtherLeases(s.leases, g))
  }

  /** The registrations of one instance are gone, those of others are as they were, and nothing is added. */
  ghost predicate OthersLeft(s: State, t: State, g: Gen) {
    && (forall k :: k in t.subscriptions <==>
          k in s.subscriptions && !(s.subscriptions[k].owner.Plugin? && s.subscriptions[k].owner.gen == g))
    && (forall k | k in t.subscriptions :: t.subscriptions[k] == s.subscriptions[k])
    && (forall k :: k in t.watches <==> k in s.watches && !(s.watches[k].Plugin? && s.watches[k].gen == g))
    && (forall k | k in t.watches :: t.watches[k] == s.watches[k])
    && (forall k :: k in t.leases <==> k in s.leases && !(s.leases[k].info.consumer.Plugin? && s.leases[k].info.consumer.gen == g))
    && (forall k | k in t.leases :: t.leases[k] == s.leases[k])
    && t.notices == s.notices && t.events == s.events && t.records == s.records
  }

  lemma OthersKept(s: State, g: Gen)
    ensures OthersLeft(s, OwnerRemoved(s, g), g)
  {
    hide Advance;
  }

  lemma OwnerRemovedCore(s: State, g: Gen)
    requires Core(s) && Permitted(s.ledger, OwnerCleared(g))
    ensures Core(OwnerRemoved(s, g)) && Calm(s, OwnerRemoved(s, g))
    ensures NotBorrowing(OwnerRemoved(s, g).ledger, g) && NotListening(OwnerRemoved(s, g).ledger, g)
  {
    hide RecordsOk, NoticesOk, DeferredOk, OrderOk, Sound;
    var t := OwnerRemoved(s, g);
    NoticesKept(s.notices, s.ledger, t.ledger);
    assert t.watches == t.ledger.watched && t.subscriptions == t.ledger.subscribed;
    TableCore(s, t, OwnerCleared(g));
    assert forall k | k in t.leases :: Carried(s, t, k);
  }

  // ---- calls into plugin code ---------------------------------------------------------------

  ghost function Opened(s: State, id: Bytes, entry: Entry): State
    requires id in s.records 
  {
    var r := s.records[id];
    Logged(s, Entered(PluginFrame(r.gen, entry))).(
      records := s.records[id := r.(depth := r.depth + 1)], depth := s.depth + 1)
  }

  ghost function Closed(s: State, id: Bytes, entry: Entry, status: Status): State
    requires id in s.records && 0 < s.records[id].depth && 0 < s.depth
  {
    var r := s.records[id];
    Logged(s, Left(PluginFrame(r.gen, entry), status)).(
      records := s.records[id := r.(depth := r.depth - 1)], depth := s.depth - 1)
  }

  /** One record moves to another life; every other record is a different generation. */
  lemma RecordsMoved(s: State, id: Bytes, q: Record, life: Life)
    requires Core(s) && id in s.records && q.gen == s.records[id].gen && q.version == s.records[id].version
    requires q.node == s.records[id].node
    requires RecordOk(q, life, q.gen in s.ledger.published, q.gen in s.ledger.retiring)
    ensures RecordsOk(s.records[id := q], s.nextGen, s.ledger.births, s.ledger.lives[q.gen := life],
                      s.ledger.published, s.ledger.retiring)
  {
    var records, lives := s.records[id := q], s.ledger.lives[q.gen := life];
    forall k | k in records
      ensures && records[k].node.id == k && records[k].gen in s.ledger.births && s.ledger.births[records[k].gen] == Birth(k, records[k].version)
              && records[k].gen in lives
              && RecordOk(records[k], lives[records[k].gen], records[k].gen in s.ledger.published, records[k].gen in s.ledger.retiring)
    {
      if k != id { assert s.ledger.births[s.records[k].gen].id == k; }
    }
  }

  /** Changing one record's bookkeeping keeps the queues that refer to it by generation and phase. */
  lemma QueuesKept(s: State, id: Bytes, q: Record)
    requires Core(s) && id in s.records && q.gen == s.records[id].gen && q.phase == s.records[id].phase
    ensures DeferredOk(s.deferred, s.deferredGens, s.records[id := q]) && OrderOk(s.initOrder, s.records[id := q])
  {
    var records := s.records[id := q];
    forall i | 0 <= i < |s.initOrder|
      ensures s.initOrder[i] in records && !records[s.initOrder[i]].phase.Created? && !records[s.initOrder[i]].phase.Initializing?
    {
      assert s.initOrder[i] in s.records;
    }
  }

  /** Entering a call keeps the other queued notices deliverable if the delivered one came first. */
  lemma NoticesNotified(notices: seq<Notice>, l: Ledger, r: Ledger, entry: Entry)
    requires NoticesOk(notices, l)
    requires r.issued == l.issued && r.everPublished == l.everPublished && r.births == l.births && r.published == l.published
    requires r.delivered == l.delivered + Notified(entry)
    requires entry.OnCapability? ==>
               forall i | 0 <= i < |notices| ::
                 InOrder(Notice(entry.watch, [], entry.provider, entry.available, entry.version), notices[i])
    ensures NoticesOk(notices, r)
  {
    forall i | 0 <= i < |notices| ensures NoticeOk(notices[i], r) {
      assert NoticeOk(notices[i], l);
    }
  }

  lemma OpenedCore(s: State, id: Bytes, entry: Entry)
    requires Core(s) && id in s.records
    requires Permitted(s.ledger, Entered(PluginFrame(s.records[id].gen, entry)))
    requires Match(s.records[id].phase, s.records[id].live, Inside(s.ledger.lives[s.records[id].gen].stage, entry),
                   s.records[id].gen in s.ledger.retiring)
    requires entry.OnCapability? ==>
               forall i | 0 <= i < |s.notices| ::
                 InOrder(Notice(entry.watch, [], entry.provider, entry.available, entry.version), s.notices[i])
    ensures Core(Opened(s, id, entry))
  {
    hide RecordsOk, LeasesOk, TokensOk, NoticesOk, DeferredOk, OrderOk, Sound;
    RecordFacts(s, id);
    var t := Opened(s, id, entry);
    var g := s.records[id].gen;
    LoggedReplays(s, Entered(PluginFrame(g, entry)));
    RecordsMoved(s, id, t.records[id], Inside(s.ledger.lives[g].stage, entry));
    QueuesKept(s, id, t.records[id]);
    NoticesNotified(s.notices, s.ledger, t.ledger, entry);
  }

  lemma ClosedCore(s: State, id: Bytes, entry: Entry, status: Status)
    requires Core(s) && id in s.records && s.records[id].depth == 1 && 0 < s.depth
    requires Permitted(s.ledger, Left(PluginFrame(s.records[id].gen, entry), status))
    requires Match(s.records[id].phase, s.records[id].live,
                   Idle(After(s.ledger.lives[s.records[id].gen].stage, entry, status)),
                   s.records[id].gen in s.ledger.retiring)
    ensures Core(Closed(s, id, entry, status))
  {
    hide RecordsOk, LeasesOk, TokensOk, NoticesOk, DeferredOk, OrderOk, Sound;
    RecordFacts(s, id);
    var t := Closed(s, id, entry, status);
    var g := s.records[id].gen;
    LoggedReplays(s, Left(PluginFrame(g, entry), status));
    RecordsMoved(s, id, t.records[id], Idle(After(s.ledger.lives[g].stage, entry, status)));
    QueuesKept(s, id, t.records[id]);
    NoticesKept(s.notices, s.ledger, t.ledger);
  }

  ghost predicate MayOpen(s: State, id: Bytes, entry: Entry) {
    Core(s) && id in s.records && Permitted(s.ledger, Entered(PluginFrame(s.records[id].gen, entry)))
  }

  lemma OpenedFields(s: State, id: Bytes, entry: Entry)
    requires MayOpen(s, id, entry)
    ensures s.records[id].gen in s.ledger.lives && s.records[id].depth == 0
    ensures Opened(s, id, entry).ledger ==
              s.ledger.(stack := s.ledger.stack + [PluginFrame(s.records[id].gen, entry)],
                        lives := s.ledger.lives[s.records[id].gen := Inside(s.ledger.lives[s.records[id].gen].stage, entry)],
                        delivered := s.ledger.delivered + Notified(entry),
                        history := s.ledger.history + Deeds(s.records[id].gen, entry))
  {
    RecordFacts(s, id);
  }

  lemma ClosedFields(t: State, id: Bytes, entry: Entry, status: Status)
    requires id in t.records && 0 < t.records[id].depth && 0 < t.depth
    requires t.ledger.stack != [] && t.ledger.stack[|t.ledger.stack| - 1] == PluginFrame(t.records[id].gen, entry)
    requires t.records[id].gen in t.ledger.lives && t.ledger.lives[t.records[id].gen].Inside?
    requires t.ledger.lives[t.records[id].gen].entry == entry
    ensures Permitted(t.ledger, Left(PluginFrame(t.records[id].gen, entry), status))
    ensures Closed(t, id, entry, status).ledger ==
              t.ledger.(stack := t.ledger.stack[..|t.ledger.stack| - 1],
                        lives := t.ledger.lives[t.records[id].gen :=
                                   Idle(After(t.ledger.lives[t.records[id].gen].stage, entry, status))])
  {
  }

  /** At the end of a plugin call the callee is still registered, inside that very call. */
  lemma BracketEnds(s: State, t: State, id: Bytes, entry: Entry, status: Status)
    requires MayOpen(s, id, entry)
    requires Calm(Opened(s, id, entry), t)
    ensures id in s.records && s.records[id].gen in s.ledger.lives
    ensures id in t.records && t.records[id].depth == 1 && 0 < t.depth
    ensures t.records[id].gen == s.records[id].gen && t.records[id].phase == s.records[id].phase
    ensures t.records[id].live == s.records[id].live
    ensures t.ledger.lives[s.records[id].gen] == Inside(s.ledger.lives[s.records[id].gen].stage, entry)
    ensures Permitted(t.ledger, Left(PluginFrame(s.records[id].gen, entry), status))
  {
    hide Core, Permitted, Step, Advance;
    OpenedFields(s, id, entry);
    assert SameButAnnounced(Opened(s, id, entry).records[id], t.records[id]);
    ClosedFields(t, id, entry, status);
  }

  /** What opening and closing a call leaves alone. */
  ghost predicate SameSurroundings(s: State, t: State) {
    && t.nextGen == s.nextGen && t.retiring == s.retiring && t.initializing == s.initializing
    && t.starting == s.starting && t.shutting == s.shutting && t.draining == s.draining
    && t.initOrder == s.initOrder && t.leases == s.leases && s.trace <= t.trace
    && t.ledger.births == s.ledger.births && t.ledger.inflight == s.ledger.inflight
    && t.ledger.published == s.ledger.published && t.ledger.everPublished == s.ledger.everPublished
    && t.ledger.retiring == s.ledger.retiring && t.ledger.issued == s.ledger.issued
  }

  /** Calm activity between a call's opening and its closing is calm from outside, but for the callee's life. */
  lemma Framed(s: State, o: State, t: State, u: State, deeds: seq<Deed>)
    requires Calm(o, t)
    requires SameSurroundings(s, o) && SameSurroundings(t, u)
    requires u.depth == s.depth && u.ledger.stack == s.ledger.stack
    requires o.ledger.history == s.ledger.history + deeds && u.ledger.history == t.ledger.history
    requires o.records.Keys == s.records.Keys && u.records.Keys == t.records.Keys
    requires forall k | k in s.records :: o.records[k] == s.records[k].(depth := o.records[k].depth)
    requires forall k | k in s.records && k in t.records :: u.records[k] == t.records[k].(depth := s.records[k].depth)
    ensures CalmTo(s, u, u.ledger.lives, deeds)
  {
    forall k | k in s.records ensures SameButAnnounced(s.records[k], u.records[k]) {
      assert SameButAnnounced(o.records[k], t.records[k]);
    }
    forall c | c in u.leases ensures Carried(s, u, c) || Fresh(s, u, c) {
      assert Carried(o, t, c) || Fresh(o, t, c);
    }
  }

  /** Opening a call touches one record's depth, the engine's depth and the ledger's frames. */
  lemma OpenedShape(s: State, id: Bytes, entry: Entry)
    requires MayOpen(s, id, entry)
    ensures var o := Opened(s, id, entry);
            && SameSurroundings(s, o) && o.records.Keys == s.records.Keys
            && (forall k | k in s.records :: o.records[k] == s.records[k].(depth := o.records[k].depth))
            && o.records[id].depth == s.records[id].depth + 1
            && o.ledger.history == s.ledger.history + Deeds(s.records[id].gen, entry)
            && (forall k | k in s.records && k != id :: o.records[k] == s.records[k])
  {
    hide Core, Permitted, Step, Advance;
    OpenedFields(s, id, entry);
  }

  lemma ClosedShape(t: State, id: Bytes, entry: Entry, status: Status)
    requires id in t.records && 0 < t.records[id].depth && 0 < t.depth
    requires Permitted(t.ledger, Left(PluginFrame(t.records[id].gen, entry), status))
    ensures var u := Closed(t, id, entry, status);
            && SameSurroundings(t, u) && u.ledger.history == t.ledger.history && u.records.Keys == t.records.Keys
            && (forall k | k in t.records && k != id :: u.records[k] == t.records[k])
            && u.records[id] == t.records[id].(depth := t.records[id].depth - 1)
  {
  }

  lemma BracketLives(s: State, t: State, id: Bytes, entry: Entry, status: Status)
    requires MayOpen(s, id, entry)
    requires Calm(Opened(s, id, entry), t)
    ensures id in s.records && s.records[id].gen in s.ledger.lives
    ensures id in t.records && t.records[id].depth == 1 && 0 < t.depth
    ensures Closed(t, id, entry, status).depth == s.depth && Closed(t, id, entry, status).ledger.stack == s.ledger.stack
    ensures Closed(t, id, entry, status).ledger.lives ==
              s.ledger.lives[s.records[id].gen := Idle(After(s.ledger.lives[s.records[id].gen].stage, entry, status))]
  {
    hide Core, Permitted, Step, Advance, After, CalmTo;
    BracketEnds(s, t, id, entry, status);
    CalmFacts(Opened(s, id, entry), t);
    OpenedFields(s, id, entry);
    ClosedFields(t, id, entry, status);
    assert (s.ledger.stack + [PluginFrame(s.records[id].gen, entry)])[..|s.ledger.stack|] == s.ledger.stack;
  }

  /** A plugin call leaves the tables as its own activity left them, and its instance where `After` says. */
  lemma Bracket(s: State, t: State, id: Bytes, entry: Entry, status: Status)
    requires MayOpen(s, id, entry)
    requires Calm(Opened(s, id, entry), t)
    ensures id in s.records && s.records[id].gen in s.ledger.lives
    ensures id in t.records && t.records[id].depth == 1 && 0 < t.depth
    ensures CalmTo(s, Closed(t, id, entry, status),
                   s.ledger.lives[s.records[id].gen := Idle(After(s.ledger.lives[s.records[id].gen].stage, entry, status))],
                   Deeds(s.records[id].gen, entry))
  {
    hide MayOpen, Permitted, After, CalmTo, Opened, Closed, SameSurroundings;
    BracketLives(s, t, id, entry, status);
    BracketEnds(s, t, id, entry, status);
    var o, u := Opened(s, id, entry), Closed(t, id, entry, status);
    OpenedShape(s, id, entry);
    ClosedShape(t, id, entry, status);
    CalmFacts(o, t);
    Framed(s, o, t, u, Deeds(s.records[id].gen, entry));
  }

  /** A call that keeps its record's phase consistent however it returns. */
  ghost predicate Callable(s: State, id: Bytes, entry: Entry) {
    && MayOpen(s, id, entry)
    && s.records[id].gen in s.ledger.lives
    && Match(s.records[id].phase, s.records[id].live, Inside(s.ledger.lives[s.records[id].gen].stage, entry),
             s.records[id].gen in s.ledger.retiring)
    && (forall st: Status ::
          Match(s.records[id].phase, s.records[id].live, Idle(After(s.ledger.lives[s.records[id].gen].stage, entry, st)),
                s.records[id].gen in s.ledger.retiring))
    && (entry.OnCapability? ==>
          forall i | 0 <= i < |s.notices| ::
            InOrder(Notice(entry.watch, [], entry.provider, entry.available, entry.version), s.notices[i]))
  }

  /** Where a call on the instance of `id` leaves the lives. */
  ghost function LivesAfter(s: State, id: Bytes, entry: Entry, status: Status): map<Gen, Life> {
    if id in s.records && s.records[id].gen in s.ledger.lives then
      s.ledger.lives[s.records[id].gen := Idle(After(s.ledger.lives[s.records[id].gen].stage, entry, status))]
    else s.ledger.lives
  }

  ghost function DeedsOf(s: State, id: Bytes, entry: Entry): seq<Deed> {
    if id in s.records then Deeds(s.records[id].gen, entry) else []
  }

  /** A call may be closed whatever it returns, and closing it restores the surroundings. */
  lemma CallEnds(s: State, t: State, id: Bytes, entry: Entry, status: Status)
    requires Callable(s, id, entry) && Core(t) && Calm(Opened(s, id, entry), t)
    ensures id in t.records && t.records[id].depth == 1 && 0 < t.depth
    ensures Permitted(t.ledger, Left(PluginFrame(t.records[id].gen, entry), status))
    ensures Core(Closed(t, id, entry, status))
    ensures CalmTo(s, Closed(t, id, entry, status), LivesAfter(s, id, entry, status), DeedsOf(s, id, entry))
  {
    hide Core, Permitted, Step, Advance, After, CalmTo, MayOpen, Opened, Closed;
    BracketEnds(s, t, id, entry, status);
    OpenedRetiring(s, id, entry);
    CalmRetiring(Opened(s, id, entry), t);
    ClosedCore(t, id, entry, status);
    Bracket(s, t, id, entry, status);
  }

  predicate Lifecycle(entry: Entry) {
    entry.Init? || entry.Start? || entry.Stop? || entry.Destroy?
  }

  /** A notification or business call leaves no mark on its instance's lifecycle. */
  lemma VisitIsCalm(s: State, t: State, id: Bytes, entry: Entry, status: Status)
    requires Callable(s, id, entry) && !Lifecycle(entry)
    requires CalmTo(s, t, LivesAfter(s, id, entry, status), DeedsOf(s, id, entry))
    ensures Calm(s, t)
  {
    hide Core, CalmTo, Match, Legal, EntryRule;
    assert LivesAfter(s, id, entry, status) == s.ledger.lives;
  }

  lemma OpenedRunning(s: State, id: Bytes, entry: Entry)
    requires id in s.records
    ensures Opened(s, id, entry).depth == s.depth + 1
    ensures Opened(s, id, entry).trace == s.trace + [Entered(PluginFrame(s.records[id].gen, entry))]
    ensures id in Opened(s, id, entry).records && Opened(s, id, entry).records[id].gen == s.records[id].gen
  {
    hide Advance;
  }

  lemma CalmTrace(s: State, t: State, lives: map<Gen, Life>, deeds: seq<Deed>)
    requires CalmTo(s, t, lives, deeds)
    ensures s.trace <= t.trace
  {
  }

  lemma ClosedTrace(t: State, id: Bytes, entry: Entry, status: Status)
    requires id in t.records && 0 < t.records[id].depth && 0 < t.depth
    ensures Closed(t, id, entry, status).trace == t.trace + [Left(PluginFrame(t.records[id].gen, entry), status)]
    ensures Closed(t, id, entry, status).leases == t.leases
  {
    hide Advance;
  }

  lemma CalmGen(s: State, t: State, id: Bytes)
    requires Calm(s, t) && id in s.records
    ensures id in t.records && t.records[id].gen == s.records[id].gen
  {
    assert SameButAnnounced(s.records[id], t.records[id]);
  }

  lemma OpenedRetiring(s: State, id: Bytes, entry: Entry)
    requires MayOpen(s, id, entry)
    ensures Opened(s, id, entry).ledger.retiring == s.ledger.retiring
  {
    hide Core;
    OpenedFields(s, id, entry);
  }

  lemma CalmRetiring(s: State, t: State)
    requires Calm(s, t)
    ensures t.ledger.retiring == s.ledger.retiring
  {
  }

  lemma CallOpens(s: State, id: Bytes, entry: Entry)
    requires Callable(s, id, entry)
    ensures id in s.records && Permitted(s.ledger, Entered(PluginFrame(s.records[id].gen, entry)))
    ensures Core(Opened(s, id, entry))
  {
    hide Core, Permitted, Step, Advance, After, Opened;
    OpenedCore(s, id, entry);
  }

  lemma CalmFacts(s: State, t: State)
    requires Calm(s, t)
    ensures t.records.Keys == s.records.Keys && t.depth == s.depth
    ensures t.ledger.lives == s.ledger.lives && t.ledger.stack == s.ledger.stack
    ensures forall id | id in s.records :: SameButAnnounced(s.records[id], t.records[id])
  {
  }

  lemma HostBracket(s: State, t: State, call: HostCall, status: Status)
    requires Core(s) && Permitted(s.ledger, Entered(HostFrame(call)))
    requires Calm(HostOpened(s, call), t)
    ensures 0 < t.depth && Permitted(t.ledger, Left(HostFrame(call), status))
    ensures Calm(s, HostClosed(t, call, status))
  {
    hide Core, CalmTo;
    var o := HostOpened(s, call);
    CalmFacts(o, t);
    var u := HostClosed(t, call, status);
    assert (s.ledger.stack + [HostFrame(call)])[..|s.ledger.stack|] == s.ledger.stack;
    Framed(s, o, t, u, []);
  }

  /** A business call gives its slot back: the lease counts again what it counted before. */
  lemma CallBracket(s: State, t: State, c: Token)
    requires Core(s) && c in s.leases && Permitted(s.ledger, CallOpened(c))
    requires Core(t) && Calm(CallBegun(s, c), t)
    ensures c in t.leases && 0 < t.leases[c].activeCalls && Permitted(t.ledger, CallClosed(c))
    ensures Calm(s, CallEnded(t, c))
  {
    hide RecordsOk, LeasesOk, TokensOk, NoticesOk, DeferredOk, OrderOk, Sound;
    var o := CallBegun(s, c);
    assert c in t.ledger.inflight;
    OpenCallFacts(t, c);
    LeaseFacts(s, c);
    var u := CallEnded(t, c);
    assert u.ledger.inflight == s.ledger.inflight;
    forall k | k in s.records ensures SameButAnnounced(s.records[k], u.records[k]) {
      assert SameButAnnounced(o.records[k], t.records[k]);
    }
    forall k | k in u.leases ensures Carried(s, u, k) || Fresh(s, u, k) {
      assert Carried(o, t, k) || Fresh(o, t, k);
    }
  }

  ghost function HostOpened(s: State, call: HostCall): State
  {
    Logged(s, Entered(HostFrame(call))).(depth := s.depth + 1)
  }

  ghost function HostClosed(s: State, call: HostCall, status: Status): State
    requires 0 < s.depth
  {
    Logged(s, Left(HostFrame(call), status)).(depth := s.depth - 1)
  }

  lemma HostOpenedTrace(s: State, call: HostCall)
    ensures HostOpened(s, call).trace == s.trace + [Entered(HostFrame(call))]
  {
    hide Advance;
  }

  lemma HostClosedTrace(s: State, call: HostCall, status: Status)
    requires 0 < s.depth
    ensures HostClosed(s, call, status).trace == s.trace + [Left(HostFrame(call), status)]
    ensures HostClosed(s, call, status).leases == s.leases
  {
    hide Advance;
  }

  lemma HostOpenedCore(s: State, call: HostCall)
    requires Core(s) && Permitted(s.ledger, Entered(HostFrame(call)))
    ensures Core(HostOpened(s, call))
  {
    hide RecordsOk, LeasesOk, TokensOk, NoticesOk, DeferredOk, OrderOk, Sound;
    LoggedReplays(s, Entered(HostFrame(call)));
    NoticesKept(s.notices, s.ledger, HostOpened(s, call).ledger);
  }

  lemma HostClosedCore(s: State, call: HostCall, status: Status)
    requires Core(s) && Permitted(s.ledger, Left(HostFrame(call), status)) && 0 < s.depth
    ensures Core(HostClosed(s, call, status))
  {
    hide RecordsOk, LeasesOk, TokensOk, NoticesOk, DeferredOk, OrderOk, Sound;
    LoggedReplays(s, Left(HostFrame(call), status));
    NoticesKept(s.notices, s.ledger, HostClosed(s, call, status).ledger);
  }

  // ---- lifecycle --------------------------------------------------------------------------------

  ghost function Announced(s: State, id: Bytes, methods: seq<MethodInfo>): State
    requires id in s.records
  {
    s.(records := s.records[id := s.records[id].(methods := methods, announced := true)])
  }

  /** A record changes without its instance moving. */
  lemma RecordChanged(s: State, id: Bytes, q: Record)
    requires Core(s) && id in s.records && q.gen == s.records[id].gen && q.version == s.records[id].version
    requires q.node == s.records[id].node
    requires q.gen in s.ledger.lives && RecordOk(q, s.ledger.lives[q.gen], q.gen in s.ledger.published, q.gen in s.ledger.retiring)
    ensures RecordsOk(s.records[id := q], s.nextGen, s.ledger.births, s.ledger.lives, s.ledger.published, s.ledger.retiring)
  {
    RecordsMoved(s, id, q, s.ledger.lives[q.gen]);
    assert s.ledger.lives[q.gen := s.ledger.lives[q.gen]] == s.ledger.lives;
  }

  lemma AnnouncedCore(s: State, id: Bytes, methods: seq<MethodInfo>)
    requires Core(s) && id in s.records && s.records[id].phase == Starting && !s.records[id].announced
    requires !s.records[id].published
    ensures Core(Announced(s, id, methods)) && Calm(s, Announced(s, id, methods))
  {
    hide RecordsOk, LeasesOk, TokensOk, NoticesOk, DeferredOk, OrderOk, Sound;
    var t := Announced(s, id, methods);
    RecordFacts(s, id);
    RecordChanged(s, id, t.records[id]);
    QueuesKept(s, id, t.records[id]);
    assert forall k | k in t.leases :: Carried(s, t, k);
  }

  ghost function Rephased(s: State, id: Bytes, phase: Phase): State
    requires id in s.records
  {
    s.(records := s.records[id := s.records[id].(phase := phase)])
  }

  lemma QueuesRephased(s: State, id: Bytes, q: Record)
    requires Core(s) && id in s.records && q.gen == s.records[id].gen
    requires (q.phase.Created? || q.phase.Initializing?) == (s.records[id].phase.Created? || s.records[id].phase.Initializing?)
    ensures DeferredOk(s.deferred, s.deferredGens, s.records[id := q]) && OrderOk(s.initOrder, s.records[id := q])
  {
    hide RecordsOk, LeasesOk, TokensOk, NoticesOk, Sound;
  }

  lemma RephasedCore(s: State, id: Bytes, phase: Phase)
    requires Core(s) && id in s.records
    requires (phase.Created? || phase.Initializing?) == (s.records[id].phase.Created? || s.records[id].phase.Initializing?)
    requires s.records[id].gen in s.ledger.lives
    requires Match(phase, s.records[id].live, s.ledger.lives[s.records[id].gen], s.records[id].gen in s.ledger.retiring)
    requires s.records[id].published ==> phase == Active || phase == Revoking
    ensures Core(Rephased(s, id, phase))
  {
    hide RecordsOk, LeasesOk, TokensOk, NoticesOk, DeferredOk, OrderOk, Sound;
    RecordFacts(s, id);
    RecordChanged(s, id, s.records[id].(phase := phase));
    QueuesRephased(s, id, s.records[id].(phase := phase));
  }

  /** A successful init() moves the record to Initialized and records it in the order. */
  ghost function Readied(s: State, id: Bytes): State
    requires id in s.records
  {
    Rephased(s, id, Initialized).(initOrder := s.initOrder + [id])
  }

  lemma ReadiedCore(s: State, id: Bytes)
    requires Core(s) && id in s.records && s.records[id].phase == Initializing && s.records[id].live
    requires s.records[id].gen in s.ledger.lives && s.ledger.lives[s.records[id].gen] == Idle(Ready)
    ensures Core(Readied(s, id))
  {
    hide RecordsOk, LeasesOk, TokensOk, NoticesOk, Sound;
    RecordFacts(s, id);
    var q := s.records[id].(phase := Initialized);
    RecordChanged(s, id, q);
    var t := Readied(s, id);
    assert id !in s.initOrder;
    forall k | k in t.records && !t.records[k].phase.Created? && !t.records[k].phase.Initializing? ensures k in t.initOrder {
      if k == id { assert t.initOrder[|s.initOrder|] == id; } else { assert k in s.initOrder; }
    }
  }

  ghost function TornDown(s: State, id: Bytes): State
    requires id in s.records 
  {
    Logged(Rephased(s, id, Revoking), Retiring(s.records[id].gen))
  }

  lemma TornDownCore(s: State, id: Bytes)
    requires Core(s) && id in s.records && Permitted(s.ledger, Retiring(s.records[id].gen)) && s.records[id].live
    requires !s.records[id].phase.Created? && !s.records[id].phase.Initializing?
    ensures Core(TornDown(s, id))
  {
    hide LeasesOk, TokensOk, NoticesOk, DeferredOk, OrderOk, Sound;
    RecordFacts(s, id);
    var t, e, q := TornDown(s, id), Retiring(s.records[id].gen), s.records[id].(phase := Revoking);
    LoggedReplays(s, e);
    QueuesRephased(s, id, q);
    NoticesKept(s.notices, s.ledger, t.ledger);
    forall k | k in t.records && k != id ensures t.records[k].gen != q.gen {
      assert s.ledger.births[s.records[k].gen].id == k;
    }
  }

  // ---- publication ------------------------------------------------------------------------------

  /** One notice per watch, in token order, about one provider generation. */
  function NoticesAbout(order: seq<Token>, id: Bytes, r: Record, available: bool): (notes: seq<Notice>)
    ensures |notes| == |order|
    ensures forall i | 0 <= i < |notes| :: notes[i] == Notice(order[i], id, r.gen, available, r.version)
  {
    if order == [] then []
    else
      NoticesAbout(order[..|order| - 1], id, r, available)
      + [Notice(order[|order| - 1], id, r.gen, available, r.version)]
  }

  lemma NoticesAboutOk(order: seq<Token>, id: Bytes, r: Record, available: bool, l: Ledger)
    requires forall i | 0 <= i < |order| :: order[i] in l.issued
    requires forall i, j | 0 <= i < j < |order| :: order[i] != order[j]
    requires r.gen in l.everPublished && r.gen in l.births && l.births[r.gen] == Birth(id, r.version)
    requires !available ==> r.gen !in l.published
    requires forall w | w in order :: (w, r.gen, available) !in l.delivered && (w, r.gen, false) !in l.delivered
    ensures NoticesOk(NoticesAbout(order, id, r, available), l)
  {
    var notes := NoticesAbout(order, id, r, available);
    forall i | 0 <= i < |notes| ensures NoticeOk(notes[i], l) { assert order[i] in order; }
  }

  /** Queueing one notice per watch about `r` keeps the queue in order when none is queued out of turn. */
  lemma NewsQueued(notices: seq<Notice>, order: seq<Token>, id: Bytes, r: Record, available: bool, l: Ledger)
    requires NoticesOk(notices, l) && NoticesOk(NoticesAbout(order, id, r, available), l)
    requires forall i | 0 <= i < |notices| && notices[i].gen == r.gen :: notices[i].available && !available
    ensures NoticesOk(notices + NoticesAbout(order, id, r, available), l)
  {
    NoticesAppended(notices, NoticesAbout(order, id, r, available), l);
  }

  /** What the queue says about one generation: nothing before it was ever published, and no
      withdrawal while it is published. */
  lemma QueueAbout(s: State, g: Gen)
    requires Core(s)
    ensures g !in s.ledger.everPublished ==> forall i | 0 <= i < |s.notices| :: s.notices[i].gen != g
    ensures g in s.ledger.published ==> forall i | 0 <= i < |s.notices| && s.notices[i].gen == g :: s.notices[i].available
  {
    hide RecordsOk, LeasesOk, TokensOk, DeferredOk, OrderOk, Sound;
    forall i | 0 <= i < |s.notices| ensures NoticeOk(s.notices[i], s.ledger) { }
  }

  /** One record's publication changes; the published set changes at its generation only. */
  lemma PublicationChanged(s: State, id: Bytes, q: Record, published: set<Gen>)
    requires Core(s) && id in s.records && q.gen == s.records[id].gen && q.version == s.records[id].version
    requires q.node == s.records[id].node
    requires q.gen in s.ledger.lives && RecordOk(q, s.ledger.lives[q.gen], q.gen in published, q.gen in s.ledger.retiring)
    requires forall g | g != q.gen :: g in published <==> g in s.ledger.published
    ensures RecordsOk(s.records[id := q], s.nextGen, s.ledger.births, s.ledger.lives, published, s.ledger.retiring)
  {
    hide LeasesOk, TokensOk, NoticesOk, DeferredOk, OrderOk, Sound;
    forall k | k in s.records && k != id ensures s.records[k].gen != q.gen {
      assert s.ledger.births[s.records[k].gen].id == k;
    }
  }

  ghost function Committed(s: State, id: Bytes, invoker: bool): State
    requires id in s.records 
  {
    var r := s.records[id];
    Logged(s, Published(r.gen)).(
      records := s.records[id := r.(published := true, invoker := invoker)],
      notices := s.notices + NoticesAbout(AscendingTokens(s.watches.Keys), id, r, true))
  }

  lemma CommittedCore(s: State, id: Bytes, invoker: bool)
    requires Core(s) && id in s.records && Permitted(s.ledger, Published(s.records[id].gen))
    requires s.records[id].phase == Active && (s.records[id].methods != [] ==> invoker)
    ensures Core(Committed(s, id, invoker))
  {
    hide RecordsOk, LeasesOk, TokensOk, NoticesOk, DeferredOk, OrderOk, Sound;
    RecordFacts(s, id);
    var r, t := s.records[id], Committed(s, id, invoker);
    LoggedReplays(s, Published(r.gen));
    QueuesKept(s, id, t.records[id]);
    NoticesKept(s.notices, s.ledger, t.ledger);
    NewsIsNew(s, r.gen);
    QueueAbout(s, r.gen);
    NoticesAboutOk(AscendingTokens(s.watches.Keys), id, r, true, t.ledger);
    NewsQueued(s.notices, AscendingTokens(s.watches.Keys), id, r, true, t.ledger);
    PublicationChanged(s, id, t.records[id], t.ledger.published);
  }

  /** Before a generation is published nothing was delivered about it, and every watch was issued. */
  lemma NewsIsNew(s: State, g: Gen)
    requires Core(s)
    ensures g !in s.ledger.everPublished ==> forall w, b :: (w, g, b) !in s.ledger.delivered
    ensures g in s.ledger.published ==> forall w :: (w, g, false) !in s.ledger.delivered
    ensures g in s.ledger.published ==> g in s.ledger.everPublished
    ensures forall w | w in s.watches :: w in s.ledger.issued
  {
    hide RecordsOk, LeasesOk, TokensOk, NoticesOk, DeferredOk, OrderOk;
  }

  ghost function Retracted(s: State, id: Bytes): State
    requires id in s.records 
  {
    var r := s.records[id];
    Logged(s, Withdrawn(r.gen)).(
      records := s.records[id := r.(published := false)],
      notices := s.notices + NoticesAbout(AscendingTokens(s.watches.Keys), id, r, false))
  }

  lemma RetractedCore(s: State, id: Bytes)
    requires Core(s) && id in s.records && Permitted(s.ledger, Withdrawn(s.records[id].gen))
    ensures Core(Retracted(s, id))
  {
    hide RecordsOk, LeasesOk, TokensOk, NoticesOk, DeferredOk, OrderOk, Sound;
    RecordFacts(s, id);
    var r, t := s.records[id], Retracted(s, id);
    LoggedReplays(s, Withdrawn(r.gen));
    QueuesKept(s, id, t.records[id]);
    NoticesKept(s.notices, s.ledger, t.ledger);
    NewsIsNew(s, r.gen);
    QueueAbout(s, r.gen);
    NoticesAboutOk(AscendingTokens(s.watches.Keys), id, r, false, t.ledger);
    NewsQueued(s.notices, AscendingTokens(s.watches.Keys), id, r, false, t.ledger);
    PublicationChanged(s, id, t.records[id], t.ledger.published);
  }

  // ---- creation and destruction -------------------------------------------------------------------

  function FreshRecord(gen: Gen, version: Version, node: OrderNode): Record {
    Record(gen, version, node, Created, 0, false, false, [], false, false)
  }

  ghost function StagedIn(s: State, node: OrderNode, version: Version): State
  {
    Logged(s, Staged(s.nextGen, node.id, version)).(
      records := s.records[node.id := FreshRecord(s.nextGen, version, node)], nextGen := s.nextGen + 1)
  }

  /** An identity that is not registered may be staged: whoever carried it before is gone. */
  lemma StagingPermitted(s: State, id: Bytes, version: Version)
    requires Core(s) && id !in s.records && s.ledger.stack == []
    ensures Permitted(s.ledger, Staged(s.nextGen, id, version))
  {
    hide LeasesOk, TokensOk, NoticesOk, DeferredOk, OrderOk;
    forall h | h in s.ledger.births && s.ledger.births[h].id == id
      ensures h in s.ledger.lives && Departed(s.ledger.lives[h])
    {
      if !Departed(s.ledger.lives[h]) { Accounted(s, h); }
    }
  }

  lemma RecordStaged(s: State, node: OrderNode, version: Version)
    requires Core(s) && node.id != [] && node.id !in s.records
    ensures RecordsOk(s.records[node.id := FreshRecord(s.nextGen, version, node)], s.nextGen + 1,
                      s.ledger.births[s.nextGen := Birth(node.id, version)], s.ledger.lives[s.nextGen := Idle(Unmade)],
                      s.ledger.published, s.ledger.retiring)
  {
    hide LeasesOk, TokensOk, NoticesOk, DeferredOk, OrderOk, Sound;
    NextGenIsNew(s);
    var births := s.ledger.births[s.nextGen := Birth(node.id, version)];
    forall g | g in births && g in s.ledger.lives && !Departed(s.ledger.lives[g]) && g != s.nextGen
      ensures births[g].id != node.id
    {
      Accounted(s, g);
    }
  }

  lemma StagedInCore(s: State, node: OrderNode, version: Version)
    requires Core(s) && node.id != [] && node.id !in s.records && Permitted(s.ledger, Staged(s.nextGen, node.id, version))
    ensures Core(StagedIn(s, node, version))
  {
    hide RecordsOk, LeasesOk, TokensOk, NoticesOk, Sound;
    var t := StagedIn(s, node, version);
    NextGenIsNew(s);
    RecordStaged(s, node, version);
    LoggedReplays(s, Staged(s.nextGen, node.id, version));
    NoticesKept(s.notices, s.ledger, t.ledger);
  }

  lemma NextGenIsNew(s: State)
    requires Core(s)
    ensures s.nextGen !in s.ledger.published && s.nextGen !in s.ledger.retiring && s.nextGen !in s.ledger.everPublished
    ensures s.ledger.births.Keys == s.ledger.lives.Keys
  {
    hide LeasesOk, TokensOk, NoticesOk, DeferredOk, OrderOk;
  }

  ghost function ObtainedBy(s: State, id: Bytes, accepted: bool): State
    requires id in s.records 
  {
    Logged(s, Obtained(s.records[id].gen, accepted)).(records := s.records[id := s.records[id].(live := accepted)])
  }

  lemma ObtainedByCore(s: State, id: Bytes, accepted: bool)
    requires Core(s) && id in s.records && Permitted(s.ledger, Obtained(s.records[id].gen, accepted))
    requires s.records[id].phase == Created && !s.records[id].live
    ensures Core(ObtainedBy(s, id, accepted))
  {
    hide RecordsOk, LeasesOk, TokensOk, NoticesOk, DeferredOk, OrderOk, Sound;
    RecordFacts(s, id);
    var t := ObtainedBy(s, id, accepted);
    LoggedReplays(s, Obtained(s.records[id].gen, accepted));
    RecordsMoved(s, id, t.records[id], Idle(if accepted then Made else Refused));
    QueuesKept(s, id, t.records[id]);
    NoticesKept(s.notices, s.ledger, t.ledger);
  }

  /** The instance pointer is cleared before destroy() is entered, so a re-entrant failure cannot destroy twice. */
  ghost function Darkened(s: State, id: Bytes): State
    requires id in s.records
  {
    s.(records := s.records[id := s.records[id].(live := false)])
  }

  predicate Destroyable(phase: Phase, life: Life) {
    || (phase == Created && life == Idle(Made))
    || (phase == Initializing && life == Idle(InitFailed))
    || (phase == Revoking && life == Idle(Halted))
  }

  lemma DarkenedCore(s: State, id: Bytes)
    requires Core(s) && id in s.records && s.records[id].gen in s.ledger.lives
    requires Destroyable(s.records[id].phase, s.ledger.lives[s.records[id].gen])
    ensures Core(Darkened(s, id))
  {
    hide RecordsOk, LeasesOk, TokensOk, NoticesOk, DeferredOk, OrderOk, Sound;
    RecordFacts(s, id);
    var t := Darkened(s, id);
    RecordChanged(s, id, t.records[id]);
    QueuesKept(s, id, t.records[id]);
  }

  /** Drop one identity from a list, keeping the order of the rest. */
  function Without(ids: seq<Bytes>, id: Bytes): (r: seq<Bytes>)
    ensures id !in r
    ensures forall x | x in ids && x != id :: x in r
    ensures forall x | x in r :: x in ids
    ensures |r| <= |ids|
    ensures id !in ids ==> r == ids
  {
    if ids == [] then []
    else if ids[0] == id then Without(ids[1..], id)
    else [ids[0]] + Without(ids[1..], id)
  }

  lemma {:induction false} WithoutDistinct(ids: seq<Bytes>, id: Bytes)
    requires forall i, j | 0 <= i < j < |ids| :: ids[i] != ids[j]
    ensures forall i, j | 0 <= i < j < |Without(ids, id)| :: Without(ids, id)[i] != Without(ids, id)[j]
  {
    if ids != [] {
      WithoutDistinct(ids[1..], id);
      var rest := Without(ids[1..], id);
      forall j | 0 <= j < |rest| ensures rest[j] != ids[0] { assert rest[j] in ids[1..]; }
    }
  }

  /** The generations of the entries `Without` keeps. */
  function GensWithout(ids: seq<Bytes>, gens: seq<Gen>, id: Bytes): (r: seq<Gen>)
    requires |ids| == |gens|
    ensures |r| == |Without(ids, id)|
  {
    if ids == [] then []
    else if ids[0] == id then GensWithout(ids[1..], gens[1..], id)
    else [gens[0]] + GensWithout(ids[1..], gens[1..], id)
  }

  /** Entry by entry, in order: those that name the identity go, all others stay. */
  lemma {:induction false} WithoutEach(ids: seq<Bytes>, more: seq<Bytes>, id: Bytes)
    ensures Without(ids + more, id) == Without(ids, id) + Without(more, id)
  {
    if ids == [] {
      assert ids + more == more;
    } else {
      hide Without;
      var x, rest := ids[0], ids[1..];
      Peel(ids, more);
      WithoutFirst(x, rest, id);
      WithoutFirst(x, rest + more, id);
      WithoutEach(rest, more, id);
      Regroup(if x == id then [] else [x], Without(rest, id), Without(more, id));
    }
  }

  lemma WithoutFirst(x: Bytes, rest: seq<Bytes>, id: Bytes)
    ensures Without([x] + rest, id) == (if x == id then [] else [x]) + Without(rest, id)
    ensures Without([x], id) == if x == id then [] else [x]
  {
    assert ([x] + rest)[1..] == rest && [x][1..] == [];
  }

  /** Where nothing repeats, exactly the one place is cut out. */
  lemma {:induction false} WithoutCuts(ids: seq<Bytes>, id: Bytes, k: nat)
    requires k < |ids| && ids[k] == id && forall i, j | 0 <= i < j < |ids| :: ids[i] != ids[j]
    ensures Without(ids, id) == ids[..k] + ids[k + 1..]
  {
    if k == 0 {
      assert id !in ids[1..];
    } else {
      WithoutCuts(ids[1..], id, k - 1);
      assert ids[..k] == [ids[0]] + ids[1..][..k - 1] && ids[1..][k..] == ids[k + 1..];
    }
  }

  lemma {:induction false} WithoutKeepsPairs(ids: seq<Bytes>, gens: seq<Gen>, id: Bytes, records: map<Bytes, Record>)
    requires DeferredOk(ids, gens, records)
    ensures DeferredOk(Without(ids, id), GensWithout(ids, gens, id), records)
    ensures DeferredOk(Without(ids, id), GensWithout(ids, gens, id), records - {id})
  {
    if ids != [] { WithoutKeepsPairs(ids[1..], gens[1..], id, records); }
  }

  ghost function Erased(s: State, id: Bytes): State
    requires |s.deferred| == |s.deferredGens|
  {
    s.(records := s.records - {id}, initOrder := Without(s.initOrder, id),
       deferred := Without(s.deferred, id), deferredGens := GensWithout(s.deferred, s.deferredGens, id))
  }

  lemma RecordErased(s: State, id: Bytes)
    requires Core(s) && id in s.records && s.records[id].gen in s.ledger.lives && Departed(s.ledger.lives[s.records[id].gen])
    ensures RecordsOk(s.records - {id}, s.nextGen, s.ledger.births, s.ledger.lives, s.ledger.published, s.ledger.retiring)
  {
    hide LeasesOk, TokensOk, NoticesOk, DeferredOk, OrderOk, Sound;
    var records := s.records - {id};
    forall g | g in s.ledger.births && g in s.ledger.lives && !Departed(s.ledger.lives[g])
      ensures s.ledger.births[g].id in records && records[s.ledger.births[g].id].gen == g
    {
      Accounted(s, g);
    }
  }

  lemma OrderErased(initOrder: seq<Bytes>, id: Bytes, records: map<Bytes, Record>)
    requires OrderOk(initOrder, records)
    ensures OrderOk(Without(initOrder, id), records - {id})
  {
    WithoutDistinct(initOrder, id);
    var r := Without(initOrder, id);
    forall i | 0 <= i < |r|
      ensures r[i] in records - {id} && !records[r[i]].phase.Created? && !records[r[i]].phase.Initializing?
    {
      assert r[i] in r;
      assert r[i] in initOrder;
    }
  }

  lemma ErasedCore(s: State, id: Bytes)
    requires Core(s) && id in s.records && s.records[id].gen in s.ledger.lives && Departed(s.ledger.lives[s.records[id].gen])
    ensures Core(Erased(s, id))
  {
    hide RecordsOk, LeasesOk, TokensOk, NoticesOk, DeferredOk, OrderOk, Sound;
    RecordErased(s, id);
    OrderErased(s.initOrder, id, s.records);
    WithoutKeepsPairs(s.deferred, s.deferredGens, id, s.records);
  }

  /** A queued request for `id` is dropped: the retirement in progress satisfies it. */
  ghost function Undeferred(s: State, id: Bytes): State
    requires |s.deferred| == |s.deferredGens|
  {
    s.(deferred := Without(s.deferred, id), deferredGens := GensWithout(s.deferred, s.deferredGens, id))
  }

  lemma UndeferredCore(s: State, id: Bytes)
    requires Core(s)
    ensures Core(Undeferred(s, id))
  {
    hide RecordsOk, LeasesOk, TokensOk, NoticesOk, OrderOk, Sound;
    WithoutKeepsPairs(s.deferred, s.deferredGens, id, s.records);
    QueueCore(s, Undeferred(s, id));
  }
}
