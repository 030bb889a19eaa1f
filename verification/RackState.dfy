/**
 * The engine's tables as one value, and how they must agree with the ledger of the run so far.
 * `Core` is the representation invariant; `Calm` and `Swept` say what plugin code, and a
 * dispatch that may unload other instances, can do to the tables between two points of an
 * operation.
 */
module RackState {
  import opened Base
  import opened RackProtocol

  datatype Phase = Created | Initializing | Initialized | Starting | Active | Revoking | Stopped | Faulted

  datatype MethodInfo = MethodInfo(id: Word, name: Bytes)

  datatype Record = Record(
    gen: Gen, version: Version, node: OrderNode, phase: Phase, depth: nat,
    announced: bool, published: bool, methods: seq<MethodInfo>, invoker: bool, live: bool)

  datatype Lease = Lease(info: LeaseInfo, activeCalls: nat)
  datatype QueuedEvent = QueuedEvent(name: Bytes, payload: Bytes)
  datatype Notice = Notice(watch: Token, provider: Bytes, gen: Gen, available: bool, version: Version)

  datatype State = State(
    records: map<Bytes, Record>,
    initOrder: seq<Bytes>,
    subscriptions: map<Token, Subscription>,
    watches: map<Token, Owner>,
    leases: map<Token, Lease>,
    events: seq<QueuedEvent>,
    notices: seq<Notice>,
    deferred: seq<Bytes>,
    deferredGens: seq<Gen>,
    nextToken: Token,
    nextGen: Gen,
    depth: nat,
    initializing: bool,
    starting: bool,
    shutting: bool,
    draining: bool,
    retiring: set<Bytes>,
    ledger: Ledger,
    trace: seq<Event>)

  const TOKEN_LIMIT: nat := 0x1_0000_0000_0000_0000

  /** Advance the 64-bit token counter; it wraps to zero once every value was handed out. */
  function NextToken(t: Token): Token {
    if t + 1 == TOKEN_LIMIT then 0 else t + 1
  }

  // ---- the representation invariant ---------------------------------------------------------

  /** Which lives an instance may have in each recorded phase. */
  predicate Match(phase: Phase, live: bool, life: Life, retired: bool) {
    match phase
    case Created =>
      && !retired
      && (live ==> life == Idle(Made))
      && (!live ==> life == Idle(Unmade) || life == Idle(Refused) || life == Inside(Refused, Destroy)
                    || life == Idle(Made) || life == Inside(Made, Destroy) || life == Idle(Gone))
    case Initializing =>
      && !retired
      && (live ==> life == Idle(Made) || life == Inside(Made, Init) || life == Idle(InitFailed) || life == Idle(Ready))
      && (!live ==> life == Idle(InitFailed) || life == Inside(InitFailed, Destroy) || life == Idle(Gone))
    case Initialized =>
      !retired && live && life.stage == Ready && (life.Inside? ==> Notification(life.entry))
    case Starting =>
      && !retired && live
      && (|| life == Idle(Ready) || life == Inside(Ready, Start) || life == Idle(Running)
          || (life.stage == StartFailed && (life.Inside? ==> life.entry.OnRevoke?)))
    case Active =>
      !retired && live && life.stage == Running && (life.Inside? ==> life.entry != Stop && life.entry != Destroy)
    case Revoking =>
      && retired
      && (live ==> life.stage == Ready || life.stage == StartFailed || life.stage == Running
                   || life == Idle(Halted) || life == Idle(HaltFailed))
      && (!live ==> life == Idle(Halted) || life == Inside(Halted, Destroy) || life == Idle(Gone))
    case Stopped => !live && life == Idle(Gone)
    case Faulted =>
      retired && live && life.stage == HaltFailed && (life.Inside? ==> life.entry.OnRevoke?)
  }

  predicate Notification(e: Entry) {
    e.OnEvent? || e.OnCapability? || e.OnRevoke?
  }

  predicate RecordOk(r: Record, life: Life, published: bool, retired: bool) {
    && Match(r.phase, r.live, life, retired)
    && r.depth == (if life.Inside? then 1 else 0)
    && r.published == published
    && (r.published ==> (r.phase == Active || r.phase == Revoking) && (r.methods != [] ==> r.invoker))
  }

  ghost predicate RecordsOk(records: map<Bytes, Record>, nextGen: Gen, births: map<Gen, Birth>,
                            lives: map<Gen, Life>, published: set<Gen>, retiring: set<Gen>)
  {
    && (forall id | id in records ::
          && id != [] && records[id].node.id == id
          && records[id].gen in births && births[records[id].gen] == Birth(id, records[id].version)
          && records[id].gen in lives
          && RecordOk(records[id], lives[records[id].gen], records[id].gen in published, records[id].gen in retiring))
    && (forall g | g in births :: 0 < g < nextGen)
    && 0 < nextGen
    && (forall g | g in births && g in lives && !Departed(lives[g]) ::
          births[g].id in records && records[births[g].id].gen == g)
  }

  ghost predicate LeasesOk(leases: map<Token, Lease>, outstanding: map<Token, LeaseInfo>, inflight: multiset<Token>) {
    && leases.Keys == outstanding.Keys
    && (forall c | c in leases :: leases[c] == Lease(outstanding[c], inflight[c]))
  }

  /** The counter has passed this token: tokens are handed out one by one from 1 on, until all are. */
  predicate Spent(t: Token, nextToken: Token) {
    0 < t < TOKEN_LIMIT && (nextToken == 0 || t < nextToken)
  }

  ghost predicate TokensOk(nextToken: Token, issued: set<Token>, subscriptions: map<Token, Subscription>) {
    && nextToken < TOKEN_LIMIT
    && (forall t | t in issued :: Spent(t, nextToken))
    && (forall t | Spent(t, nextToken) :: t in issued)
    && (forall t | t in subscriptions :: t in issued && subscriptions[t].owner.Plugin?)
  }

  ghost predicate NoticeOk(n: Notice, l: Ledger) {
    && n.watch in l.issued && n.gen in l.everPublished
    && n.gen in l.births && l.births[n.gen] == Birth(n.provider, n.version)
    && (!n.available ==> n.gen !in l.published)
    && (n.watch, n.gen, n.available) !in l.delivered && (n.watch, n.gen, false) !in l.delivered
  }

  /** Two queued notices about the same provider generation for the same watch: first "available". */
  predicate InOrder(n: Notice, n': Notice) {
    n.watch == n'.watch && n.gen == n'.gen ==> n.available && !n'.available
  }

  ghost predicate NoticesOk(notices: seq<Notice>, l: Ledger) {
    && (forall i | 0 <= i < |notices| :: NoticeOk(notices[i], l))
    && (forall i, j | 0 <= i < j < |notices| :: InOrder(notices[i], notices[j]))
  }

  /** A queued unload names a registered record of the generation it was queued for. */
  ghost predicate DeferredOk(deferred: seq<Bytes>, gens: seq<Gen>, records: map<Bytes, Record>) {
    && |deferred| == |gens|
    && (forall i | 0 <= i < |deferred| :: deferred[i] in records && records[deferred[i]].gen == gens[i])
  }

  /** The recorded initialization order holds each initialized record once. */
  ghost predicate OrderOk(initOrder: seq<Bytes>, records: map<Bytes, Record>) {
    && (forall i | 0 <= i < |initOrder| ::
          initOrder[i] in records && !records[initOrder[i]].phase.Created? && !records[initOrder[i]].phase.Initializing?)
    && (forall i, j | 0 <= i < j < |initOrder| :: initOrder[i] != initOrder[j])
    && (forall id | id in records && !records[id].phase.Created? && !records[id].phase.Initializing? ::
          id in initOrder)
  }

  ghost predicate Core(s: State) {
    && Replay(s.trace) == Some(s.ledger)
    && Sound(s.ledger)
    && RecordsOk(s.records, s.nextGen, s.ledger.births, s.ledger.lives, s.ledger.published, s.ledger.retiring)
    && LeasesOk(s.leases, s.ledger.outstanding, s.ledger.inflight)
    && s.watches == s.ledger.watched && s.subscriptions == s.ledger.subscribed
    && TokensOk(s.nextToken, s.ledger.issued, s.subscriptions)
    && NoticesOk(s.notices, s.ledger)
    && DeferredOk(s.deferred, s.deferredGens, s.records)
    && OrderOk(s.initOrder, s.records)
    && s.depth == |s.ledger.stack|
    && (s.shutting ==> s.deferred == [])
  }

  /** Outside plugin code no business call is in progress. */
  ghost predicate Quiet(s: State) {
    s.depth == 0 ==> s.ledger.inflight == multiset{}
  }

  predicate StopReady(stage: Stage) {
    stage == Ready || stage == StartFailed || stage == Running
  }

  /** A record while no plugin code runs: no lifecycle call is half done, and one being revoked can still
      be stopped. Outside a start batch it is staged, in service, waiting to be revoked, or quarantined. */
  ghost predicate Settled(r: Record, life: Life, starting: bool, marked: bool) {
    && r.live && r.phase != Stopped
    && (marked ==> r.phase == Revoking || r.phase == Faulted)
    && (r.phase == Initializing ==> life == Idle(InitFailed))
    && (r.phase == Starting ==> life.stage == StartFailed)
    && (r.phase == Revoking ==> StopReady(life.stage))
    && (!starting ==> r.phase == Created || r.phase == Active || r.phase == Revoking || r.phase == Faulted)
  }

  ghost predicate Orderly(s: State) {
    forall id | id in s.records ::
      s.records[id].gen in s.ledger.lives
      && Settled(s.records[id], s.ledger.lives[s.records[id].gen], s.starting, id in s.retiring)
  }

  // ---- what can change between two points ---------------------------------------------------

  /** The only thing plugin code can do to a record: a starting instance announces its methods once. */
  predicate SameButAnnounced(r: Record, q: Record) {
    && q == r.(announced := q.announced, methods := q.methods)
    && (r.phase != Starting || r.announced ==> q == r)
  }

  predicate SameFlags(s: State, t: State) {
    && t.nextGen == s.nextGen && t.depth == s.depth && t.retiring == s.retiring
    && t.initializing == s.initializing && t.starting == s.starting
    && t.shutting == s.shutting && t.draining == s.draining
  }

  predicate Carried(s: State, t: State, c: Token)
    requires c in t.leases
  {
    c in s.leases && s.leases[c] == t.leases[c]
  }

  /** A lease taken meanwhile: a new token, on an instance that was in service. */
  predicate Fresh(s: State, t: State, c: Token)
    requires c in t.leases
  {
    !s.shutting && c !in s.ledger.issued && t.leases[c].info.gen in s.ledger.published
  }

  /** Plugin-level activity: tables grow and shrink; no instance but the one moved to `lives` changes
      its lifecycle, and records change by announcements only. `deeds` are the lifecycle calls made. */
  ghost predicate CalmTo(s: State, t: State, lives: map<Gen, Life>, deeds: seq<Deed>) {
    && SameFlags(s, t)
    && s.trace <= t.trace
    && t.initOrder == s.initOrder
    && t.records.Keys == s.records.Keys
    && (forall id | id in s.records :: SameButAnnounced(s.records[id], t.records[id]))
    && t.ledger.births == s.ledger.births && t.ledger.lives == lives
    && t.ledger.stack == s.ledger.stack && t.ledger.inflight == s.ledger.inflight
    && t.ledger.published == s.ledger.published && t.ledger.everPublished == s.ledger.everPublished
    && t.ledger.retiring == s.ledger.retiring && t.ledger.history == s.ledger.history + deeds
    && s.ledger.issued <= t.ledger.issued
    && (forall c | c in t.leases :: Carried(s, t, c) || Fresh(s, t, c))
  }

  ghost predicate Calm(s: State, t: State) {
    CalmTo(s, t, s.ledger.lives, [])
  }

  lemma CalmReflexive(s: State)
    ensures Calm(s, s)
  {
    assert forall c | c in s.leases :: Carried(s, s, c);
  }

  lemma CalmTransitive(s: State, t: State, u: State, lives: map<Gen, Life>, deeds: seq<Deed>)
    requires (Calm(s, t) && CalmTo(t, u, lives, deeds)) || (CalmTo(s, t, lives, deeds) && Calm(t, u))
    ensures CalmTo(s, u, lives, deeds)
  {
    forall id | id in s.records ensures SameButAnnounced(s.records[id], u.records[id]) {
      assert SameButAnnounced(s.records[id], t.records[id]) && SameButAnnounced(t.records[id], u.records[id]);
    }
    forall c | c in u.leases ensures Carried(s, u, c) || Fresh(s, u, c) {
      assert Carried(t, u, c) || Fresh(t, u, c);
      if c in t.leases { assert Carried(s, t, c) || Fresh(s, t, c); }
    }
  }

  lemma CalmKeepsOrder(s: State, t: State)
    requires Calm(s, t) && Orderly(s)
    ensures Orderly(t)
  {
    forall id | id in t.records
      ensures t.records[id].gen in t.ledger.lives
              && Settled(t.records[id], t.ledger.lives[t.records[id].gen], t.starting, id in t.retiring)
    {
      assert SameButAnnounced(s.records[id], t.records[id]);
    }
  }

  // ---- what a dispatch or a teardown may change -------------------------------------------------

  /** Records no dispatch may remove: everything while starting or shutting down, else what is being retired. */
  ghost predicate Kept(s: State, id: Bytes) {
    s.starting || s.shutting || id in s.retiring
  }

  ghost predicate Untouched(s: State, t: State, id: Bytes)
    requires id in s.records
  {
    && id in t.records && SameButAnnounced(s.records[id], t.records[id])
    && s.records[id].gen in s.ledger.lives && s.records[id].gen in t.ledger.lives
    && t.ledger.lives[s.records[id].gen] == s.ledger.lives[s.records[id].gen]
  }

  /** Records may leave, none is added or replaced, and those that must stay stay as they are. */
  ghost predicate Swept(s: State, t: State, touched: set<Bytes>) {
    && SameFlags(s, t) && s.trace <= t.trace
    && t.records.Keys <= s.records.Keys
    && (forall id | id in t.records :: t.records[id].gen == s.records[id].gen)
    && (forall id | id in s.records && Kept(s, id) && id !in touched :: Untouched(s, t, id))
    && t.ledger.births == s.ledger.births && t.ledger.stack == s.ledger.stack && t.ledger.inflight == s.ledger.inflight
  }

  lemma CalmIsSwept(s: State, t: State)
    requires Core(s) && Calm(s, t)
    ensures Swept(s, t, {})
  {
    hide LeasesOk, TokensOk, NoticesOk, DeferredOk, OrderOk, Sound;
    forall id | id in s.records ensures Untouched(s, t, id) {
      assert SameButAnnounced(s.records[id], t.records[id]);
    }
  }

  lemma SweptTransitive(s: State, t: State, u: State, touched: set<Bytes>, touched': set<Bytes>)
    requires Swept(s, t, touched) && Swept(t, u, touched')
    ensures Swept(s, u, touched + touched')
  {
    forall id | id in s.records && Kept(s, id) && id !in touched + touched' ensures Untouched(s, u, id) {
      assert Untouched(s, t, id) && Untouched(t, u, id);
    }
  }

  lemma SweptWider(s: State, t: State, touched: set<Bytes>, wider: set<Bytes>)
    requires Swept(s, t, touched) && touched <= wider
    ensures Swept(s, t, wider)
  {
  }
}
