/** When the engine, outside any plugin call, may enter an instance; and what its sweeps leave alone. */
module RackMoves {
  import opened Base
  import opened RackProtocol
  import opened RackState
  import opened RackSteps
  import opened RackVerdicts

  /** Outside plugin code no call is in progress and every instance is idle. */
  lemma AtRest(s: State, id: Bytes)
    requires Core(s) && s.depth == 0
    ensures s.ledger.stack == []
    ensures id in s.records ==>
              && s.records[id].gen in s.ledger.births && s.ledger.births[s.records[id].gen] == Birth(id, s.records[id].version)
              && s.records[id].gen in s.ledger.lives && s.ledger.lives[s.records[id].gen].Idle?
              && s.records[id].depth == 0
              && Match(s.records[id].phase, s.records[id].live, s.ledger.lives[s.records[id].gen],
                       s.records[id].gen in s.ledger.retiring)
              && (s.records[id].published <==> s.records[id].gen in s.ledger.published)
              && (s.records[id].published ==> s.records[id].phase == Active || s.records[id].phase == Revoking)
  {
    hide LeasesOk, TokensOk, NoticesOk, DeferredOk, OrderOk;
    if id in s.records { RecordFacts(s, id); }
  }

  /** The parts of `Callable` that a lifecycle or notification call needs at rest. */
  lemma CallableAtRest(s: State, id: Bytes, entry: Entry)
    requires Core(s) && s.depth == 0 && id in s.records && s.records[id].gen in s.ledger.births
    requires s.records[id].gen in s.ledger.lives && Legal(s.ledger.lives[s.records[id].gen].stage, entry)
    requires EntryRule(s.ledger, s.records[id].gen, entry)
    requires Match(s.records[id].phase, s.records[id].live, Inside(s.ledger.lives[s.records[id].gen].stage, entry),
                   s.records[id].gen in s.ledger.retiring)
    requires forall st: Status ::
               Match(s.records[id].phase, s.records[id].live, Idle(After(s.ledger.lives[s.records[id].gen].stage, entry, st)),
                     s.records[id].gen in s.ledger.retiring)
    requires entry.OnCapability? ==>
               forall i | 0 <= i < |s.notices| ::
                 InOrder(Notice(entry.watch, [], entry.provider, entry.available, entry.version), s.notices[i])
    ensures Callable(s, id, entry)
  {
    hide Core, Match, Legal, EntryRule, After, InOrder;
    AtRest(s, id);
  }

  lemma EventCallable(s: State, t: Token, id: Bytes)
    requires Core(s) && s.depth == 0 && id in s.records && Receives(s.records[id].phase)
    ensures Callable(s, id, OnEvent(t))
  {
    hide Core, InOrder, Callable;
    AtRest(s, id);
    CallableAtRest(s, id, OnEvent(t));
  }

  lemma RevokeCallable(s: State, c: Token, id: Bytes)
    requires Core(s) && s.depth == 0 && s.ledger.inflight == multiset{} && id in s.records && c in s.leases
    requires s.leases[c].info.consumer == Plugin(id, s.records[id].gen)
    requires s.leases[c].info.gen !in s.ledger.published
    requires s.records[id].gen in s.ledger.lives
    requires Settled(s.records[id], s.ledger.lives[s.records[id].gen], s.starting, id in s.retiring)
    ensures Callable(s, id, OnRevoke(c))
  {
    hide Core, InOrder, Callable;
    AtRest(s, id);
    LeaseFacts(s, c);
    CallableAtRest(s, id, OnRevoke(c));
  }

  lemma QueryCallable(s: State, id: Bytes)
    requires Core(s) && s.depth == 0 && id in s.records && s.records[id].phase == Active
    ensures Callable(s, id, Query)
  {
    hide Core, InOrder, Callable;
    AtRest(s, id);
    CallableAtRest(s, id, Query);
  }

  lemma InitCallable(s: State, id: Bytes)
    requires Core(s) && s.depth == 0 && id in s.records && s.records[id].phase == Initializing && s.records[id].live
    requires s.records[id].gen in s.ledger.lives && s.ledger.lives[s.records[id].gen] == Idle(Made)
    ensures Callable(s, id, Init)
  {
    hide Core, InOrder, Callable;
    AtRest(s, id);
    CallableAtRest(s, id, Init);
  }

  lemma StartCallable(s: State, id: Bytes)
    requires Core(s) && s.depth == 0 && id in s.records && s.records[id].phase == Starting
    requires s.records[id].gen in s.ledger.lives && s.ledger.lives[s.records[id].gen] == Idle(Ready)
    ensures Callable(s, id, Start)
  {
    hide Core, InOrder, Callable;
    AtRest(s, id);
    CallableAtRest(s, id, Start);
  }

  /** stop() may run once the instance is being revoked, unpublished and nothing is borrowed from it. */
  lemma StopCallable(s: State, id: Bytes)
    requires Core(s) && s.depth == 0 && id in s.records && s.records[id].phase == Revoking && s.records[id].live
    requires s.records[id].gen in s.ledger.lives && StopReady(s.ledger.lives[s.records[id].gen].stage)
    requires !s.records[id].published && NotBorrowed(s.ledger, s.records[id].gen)
    ensures Callable(s, id, Stop)
  {
    hide Core, InOrder, Callable;
    AtRest(s, id);
    CallableAtRest(s, id, Stop);
  }

  /** destroy() may run once the instance neither lends nor borrows. */
  lemma DestroyCallable(s: State, id: Bytes)
    requires Core(s) && s.depth == 0 && id in s.records && !s.records[id].live
    requires s.records[id].gen in s.ledger.lives
    requires Destroyable(s.records[id].phase, s.ledger.lives[s.records[id].gen])
             || (s.records[id].phase == Created && s.ledger.lives[s.records[id].gen] == Idle(Refused))
    requires NotBorrowing(s.ledger, s.records[id].gen)
    requires s.ledger.lives[s.records[id].gen].stage != Refused ==> NotListening(s.ledger, s.records[id].gen)
    ensures Callable(s, id, Destroy)
  {
    hide Core, InOrder, Callable, NotBorrowing, NotListening;
    AtRest(s, id);
    IdleIsUnborrowed(s, s.records[id].gen);
    CallableAtRest(s, id, Destroy);
  }

  /** Only running instances are borrowed from. */
  lemma IdleIsUnborrowed(s: State, g: Gen)
    requires Core(s) && g in s.ledger.lives && s.ledger.lives[g].stage != Running
    ensures NotBorrowed(s.ledger, g)
  {
    hide RecordsOk, LeasesOk, TokensOk, NoticesOk, DeferredOk, OrderOk;
  }

  /** Leases on a registered provider record, seen from the lease table. */
  lemma UnborrowedByTable(s: State, g: Gen)
    requires Core(s) && forall c | c in s.leases :: s.leases[c].info.gen != g
    ensures NotBorrowed(s.ledger, g)
  {
    hide RecordsOk, TokensOk, NoticesOk, DeferredOk, OrderOk, Sound;
  }

  // ---- notices --------------------------------------------------------------------------------

  /** The notice at the head of the queue may be delivered, and goes before the ones behind it. */
  ghost predicate Due(s: State, n: Notice) {
    && NoticeOk(n, s.ledger)
    && (forall i | 0 <= i < |s.notices| :: InOrder(n, s.notices[i]))
  }

  lemma NoticeCallable(s: State, n: Notice, id: Bytes)
    requires Core(s) && s.depth == 0 && Due(s, n)
    requires n.watch in s.watches && id in s.records && s.watches[n.watch] == Plugin(id, s.records[id].gen)
    requires Receives(s.records[id].phase)
    requires n.available ==>
               && n.provider in s.records && s.records[n.provider].gen == n.gen
               && s.records[n.provider].published && s.records[n.provider].phase == Active
    ensures Callable(s, id, OnCapability(n.watch, n.gen, n.available, n.version))
  {
    hide Core, Callable;
    AtRest(s, id);
    if n.available { AtRest(s, n.provider); }
    assert n.watch in s.ledger.watched && s.ledger.watched[n.watch] == s.watches[n.watch] by { WatchTable(s); }
    CallableAtRest(s, id, OnCapability(n.watch, n.gen, n.available, n.version));
  }

  lemma WatchTable(s: State)
    requires Core(s)
    ensures s.watches == s.ledger.watched
  {
  }

  lemma NoticeTaken(s: State)
    requires Core(s) && s.notices != []
    ensures Core(s.(notices := s.notices[1..])) && Due(s.(notices := s.notices[1..]), s.notices[0])
    ensures Calm(s, s.(notices := s.notices[1..]))
  {
    hide RecordsOk, LeasesOk, TokensOk, DeferredOk, OrderOk, Sound;
    var t := s.(notices := s.notices[1..]);
    assert forall i | 0 <= i < |t.notices| :: t.notices[i] == s.notices[i + 1];
    QueueCore(s, t);
    assert forall c | c in t.leases :: Carried(s, t, c);
  }

  lemma EventTaken(s: State)
    requires Core(s) && s.events != []
    ensures Core(s.(events := s.events[1..])) && Calm(s, s.(events := s.events[1..]))
  {
    hide RecordsOk, LeasesOk, TokensOk, NoticesOk, DeferredOk, OrderOk, Sound;
    var t := s.(events := s.events[1..]);
    QueueCore(s, t);
    assert forall c | c in t.leases :: Carried(s, t, c);
  }

  // ---- runs without a setback -----------------------------------------------------------------

  /** Nothing of what a teardown depends on failed from `from` on. */
  ghost predicate Smooth(tr: seq<Event>, from: nat) {
    forall i | from <= i < |tr| :: !Setback(tr[i])
  }

  lemma RoughStays(tr: seq<Event>, from: nat, tr': seq<Event>, from': nat)
    requires !Smooth(tr, from) && tr <= tr' && from' <= from
    ensures !Smooth(tr', from')
  {
    var i :| from <= i < |tr| && Setback(tr[i]);
    assert Setback(tr'[i]);
  }

  lemma RoughEnd(tr: seq<Event>, from: nat, last: Event)
    requires from < |tr| && tr[|tr| - 1..] == [last] && Setback(last)
    ensures !Smooth(tr, from)
  {
    assert tr[|tr| - 1] == tr[|tr| - 1..][0];
  }

  /** Nothing of what a start batch depends on failed from `from` on. */
  ghost predicate Faultless(tr: seq<Event>, from: nat) {
    forall i | from <= i < |tr| :: !Fault(tr[i])
  }

  lemma FaultStays(tr: seq<Event>, from: nat, tr': seq<Event>, from': nat)
    requires !Faultless(tr, from) && tr <= tr' && from' <= from
    ensures !Faultless(tr', from')
  {
    var i :| from <= i < |tr| && Fault(tr[i]);
    assert Fault(tr'[i]);
  }

  lemma FaultEnd(tr: seq<Event>, from: nat, last: Event)
    requires from < |tr| && tr[|tr| - 1..] == [last] && Fault(last)
    ensures !Faultless(tr, from)
  {
    assert tr[|tr| - 1] == tr[|tr| - 1..][0];
  }

  /** Spelled out: no storage for a queue failed, no stop() failed, and no holder asked for a lease kept it. */
  lemma SmoothMeans(tr: seq<Event>, from: nat)
    ensures Smooth(tr, from) <==>
      forall i | from <= i < |tr| ::
        && tr[i] != MemoryFailed
        && (forall g, st | tr[i] == Left(PluginFrame(g, Entry.Stop), st) :: st == Ok)
        && (forall g, c, st | tr[i] == Left(PluginFrame(g, OnRevoke(c)), st) :: st == Ok)
        && (forall c, st | tr[i] == Left(HostFrame(AdminRevoke(c)), st) :: st == Ok)
  {
  }

  /** No storage for a queue failed, and no init(), start() or request for the invoke interface. */
  lemma FaultlessMeans(tr: seq<Event>, from: nat)
    ensures Faultless(tr, from) <==>
      forall i | from <= i < |tr| ::
        && tr[i] != MemoryFailed
        && (forall g, st | tr[i] == Left(PluginFrame(g, Init), st) :: st == Ok)
        && (forall g, st | tr[i] == Left(PluginFrame(g, Entry.Start), st) :: st == Ok)
        && (forall g, st | tr[i] == Left(PluginFrame(g, Query), st) :: st == Ok)
  {
  }

  // ---- what publication and its withdrawal leave alone ------------------------------------------

  /** The recorded initialization order and the lifecycle calls made so far are as they were. */
  ghost predicate Still(s: State, t: State) {
    t.initOrder == s.initOrder && t.ledger.history == s.ledger.history
  }

  lemma CalmIsStill(s: State, t: State)
    requires Calm(s, t)
    ensures Still(s, t)
  {
  }

  /** One record is edited, its instance and its phase stay: the others notice nothing. */
  lemma EditSweeps(s: State, t: State, id: Bytes)
    requires Core(s) && id in s.records && SameFlags(s, t) && s.trace <= t.trace
    requires id in t.records && t.records == s.records[id := t.records[id]]
    requires t.records[id].gen == s.records[id].gen
    requires t.ledger.births == s.ledger.births && t.ledger.stack == s.ledger.stack && t.ledger.inflight == s.ledger.inflight
    requires t.ledger.lives == s.ledger.lives
    ensures Swept(s, t, {id})
  {
    hide Core;
    forall k | k in s.records && k != id ensures Untouched(s, t, k) { RecordFacts(s, k); }
  }

  lemma EditKeepsOrder(s: State, t: State, id: Bytes)
    requires Orderly(s) && id in s.records && t.starting == s.starting && t.retiring == s.retiring && t.ledger.lives == s.ledger.lives
    requires id in t.records && t.records == s.records[id := t.records[id]]
    requires t.records[id].gen == s.records[id].gen && t.records[id].gen in s.ledger.lives
    requires Settled(t.records[id], s.ledger.lives[t.records[id].gen], s.starting, id in s.retiring)
    ensures Orderly(t)
  {
  }

  lemma RetractedFields(s: State, id: Bytes)
    requires Core(s) && id in s.records && Permitted(s.ledger, Withdrawn(s.records[id].gen))
    requires Orderly(s)
    ensures Orderly(Retracted(s, id)) && Swept(s, Retracted(s, id), {id}) && Still(s, Retracted(s, id))
    ensures Retracted(s, id).ledger.inflight == s.ledger.inflight
    ensures Retracted(s, id).records == s.records[id := s.records[id].(published := false)]
    ensures Retracted(s, id).depth == s.depth && Retracted(s, id).ledger.lives == s.ledger.lives
  {
    hide Core;
    RecordFacts(s, id);
    var t := Retracted(s, id);
    EditSweeps(s, t, id);
    EditKeepsOrder(s, t, id);
  }

  lemma CommittedFields(s: State, id: Bytes, invoker: bool)
    requires Core(s) && id in s.records && Permitted(s.ledger, Published(s.records[id].gen))
    requires Orderly(s)
    ensures Orderly(Committed(s, id, invoker)) && Swept(s, Committed(s, id, invoker), {id}) && Still(s, Committed(s, id, invoker))
    ensures Committed(s, id, invoker).ledger.inflight == s.ledger.inflight
    ensures Committed(s, id, invoker).records == s.records[id := s.records[id].(published := true, invoker := invoker)]
    ensures Committed(s, id, invoker).depth == s.depth && Committed(s, id, invoker).ledger.lives == s.ledger.lives
  {
    hide Core;
    RecordFacts(s, id);
    var t := Committed(s, id, invoker);
    EditSweeps(s, t, id);
    EditKeepsOrder(s, t, id);
  }

  lemma WithdrawPermitted(s: State, id: Bytes)
    requires Core(s) && s.depth == 0 && id in s.records && s.records[id].published
    ensures Permitted(s.ledger, Withdrawn(s.records[id].gen))
  {
    hide Core;
    AtRest(s, id);
  }

  // ---- leases at rest ---------------------------------------------------------------------------

  /** The holder of a lease is registered, and no call is open on it while no plugin code runs. */
  lemma HolderRegistered(s: State, c: Token)
    requires Core(s) && c in s.leases
    ensures Registered(s, s.leases[c].info.consumer)
    ensures s.ledger.inflight == multiset{} ==> s.leases[c].activeCalls == 0
  {
    hide Core;
    LeaseFacts(s, c);
    var o := s.leases[c].info.consumer;
    if o.Plugin? { Accounted(s, o.gen); }
  }

  lemma AdminRevokeRule(s: State, c: Token)
    requires Core(s) && s.depth == 0 && s.ledger.inflight == multiset{} && c in s.leases
    requires s.leases[c].info.consumer == Admin && s.leases[c].info.gen !in s.ledger.published
    ensures Permitted(s.ledger, Entered(HostFrame(AdminRevoke(c))))
  {
    hide Core;
    AtRest(s, []);
    LeaseFacts(s, c);
  }

  /** After every lease on a generation out of service was dealt with, none is left. */
  lemma AllReturned(s: State, t: State, g: Gen)
    requires Calm(s, t) && g !in s.ledger.published
    requires forall c | c in s.leases && s.leases[c].info.gen == g :: c !in t.leases
    ensures forall c | c in t.leases :: t.leases[c].info.gen != g
  {
    forall c | c in t.leases ensures t.leases[c].info.gen != g {
      assert Carried(s, t, c) || Fresh(s, t, c);
    }
  }

  /** What a calm stretch passes on, without its definition in sight. */
  lemma CalmOnward(s: State, t: State, u: State)
    requires Calm(s, t) && Calm(t, u)
    ensures Calm(s, u) && u.depth == t.depth && u.ledger.published == t.ledger.published
    ensures s.trace <= t.trace <= u.trace && SameFlags(t, u) && u.records.Keys == t.records.Keys
  {
    CalmTransitive(s, t, u, s.ledger.lives, []);
  }

  /** A credential issued before the stretch that is still listed after it was listed all along. */
  lemma CredentialSteady(s: State, t: State, c: Token)
    requires Calm(s, t) && c in s.ledger.issued
    ensures c in t.ledger.issued
    ensures c in t.leases ==> c in s.leases && t.leases[c] == s.leases[c]
  {
    if c in t.leases { assert Carried(s, t, c) || Fresh(s, t, c); }
  }

  // ---- one instance moves, the rest stays -------------------------------------------------------

  /** `t` is `s` but for the instance of `id` and what plugins did to the tables; `deeds` were done to it. */
  ghost predicate Apart(s: State, t: State, id: Bytes, deeds: seq<Deed>) {
    && SameFlags(s, t) && s.trace <= t.trace && t.initOrder == s.initOrder
    && t.records.Keys == s.records.Keys
    && (forall k | k in s.records :: t.records[k].gen == s.records[k].gen)
    && (forall k | k in s.records && k != id :: Untouched(s, t, k))
    && t.ledger.births == s.ledger.births && t.ledger.stack == s.ledger.stack && t.ledger.inflight == s.ledger.inflight
    && t.ledger.history == s.ledger.history + deeds
  }

  lemma ApartTransitive(s: State, t: State, u: State, id: Bytes, deeds: seq<Deed>, more: seq<Deed>)
    requires Apart(s, t, id, deeds) && Apart(t, u, id, more)
    ensures Apart(s, u, id, deeds + more)
  {
    forall k | k in s.records && k != id ensures Untouched(s, u, k) {
      assert Untouched(s, t, k) && Untouched(t, u, k);
    }
  }

  lemma CalmIsApart(s: State, t: State, id: Bytes)
    requires Core(s) && Calm(s, t)
    ensures Apart(s, t, id, [])
  {
    hide Core;
    forall k | k in s.records ensures t.records[k].gen == s.records[k].gen && (k != id ==> Untouched(s, t, k)) {
      RecordFacts(s, k);
      assert SameButAnnounced(s.records[k], t.records[k]);
    }
  }

  lemma OtherGens(s: State, id: Bytes, k: Bytes)
    requires Core(s) && id in s.records && k in s.records && k != id
    ensures s.records[k].gen != s.records[id].gen && s.records[k].gen in s.ledger.lives
  {
    hide Core;
    RecordFacts(s, id);
    RecordFacts(s, k);
  }

  /** A call into one instance moves that instance, as `After` says, and no other. */
  lemma CallIsApart(s: State, t: State, id: Bytes, entry: Entry, st: Status)
    requires Callable(s, id, entry)
    requires CalmTo(s, t, LivesAfter(s, id, entry, st), DeedsOf(s, id, entry))
    ensures id in s.records && id in t.records && Apart(s, t, id, Deeds(s.records[id].gen, entry))
    ensures SameButAnnounced(s.records[id], t.records[id])
    ensures s.records[id].gen in s.ledger.lives && t.records[id].gen in t.ledger.lives
    ensures t.ledger.lives[t.records[id].gen] == Idle(After(s.ledger.lives[s.records[id].gen].stage, entry, st))
    ensures t.ledger.everPublished == s.ledger.everPublished
    ensures forall c | c in t.leases :: Carried(s, t, c) || Fresh(s, t, c)
  {
    hide Core, Permitted, Match, After, InOrder;
    forall k | k in s.records && k != id ensures Untouched(s, t, k) {
      OtherGens(s, id, k);
      assert SameButAnnounced(s.records[k], t.records[k]);
    }
    forall k | k in s.records ensures t.records[k].gen == s.records[k].gen {
      assert SameButAnnounced(s.records[k], t.records[k]);
    }
  }

  /** One record is edited; nothing else happens. */
  lemma EditIsApart(s: State, t: State, id: Bytes)
    requires Core(s) && id in s.records && t == s.(records := t.records)
    requires id in t.records && t.records == s.records[id := t.records[id]] && t.records[id].gen == s.records[id].gen
    ensures Apart(s, t, id, [])
  {
    hide Core;
    forall k | k in s.records && k != id ensures Untouched(s, t, k) { RecordFacts(s, k); }
  }

  lemma RephasedApart(s: State, id: Bytes, phase: Phase)
    requires Core(s) && id in s.records
    ensures Apart(s, Rephased(s, id, phase), id, [])
  {
    hide Core, Apart;
    EditIsApart(s, Rephased(s, id, phase), id);
  }

  lemma ApartIsSwept(s: State, t: State, id: Bytes, deeds: seq<Deed>)
    requires Apart(s, t, id, deeds)
    ensures Swept(s, t, {id})
  {
  }

  lemma ApartKeepsOrder(s: State, t: State, id: Bytes, deeds: seq<Deed>)
    requires Orderly(s) && Apart(s, t, id, deeds) && id in t.records
    requires t.records[id].gen in t.ledger.lives
    requires Settled(t.records[id], t.ledger.lives[t.records[id].gen], t.starting, id in t.retiring)
    ensures Orderly(t)
  {
    forall k | k in t.records
      ensures t.records[k].gen in t.ledger.lives
              && Settled(t.records[k], t.ledger.lives[t.records[k].gen], t.starting, k in t.retiring)
    {
      if k != id { assert Untouched(s, t, k); }
    }
  }

  /** The instance of `id` is gone and its record erased: every other record stays as it was. */
  lemma ErasedSweeps(s: State, t: State, id: Bytes, deeds: seq<Deed>)
    requires Orderly(s) && Apart(s, t, id, deeds) && |t.deferred| == |t.deferredGens|
    ensures Swept(s, Erased(t, id), {id}) && Orderly(Erased(t, id))
    ensures Erased(t, id).ledger == t.ledger && Erased(t, id).trace == t.trace && Erased(t, id).depth == t.depth
    ensures Erased(t, id).records == t.records - {id}
  {
    var u := Erased(t, id);
    forall k | k in s.records && k != id ensures Untouched(s, u, k) { assert Untouched(s, t, k); }
  }

  // ---- the retirement marker ----------------------------------------------------------------------

  ghost function Marking(s: State, id: Bytes): State {
    s.(retiring := s.retiring + {id})
  }

  ghost function Unmarking(s: State, id: Bytes): State {
    s.(retiring := s.retiring - {id})
  }

  lemma MarkerKeepsCore(s: State, retiring: set<Bytes>)
    requires Core(s)
    ensures Core(s.(retiring := retiring))
  {
    hide RecordsOk, LeasesOk, TokensOk, NoticesOk, DeferredOk, OrderOk, Sound;
  }

  lemma MarkerKeepsOrder(s: State, id: Bytes)
    requires Orderly(s)
    ensures Orderly(Unmarking(s, id))
  {
  }

  /** What the marker's own statement changes, and nothing else. */
  lemma MarkerFields(s: State, id: Bytes)
    ensures Unmarking(s, id).records == s.records && Unmarking(s, id).ledger == s.ledger && Unmarking(s, id).trace == s.trace
    ensures Unmarking(s, id).depth == s.depth && Unmarking(s, id).retiring == s.retiring - {id}
    ensures Marking(s, id).records == s.records && Marking(s, id).ledger == s.ledger && Marking(s, id).trace == s.trace
  {
  }

  /** What was swept under the marker is swept once it is lowered again. */
  lemma MarkerLowered(s: State, t: State, id: Bytes)
    requires id !in s.retiring && Swept(Marking(s, id), t, {id})
    ensures Swept(s, Unmarking(t, id), {id})
  {
    var m, u := Marking(s, id), Unmarking(t, id);
    assert u.retiring == s.retiring;
    forall k | k in s.records && Kept(s, k) && k != id ensures Untouched(s, u, k) { assert Untouched(m, t, k); }
  }

  /** An instance that may be torn down: in service or waiting to be, and idle. */
  ghost predicate Retirable(s: State, id: Bytes) {
    id in s.records && (s.records[id].phase == Initialized || s.records[id].phase == Starting
                        || s.records[id].phase == Active || s.records[id].phase == Revoking)
  }

  ghost function Condemned(s: State, id: Bytes): State
    requires id in s.records && |s.deferred| == |s.deferredGens|
  {
    TornDown(Undeferred(Marking(s, id), id), id)
  }

  lemma RetirablePermitted(s: State, id: Bytes)
    requires Core(s) && Orderly(s) && s.depth == 0 && Retirable(s, id)
    ensures Permitted(s.ledger, Retiring(s.records[id].gen)) && s.records[id].live
    ensures s.records[id].gen in s.ledger.lives && StopReady(s.ledger.lives[s.records[id].gen].stage)
    ensures |s.deferred| == |s.deferredGens|
  {
    hide Core;
    AtRest(s, id);
    QueuedPairs(s);
  }

  lemma CondemnedCore(s: State, id: Bytes)
    requires Core(s) && Orderly(s) && s.depth == 0 && Retirable(s, id)
    ensures |s.deferred| == |s.deferredGens| && Core(Condemned(s, id))
  {
    hide Core, Orderly;
    RetirablePermitted(s, id);
    MarkerKeepsCore(s, s.retiring + {id});
    UndeferredCore(Marking(s, id), id);
    TornDownCore(Undeferred(Marking(s, id), id), id);
  }

  lemma CondemnedFields(s: State, id: Bytes)
    requires id in s.records && |s.deferred| == |s.deferredGens|
    requires Permitted(s.ledger, Retiring(s.records[id].gen))
    ensures Condemned(s, id).records == s.records[id := s.records[id].(phase := Revoking)]
    ensures Condemned(s, id).ledger == s.ledger.(retiring := s.ledger.retiring + {s.records[id].gen})
    ensures Condemned(s, id).depth == s.depth && Condemned(s, id).leases == s.leases
    ensures Condemned(s, id).initOrder == s.initOrder && Condemned(s, id).retiring == s.retiring + {id}
    ensures Condemned(s, id).trace == s.trace + [Retiring(s.records[id].gen)]
    ensures SameFlags(Marking(s, id), Condemned(s, id))
  {
  }

  lemma CondemnedApart(s: State, id: Bytes)
    requires Core(s) && Orderly(s) && s.depth == 0 && Retirable(s, id)
    ensures |s.deferred| == |s.deferredGens|
    ensures Orderly(Condemned(s, id)) && Apart(Marking(s, id), Condemned(s, id), id, [])
  {
    hide Core, Permitted, Condemned;
    RetirablePermitted(s, id);
    CondemnedFields(s, id);
    var m, t := Marking(s, id), Condemned(s, id);
    forall k | k in s.records && k != id ensures Untouched(m, t, k) { RecordFacts(s, k); }
  }

  lemma QueuedPairs(s: State)
    requires Core(s)
    ensures |s.deferred| == |s.deferredGens|
    ensures forall i | 0 <= i < |s.deferred| :: s.deferred[i] in s.records && s.records[s.deferred[i]].gen == s.deferredGens[i]
    ensures s.shutting ==> s.deferred == []
  {
  }

  lemma SweptLoose(s: State, t: State, id: Bytes)
    requires Swept(s, t, {id}) && !Kept(s, id)
    ensures Swept(s, t, {})
  {
  }

  lemma CalmIsSweptAtRest(s: State)
    requires Core(s)
    ensures Swept(s, s, {})
  {
    CalmReflexive(s);
    CalmIsSwept(s, s);
  }

  lemma DeferredTaken(s: State)
    requires Core(s) && s.deferred != []
    ensures |s.deferredGens| == |s.deferred|
    ensures Core(s.(deferred := s.deferred[1..], deferredGens := s.deferredGens[1..]))
    ensures Calm(s, s.(deferred := s.deferred[1..], deferredGens := s.deferredGens[1..]))
  {
    hide RecordsOk, LeasesOk, TokensOk, NoticesOk, OrderOk, Sound;
    var t := s.(deferred := s.deferred[1..], deferredGens := s.deferredGens[1..]);
    QueueCore(s, t);
    assert forall c | c in t.leases :: Carried(s, t, c);
  }

  /** Queueing one more registered identity, at either end. */
  lemma DeferredAdded(s: State, t: State)
    requires Core(s) && !s.shutting && t == s.(deferred := t.deferred, deferredGens := t.deferredGens)
    requires exists id | id in s.records ::
               || (t.deferred == s.deferred + [id] && t.deferredGens == s.deferredGens + [s.records[id].gen])
               || (t.deferred == [id] + s.deferred && t.deferredGens == [s.records[id].gen] + s.deferredGens)
    ensures Core(t) && Calm(s, t)
  {
    hide RecordsOk, LeasesOk, TokensOk, NoticesOk, OrderOk, Sound;
    QueueCore(s, t);
    assert forall c | c in t.leases :: Carried(s, t, c);
  }

  /** Sweeps about the same records compose. */
  lemma SweptOnward(s: State, t: State, u: State, touched: set<Bytes>)
    requires Swept(s, t, touched) && (Swept(t, u, touched) || Swept(t, u, {}))
    ensures Swept(s, u, touched)
    ensures SameFlags(t, u) && s.trace <= t.trace <= u.trace && u.records.Keys <= t.records.Keys
    ensures forall k | k in u.records :: u.records[k].gen == t.records[k].gen
    ensures u.ledger.inflight == t.ledger.inflight
  {
    if Swept(t, u, {}) { SweptWider(t, u, {}, touched); }
    SweptTransitive(s, t, u, touched, touched);
    assert touched + touched == touched;
  }

  lemma SweptFacts(s: State, t: State, touched: set<Bytes>)
    requires Swept(s, t, touched)
    ensures SameFlags(s, t) && s.trace <= t.trace && t.records.Keys <= s.records.Keys
    ensures forall k | k in t.records :: t.records[k].gen == s.records[k].gen
    ensures t.ledger.inflight == s.ledger.inflight && t.ledger.births == s.ledger.births
  {
  }

  lemma SweptKeeps(s: State, t: State, id: Bytes)
    requires Swept(s, t, {}) && id in s.records && Kept(s, id)
    ensures Untouched(s, t, id)
  {
  }

  lemma StillOnward(s: State, t: State, u: State)
    requires Still(s, t) && Still(t, u)
    ensures Still(s, u)
  {
  }
}
