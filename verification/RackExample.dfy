/** The one way a drain comes to report `not_found`, on a concrete run: a plugin is started, asks for its own
    unload, and answers `not_found` to the stop() that follows. */
module RackExample {
  import opened Base
  import opened Ordering
  import opened RackProtocol
  import opened RackState
  import opened RackSteps
  import opened RackMoves
  import opened RackAnswers
  import opened RackDispatch

  /** A call during which the plugin does nothing. */
  ghost function Called(s: State, id: Bytes, entry: Entry, st: Status): State
    requires id in s.records
  {
    Closed(Opened(s, id, entry), id, entry, st)
  }

  lemma CalledFacts(s: State, id: Bytes, entry: Entry, st: Status)
    requires Callable(s, id, entry)
    ensures id in s.records && s.records[id].gen in s.ledger.lives
    ensures var t, f := Called(s, id, entry, st), PluginFrame(s.records[id].gen, entry);
            && Core(t) && t.trace == s.trace + [Entered(f), Left(f, st)]
            && t.ledger.lives == s.ledger.lives[f.gen := Idle(After(s.ledger.lives[f.gen].stage, entry, st))]
            && t.ledger.stack == s.ledger.stack && t.ledger.births == s.ledger.births && t.ledger.inflight == s.ledger.inflight
            && t.ledger.published == s.ledger.published && t.ledger.everPublished == s.ledger.everPublished
            && t.ledger.retiring == s.ledger.retiring
            && t == s.(ledger := t.ledger, trace := t.trace)
  {
    assert id in s.records && s.records[id].gen in s.ledger.lives;
    hide Core, Permitted, Step, Match, Advance, Callable, Opened, Closed;
    var o := Opened(s, id, entry);
    CallOpens(s, id, entry);
    CalmReflexive(o);
    CallEnds(s, o, id, entry, st);
    CalledShape(s, id, entry, st);
  }

  lemma CalledShape(s: State, id: Bytes, entry: Entry, st: Status)
    requires id in s.records
    ensures var t, f := Called(s, id, entry, st), PluginFrame(s.records[id].gen, entry);
            t == s.(ledger := t.ledger, trace := s.trace + [Entered(f), Left(f, st)])
  {
    hide Advance;
    var r := s.records[id];
    assert s.records[id := r.(depth := r.depth + 1)][id := r] == s.records;
    assert s.trace + [Entered(PluginFrame(r.gen, entry))] + [Left(PluginFrame(r.gen, entry), st)]
        == s.trace + [Entered(PluginFrame(r.gen, entry)), Left(PluginFrame(r.gen, entry), st)];
  }

  /** A host at rest with one instance in service that nobody watches or borrows from, its unload queued. */
  ghost predicate AboutToUnload(s: State, id: Bytes) {
    && Core(s) && Orderly(s) && s.depth == 0 && !s.shutting && !s.starting && !s.draining && !s.initializing
    && s.retiring == {} && s.ledger.inflight == multiset{}
    && id in s.records && s.records[id].phase == Active && s.records[id].published
    && s.deferred == [id] && s.deferredGens == [s.records[id].gen]
    && s.watches == map[] && s.leases == map[] && s.events == [] && s.notices == []
  }

  lemma OrderlySame(s: State, t: State)
    requires Orderly(s) && t == s.(deferred := t.deferred, deferredGens := t.deferredGens)
    ensures Orderly(t)
  {
  }

  lemma CondemnedQueue(s: State, id: Bytes)
    requires id in s.records && s.deferred == [] && s.deferredGens == []
    ensures Condemned(s, id).deferred == [] && Condemned(s, id).deferredGens == []
  {
    hide Advance;
  }

  lemma RevokingIsMarked(s: State, id: Bytes)
    requires Core(s) && s.depth == 0 && id in s.records && s.records[id].phase == Revoking
    ensures s.records[id].gen in s.ledger.retiring
  {
    hide Core;
    AtRest(s, id);
  }

  lemma NobodyBorrows(s: State, g: Gen)
    requires Core(s) && s.leases == map[]
    ensures NotBorrowed(s.ledger, g)
  {
    hide Core;
    UnborrowedByTable(s, g);
  }

  /** The retirement, up to stop(): marked, out of the queue, withdrawn. */
  lemma Quieted(s: State, id: Bytes) returns (c: State)
    requires AboutToUnload(s, id)
    ensures Core(c) && Callable(c, id, Stop) && SameFlags(s.(retiring := {id}), c)
    ensures id in s.records && c.records == s.records[id := s.records[id].(phase := Revoking, published := false)]
    ensures c.trace == s.trace + [Retiring(s.records[id].gen), Withdrawn(s.records[id].gen)]
    ensures c.ledger.births == s.ledger.births && c.ledger.stack == s.ledger.stack && c.ledger.inflight == s.ledger.inflight
    ensures c.deferred == [] && c.deferredGens == [] && c.records[id].live && s.records[id].gen in c.ledger.retiring
  {
    hide Core, Orderly, Permitted, Step, Apart, Match, TornDown, NoticesAbout, AscendingTokens;
    AtRest(s, id);
    DeferredTaken(s);
    var a := s.(deferred := [], deferredGens := []);
    assert a == s.(deferred := s.deferred[1..], deferredGens := s.deferredGens[1..]);
    assert Orderly(a) by { OrderlySame(s, a); }
    RetirablePermitted(a, id);
    CondemnedCore(a, id);
    CondemnedFields(a, id);
    CondemnedApart(a, id);
    CondemnedQueue(a, id);
    var b := Condemned(a, id);
    WithdrawPermitted(b, id);
    RetractedCore(b, id);
    RetractedFields(b, id);
    c := Retracted(b, id);
    NobodyBorrows(c, s.records[id].gen);
    RevokingIsMarked(c, id);
    StopCallable(c, id);
  }

  /** Served now, the unload fails with what stop() answers: the instance is quarantined, the request is
      back in the queue, and the status is `not_found` although the instance is registered. */
  lemma ServedNotFound(s: State, id: Bytes) returns (t: State)
    requires AboutToUnload(s, id)
    ensures Core(t) && id in s.records && id in t.records && t.records[id] == s.records[id].(phase := Faulted, published := false)
    ensures ServedTurn(s, t, NotFound) && HeadStopGave(s, t, NotFound)
  {
    hide Core, Orderly, Permitted, Step, Match, Callable, Called, Forwarded, StopGave;
    var g := s.records[id].gen;
    var c := Quieted(s, id);
    CalledFacts(c, id, Stop, NotFound);
    var d := Called(c, id, Stop, NotFound);
    QuarantinedCore(c, d, id);
    var e := Rephased(d, id, Faulted);
    MarkerKeepsCore(e, {});
    var f := e.(retiring := {});
    t := f.(deferred := [id], deferredGens := [g]);
    DeferredAdded(f, t);
    FourEvents(s, t, g);
  }

  lemma FourEvents(s: State, t: State, g: Gen)
    requires t.trace == s.trace + [Retiring(g), Withdrawn(g)] + [Entered(PluginFrame(g, Stop)), Left(PluginFrame(g, Stop), NotFound)]
    ensures StopGave(t.trace, |s.trace|, g, NotFound) && Forwarded(s, t, g, NotFound)
  {
    assert t.trace[|s.trace| + 3] == Left(PluginFrame(g, Stop), NotFound);
  }

  lemma QuarantinedCore(c: State, d: State, id: Bytes)
    requires Core(c) && Callable(c, id, Stop) && id in c.records && c.records[id].phase == Revoking && c.records[id].live
    requires !c.records[id].published && d == Called(c, id, Stop, NotFound) && c.records[id].gen in c.ledger.retiring
    ensures Core(Rephased(d, id, Faulted))
  {
    hide Core, Permitted, Step, Callable, Called;
    CalledFacts(c, id, Stop, NotFound);
    RephasedCore(d, id, Faulted);
  }

  // ---- the run ------------------------------------------------------------------------------------

  const Id: Bytes := [0x61]
  const Node := OrderNode(Id, 0, [], [])
  const Nothing := State(map[], [], map[], map[], map[], [], [], [], [], 1, 1, 0, false, false, false, false, {}, EmptyLedger, [])

  /** A host at rest whose only record is `r`, the first it ever had. */
  ghost predicate Alone(s: State, r: Record, life: Life) {
    && Core(s) && s.records == map[Id := r] && r.gen == 1 && r.methods == [] && s.ledger.lives == map[1 := life]
    && s.depth == 0 && !s.initializing && !s.starting && !s.shutting && !s.draining && s.retiring == {}
    && s.ledger.stack == [] && s.ledger.inflight == multiset{} && s.ledger.retiring == {}
    && s.ledger.everPublished == (if r.published then {1} else {})
    && s.watches == map[] && s.leases == map[] && s.events == [] && s.notices == [] && s.deferred == [] && s.deferredGens == []
  }

  lemma NothingIsCore()
    ensures Core(Nothing)
  {
  }

  lemma StagedAlone(version: Version) returns (s: State)
    ensures Alone(s, FreshRecord(1, version, Node), Idle(Unmade))
  {
    hide Core;
    NothingIsCore();
    StagingPermitted(Nothing, Id, version);
    StagedInCore(Nothing, Node, version);
    s := StagedIn(Nothing, Node, version);
  }

  /** The factory is called, and hands an instance over. */
  lemma ObtainedAlone(s: State, r: Record) returns (t: State)
    requires Alone(s, r, Idle(Unmade)) && r.phase == Created && !r.live && !r.published
    ensures Alone(t, r.(live := true), Idle(Made))
  {
    hide Core;
    HostOpenedCore(s, Create);
    var a := HostOpened(s, Create);
    HostClosedCore(a, Create, Ok);
    var b := HostClosed(a, Create, Ok);
    ObtainedByCore(b, Id, true);
    t := ObtainedBy(b, Id, true);
  }

  lemma RephasedAlone(s: State, r: Record, life: Life, phase: Phase) returns (t: State)
    requires Alone(s, r, life) && !r.published && Match(phase, r.live, life, false)
    requires (phase.Created? || phase.Initializing?) == (r.phase.Created? || r.phase.Initializing?)
    ensures Alone(t, r.(phase := phase), life)
  {
    hide Core;
    RephasedCore(s, Id, phase);
    t := Rephased(s, Id, phase);
  }

  lemma CalledAlone(s: State, r: Record, life: Life, entry: Entry) returns (t: State)
    requires Alone(s, r, life) && Callable(s, Id, entry)
    ensures Alone(t, r, Idle(After(life.stage, entry, Ok)))
  {
    hide Core, Callable, Called;
    CalledFacts(s, Id, entry, Ok);
    t := Called(s, Id, entry, Ok);
  }

  lemma ReadiedAlone(s: State, r: Record) returns (t: State)
    requires Alone(s, r, Idle(Ready)) && r.phase == Initializing && r.live && !r.published
    ensures Alone(t, r.(phase := Initialized), Idle(Ready))
  {
    hide Core;
    ReadiedCore(s, Id);
    t := Readied(s, Id);
  }

  lemma CommittedAlone(s: State, r: Record) returns (t: State)
    requires Alone(s, r, Idle(Running)) && r.phase == Active && !r.published
    ensures Alone(t, r.(published := true, invoker := false), Idle(Running))
  {
    hide Core;
    CommittedCore(s, Id, false);
    t := Committed(s, Id, false);
  }

  const Version0 := Version(0, 0, 0)

  function RecordIn(phase: Phase): Record {
    FreshRecord(1, Version0, Node).(live := true, phase := phase)
  }

  lemma InitializedAlone() returns (s: State)
    ensures Alone(s, RecordIn(Initialized), Idle(Ready))
  {
    hide Core, Callable, Alone;
    s := StagedAlone(Version0);
    s := ObtainedAlone(s, FreshRecord(1, Version0, Node));
    s := RephasedAlone(s, RecordIn(Created), Idle(Made), Initializing);
    CallableAlone(s, RecordIn(Initializing), Idle(Made));
    s := CalledAlone(s, RecordIn(Initializing), Idle(Made), Init);
    s := ReadiedAlone(s, RecordIn(Initializing));
  }

  lemma CallableAlone(s: State, r: Record, life: Life)
    requires Alone(s, r, life) && r.live
    ensures r.phase == Initializing && life == Idle(Made) ==> Callable(s, Id, Init)
    ensures r.phase == Starting && life == Idle(Ready) ==> Callable(s, Id, Start)
  {
    hide Core, Callable;
    if r.phase == Initializing && life == Idle(Made) { InitCallable(s, Id); }
    if r.phase == Starting && life == Idle(Ready) { StartCallable(s, Id); }
  }

  /** Staged, created, initialized, started, published, and its unload queued: such a host is reached. */
  lemma Reached() returns (s: State)
    ensures AboutToUnload(s, Id)
  {
    hide Core, Callable, Alone;
    s := InitializedAlone();
    s := RephasedAlone(s, RecordIn(Initialized), Idle(Ready), Starting);
    CallableAlone(s, RecordIn(Starting), Idle(Ready));
    s := CalledAlone(s, RecordIn(Starting), Idle(Ready), Start);
    s := RephasedAlone(s, RecordIn(Starting), Idle(Running), Active);
    s := CommittedAlone(s, RecordIn(Active));
    s := QueuedAlone(s);
  }

  lemma QueuedAlone(s: State) returns (t: State)
    requires Alone(s, RecordIn(Active).(published := true, invoker := false), Idle(Running))
    ensures AboutToUnload(t, Id)
  {
    hide Core;
    t := s.(deferred := [Id], deferredGens := [1]);
    assert t.deferred == [Id] + s.deferred && t.deferredGens == [s.records[Id].gen] + s.deferredGens;
    assert exists id | id in s.records ::
      t.deferred == [id] + s.deferred && t.deferredGens == [s.records[id].gen] + s.deferredGens by { assert Id in s.records; }
    DeferredAdded(s, t);
  }

  /** A drain of that host reports `not_found`, with any budget, although every queued request names a
      registered instance. */
  lemma DrainReportsNotFound(budget: nat) returns (s: State, t: State)
    ensures AboutToUnload(s, Id) && Core(t) && Id in t.records
    ensures DrainPass(s, t, budget, [s.(draining := true)], [s, t], NotFound)
  {
    hide Core, AboutToUnload, ServedTurn;
    s := Reached();
    t := ServedNotFound(s, Id);
    assert AboutToUnload(s, Id);
    QueueFacts(s);
    assert s.(draining := true).(draining := false) == s;
  }

  lemma QueueFacts(s: State)
    requires AboutToUnload(s, Id)
    ensures s.notices == [] && s.events == [] && s.deferred == [Id] && !s.starting && !s.draining
  {
    hide Core, Orderly;
  }
}
