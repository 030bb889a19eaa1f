/**
 * The rules every run of the rack obeys, stated over the trace of what happened and without
 * mentioning how the engine is built. `Permitted` says which event may come next, `Step` what it
 * changes; a trace is lawful when every event was permitted at its turn. The engine is proved to
 * produce lawful traces only (module RackEngine); RackTheorems derives what that means for a run.
 */
module RackProtocol {
  import opened Base

  type Gen = nat
  type Token = nat

  /** One call context: the administration context, or the context of one plugin instance. */
  datatype Owner = Admin | Plugin(id: Bytes, gen: Gen)

  /** Entry points of a plugin instance the host may call. */
  datatype Entry =
    | Init | Start | Query | Stop | Destroy
    | OnEvent(subscription: Token)
    | OnCapability(watch: Token, provider: Gen, available: bool, version: Version)
    | OnRevoke(credential: Token)
    | Invoke(lease: Token)

  /** Plugin-side code the host calls outside any instance. */
  datatype HostCall = Describe | Create | AdminRevoke(credential: Token)

  datatype Frame = HostFrame(call: HostCall) | PluginFrame(gen: Gen, entry: Entry)

  /** How far one instance generation has come. */
  datatype Stage =
    | Unmade | Refused | Made | InitFailed | Ready | StartFailed | Running | Halted | HaltFailed | Gone

  datatype Life = Idle(stage: Stage) | Inside(stage: Stage, entry: Entry)

  datatype Birth = Birth(id: Bytes, version: Version)

  datatype Subscription = Subscription(owner: Owner, name: Bytes)

  datatype LeaseInfo = LeaseInfo(consumer: Owner, provider: Bytes, gen: Gen, version: Version)

  datatype Event =
    | Staged(gen: Gen, id: Bytes, version: Version)
    | Obtained(gen: Gen, accepted: bool)
    | Entered(frame: Frame)
    | Left(frame: Frame, status: Status)
    | Retiring(gen: Gen)
    | Published(gen: Gen)
    | Withdrawn(gen: Gen)
    | Leased(credential: Token, info: LeaseInfo)
    | Returned(credential: Token)
    | CallOpened(credential: Token)
    | CallClosed(credential: Token)
    | TokenSpent(token: Token)
    | Subscribed(token: Token, subscription: Subscription)
    | Unsubscribed(token: Token)
    | Watched(token: Token, owner: Owner)
    | Unwatched(token: Token)
    | OwnerCleared(gen: Gen)
    | ListenersCleared
    | MemoryFailed
    | Dropped

  /** One lifecycle call made on an instance. */
  datatype Deed = Deed(gen: Gen, entry: Entry)

  datatype Ledger = Ledger(
    births: map<Gen, Birth>,
    lives: map<Gen, Life>,
    stack: seq<Frame>,
    outstanding: map<Token, LeaseInfo>,
    inflight: multiset<Token>,
    issued: set<Token>,
    published: set<Gen>,
    everPublished: set<Gen>,
    retiring: set<Gen>,
    watched: map<Token, Owner>,
    subscribed: map<Token, Subscription>,
    delivered: set<(Token, Gen, bool)>,
    history: seq<Deed>)

  const EmptyLedger := Ledger(map[], map[], [], map[], multiset{}, {}, {}, {}, {}, map[], map[], {}, [])

  // ---- which event may come next ------------------------------------------------------------

  /** The entry points open to an instance that has reached `stage`. */
  predicate Legal(stage: Stage, entry: Entry) {
    match entry
    case Init => stage == Made
    case Start => stage == Ready
    case Query => stage == Running
    case Invoke(_) => stage == Running
    case OnEvent(_) => stage == Ready || stage == Running
    case OnCapability(_, _, _, _) => stage == Ready || stage == Running
    case OnRevoke(_) => stage == Ready || stage == StartFailed || stage == Running || stage == HaltFailed
    case Stop => stage == Ready || stage == StartFailed || stage == Running
    case Destroy => stage == Refused || stage == Made || stage == InitFailed || stage == Halted
  }

  /** An instance in service: started, published and not yet being torn down. */
  predicate Serving(l: Ledger, g: Gen) {
    g in l.published && g !in l.retiring && g in l.lives && l.lives[g].stage == Running
  }

  predicate Departed(life: Life) {
    life == Idle(Gone) || life == Idle(Unmade) || life == Idle(Refused)
  }

  ghost predicate NotBorrowed(l: Ledger, g: Gen) {
    forall c | c in l.outstanding :: l.outstanding[c].gen != g
  }

  ghost predicate NotBorrowing(l: Ledger, g: Gen) {
    forall c | c in l.outstanding && l.outstanding[c].consumer.Plugin? :: l.outstanding[c].consumer.gen != g
  }

  /** No subscription and no watch is registered by the instance. */
  ghost predicate NotListening(l: Ledger, g: Gen) {
    && (forall t | t in l.subscribed && l.subscribed[t].owner.Plugin? :: l.subscribed[t].owner.gen != g)
    && (forall t | t in l.watched && l.watched[t].Plugin? :: l.watched[t].gen != g)
  }

  /** A context that may take on leases: administration, or an initialized or running instance. */
  predicate MayBorrow(l: Ledger, o: Owner) {
    o.Plugin? ==>
      && o.gen in l.births && l.births[o.gen].id == o.id
      && o.gen in l.lives && (l.lives[o.gen].stage == Ready || l.lives[o.gen].stage == Running)
      && l.lives[o.gen] != Inside(l.lives[o.gen].stage, Destroy)
      && o.gen !in l.retiring
  }

  predicate MayCall(l: Ledger, o: Owner) {
    o.Plugin? ==> o.gen in l.lives && l.lives[o.gen].stage == Running && o.gen !in l.retiring
  }

  predicate RevokeRule(l: Ledger, c: Token, consumer: Owner) {
    && l.stack == []
    && c in l.outstanding && l.outstanding[c].consumer == consumer
    && l.outstanding[c].gen !in l.published
    && c !in l.inflight
  }

  ghost predicate EntryRule(l: Ledger, g: Gen, entry: Entry)
    requires g in l.births
  {
    match entry
    case Init => l.stack == []
    case Start => l.stack == []
    case Query => l.stack == []
    case Stop => l.stack == [] && g in l.retiring && g !in l.published && NotBorrowed(l, g)
    case Destroy =>
      && l.stack == [] && NotBorrowed(l, g) && NotBorrowing(l, g)
      && (g in l.lives && l.lives[g].stage != Refused ==> NotListening(l, g))
    case OnEvent(_) => l.stack == [] && g !in l.retiring
    case OnRevoke(c) => RevokeRule(l, c, Plugin(l.births[g].id, g))
    case Invoke(c) => c in l.outstanding && l.outstanding[c].gen == g && c in l.inflight && Serving(l, g)
    case OnCapability(w, provider, available, version) =>
      && l.stack == [] && g !in l.retiring
      && w in l.watched && l.watched[w] == Plugin(l.births[g].id, g)
      && (w, provider, available) !in l.delivered && (w, provider, false) !in l.delivered
      && provider in l.births && l.births[provider].version == version
      && (available ==> Serving(l, provider))
      && (!available ==> provider in l.everPublished && provider !in l.published)
  }

  ghost predicate MayEnter(l: Ledger, f: Frame) {
    if f.HostFrame? then
      if f.call.AdminRevoke? then RevokeRule(l, f.call.credential, Admin) else l.stack == []
    else
      && f.gen in l.births && f.gen in l.lives && l.lives[f.gen].Idle?
      && Legal(l.lives[f.gen].stage, f.entry)
      && EntryRule(l, f.gen, f.entry)
  }

  ghost predicate MayLeave(l: Ledger, f: Frame) {
    && l.stack != [] && l.stack[|l.stack| - 1] == f
    && (f.PluginFrame? ==> f.gen in l.lives && l.lives[f.gen].Inside? && l.lives[f.gen].entry == f.entry)
  }

  ghost predicate Permitted(l: Ledger, e: Event) {
    match e
    case Staged(g, id, _) =>
      && l.stack == [] && 0 < g && g !in l.births && g !in l.lives
      && (forall h | h in l.births && l.births[h].id == id :: h in l.lives && Departed(l.lives[h]))
    case Obtained(g, _) => g in l.lives && l.lives[g] == Idle(Unmade) && l.stack == []
    case Entered(f) => MayEnter(l, f)
    case Left(f, _) => MayLeave(l, f)
    case Retiring(g) =>
      && l.stack == [] && g in l.lives && l.lives[g].Idle?
      && (l.lives[g].stage == Ready || l.lives[g].stage == StartFailed || l.lives[g].stage == Running)
    case Published(g) =>
      && l.stack == [] && g in l.lives && l.lives[g] == Idle(Running)
      && g !in l.everPublished && g !in l.retiring
    case Withdrawn(g) => l.stack == [] && g in l.published
    case Leased(c, info) =>
      && 0 < c && c !in l.issued && Serving(l, info.gen)
      && info.gen in l.births && l.births[info.gen] == Birth(info.provider, info.version)
      && MayBorrow(l, info.consumer)
    case Returned(c) => c in l.outstanding && c !in l.inflight
    case CallOpened(c) =>
      && c in l.outstanding && Serving(l, l.outstanding[c].gen) && MayCall(l, l.outstanding[c].consumer)
    case CallClosed(c) => c in l.inflight
    case TokenSpent(t) => 0 < t && t !in l.issued
    case Subscribed(t, info) => 0 < t && t !in l.issued && info.owner.Plugin?
    case Unsubscribed(t) => t in l.subscribed
    case Watched(t, o) => 0 < t && t !in l.issued && o.Plugin?
    case Unwatched(t) => t in l.watched
    case OwnerCleared(g) =>
      && l.stack == [] && l.inflight == multiset{} && g in l.lives
      && (l.lives[g] == Idle(Made) || l.lives[g] == Idle(InitFailed) || l.lives[g] == Idle(Halted))
    case ListenersCleared => l.stack == []
    case MemoryFailed => true
    case Dropped => true
  }

  // ---- what an event changes ----------------------------------------------------------------

  /** The stage an instance is in after an entry point returned `status`. */
  function After(stage: Stage, entry: Entry, status: Status): Stage {
    match entry
    case Init => if status == Ok then Ready else InitFailed
    case Start => if status == Ok then Running else StartFailed
    case Stop => if status == Ok then Halted else HaltFailed
    case Destroy => Gone
    case _ => stage
  }

  ghost function StepIn(l: Ledger, f: Frame): Ledger
    requires MayEnter(l, f)
  {
    if f.HostFrame? then l.(stack := l.stack + [f]) else
      l.(stack := l.stack + [f], lives := l.lives[f.gen := Inside(l.lives[f.gen].stage, f.entry)],
         delivered := l.delivered + Notified(f.entry), history := l.history + Deeds(f.gen, f.entry))
  }

  /** init, start, stop and destroy make up an instance's lifecycle; notifications and calls do not. */
  function Deeds(g: Gen, entry: Entry): seq<Deed> {
    if entry.Init? || entry.Start? || entry.Stop? || entry.Destroy? then [Deed(g, entry)] else []
  }

  function Notified(entry: Entry): set<(Token, Gen, bool)> {
    if entry.OnCapability? then {(entry.watch, entry.provider, entry.available)} else {}
  }

  ghost function StepOut(l: Ledger, f: Frame, status: Status): Ledger
    requires MayLeave(l, f)
  {
    if f.HostFrame? then l.(stack := l.stack[..|l.stack| - 1]) else
      l.(stack := l.stack[..|l.stack| - 1],
         lives := l.lives[f.gen := Idle(After(l.lives[f.gen].stage, f.entry, status))])
  }

  ghost function Step(l: Ledger, e: Event): (r: Ledger)
    requires Permitted(l, e)
  {
    match e
    case Staged(g, id, v) => l.(births := l.births[g := Birth(id, v)], lives := l.lives[g := Idle(Unmade)])
    case Obtained(g, accepted) => l.(lives := l.lives[g := Idle(if accepted then Made else Refused)])
    case Entered(f) => StepIn(l, f)
    case Left(f, status) => StepOut(l, f, status)
    case Retiring(g) => l.(retiring := l.retiring + {g})
    case Published(g) => l.(published := l.published + {g}, everPublished := l.everPublished + {g})
    case Withdrawn(g) => l.(published := l.published - {g})
    case Leased(c, info) => l.(outstanding := l.outstanding[c := info], issued := l.issued + {c})
    case Returned(c) => l.(outstanding := l.outstanding - {c})
    case CallOpened(c) => l.(inflight := l.inflight + multiset{c})
    case CallClosed(c) => l.(inflight := l.inflight - multiset{c})
    case TokenSpent(t) => l.(issued := l.issued + {t})
    case Subscribed(t, info) => l.(issued := l.issued + {t}, subscribed := l.subscribed[t := info])
    case Unsubscribed(t) => l.(subscribed := l.subscribed - {t})
    case Watched(t, o) => l.(issued := l.issued + {t}, watched := l.watched[t := o])
    case Unwatched(t) => l.(watched := l.watched - {t})
    case OwnerCleared(g) =>
      l.(outstanding := OthersLeases(l.outstanding, g), watched := OthersWatches(l.watched, g),
         subscribed := OthersSubscriptions(l.subscribed, g))
    case ListenersCleared => l.(watched := map[], subscribed := map[])
    case MemoryFailed => l
    case Dropped => l
  }

  ghost function Advance(l: Ledger, e: Event): Ledger {
    if Permitted(l, e) then Step(l, e) else l
  }

  ghost function OthersLeases(outstanding: map<Token, LeaseInfo>, g: Gen): map<Token, LeaseInfo> {
    map c | c in outstanding && !(outstanding[c].consumer.Plugin? && outstanding[c].consumer.gen == g)
      :: outstanding[c]
  }

  ghost function OthersSubscriptions(subscribed: map<Token, Subscription>, g: Gen): map<Token, Subscription> {
    map t | t in subscribed && !(subscribed[t].owner.Plugin? && subscribed[t].owner.gen == g) :: subscribed[t]
  }

  ghost function OthersWatches(watched: map<Token, Owner>, g: Gen): map<Token, Owner> {
    map t | t in watched && !(watched[t].Plugin? && watched[t].gen == g) :: watched[t]
  }

  /** What a teardown depends on and cannot repair: storage, stop(), or a revoker that keeps its lease. */
  predicate Setback(e: Event) {
    || e.MemoryFailed?
    || (e.Left? && e.frame.PluginFrame? && (e.frame.entry.Stop? || e.frame.entry.OnRevoke?) && e.status != Ok)
    || (e.Left? && e.frame.HostFrame? && e.frame.call.AdminRevoke? && e.status != Ok)
  }

  /** What a start batch depends on: storage, init(), start(), and an invoke interface from who announces methods. */
  predicate Fault(e: Event) {
    || e.MemoryFailed?
    || (e.Left? && e.frame.PluginFrame? && (e.frame.entry.Init? || e.frame.entry.Start? || e.frame.entry.Query?) && e.status != Ok)
  }

  // ---- traces -------------------------------------------------------------------------------

  ghost function Replay(tr: seq<Event>): Option<Ledger> {
    if tr == [] then Some(EmptyLedger)
    else
      var before := Replay(tr[..|tr| - 1]);
      if before.Some? && Permitted(before.value, tr[|tr| - 1])
      then Some(Step(before.value, tr[|tr| - 1]))
      else None
  }

  ghost predicate Lawful(tr: seq<Event>) {
    Replay(tr).Some?
  }

  lemma ReplayExtends(tr: seq<Event>, e: Event)
    requires Lawful(tr) && Permitted(Replay(tr).value, e)
    ensures Replay(tr + [e]) == Some(Step(Replay(tr).value, e))
  {
    assert (tr + [e])[..|tr|] == tr;
  }

  // ---- what every reachable ledger satisfies ------------------------------------------------

  predicate Initialized(stage: Stage) {
    stage == Ready || stage == StartFailed || stage == Running || stage == Halted || stage == HaltFailed
  }

  predicate Launched(stage: Stage) {
    stage == Running || stage == Halted || stage == HaltFailed || stage == Gone
  }

  ghost predicate OpenFrame(lives: map<Gen, Life>, f: Frame) {
    f.PluginFrame? ==> f.gen in lives && lives[f.gen].Inside? && lives[f.gen].entry == f.entry
  }

  predicate Distinct(f: Frame, f': Frame) {
    f.PluginFrame? && f'.PluginFrame? ==> f.gen != f'.gen
  }

  /** The stack holds exactly the calls in progress, and no instance is on it twice. */
  ghost predicate FramesSound(lives: map<Gen, Life>, stack: seq<Frame>) {
    && (forall i | 0 <= i < |stack| :: OpenFrame(lives, stack[i]))
    && (forall i, j | 0 <= i < j < |stack| :: Distinct(stack[i], stack[j]))
    && (forall g | g in lives && lives[g].Inside? ::
          Legal(lives[g].stage, lives[g].entry) && PluginFrame(g, lives[g].entry) in stack)
  }

  /** A lease's provider runs and is not being stopped; the instance the lease pins is in place. */
  ghost predicate Pinned(l: Ledger, info: LeaseInfo) {
    && info.gen in l.births && l.births[info.gen] == Birth(info.provider, info.version)
    && info.gen in l.lives && l.lives[info.gen].stage == Running && l.lives[info.gen] != Inside(Running, Stop)
  }

  /** A lease's holder is administration, or an initialized instance that is not being destroyed. */
  ghost predicate Answerable(l: Ledger, o: Owner) {
    o.Plugin? ==>
      && o.gen in l.births && l.births[o.gen].id == o.id
      && o.gen in l.lives && Initialized(l.lives[o.gen].stage)
      && l.lives[o.gen] != Inside(l.lives[o.gen].stage, Destroy)
  }

  ghost predicate LeasesSound(l: Ledger) {
    && (forall c | c in l.outstanding ::
          && c in l.issued && Pinned(l, l.outstanding[c]) && Answerable(l, l.outstanding[c].consumer))
    && (forall c | c in l.inflight :: c in l.outstanding)
  }

  ghost predicate ServiceSound(l: Ledger) {
    && (forall g | g in l.published ::
          g in l.everPublished && g in l.lives && l.lives[g].stage == Running && l.lives[g] != Inside(Running, Stop))
    && (forall g | g in l.everPublished :: g in l.lives && Launched(l.lives[g].stage))
    && (forall g | g in l.retiring ::
          g in l.lives && (Initialized(l.lives[g].stage) || l.lives[g].stage == Gone))
  }

  ghost predicate DeliverySound(l: Ledger) {
    && (forall w, g, b | (w, g, b) in l.delivered ::
          w in l.issued && g in l.everPublished && (!b ==> g !in l.published))
    && (forall w | w in l.watched :: w in l.issued && l.watched[w].Plugin?)
  }

  ghost predicate Sound(l: Ledger) {
    && l.lives.Keys == l.births.Keys
    && FramesSound(l.lives, l.stack)
    && LeasesSound(l)
    && ServiceSound(l)
    && DeliverySound(l)
  }

  lemma EnterKeepsFrames(lives: map<Gen, Life>, stack: seq<Frame>, g: Gen, entry: Entry)
    requires FramesSound(lives, stack) && g in lives && lives[g].Idle? && Legal(lives[g].stage, entry)
    ensures FramesSound(lives[g := Inside(lives[g].stage, entry)], stack + [PluginFrame(g, entry)])
  {
    var f := PluginFrame(g, entry);
    assert forall x | x in stack :: x in stack + [f];
    assert f in stack + [f] by { assert (stack + [f])[|stack|] == f; }
    assert forall i | 0 <= i < |stack| :: OpenFrame(lives, stack[i]);
  }

  lemma LeaveKeepsFrames(lives: map<Gen, Life>, stack: seq<Frame>, g: Gen, entry: Entry, stage: Stage)
    requires FramesSound(lives, stack) && stack != [] && stack[|stack| - 1] == PluginFrame(g, entry)
    ensures FramesSound(lives[g := Idle(stage)], stack[..|stack| - 1])
  {
    var rest, f := stack[..|stack| - 1], PluginFrame(g, entry);
    assert stack == rest + [f];
    forall i | 0 <= i < |rest|
      ensures OpenFrame(lives[g := Idle(stage)], rest[i])
    {
      assert OpenFrame(lives, stack[i]) && Distinct(stack[i], stack[|stack| - 1]);
    }
    assert forall x | x in stack && x != f :: x in rest;
  }

  lemma HostKeepsFrames(lives: map<Gen, Life>, stack: seq<Frame>, f: Frame)
    requires FramesSound(lives, stack) && f.HostFrame?
    ensures FramesSound(lives, stack + [f])
    ensures stack != [] && stack[|stack| - 1] == f ==> FramesSound(lives, stack[..|stack| - 1])
  {
    assert forall x | x in stack :: x in stack + [f];
    if stack != [] && stack[|stack| - 1] == f {
      var rest := stack[..|stack| - 1];
      assert stack == rest + [f];
      assert forall x | x in stack && x != f :: x in rest;
    }
  }

  lemma StepKeepsFrames(l: Ledger, e: Event)
    requires FramesSound(l.lives, l.stack) && Permitted(l, e)
    ensures FramesSound(Step(l, e).lives, Step(l, e).stack)
  {
    if e.Staged? {
      IdleKeepsFrames(l.lives, l.stack, e.gen, Idle(Unmade));
    } else if e.Obtained? {
      IdleKeepsFrames(l.lives, l.stack, e.gen, Idle(if e.accepted then Made else Refused));
    } else if e.Entered? || e.Left? {
      var f := e.frame;
      if f.HostFrame? { HostKeepsFrames(l.lives, l.stack, f); }
      else if e.Entered? { EnterKeepsFrames(l.lives, l.stack, f.gen, f.entry); }
      else { LeaveKeepsFrames(l.lives, l.stack, f.gen, f.entry, After(l.lives[f.gen].stage, f.entry, e.status)); }
    }
  }

  lemma IdleKeepsFrames(lives: map<Gen, Life>, stack: seq<Frame>, g: Gen, life: Life)
    requires FramesSound(lives, stack) && stack == [] && life.Idle?
    ensures FramesSound(lives[g := life], stack)
  {
  }

  /** Moving one instance to another life keeps the leases sound if every lease on it allows that. */
  lemma MoveKeepsLeases(l: Ledger, r: Ledger, g: Gen)
    requires LeasesSound(l)
    requires r.outstanding == l.outstanding && r.inflight == l.inflight && r.issued == l.issued
    requires forall h | h in l.births :: h in r.births && r.births[h] == l.births[h]
    requires forall h | h in l.lives && h != g :: h in r.lives && r.lives[h] == l.lives[h]
    requires g in l.lives ==> g in r.lives
    requires g in l.lives && !NotBorrowed(l, g) ==> r.lives[g].stage == Running && r.lives[g] != Inside(Running, Stop)
    requires g in l.lives && !NotBorrowing(l, g) ==>
               Initialized(r.lives[g].stage) && r.lives[g] != Inside(r.lives[g].stage, Destroy)
    ensures LeasesSound(r)
  {
    forall c | c in r.outstanding
      ensures c in r.issued && Pinned(r, r.outstanding[c]) && Answerable(r, r.outstanding[c].consumer)
    {
      var info := l.outstanding[c];
      assert c in l.issued && Pinned(l, info) && Answerable(l, info.consumer);
      assert info.gen == g ==> !NotBorrowed(l, g);
      assert info.consumer.Plugin? && info.consumer.gen == g ==> !NotBorrowing(l, g);
    }
  }

  lemma EnterKeepsLeases(l: Ledger, g: Gen, entry: Entry)
    requires Sound(l) && Permitted(l, Entered(PluginFrame(g, entry)))
    ensures LeasesSound(Step(l, Entered(PluginFrame(g, entry))))
  {
    MoveKeepsLeases(l, Step(l, Entered(PluginFrame(g, entry))), g);
  }

  lemma InsideIsLegal(l: Ledger, g: Gen)
    requires FramesSound(l.lives, l.stack) && g in l.lives && l.lives[g].Inside?
    ensures Legal(l.lives[g].stage, l.lives[g].entry)
  {
  }

  lemma LeaveKeepsLeases(l: Ledger, g: Gen, entry: Entry, status: Status)
    requires Sound(l) && Permitted(l, Left(PluginFrame(g, entry), status))
    ensures LeasesSound(Step(l, Left(PluginFrame(g, entry), status)))
  {
    hide FramesSound, ServiceSound, DeliverySound;
    InsideIsLegal(l, g);
    MoveKeepsLeases(l, Step(l, Left(PluginFrame(g, entry), status)), g);
  }

  lemma LeaseKeepsLeases(l: Ledger, c: Token, info: LeaseInfo)
    requires Sound(l) && Permitted(l, Leased(c, info))
    ensures LeasesSound(Step(l, Leased(c, info)))
  {
    var r := Step(l, Leased(c, info));
    assert Pinned(r, info) && Answerable(r, info.consumer);
    forall d | d in r.outstanding
      ensures d in r.issued && Pinned(r, r.outstanding[d]) && Answerable(r, r.outstanding[d].consumer)
    {
      if d != c { assert Pinned(l, l.outstanding[d]) && Answerable(l, l.outstanding[d].consumer); }
    }
  }

  lemma ClearKeepsLeases(l: Ledger, g: Gen)
    requires Sound(l) && Permitted(l, OwnerCleared(g))
    ensures LeasesSound(Step(l, OwnerCleared(g)))
  {
    var r := Step(l, OwnerCleared(g));
    forall d | d in r.outstanding
      ensures d in r.issued && Pinned(r, r.outstanding[d]) && Answerable(r, r.outstanding[d].consumer)
    {
      assert d in l.outstanding && r.outstanding[d] == l.outstanding[d];
      assert Pinned(l, l.outstanding[d]) && Answerable(l, l.outstanding[d].consumer);
    }
  }

  lemma CallKeepsLeases(l: Ledger, e: Event)
    requires Sound(l) && Permitted(l, e) && (e.CallOpened? || e.CallClosed? || e.Returned?)
    ensures LeasesSound(Step(l, e))
  {
    var r := Step(l, e);
    forall c | c in r.inflight ensures c in r.outstanding {
      assert c in l.inflight || e == CallOpened(c);
    }
    forall d | d in r.outstanding
      ensures d in r.issued && Pinned(r, r.outstanding[d]) && Answerable(r, r.outstanding[d].consumer)
    {
      assert Pinned(l, l.outstanding[d]) && Answerable(l, l.outstanding[d].consumer);
    }
  }

  lemma OtherKeepsLeases(l: Ledger, r: Ledger)
    requires LeasesSound(l)
    requires r.outstanding == l.outstanding && r.inflight == l.inflight && r.issued >= l.issued
    requires r.births == l.births && r.lives == l.lives
    ensures LeasesSound(r)
  {
    forall d | d in r.outstanding
      ensures d in r.issued && Pinned(r, r.outstanding[d]) && Answerable(r, r.outstanding[d].consumer)
    {
      assert Pinned(l, l.outstanding[d]) && Answerable(l, l.outstanding[d].consumer);
    }
  }

  lemma FrameKeepsLeases(l: Ledger, e: Event)
    requires Sound(l) && Permitted(l, e) && (e.Entered? || e.Left?)
    ensures LeasesSound(Step(l, e))
  {
    if e.frame.HostFrame? { OtherKeepsLeases(l, Step(l, e)); }
    else if e.Entered? { EnterKeepsLeases(l, e.frame.gen, e.frame.entry); }
    else { LeaveKeepsLeases(l, e.frame.gen, e.frame.entry, e.status); }
  }

  lemma BirthKeepsLeases(l: Ledger, e: Event)
    requires LeasesSound(l) && l.lives.Keys == l.births.Keys && Permitted(l, e) && (e.Staged? || e.Obtained?)
    ensures LeasesSound(Step(l, e))
  {
    assert forall c | c in l.outstanding :: Pinned(l, l.outstanding[c]) && Answerable(l, l.outstanding[c].consumer);
    MoveKeepsLeases(l, Step(l, e), e.gen);
  }

  lemma TableKeepsLeases(l: Ledger, e: Event)
    requires Sound(l) && Permitted(l, e) && !e.Staged? && !e.Obtained? && !e.Entered? && !e.Left?
    ensures LeasesSound(Step(l, e))
  {
    if e.Leased? { LeaseKeepsLeases(l, e.credential, e.info); }
    else if e.OwnerCleared? { ClearKeepsLeases(l, e.gen); }
    else if e.CallOpened? || e.CallClosed? || e.Returned? { CallKeepsLeases(l, e); }
    else { OtherKeepsLeases(l, Step(l, e)); }
  }

  lemma StepKeepsLeases(l: Ledger, e: Event)
    requires Sound(l) && Permitted(l, e)
    ensures LeasesSound(Step(l, e))
  {
    if e.Entered? || e.Left? { FrameKeepsLeases(l, e); }
    else if e.Staged? || e.Obtained? { BirthKeepsLeases(l, e); }
    else { TableKeepsLeases(l, e); }
  }

  lemma MoveKeepsService(l: Ledger, r: Ledger, g: Gen)
    requires ServiceSound(l)
    requires r.published == l.published && r.everPublished == l.everPublished && r.retiring == l.retiring
    requires forall h | h in l.lives && h != g :: h in r.lives && r.lives[h] == l.lives[h]
    requires g in l.lives ==> g in r.lives
    requires g in l.published ==> r.lives[g].stage == Running && r.lives[g] != Inside(Running, Stop)
    requires g in l.everPublished ==> Launched(r.lives[g].stage)
    requires g in l.retiring ==> Initialized(r.lives[g].stage) || r.lives[g].stage == Gone
    ensures ServiceSound(r)
  {
  }

  lemma EnterKeepsService(l: Ledger, g: Gen, entry: Entry)
    requires ServiceSound(l) && Permitted(l, Entered(PluginFrame(g, entry)))
    ensures ServiceSound(Step(l, Entered(PluginFrame(g, entry))))
  {
    MoveKeepsService(l, Step(l, Entered(PluginFrame(g, entry))), g);
  }

  lemma LeaveKeepsService(l: Ledger, g: Gen, entry: Entry, status: Status)
    requires ServiceSound(l) && FramesSound(l.lives, l.stack) && Permitted(l, Left(PluginFrame(g, entry), status))
    ensures ServiceSound(Step(l, Left(PluginFrame(g, entry), status)))
  {
    assert Legal(l.lives[g].stage, entry);
    MoveKeepsService(l, Step(l, Left(PluginFrame(g, entry), status)), g);
  }

  lemma AppointKeepsService(l: Ledger, e: Event)
    requires ServiceSound(l) && Permitted(l, e) && (e.Published? || e.Withdrawn? || e.Retiring?)
    ensures ServiceSound(Step(l, e))
  {
  }

  lemma BirthKeepsService(l: Ledger, e: Event)
    requires ServiceSound(l) && Permitted(l, e) && (e.Staged? || e.Obtained?)
    ensures ServiceSound(Step(l, e))
  {
    MoveKeepsService(l, Step(l, e), e.gen);
  }

  lemma SameService(l: Ledger, r: Ledger)
    requires ServiceSound(l) && r.lives == l.lives
    requires r.published == l.published && r.everPublished == l.everPublished && r.retiring == l.retiring
    ensures ServiceSound(r)
  {
  }

  lemma StepKeepsService(l: Ledger, e: Event)
    requires ServiceSound(l) && FramesSound(l.lives, l.stack) && Permitted(l, e)
    ensures ServiceSound(Step(l, e))
  {
    if e.Staged? || e.Obtained? { BirthKeepsService(l, e); }
    else if e.Published? || e.Withdrawn? || e.Retiring? { AppointKeepsService(l, e); }
    else if e.Entered? && e.frame.PluginFrame? { EnterKeepsService(l, e.frame.gen, e.frame.entry); }
    else if e.Left? && e.frame.PluginFrame? { LeaveKeepsService(l, e.frame.gen, e.frame.entry, e.status); }
    else { SameService(l, Step(l, e)); }
  }

  lemma SameDelivery(l: Ledger, r: Ledger)
    requires DeliverySound(l) && r.delivered == l.delivered && r.watched == l.watched
    requires l.issued <= r.issued && l.everPublished <= r.everPublished
    requires forall g | g in l.everPublished && g !in l.published :: g !in r.published
    ensures DeliverySound(r)
  {
  }

  lemma NotifyKeepsDelivery(l: Ledger, g: Gen, entry: Entry)
    requires DeliverySound(l) && ServiceSound(l) && Permitted(l, Entered(PluginFrame(g, entry)))
    ensures DeliverySound(Step(l, Entered(PluginFrame(g, entry))))
  {
    var r := Step(l, Entered(PluginFrame(g, entry)));
    forall w, h, b | (w, h, b) in r.delivered
      ensures w in r.issued && h in r.everPublished && (!b ==> h !in r.published)
    {
      if (w, h, b) !in l.delivered {
        assert entry == OnCapability(w, h, b, entry.version);
        assert w in l.watched;
      }
    }
  }

  lemma WatchKeepsDelivery(l: Ledger, e: Event)
    requires DeliverySound(l) && Permitted(l, e) && (e.Watched? || e.Unwatched? || e.OwnerCleared? || e.ListenersCleared?)
    ensures DeliverySound(Step(l, e))
  {
  }

  lemma StepKeepsDelivery(l: Ledger, e: Event)
    requires Sound(l) && Permitted(l, e)
    ensures DeliverySound(Step(l, e))
  {
    hide FramesSound, LeasesSound;
    if e.Entered? && e.frame.PluginFrame? { NotifyKeepsDelivery(l, e.frame.gen, e.frame.entry); }
    else if e.Watched? || e.Unwatched? || e.OwnerCleared? || e.ListenersCleared? { WatchKeepsDelivery(l, e); }
    else { SameDelivery(l, Step(l, e)); }
  }

  lemma StepKeepsSound(l: Ledger, e: Event)
    requires Sound(l) && Permitted(l, e)
    ensures Sound(Step(l, e))
  {
    StepKeepsFrames(l, e);
    StepKeepsLeases(l, e);
    StepKeepsService(l, e);
    StepKeepsDelivery(l, e);
  }

  /** The reachable ledgers are sound: whatever was permitted, the pins and frames stay in order. */
  lemma {:induction false} LawfulIsSound(tr: seq<Event>)
    requires Lawful(tr)
    ensures Sound(Replay(tr).value)
  {
    if tr != [] {
      LawfulIsSound(tr[..|tr| - 1]);
      StepKeepsSound(Replay(tr[..|tr| - 1]).value, tr[|tr| - 1]);
    }
  }
}
