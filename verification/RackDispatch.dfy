/** Dispatch, turn by turn: what one queued notice, event or unload comes to, and what a pass strings together. */
module RackDispatch {
  import opened Base
  import opened Ordering
  import opened RackProtocol
  import opened RackState
  import opened RackSteps
  import opened RackVerdicts
  import opened RackMoves
  import opened RackAnswers

  ghost predicate ReachableIn(s: State, o: Owner) {
    o.Plugin? && o.id in s.records && s.records[o.id].gen == o.gen && Receives(s.records[o.id].phase)
  }

  ghost predicate HearableIn(s: State, n: Notice) {
    && n.watch in s.watches && ReachableIn(s, s.watches[n.watch])
    && (n.available ==>
          && n.provider in s.records && s.records[n.provider].gen == n.gen
          && s.records[n.provider].published && s.records[n.provider].phase == Active)
  }

  ghost predicate ListeningIn(s: State, token: Token, e: QueuedEvent) {
    token in s.subscriptions && s.subscriptions[token].name == e.name && ReachableIn(s, s.subscriptions[token].owner)
  }

  /** A notice at its turn: if it concerns somebody still, its watcher is entered, or the trace says that
      there was no memory to describe the methods; otherwise nothing happens. */
  ghost predicate NoticeTurn(s: State, t: State, n: Notice) {
    && Calm(s, t)
    && (if HearableIn(s, n) then
          || s.trace + [Entered(PluginFrame(s.watches[n.watch].gen, OnCapability(n.watch, n.gen, n.available, n.version)))] <= t.trace
          || t == DeliveryLost(s)
        else t == s)
  }

  /** A subscription at its turn: its owner is entered exactly if it may hear the event now. */
  ghost predicate EventTurn(s: State, t: State, token: Token, e: QueuedEvent) {
    && Calm(s, t)
    && (if ListeningIn(s, token, e) then
          s.trace + [Entered(PluginFrame(s.subscriptions[token].owner.gen, OnEvent(token)))] <= t.trace
        else t == s)
  }

  ghost predicate EventPass(turns: seq<State>, tokens: seq<Token>, e: QueuedEvent) {
    && |turns| == |tokens| + 1
    && forall k | 0 <= k < |tokens| :: EventTurn(turns[k], turns[k + 1], tokens[k], e)
  }

  /** An event is offered to the subscriptions there are, in token order, each judged at its turn; or the
      trace says that there was no memory to list them. */
  ghost predicate EventOffered(s: State, t: State, e: QueuedEvent) {
    || t == DeliveryLost(s)
    || exists turns | EventPass(turns, AscendingTokens(s.subscriptions.Keys), e) ::
         turns[0] == s && turns[|turns| - 1] == t
  }

  /** One unit of the budget: the first notice, or the first event when no notice is queued. */
  ghost predicate Dispatched(s: State, t: State) {
    if s.notices != [] then
      NoticeTurn(s.(notices := s.notices[1..]), t, s.notices[0])
    else
      s.events != [] && EventOffered(s.(events := s.events[1..]), t, s.events[0])
  }

  /** A dispatch pass: unit by unit, until the queues or the budget are exhausted. */
  ghost predicate DispatchPass(turns: seq<State>, budget: nat) {
    && 0 < |turns| <= budget + 1
    && (forall k | 0 <= k < |turns| - 1 :: Dispatched(turns[k], turns[k + 1]))
    && (|turns| <= budget ==> turns[|turns| - 1].notices == [] && turns[|turns| - 1].events == [])
  }

  /** A queued unload at its turn: its instance is gone, or the request is back at the head of the queue;
      a failure of the instance's own stop() comes back as it is. */
  ghost predicate ServedTurn(s: State, t: State, st: Status) {
    && s.deferred != [] && s.deferred[0] in s.records && Swept(s, t, {})
    && Forwarded(s, t, s.records[s.deferred[0]].gen, st)
    && (st == Ok ==> s.deferred[0] !in t.records)
    && (st != Ok ==> t.deferred != [] && t.deferred[0] == s.deferred[0])
  }

  /** Queued unloads are served one after the other, up to the first failure, the end of the queue, or as
      many as were queued when the pass began. */
  ghost predicate ServePass(turns: seq<State>, bound: nat, st: Status) {
    && 0 < |turns| <= bound + 1
    && (forall k | 0 <= k < |turns| - 1 ::
          ServedTurn(turns[k], turns[k + 1], if k + 2 == |turns| then st else Ok))
    && (st == Ok && |turns| <= bound ==> turns[|turns| - 1].deferred == [])
    && (st != Ok ==> |turns| > 1)
  }

  /** A whole drain: a dispatch pass; then, unless work is left over or a batch is starting, the unloads. */
  ghost predicate DrainPass(s: State, t: State, budget: nat, turns: seq<State>, served: seq<State>, st: Status) {
    && DispatchPass(turns, budget) && turns[0] == s.(draining := true)
    && (var u := turns[|turns| - 1].(draining := false);
        if u.notices != [] || u.events != [] then st == LimitExceeded && t == u
        else if s.starting then st == Ok && t == u
        else ServePass(served, |u.deferred|, st) && served[0] == u && served[|served| - 1] == t)
  }

  /** One call of the dispatcher: refused, put off until the batch is initialized, or carried out. */
  ghost predicate DrainCall(s: State, r: Round, budget: nat) {
    if s.depth != 0 || s.draining then r.st == Busy && r.after == s
    else if s.initializing then r.st == Ok && r.after == s
    else DrainPass(s, r.after, budget, r.turns, r.served, r.st)
  }

  datatype Round = Round(after: State, turns: seq<State>, served: seq<State>, st: Status)

  const DRAIN_ROUNDS: nat := 4

  ghost function RoundStart(s: State, rounds: seq<Round>, k: nat): State
    requires k <= |rounds|
  {
    if k == 0 then s else rounds[k - 1].after
  }

  ghost predicate RoundsSoFar(s: State, rounds: seq<Round>, budget: nat) {
    forall k | 0 <= k < |rounds| :: DrainCall(RoundStart(s, rounds, k), rounds[k], budget)
  }

  /** Bounded dispatch from `s`: drained again while work is left over and no delivery failed, four times at most. */
  ghost predicate Rounds(s: State, rounds: seq<Round>, budget: nat) {
    && RoundsSoFar(s, rounds, budget) && 0 < |rounds| <= DRAIN_ROUNDS
    && (forall k | 0 <= k < |rounds| - 1 :: rounds[k].st != Ok && Soft(rounds[k].st))
    && (|rounds| < DRAIN_ROUNDS ==> rounds[|rounds| - 1].st == Ok || !Soft(rounds[|rounds| - 1].st))
  }

  /** Bounded dispatch from `s` that ended with `st`, and nothing but calm activity since. */
  ghost predicate Heard(s: State, t: State, rounds: seq<Round>, budget: nat, st: Status) {
    && Rounds(s, rounds, budget) && rounds[|rounds| - 1].st == st
    && Calm(rounds[|rounds| - 1].after, t)
  }

  lemma HeardOnward(s: State, t: State, u: State, rounds: seq<Round>, budget: nat, st: Status)
    requires Heard(s, t, rounds, budget, st) && Calm(t, u)
    ensures Heard(s, u, rounds, budget, st)
  {
    hide DrainCall;
    CalmOnward(rounds[|rounds| - 1].after, t, u);
  }

  lemma NoRounds(s: State, budget: nat)
    ensures RoundsSoFar(s, [], budget)
  {
  }

  lemma RoundNext(s: State, rounds: seq<Round>, r: Round, budget: nat)
    requires RoundsSoFar(s, rounds, budget) && DrainCall(RoundStart(s, rounds, |rounds|), r, budget)
    ensures RoundsSoFar(s, rounds + [r], budget)
  {
    hide DrainCall;
    forall k | 0 <= k < |rounds + [r]| ensures DrainCall(RoundStart(s, rounds + [r], k), (rounds + [r])[k], budget) {
      if k < |rounds| { assert RoundStart(s, rounds + [r], k) == RoundStart(s, rounds, k); }
    }
  }

  /** The instance is in service from `s` on: the news is queued, one notice per watch, and was dispatched
      as far as the dispatcher went. */
  ghost predicate Told(s: State, t: State, id: Bytes, rounds: seq<Round>, budget: nat) {
    && id in s.records && s.records[id].published && Queued(s, id)
    && exists heard | Soft(heard) :: Heard(s, t, rounds, budget, heard)
  }

  ghost predicate Queued(s: State, id: Bytes)
    requires id in s.records
  {
    && |s.watches| <= |s.notices|
    && s.notices[|s.notices| - |s.watches|..] == NoticesAbout(AscendingTokens(s.watches.Keys), id, s.records[id], true)
  }

  lemma ToldBy(s: State, t: State, id: Bytes, rounds: seq<Round>, budget: nat, heard: Status)
    requires id in s.records && s.records[id].published && Queued(s, id)
    requires Soft(heard) && Heard(s, t, rounds, budget, heard)
    ensures Told(s, t, id, rounds, budget)
  {
    hide Heard, Queued;
  }

  lemma EventNext(turns: seq<State>, tokens: seq<Token>, e: QueuedEvent, i: nat, t: State)
    requires i < |tokens| && EventPass(turns, tokens[..i], e) && EventTurn(turns[i], t, tokens[i], e)
    ensures EventPass(turns + [t], tokens[..i + 1], e)
  {
    hide EventTurn;
  }

  lemma EventHeard(turns: seq<State>, e: QueuedEvent, s: State)
    requires EventPass(turns, AscendingTokens(s.subscriptions.Keys), e) && turns[0] == s
    ensures EventOffered(s, turns[|turns| - 1], e)
  {
    hide AscendingTokens, EventTurn;
  }

  lemma DispatchNext(turns: seq<State>, budget: nat, t: State)
    requires 0 < |turns| <= budget && Dispatched(turns[|turns| - 1], t)
    requires forall k | 0 <= k < |turns| - 1 :: Dispatched(turns[k], turns[k + 1])
    ensures forall k | 0 <= k < |turns| :: Dispatched((turns + [t])[k], (turns + [t])[k + 1])
  {
    hide Dispatched;
    assert (turns + [t])[|turns|] == t;
    forall k | 0 <= k < |turns| ensures Dispatched((turns + [t])[k], (turns + [t])[k + 1]) {
      if k < |turns| - 1 { assert (turns + [t])[k] == turns[k] && (turns + [t])[k + 1] == turns[k + 1]; }
    }
  }

  /** The instance whose unload heads the queue of `s` answered `st` to its stop() on the way to `t`. */
  ghost predicate HeadStopGave(s: State, t: State, st: Status) {
    && s.deferred != [] && s.deferred[0] in s.records
    && StopGave(t.trace, |s.trace|, s.records[s.deferred[0]].gen, st)
  }

  /** Serving queued unloads answers `not_found` exactly if the last instance served answered that to its stop(). */
  lemma ServeNotFound(turns: seq<State>, bound: nat, st: Status)
    requires ServePass(turns, bound, st)
    ensures st == NotFound <==> |turns| > 1 && HeadStopGave(turns[|turns| - 2], turns[|turns| - 1], NotFound)
  {
    hide Swept;
    if |turns| > 1 {
      var s, t := turns[|turns| - 2], turns[|turns| - 1];
      assert ServedTurn(s, t, st);
      NotFoundFromStop(s, t, s.records[s.deferred[0]].gen, st);
    }
  }

  lemma {:induction false} ServeGrows(turns: seq<State>, bound: nat, st: Status, k: nat)
    requires ServePass(turns, bound, st) && k < |turns|
    ensures turns[0].trace <= turns[k].trace
  {
    hide Forwarded;
    if k > 0 {
      ServeGrows(turns, bound, st, k - 1);
      assert ServedTurn(turns[k - 1], turns[k - 1 + 1], if k + 1 == |turns| then st else Ok);
    }
  }

  lemma DispatchedGrows(s: State, t: State)
    requires Dispatched(s, t)
    ensures s.trace <= t.trace
  {
    hide HearableIn, ListeningIn, AscendingTokens;
    if s.notices == [] {
      var u, e := s.(events := s.events[1..]), s.events[0];
      if t != DeliveryLost(u) {
        var turns :| EventPass(turns, AscendingTokens(u.subscriptions.Keys), e) && turns[0] == u && turns[|turns| - 1] == t;
        PassGrows(turns, AscendingTokens(u.subscriptions.Keys), e, 0, |turns| - 1);
      }
    }
  }

  lemma {:induction false} DispatchGrows(turns: seq<State>, budget: nat, k: nat)
    requires DispatchPass(turns, budget) && k < |turns|
    ensures turns[0].trace <= turns[k].trace
  {
    hide Dispatched;
    if k > 0 {
      DispatchGrows(turns, budget, k - 1);
      DispatchedGrows(turns[k - 1], turns[k - 1 + 1]);
    }
  }

  /** So does a whole drain; and then the trace of the drain shows that answer. */
  lemma DrainNotFound(s: State, t: State, budget: nat, turns: seq<State>, served: seq<State>, st: Status)
    requires DrainPass(s, t, budget, turns, served, st)
    ensures st == NotFound <==>
              && (var u := turns[|turns| - 1]; u.notices == [] && u.events == [] && !s.starting)
              && |served| > 1 && HeadStopGave(served[|served| - 2], served[|served| - 1], NotFound)
    ensures st == NotFound ==> SomeStopGave(s, t, NotFound)
  {
    assert |turns| > 0;
    hide DispatchPass, ServePass;
    var u := turns[|turns| - 1].(draining := false);
    if u.notices == [] && u.events == [] && !s.starting {
      ServeNotFound(served, |u.deferred|, st);
      if st == NotFound {
        var a, b := served[|served| - 2], served[|served| - 1];
        DispatchGrows(turns, budget, |turns| - 1);
        ServeGrows(served, |u.deferred|, st, |served| - 2);
        GaveWider(s, a, b, t, a.records[a.deferred[0]].gen, NotFound);
      }
    }
  }

  /** A drain, spelled out. Unit by unit the first notice, or the first event when there is no notice, is taken
      off its queue and delivered, until both queues are empty or the budget is spent. If work is left that is
      the answer; otherwise, outside start batches, the queued unloads follow (`ServeMeans`). */
  lemma DrainMeans(s: State, t: State, budget: nat, turns: seq<State>, served: seq<State>, st: Status)
    requires DrainPass(s, t, budget, turns, served, st)
    ensures 0 < |turns| <= budget + 1 && turns[0] == s.(draining := true)
    ensures forall k | 0 <= k < |turns| - 1 ::
              if turns[k].notices != [] then NoticeTurn(turns[k].(notices := turns[k].notices[1..]), turns[k + 1], turns[k].notices[0])
              else turns[k].events != [] && EventOffered(turns[k].(events := turns[k].events[1..]), turns[k + 1], turns[k].events[0])
    ensures |turns| <= budget ==> turns[|turns| - 1].notices == [] && turns[|turns| - 1].events == []
    ensures var u := turns[|turns| - 1].(draining := false);
            if u.notices != [] || u.events != [] then st == LimitExceeded && t == u
            else if s.starting then st == Ok && t == u
            else served != [] && served[0] == u && served[|served| - 1] == t && ServePass(served, |u.deferred|, st)
  {
    hide NoticeTurn, EventOffered, ServedTurn;
    assert forall k | 0 <= k < |turns| - 1 :: Dispatched(turns[k], turns[k + 1]);
  }

  /** Each turn takes up the head of the queue. Served, its instance is gone; not served, the request is back
      at the head, and that was the last turn. */
  lemma ServeMeans(turns: seq<State>, bound: nat, st: Status, k: nat)
    requires ServePass(turns, bound, st) && k < |turns| - 1
    ensures |turns| <= bound + 1 && turns[k].deferred != [] && turns[k].deferred[0] in turns[k].records
    ensures k < |turns| - 2 || st == Ok ==> turns[k].deferred[0] !in turns[k + 1].records
    ensures k == |turns| - 2 && st != Ok ==> turns[k + 1].deferred != [] && turns[k + 1].deferred[0] == turns[k].deferred[0]
    ensures st == Ok && |turns| <= bound ==> turns[|turns| - 1].deferred == []
  {
    hide Swept, Forwarded;
    assert ServedTurn(turns[k], turns[k + 1], if k + 2 == |turns| then st else Ok);
  }

  lemma EventStarts(s: State, tokens: seq<Token>, e: QueuedEvent)
    ensures EventPass([s], tokens[..0], e)
  {
  }

  lemma EventLost(s: State, e: QueuedEvent)
    ensures EventOffered(s, DeliveryLost(s), e)
  {
  }

  lemma ServedNext(turns: seq<State>, t: State, st: Status)
    requires 0 < |turns| && ServedTurn(turns[|turns| - 1], t, st)
    requires forall k | 0 <= k < |turns| - 1 :: ServedTurn(turns[k], turns[k + 1], Ok)
    ensures forall k | 0 <= k < |turns| ::
              ServedTurn((turns + [t])[k], (turns + [t])[k + 1], if k + 1 == |turns| then st else Ok)
  {
    hide ServedTurn;
    assert (turns + [t])[|turns|] == t;
    forall k | 0 <= k < |turns|
      ensures ServedTurn((turns + [t])[k], (turns + [t])[k + 1], if k + 1 == |turns| then st else Ok)
    {
      if k < |turns| - 1 { assert (turns + [t])[k] == turns[k] && (turns + [t])[k + 1] == turns[k + 1]; }
    }
  }

  /** Later turns only add to the trace. */
  lemma {:induction false} PassGrows(turns: seq<State>, tokens: seq<Token>, e: QueuedEvent, i: nat, j: nat)
    requires EventPass(turns, tokens, e) && i <= j < |turns|
    ensures turns[i].trace <= turns[j].trace
    decreases j
  {
    hide ListeningIn;
    if i < j {
      PassGrows(turns, tokens, e, i, j - 1);
      assert EventTurn(turns[j - 1], turns[j], tokens[j - 1], e);
    }
  }

  /** Who is subscribed to that name at its turn, registered and initialized or active, is entered with the
      event, right then; over anybody else the pass goes on without a trace. */
  lemma ListenersHear(turns: seq<State>, tokens: seq<Token>, e: QueuedEvent, k: nat)
    requires EventPass(turns, tokens, e) && k < |tokens|
    ensures var s, c, last := turns[k], tokens[k], turns[|turns| - 1].trace;
            if && c in s.subscriptions && s.subscriptions[c].name == e.name
               && s.subscriptions[c].owner.Plugin? && s.subscriptions[c].owner.id in s.records
               && (var r := s.records[s.subscriptions[c].owner.id];
                   r.gen == s.subscriptions[c].owner.gen && (r.phase == Initialized || r.phase == Active))
            then |s.trace| < |last| && last[|s.trace|] == Entered(PluginFrame(s.subscriptions[c].owner.gen, OnEvent(c)))
            else turns[k + 1] == s
  {
    assert EventTurn(turns[k], turns[k + 1], tokens[k], e);
    PassGrows(turns, tokens, e, k + 1, |turns| - 1);
  }

  /** Whom a notice concerns: the owner of its watch, registered and initialized or active; and news of an
      instance only while that very instance is published and active. A withdrawal is told in any case. */
  lemma WatchersHear(s: State, t: State, n: Notice)
    requires NoticeTurn(s, t, n)
    ensures if && n.watch in s.watches && s.watches[n.watch].Plugin? && s.watches[n.watch].id in s.records
               && (var r := s.records[s.watches[n.watch].id];
                   r.gen == s.watches[n.watch].gen && (r.phase == Initialized || r.phase == Active))
               && (n.available ==>
                     && n.provider in s.records
                     && (var p := s.records[n.provider]; p.gen == n.gen && p.published && p.phase == Active))
            then
              || (|s.trace| < |t.trace| && t.trace[|s.trace|]
                    == Entered(PluginFrame(s.watches[n.watch].gen, OnCapability(n.watch, n.gen, n.available, n.version))))
              || t.trace == s.trace + [Dropped]
            else t == s
  {
  }

  // ---- revocation -----------------------------------------------------------------------------------

  /** One lease at its turn: unless it ended before, whoever holds it is entered and asked to return it,
      and a lease that is still there afterwards counts as kept. */
  ghost predicate AskTurn(s: State, t: State, c: Token, st: Status) {
    && Calm(s, t)
    && (if c in s.leases then
          var asked := if s.leases[c].info.consumer.Plugin?
                       then PluginFrame(s.leases[c].info.consumer.gen, OnRevoke(c)) else HostFrame(AdminRevoke(c));
          && s.trace + [Entered(asked)] <= t.trace && t.trace[|t.trace| - 1..] == [Left(asked, st)]
          && (st == Failed || st == if c in t.leases then Busy else Ok)
        else t == s && st == Ok)
  }

  ghost predicate AskPass(order: seq<Token>, turns: seq<State>, answers: seq<Status>) {
    && |turns| == |order| + 1 && |answers| == |order|
    && forall k | 0 <= k < |order| :: AskTurn(turns[k], turns[k + 1], order[k], answers[k])
  }

  /** Every lease there is on one generation has its turn, in token order; one failure outweighs any number kept. */
  ghost predicate Solicited(s: State, t: State, g: Gen, st: Status) {
    exists order, turns, answers ::
      && (forall c :: c in order <==> c in s.leases && s.leases[c].info.gen == g)
      && (forall i, j | 0 <= i < j < |order| :: order[i] < order[j])
      && AskPass(order, turns, answers) && turns[0] == s && turns[|turns| - 1] == t
      && st == if Failed in answers then Failed else if Busy in answers then Busy else Ok
  }

  lemma AskNext(order: seq<Token>, turns: seq<State>, answers: seq<Status>, k: nat, t: State, st: Status)
    requires k < |order| && AskPass(order[..k], turns, answers) && AskTurn(turns[k], t, order[k], st)
    ensures AskPass(order[..k + 1], turns + [t], answers + [st])
  {
    hide AskTurn;
  }

  lemma AskedOfAll(order: seq<Token>, turns: seq<State>, answers: seq<Status>)
    requires AskPass(order, turns, answers)
    ensures |turns| == |order| + 1
  {
  }

  lemma AskSkips(s: State, c: Token)
    requires c !in s.leases
    ensures AskTurn(s, s, c, Ok)
  {
    CalmReflexive(s);
  }

  lemma NobodyAsked(s: State)
    ensures AskPass([], [s], [])
  {
  }

  lemma AllAsked(s: State, g: Gen, order: seq<Token>, turns: seq<State>, answers: seq<Status>, st: Status)
    requires forall c :: c in order <==> c in s.leases && s.leases[c].info.gen == g
    requires forall i, j | 0 <= i < j < |order| :: order[i] < order[j]
    requires AskPass(order, turns, answers) && turns[0] == s
    requires st == if Failed in answers then Failed else if Busy in answers then Busy else Ok
    ensures Solicited(s, turns[|turns| - 1], g, st)
  {
    hide AskPass;
  }

  /** One instance at its turn in the second pass of shutdown: unless it is gone or out of service, every
      lease on it is asked for. */
  ghost predicate AskedAbout(s: State, t: State, id: Bytes) {
    if id in s.records && (s.records[id].phase == Active || s.records[id].phase == Revoking) then
      exists st :: Solicited(s, t, s.records[id].gen, st)
    else t == s
  }

  ghost predicate AskedAll(order: seq<Bytes>, visits: seq<State>) {
    && |visits| == |order| + 1
    && forall k | 0 <= k < |order| :: AskedAbout(visits[k], visits[k + 1], order[k])
  }

  lemma AskedThere(s: State, t: State, id: Bytes, st: Status)
    requires id in s.records && (s.records[id].phase == Active || s.records[id].phase == Revoking)
    requires Solicited(s, t, s.records[id].gen, st)
    ensures AskedAbout(s, t, id)
  {
    hide Solicited;
  }

  lemma AskedNot(s: State, id: Bytes)
    requires id in s.records ==> s.records[id].phase != Active && s.records[id].phase != Revoking
    ensures AskedAbout(s, s, id)
  {
  }

  lemma AskedNone(s: State, order: seq<Bytes>)
    ensures AskedAll(order[..0], [s])
  {
  }

  lemma AskedMore(order: seq<Bytes>, visits: seq<State>, k: nat, t: State)
    requires k < |order| && AskedAll(order[..k], visits) && AskedAbout(visits[k], t, order[k])
    ensures AskedAll(order[..k + 1], visits + [t])
  {
    hide AskedAbout;
  }
}
