/** What a failed unload answers: the status of the instance's own stop(), or one of the engine's. */
module RackAnswers {
  import opened Base
  import opened RackProtocol
  import opened RackState
  import opened RackTheorems

  /** A dispatcher status that leaves work queued, as opposed to a failed delivery. */
  predicate Soft(st: Status) {
    st == Ok || st == Busy || st == Deferred || st == LimitExceeded || st == NotFound
  }

  /** From event `from` on, stop() of that instance returned `st`. */
  ghost predicate StopGave(tr: seq<Event>, from: nat, g: Gen, st: Status) {
    exists i | from <= i < |tr| :: tr[i] == Left(PluginFrame(g, Stop), st)
  }

  ghost predicate NeverStopped(tr: seq<Event>, g: Gen) {
    forall i | 0 <= i < |tr| :: !(tr[i].Left? && tr[i].frame == PluginFrame(g, Stop))
  }

  /** A retirement answers what stop() returned, or it never got that far and answers for the engine. */
  ghost predicate Answered(s: State, t: State, g: Gen, st: Status) {
    || StopGave(t.trace, |s.trace|, g, st)
    || (NeverStopped(t.trace, g) && (st == Busy || !Soft(st)))
  }

  /** A failed stop() is reported as it is; and of the soft statuses only `busy` is ever the engine's own. */
  ghost predicate Forwarded(s: State, t: State, g: Gen, st: Status) {
    && (forall x | x != Ok && StopGave(t.trace, |s.trace|, g, x) :: st == x)
    && (Soft(st) && st != Ok && st != Busy ==> StopGave(t.trace, |s.trace|, g, st))
  }

  /** Some instance's stop() returned `st` in the stretch. */
  ghost predicate SomeStopGave(s: State, t: State, st: Status) {
    exists g :: StopGave(t.trace, |s.trace|, g, st)
  }

  lemma StopReturned(tr: seq<Event>, i: nat, g: Gen, st: Status)
    requires Lawful(tr) && i < |tr| && tr[i] == Left(PluginFrame(g, Stop), st)
    ensures g in At(tr, i).lives && At(tr, i).lives[g].Inside? && At(tr, i).lives[g].entry == Stop
    ensures g in At(tr, i + 1).lives && At(tr, i + 1).lives[g] == Idle(if st == Ok then Halted else HaltFailed)
  {
    hide Sound, FramesSound;
    StepAt(tr, i);
    StageReturned(At(tr, i), g, Stop, st);
  }

  /** stop() returns at most once. */
  lemma StopReturnsOnce(tr: seq<Event>, i: nat, j: nat, g: Gen, x: Status, y: Status)
    requires Lawful(tr) && i < |tr| && j < |tr|
    requires tr[i] == Left(PluginFrame(g, Stop), x) && tr[j] == Left(PluginFrame(g, Stop), y)
    ensures i == j && x == y
  {
    hide Permitted, Step, Sound;
    if i < j {
      StopReturned(tr, i, g, x);
      StopReturned(tr, j, g, y);
      RankGrows(tr, i + 1, j, g);
    } else if j < i {
      StopReturned(tr, i, g, x);
      StopReturned(tr, j, g, y);
      RankGrows(tr, j + 1, i, g);
    }
  }

  lemma WholeTrace(tr: seq<Event>)
    requires Lawful(tr)
    ensures At(tr, |tr|) == Replay(tr).value
  {
    assert tr[..|tr|] == tr;
  }

  /** An instance that has not come to its stop() was never stopped. */
  lemma NotYetStopped(tr: seq<Event>, g: Gen)
    requires Lawful(tr) && g in Replay(tr).value.lives && Rank(Replay(tr).value.lives[g]) < 6
    ensures NeverStopped(tr, g)
  {
    hide Permitted, Step, Sound;
    WholeTrace(tr);
    forall i | 0 <= i < |tr| ensures !(tr[i].Left? && tr[i].frame == PluginFrame(g, Stop)) {
      if tr[i].Left? && tr[i].frame == PluginFrame(g, Stop) {
        StopReturned(tr, i, g, tr[i].status);
        RankGrows(tr, i + 1, |tr|, g);
      }
    }
  }

  /** A failed stop() is never got over. */
  lemma {:induction false} FailureStays(tr: seq<Event>, i: nat, j: nat, g: Gen)
    requires Lawful(tr) && i <= j <= |tr| && g in At(tr, i).lives && At(tr, i).lives[g].stage == HaltFailed
    ensures g in At(tr, j).lives && At(tr, j).lives[g].stage == HaltFailed
    decreases j - i
  {
    hide Permitted, Step, Sound;
    if i < j {
      FailureStays(tr, i, j - 1, g);
      StepAt(tr, j - 1);
      var l, e := At(tr, j - 1), tr[j - 1];
      if e.Left? && e.frame.PluginFrame? && e.frame.gen == g {
        StageReturned(l, g, e.frame.entry, e.status);
      } else {
        StageKept(l, e, g);
      }
    }
  }

  /** What an instance that is gone answered to its stop(), if it was asked, was ok. */
  lemma GoneStoppedWell(tr: seq<Event>, from: nat, g: Gen, st: Status)
    requires Lawful(tr) && g in Replay(tr).value.lives && Replay(tr).value.lives[g].stage != HaltFailed
    requires StopGave(tr, from, g, st)
    ensures st == Ok
  {
    hide Permitted, Step, Sound;
    WholeTrace(tr);
    var i :| from <= i < |tr| && tr[i] == Left(PluginFrame(g, Stop), st);
    StopReturned(tr, i, g, st);
    if st != Ok { FailureStays(tr, i + 1, |tr|, g); }
  }

  lemma LastGave(tr: seq<Event>, from: nat, g: Gen, st: Status)
    requires from < |tr| && tr[|tr| - 1..] == [Left(PluginFrame(g, Stop), st)]
    ensures StopGave(tr, from, g, st)
  {
    assert tr[|tr| - 1] == tr[|tr| - 1..][0];
  }

  lemma GaveOnward(tr: seq<Event>, longer: seq<Event>, from: nat, g: Gen, st: Status)
    requires StopGave(tr, from, g, st) && tr <= longer
    ensures StopGave(longer, from, g, st)
  {
    var i :| from <= i < |tr| && tr[i] == Left(PluginFrame(g, Stop), st);
    assert longer[i] == Left(PluginFrame(g, Stop), st);
  }

  lemma AnsweredOnward(s: State, t: State, u: State, v: State, g: Gen, st: Status)
    requires Answered(t, u, g, st) && |s.trace| <= |t.trace| && v.trace == u.trace
    ensures Answered(s, v, g, st)
  {
    if StopGave(u.trace, |t.trace|, g, st) {
      var i :| |t.trace| <= i < |u.trace| && u.trace[i] == Left(PluginFrame(g, Stop), st);
      assert v.trace[i] == Left(PluginFrame(g, Stop), st);
    }
  }

  lemma AnsweredIsForwarded(s: State, t: State, g: Gen, st: Status)
    requires Lawful(t.trace) && Answered(s, t, g, st)
    ensures Forwarded(s, t, g, st)
  {
    hide Lawful;
    forall x | StopGave(t.trace, |s.trace|, g, x) && StopGave(t.trace, |s.trace|, g, st) ensures st == x {
      var i :| |s.trace| <= i < |t.trace| && t.trace[i] == Left(PluginFrame(g, Stop), x);
      var j :| |s.trace| <= j < |t.trace| && t.trace[j] == Left(PluginFrame(g, Stop), st);
      StopReturnsOnce(t.trace, i, j, g, x, st);
    }
  }

  lemma GoneIsForwarded(s: State, t: State, g: Gen)
    requires Lawful(t.trace) && g in Replay(t.trace).value.lives && Replay(t.trace).value.lives[g].stage == Gone
    ensures Forwarded(s, t, g, Ok)
  {
    hide Lawful;
    forall x | x != Ok && StopGave(t.trace, |s.trace|, g, x) ensures false {
      GoneStoppedWell(t.trace, |s.trace|, g, x);
    }
  }

  lemma ForwardedOnward(s: State, t: State, u: State, v: State, g: Gen, st: Status)
    requires Forwarded(t, u, g, st) && t.trace == s.trace && v.trace == u.trace
    ensures Forwarded(s, v, g, st)
  {
  }

  /** For `not_found`: the answer exactly if it was the answer of stop(). */
  lemma NotFoundFromStop(s: State, t: State, g: Gen, st: Status)
    requires Forwarded(s, t, g, st)
    ensures st == NotFound <==> StopGave(t.trace, |s.trace|, g, NotFound)
  {
  }

  lemma GaveWider(s: State, t: State, u: State, v: State, g: Gen, st: Status)
    requires s.trace <= t.trace && u.trace <= v.trace && StopGave(u.trace, |t.trace|, g, st)
    ensures SomeStopGave(s, v, st)
  {
    var i :| |t.trace| <= i < |u.trace| && u.trace[i] == Left(PluginFrame(g, Stop), st);
    assert v.trace[i] == Left(PluginFrame(g, Stop), st);
    assert StopGave(v.trace, |s.trace|, g, st);
  }
}
