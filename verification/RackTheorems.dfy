/** What every lawful run has in common: consequences of the protocol, over whole traces. */
module RackTheorems {
  import opened Base
  import opened RackProtocol
  import opened RackState
  import opened RackSteps
  import opened RackVerdicts

  /** The ledger after the first `k` events. */
  ghost function At(tr: seq<Event>, k: nat): Ledger
    requires Lawful(tr) && k <= |tr|
  {
    PrefixLawful(tr, k);
    Replay(tr[..k]).value
  }

  lemma {:induction false} PrefixLawful(tr: seq<Event>, k: nat)
    requires Lawful(tr) && k <= |tr|
    ensures Lawful(tr[..k])
    decreases |tr|
  {
    if k < |tr| {
      PrefixLawful(tr[..|tr| - 1], k);
      assert tr[..|tr| - 1][..k] == tr[..k];
    } else {
      assert tr[..k] == tr;
    }
  }

  /** Each event was permitted when it came, and changed what it changes. */
  lemma StepAt(tr: seq<Event>, k: nat)
    requires Lawful(tr) && k < |tr|
    ensures Permitted(At(tr, k), tr[k]) && At(tr, k + 1) == Step(At(tr, k), tr[k]) && Sound(At(tr, k))
  {
    hide Permitted, Step, Sound;
    PrefixLawful(tr, k);
    PrefixLawful(tr, k + 1);
    assert tr[..k + 1][..k] == tr[..k];
    LawfulIsSound(tr[..k]);
  }

  // ---- the life of one instance -------------------------------------------------------------------

  /** How far a life has come; it never goes back. */
  function Rank(life: Life): nat {
    if life.Inside? && life.entry.Init? then 2
    else if life.Inside? && life.entry.Start? then 4
    else if life.Inside? && life.entry.Stop? then 6
    else if life.Inside? && life.entry.Destroy? then 8
    else StageRank(life.stage)
  }

  function StageRank(stage: Stage): nat {
    match stage
    case Unmade => 0
    case Refused => 1
    case Made => 1
    case InitFailed => 3
    case Ready => 3
    case StartFailed => 5
    case Running => 5
    case Halted => 7
    case HaltFailed => 7
    case Gone => 9
  }

  function EntryRank(entry: Entry): nat {
    if entry.Init? then 2 else if entry.Start? then 4 else if entry.Stop? then 6 else if entry.Destroy? then 8 else 0
  }

  lemma StepKeepsRank(l: Ledger, e: Event, g: Gen)
    requires Sound(l) && Permitted(l, e) && g in l.lives
    ensures g in Step(l, e).lives && Rank(l.lives[g]) <= Rank(Step(l, e).lives[g])
    ensures e.Entered? && e.frame.PluginFrame? && e.frame.gen == g && Lifecycle(e.frame.entry) ==>
              Rank(l.lives[g]) < EntryRank(e.frame.entry) == Rank(Step(l, e).lives[g])
  {
    hide LeasesSound, ServiceSound, DeliverySound, EntryRule, Serving, MayBorrow, MayCall, RevokeRule, NotBorrowed, NotBorrowing, Notified;
    if e.Left? || e.Entered? {
      if e.Left? && e.frame.PluginFrame? && e.frame.gen == g { InsideIsLegal(l, g); }
    } else {
      OthersKeepRank(l, e, g);
      hide Permitted, Step, Sound, Rank;
    }
  }

  lemma OthersKeepRank(l: Ledger, e: Event, g: Gen)
    requires Sound(l) && Permitted(l, e) && g in l.lives && !e.Entered? && !e.Left?
    ensures g in Step(l, e).lives && Rank(l.lives[g]) <= Rank(Step(l, e).lives[g])
  {
    hide LeasesSound, ServiceSound, DeliverySound, MayEnter, MayLeave, MayBorrow, MayCall, Serving;
  }

  lemma {:induction false} RankGrows(tr: seq<Event>, i: nat, j: nat, g: Gen)
    requires Lawful(tr) && i <= j <= |tr| && g in At(tr, i).lives
    ensures g in At(tr, j).lives && Rank(At(tr, i).lives[g]) <= Rank(At(tr, j).lives[g])
    decreases j - i
  {
    hide Permitted, Step, Sound;
    if i < j {
      RankGrows(tr, i, j - 1, g);
      StepAt(tr, j - 1);
      StepKeepsRank(At(tr, j - 1), tr[j - 1], g);
    }
  }

  /** init, start, stop and destroy are each entered at most once per instance, in that order. */
  lemma LifecycleOnce(tr: seq<Event>, i: nat, j: nat, g: Gen, first: Entry, second: Entry)
    requires Lawful(tr) && i < j < |tr| && Lifecycle(first) && Lifecycle(second)
    requires tr[i] == Entered(PluginFrame(g, first)) && tr[j] == Entered(PluginFrame(g, second))
    ensures EntryRank(first) < EntryRank(second)
  {
    hide Permitted, Step, Sound;
    StepAt(tr, i);
    EnteredLives(At(tr, i), g, first);
    StepKeepsRank(At(tr, i), tr[i], g);
    RankGrows(tr, i + 1, j, g);
    StepAt(tr, j);
    StepKeepsRank(At(tr, j), tr[j], g);
  }

  lemma EnteredLives(l: Ledger, g: Gen, entry: Entry)
    requires Permitted(l, Entered(PluginFrame(g, entry)))
    ensures g in l.lives
  {
  }

  /** Once destroyed, an instance is never entered again, for anything. */
  lemma DestroyedIsFinal(tr: seq<Event>, i: nat, j: nat, g: Gen, entry: Entry, st: Status)
    requires Lawful(tr) && i < j < |tr| && tr[i] == Left(PluginFrame(g, Destroy), st)
    ensures tr[j] != Entered(PluginFrame(g, entry))
  {
    hide Step, Sound;
    if tr[j] == Entered(PluginFrame(g, entry)) {
      StepAt(tr, i);
      GoneAfterDestroy(At(tr, i), g, st);
      RankGrows(tr, i + 1, j, g);
      StepAt(tr, j);
    }
  }

  lemma GoneAfterDestroy(l: Ledger, g: Gen, st: Status)
    requires Permitted(l, Left(PluginFrame(g, Destroy), st))
    ensures g in Step(l, Left(PluginFrame(g, Destroy), st)).lives
    ensures Rank(Step(l, Left(PluginFrame(g, Destroy), st)).lives[g]) == 9
  {
  }

  datatype Call = Call(entry: Entry, status: Status)

  /** The lifecycle calls made on one instance that have returned, with what they returned. */
  function Word(tr: seq<Event>, g: Gen): seq<Call> {
    if tr == [] then []
    else
      var e, before := tr[|tr| - 1], Word(tr[..|tr| - 1], g);
      if e.Left? && e.frame.PluginFrame? && e.frame.gen == g && Lifecycle(e.frame.entry)
      then before + [Call(e.frame.entry, e.status)]
      else before
  }

  /** init succeeded, and start was called or not. */
  predicate Begun(w: seq<Call>) {
    || w == [Call(Init, Ok)]
    || (|w| == 2 && w[0] == Call(Init, Ok) && w[1].entry == Start)
  }

  /** The words an instance at each stage can have behind it. */
  predicate Fits(stage: Stage, w: seq<Call>)
    decreases |w|
  {
    match stage
    case Unmade => w == []
    case Refused => w == []
    case Made => w == []
    case InitFailed => |w| == 1 && w[0].entry == Init && w[0].status != Ok
    case Ready => w == [Call(Init, Ok)]
    case StartFailed => |w| == 2 && w[0] == Call(Init, Ok) && w[1].entry == Start && w[1].status != Ok
    case Running => w == [Call(Init, Ok), Call(Start, Ok)]
    case Halted => |w| > 0 && Begun(w[..|w| - 1]) && w[|w| - 1] == Call(Stop, Ok)
    case HaltFailed => |w| > 0 && Begun(w[..|w| - 1]) && w[|w| - 1].entry == Stop && w[|w| - 1].status != Ok
    case Gone =>
      && |w| > 0 && w[|w| - 1].entry == Destroy
      && (|| Fits(Made, w[..|w| - 1]) || Fits(InitFailed, w[..|w| - 1]) || Fits(Halted, w[..|w| - 1]))
  }

  /** Every instance lives a prefix of create·destroy, create·init(failed)·destroy, or
      create·init·[start]·stop·destroy, quarantined for good if stop failed. */
  lemma {:induction false} LifecycleWord(tr: seq<Event>, g: Gen)
    requires Lawful(tr)
    ensures g in Replay(tr).value.lives ==> Fits(Replay(tr).value.lives[g].stage, Word(tr, g))
    ensures g !in Replay(tr).value.lives ==> Word(tr, g) == []
  {
    hide Permitted, Step, Sound;
    if tr != [] {
      var k := |tr| - 1;
      LifecycleWord(tr[..k], g);
      StepAt(tr, k);
      assert tr[..k + 1] == tr;
      StepFits(At(tr, k), tr[k], g, Word(tr[..k], g));
    }
  }

  /** A call that returns adds its letter to the word its instance had. */
  lemma ReturnFits(stage: Stage, entry: Entry, status: Status, w: seq<Call>)
    requires Fits(stage, w) && Legal(stage, entry)
    ensures Fits(After(stage, entry, status), if Lifecycle(entry) then w + [Call(entry, status)] else w)
  {
    var more := w + [Call(entry, status)];
    assert more[..|w|] == w && more[|w|] == Call(entry, status);
    if entry.Destroy? {
      assert stage == Refused || stage == Made || stage == InitFailed || stage == Halted;
      assert stage == Refused ==> Fits(Made, w);
    }
  }

  /** An instance changes stage when it is created or when one of its calls returns, and only then. */
  lemma StageKept(l: Ledger, e: Event, g: Gen)
    requires Sound(l) && Permitted(l, e) && !(e.Left? && e.frame.PluginFrame? && e.frame.gen == g)
    ensures g in l.lives ==> g in Step(l, e).lives
    ensures g in l.lives ==> Step(l, e).lives[g].stage == l.lives[g].stage
                             || (l.lives[g].stage == Unmade && (Step(l, e).lives[g].stage == Made || Step(l, e).lives[g].stage == Refused))
    ensures g !in l.lives && g in Step(l, e).lives ==> Step(l, e).lives[g].stage == Unmade
  {
    hide FramesSound, LeasesSound, ServiceSound, DeliverySound;
  }

  lemma StageReturned(l: Ledger, g: Gen, entry: Entry, status: Status)
    requires Sound(l) && Permitted(l, Left(PluginFrame(g, entry), status))
    ensures g in l.lives && Legal(l.lives[g].stage, entry)
    ensures g in Step(l, Left(PluginFrame(g, entry), status)).lives
    ensures Step(l, Left(PluginFrame(g, entry), status)).lives[g] == Idle(After(l.lives[g].stage, entry, status))
  {
    hide LeasesSound, ServiceSound, DeliverySound;
    InsideIsLegal(l, g);
  }

  lemma StepFits(l: Ledger, e: Event, g: Gen, w: seq<Call>)
    requires Sound(l) && Permitted(l, e)
    requires g in l.lives ==> Fits(l.lives[g].stage, w)
    requires g !in l.lives ==> w == []
    ensures var done := e.Left? && e.frame.PluginFrame? && e.frame.gen == g && Lifecycle(e.frame.entry);
            var w' := if done then w + [Call(e.frame.entry, e.status)] else w;
            && (g in Step(l, e).lives ==> Fits(Step(l, e).lives[g].stage, w'))
            && (g !in Step(l, e).lives ==> w' == [])
  {
    if e.Left? && e.frame.PluginFrame? && e.frame.gen == g {
      hide Sound, Permitted, Step, Fits, Legal, After;
      StageReturned(l, g, e.frame.entry, e.status);
      ReturnFits(l.lives[g].stage, e.frame.entry, e.status, w);
    } else {
      hide Sound, Permitted, Step;
      StageKept(l, e, g);
    }
  }

  // ---- re-entrancy --------------------------------------------------------------------------------

  /** Only business calls nest: everything else runs on an empty stack. */
  predicate OnlyCallsNest(stack: seq<Frame>) {
    forall i | 0 < i < |stack| :: stack[i].PluginFrame? && stack[i].entry.Invoke?
  }

  lemma StepNests(l: Ledger, e: Event)
    requires Permitted(l, e) && OnlyCallsNest(l.stack)
    ensures OnlyCallsNest(Step(l, e).stack)
  {
  }

  lemma {:induction false} CallsNest(tr: seq<Event>)
    requires Lawful(tr)
    ensures OnlyCallsNest(Replay(tr).value.stack)
  {
    hide Sound, Permitted, Step;
    if tr != [] {
      var k := |tr| - 1;
      CallsNest(tr[..k]);
      StepAt(tr, k);
      StepNests(At(tr, k), tr[k]);
      assert tr[..k + 1] == tr;
    }
  }

  /** No instance is ever entered while one of its calls is still open. */
  lemma NeverReentered(tr: seq<Event>, k: nat, g: Gen, entry: Entry)
    requires Lawful(tr) && k < |tr| && tr[k] == Entered(PluginFrame(g, entry))
    ensures forall i | 0 <= i < |At(tr, k).stack| ::
              At(tr, k).stack[i].PluginFrame? ==> At(tr, k).stack[i].gen != g
  {
    hide LeasesSound, ServiceSound, DeliverySound, Step;
    StepAt(tr, k);
    forall i | 0 <= i < |At(tr, k).stack| ensures At(tr, k).stack[i].PluginFrame? ==> At(tr, k).stack[i].gen != g {
      assert OpenFrame(At(tr, k).lives, At(tr, k).stack[i]);
    }
  }

  // ---- leases -------------------------------------------------------------------------------------

  /** Events that end a lease: it is returned, or its holder is cleaned up after stopping. */
  predicate Ends(e: Event, c: Token, info: LeaseInfo) {
    e == Returned(c) || (e.OwnerCleared? && info.consumer.Plugin? && info.consumer.gen == e.gen)
  }

  lemma StepKeepsLease(l: Ledger, e: Event, c: Token, info: LeaseInfo)
    requires Sound(l) && Permitted(l, e) && c in l.outstanding && l.outstanding[c] == info && !Ends(e, c, info)
    ensures c in Step(l, e).outstanding && Step(l, e).outstanding[c] == info
  {
    hide Sound;
    if !e.Leased? && !e.Returned? && !e.OwnerCleared? { OutstandingKept(l, e); } else { LeaseTableKept(l, e, c, info); }
  }

  lemma LeaseTableKept(l: Ledger, e: Event, c: Token, info: LeaseInfo)
    requires Sound(l) && Permitted(l, e) && (e.Leased? || e.Returned? || e.OwnerCleared?)
    requires c in l.outstanding && l.outstanding[c] == info && !Ends(e, c, info)
    ensures c in Step(l, e).outstanding && Step(l, e).outstanding[c] == info
  {
    hide FramesSound, ServiceSound, DeliverySound;
  }

  lemma {:induction false} LeaseStays(tr: seq<Event>, i: nat, j: nat, c: Token, info: LeaseInfo)
    requires Lawful(tr) && i < j <= |tr| && tr[i] == Leased(c, info)
    requires forall k | i < k < j :: !Ends(tr[k], c, info)
    ensures c in At(tr, j).outstanding && At(tr, j).outstanding[c] == info
    decreases j
  {
    hide Permitted, Step, Sound;
    StepAt(tr, j - 1);
    if j == i + 1 {
      LeasedIsOutstanding(At(tr, i), c, info);
    } else {
      LeaseStays(tr, i, j - 1, c, info);
      StepKeepsLease(At(tr, j - 1), tr[j - 1], c, info);
    }
  }

  lemma LeasedIsOutstanding(l: Ledger, c: Token, info: LeaseInfo)
    requires Permitted(l, Leased(c, info))
    ensures c in Step(l, Leased(c, info)).outstanding && Step(l, Leased(c, info)).outstanding[c] == info
  {
  }

  /** A borrowed provider is neither stopped nor destroyed before the lease ends, and runs all along. */
  lemma PinnedWhileBorrowed(tr: seq<Event>, i: nat, j: nat, c: Token, info: LeaseInfo)
    requires Lawful(tr) && i < j < |tr| && tr[i] == Leased(c, info)
    requires forall k | i < k < j :: !Ends(tr[k], c, info)
    ensures tr[j] != Entered(PluginFrame(info.gen, Stop)) && tr[j] != Entered(PluginFrame(info.gen, Destroy))
    ensures info.gen in At(tr, j).lives && At(tr, j).lives[info.gen].stage == Running
  {
    hide FramesSound, ServiceSound, DeliverySound, Step;
    LeaseStays(tr, i, j, c, info);
    StepAt(tr, j);
    assert Pinned(At(tr, j), At(tr, j).outstanding[c]);
  }

  /** A call into a provider runs under a lease on that very instance, taken before and not yet ended. */
  lemma InvokedUnderLease(tr: seq<Event>, k: nat, g: Gen, c: Token) returns (i: nat, info: LeaseInfo)
    requires Lawful(tr) && k < |tr| && tr[k] == Entered(PluginFrame(g, Invoke(c)))
    ensures i < k && tr[i] == Leased(c, info) && info.gen == g
    ensures forall j | i < j < k :: !Ends(tr[j], c, info)
    ensures Serving(At(tr, k), g)
  {
    hide Step, Sound;
    StepAt(tr, k);
    info := At(tr, k).outstanding[c];
    i := TakenBefore(tr, k, c);
  }

  /** Only three events touch the lease table. */
  lemma OutstandingKept(l: Ledger, e: Event)
    requires Permitted(l, e) && !e.Leased? && !e.Returned? && !e.OwnerCleared?
    ensures Step(l, e).outstanding == l.outstanding
  {
    if e.Entered? || e.Left? {
      CallsKeepTables(l, e);
      hide Permitted, Step;
    } else {
      hide MayEnter, MayLeave, MayBorrow, MayCall, StepIn, StepOut, OthersLeases, OthersWatches, OthersSubscriptions;
    }
  }

  /** A lease on record was on record before the last event, unless that event took it. */
  lemma LeaseBefore(l: Ledger, e: Event, c: Token)
    requires Permitted(l, e) && c in Step(l, e).outstanding
    ensures e == Leased(c, Step(l, e).outstanding[c])
            || (c in l.outstanding && l.outstanding[c] == Step(l, e).outstanding[c] && !Ends(e, c, l.outstanding[c]))
  {
    if !e.Leased? && !e.Returned? && !e.OwnerCleared? {
      hide Permitted, Step;
      KeptThrough(l, e);
    } else {
      LeaseTableBefore(l, e, c);
    }
  }

  lemma LeaseTableBefore(l: Ledger, e: Event, c: Token)
    requires Permitted(l, e) && (e.Leased? || e.Returned? || e.OwnerCleared?) && c in Step(l, e).outstanding
    ensures e == Leased(c, Step(l, e).outstanding[c])
            || (c in l.outstanding && l.outstanding[c] == Step(l, e).outstanding[c] && !Ends(e, c, l.outstanding[c]))
  {
  }

  lemma KeptThrough(l: Ledger, e: Event)
    requires Permitted(l, e) && !e.Leased? && !e.Returned? && !e.OwnerCleared?
    ensures Step(l, e).outstanding == l.outstanding
    ensures forall c, info :: !Ends(e, c, info)
  {
    OutstandingKept(l, e);
  }

  lemma {:induction false} TakenBefore(tr: seq<Event>, k: nat, c: Token) returns (i: nat)
    requires Lawful(tr) && k <= |tr| && c in At(tr, k).outstanding
    ensures i < k && tr[i] == Leased(c, At(tr, k).outstanding[c])
    ensures forall j | i < j < k :: !Ends(tr[j], c, At(tr, k).outstanding[c])
  {
    hide Sound, Permitted, Step;
    if k > 0 {
      StepAt(tr, k - 1);
      LeaseBefore(At(tr, k - 1), tr[k - 1], c);
      if tr[k - 1] == Leased(c, At(tr, k).outstanding[c]) {
        i := k - 1;
      } else {
        i := TakenBefore(tr, k - 1, c);
      }
    }
  }

  /** Events that end what an owner registered under a token: it is given up, its owner is cleaned up, or
      shutdown drops what is left. */
  predicate EndsListening(e: Event, token: Token, owner: Owner) {
    || e == Unsubscribed(token) || e == Unwatched(token) || e.ListenersCleared?
    || (e.OwnerCleared? && owner.Plugin? && owner.gen == e.gen)
  }

  lemma StepKeepsListeners(l: Ledger, e: Event, token: Token)
    requires Permitted(l, e) && token in l.issued
    ensures token in l.subscribed && !EndsListening(e, token, l.subscribed[token].owner) ==>
              token in Step(l, e).subscribed && Step(l, e).subscribed[token] == l.subscribed[token]
    ensures token in l.watched && !EndsListening(e, token, l.watched[token]) ==>
              token in Step(l, e).watched && Step(l, e).watched[token] == l.watched[token]
    ensures token !in l.subscribed ==> token !in Step(l, e).subscribed
    ensures token !in l.watched ==> token !in Step(l, e).watched
  {
    hide EntryRule, Legal, Serving, MayBorrow, MayCall, Departed, Notified, Deeds, After, OthersLeases, StepIn, StepOut;
    if e.Entered? || e.Left? {
      CallsKeepTables(l, e);
    } else {
      hide MayEnter, MayLeave;
    }
  }

  lemma CallsKeepTables(l: Ledger, e: Event)
    requires Permitted(l, e) && (e.Entered? || e.Left?)
    ensures Step(l, e).subscribed == l.subscribed && Step(l, e).watched == l.watched && Step(l, e).outstanding == l.outstanding
  {
    hide EntryRule, MayEnter, MayLeave, Notified, Deeds, After;
  }

  /** Nothing in that stretch ended what `owner` registered under `token`. */
  ghost predicate Unended(tr: seq<Event>, from: nat, to: nat, token: Token, owner: Owner)
    requires to <= |tr|
  {
    forall k | from <= k < to :: !EndsListening(tr[k], token, owner)
  }

  lemma {:induction false} SubscriptionStays(tr: seq<Event>, i: nat, j: nat, token: Token)
    requires Lawful(tr) && i <= j <= |tr| && token in At(tr, i).issued && token in At(tr, i).subscribed
    requires Unended(tr, i, j, token, At(tr, i).subscribed[token].owner)
    ensures token in At(tr, j).subscribed && At(tr, j).subscribed[token] == At(tr, i).subscribed[token]
    decreases j
  {
    hide Permitted, Step, Sound, EndsListening;
    if i < j {
      SubscriptionStays(tr, i, j - 1, token);
      StepAt(tr, j - 1);
      IssuedStays(tr, i, j - 1, token);
      StepKeepsListeners(At(tr, j - 1), tr[j - 1], token);
    }
  }

  lemma {:induction false} WatchStays(tr: seq<Event>, i: nat, j: nat, token: Token)
    requires Lawful(tr) && i <= j <= |tr| && token in At(tr, i).issued && token in At(tr, i).watched
    requires Unended(tr, i, j, token, At(tr, i).watched[token])
    ensures token in At(tr, j).watched && At(tr, j).watched[token] == At(tr, i).watched[token]
    decreases j
  {
    hide Permitted, Step, Sound, EndsListening;
    if i < j {
      WatchStays(tr, i, j - 1, token);
      StepAt(tr, j - 1);
      IssuedStays(tr, i, j - 1, token);
      StepKeepsListeners(At(tr, j - 1), tr[j - 1], token);
    }
  }

  /** A registration that ended never comes back. */
  lemma {:induction false} ListeningEnded(tr: seq<Event>, i: nat, j: nat, token: Token)
    requires Lawful(tr) && i <= j <= |tr| && token in At(tr, i).issued
    ensures token !in At(tr, i).subscribed ==> token !in At(tr, j).subscribed
    ensures token !in At(tr, i).watched ==> token !in At(tr, j).watched
    decreases j
  {
    hide Permitted, Step, Sound, EndsListening;
    if i < j {
      ListeningEnded(tr, i, j - 1, token);
      StepAt(tr, j - 1);
      IssuedStays(tr, i, j - 1, token);
      StepKeepsListeners(At(tr, j - 1), tr[j - 1], token);
    }
  }

  /** Whatever the engine does: a subscription or watch stays as it is unless its owner gives it up, its
      owner is cleaned up, or shutdown drops it; unloading one instance leaves those of all others. */
  ghost predicate ListenersKept(s: State, t: State) {
    && s.trace <= t.trace
    && (forall k | k in s.subscriptions && Unended(t.trace, |s.trace|, |t.trace|, k, s.subscriptions[k].owner) ::
          k in t.subscriptions && t.subscriptions[k] == s.subscriptions[k])
    && (forall k | k in s.watches && Unended(t.trace, |s.trace|, |t.trace|, k, s.watches[k]) ::
          k in t.watches && t.watches[k] == s.watches[k])
    && (forall k | k in s.ledger.issued ::
          && (k in t.subscriptions ==> k in s.subscriptions) && (k in t.watches ==> k in s.watches))
  }

  lemma RunKeepsListeners(s: State, t: State)
    requires Core(s) && Core(t) && s.trace <= t.trace
    ensures ListenersKept(s, t)
  {
    hide Sound, RecordsOk, LeasesOk, NoticesOk, DeferredOk, OrderOk, Permitted, Step, Unended;
    var tr, n := t.trace, |s.trace|;
    assert tr[..n] == s.trace && tr[..|tr|] == tr;
    assert At(tr, n) == s.ledger && At(tr, |tr|) == t.ledger;
    WatchesIssued(s);
    forall k | k in s.subscriptions && Unended(tr, n, |tr|, k, s.subscriptions[k].owner)
      ensures k in t.subscriptions && t.subscriptions[k] == s.subscriptions[k]
    {
      SubscriptionStays(tr, n, |tr|, k);
    }
    forall k | k in s.watches && Unended(tr, n, |tr|, k, s.watches[k])
      ensures k in t.watches && t.watches[k] == s.watches[k]
    {
      WatchStays(tr, n, |tr|, k);
    }
    forall k | k in s.ledger.issued
      ensures (k in t.subscriptions ==> k in s.subscriptions) && (k in t.watches ==> k in s.watches)
    {
      ListeningEnded(tr, n, |tr|, k);
    }
  }

  lemma SweepKeepsListeners(s: State, t: State, touched: set<Bytes>)
    requires Core(s) && Core(t) && Swept(s, t, touched)
    ensures ListenersKept(s, t)
  {
    hide Core, ListenersKept;
    RunKeepsListeners(s, t);
  }

  lemma WatchesIssued(s: State)
    requires Core(s)
    ensures forall k | k in s.watches :: k in s.ledger.issued
  {
    hide RecordsOk, LeasesOk, NoticesOk, DeferredOk, OrderOk, FramesSound, LeasesSound, ServiceSound;
  }

  /** An instance that was ever handed to its plugin's init() has nothing registered when it is destroyed. */
  lemma DestroyedListensNoMore(tr: seq<Event>, k: nat, g: Gen)
    requires Lawful(tr) && k < |tr| && tr[k] == Entered(PluginFrame(g, Destroy)) && g in At(tr, k).lives
    requires At(tr, k).lives[g].stage != Refused
    ensures NotListening(At(tr, k), g) && NotBorrowing(At(tr, k), g) && NotBorrowed(At(tr, k), g)
  {
    hide Step, Sound, NotListening, NotBorrowing, NotBorrowed;
    StepAt(tr, k);
  }

  /** Handing out a token, for whatever purpose. */
  predicate Issues(e: Event, t: Token) {
    (e.Leased? && e.credential == t) || (e.TokenSpent? && e.token == t) || (e.Subscribed? && e.token == t) || (e.Watched? && e.token == t)
  }

  lemma StepKeepsIssued(l: Ledger, e: Event, t: Token)
    requires Permitted(l, e)
    ensures t in l.issued ==> t in Step(l, e).issued && !Issues(e, t)
    ensures Issues(e, t) ==> t in Step(l, e).issued
    ensures t in l.issued && t !in l.outstanding ==> t !in Step(l, e).outstanding
  {
    hide EntryRule, Legal, Serving, MayBorrow, MayCall, Departed, Notified, Deeds;
  }

  lemma {:induction false} IssuedStays(tr: seq<Event>, i: nat, j: nat, t: Token)
    requires Lawful(tr) && i <= j <= |tr| && t in At(tr, i).issued
    ensures t in At(tr, j).issued
    ensures t !in At(tr, i).outstanding ==> t !in At(tr, j).outstanding
    decreases j - i
  {
    hide Permitted, Step, Sound;
    if i < j {
      IssuedStays(tr, i, j - 1, t);
      StepAt(tr, j - 1);
      StepKeepsIssued(At(tr, j - 1), tr[j - 1], t);
    }
  }

  /** Leases, watches and subscriptions share one sequence of tokens, and no token is handed out twice. */
  lemma TokensNeverRepeat(tr: seq<Event>, i: nat, j: nat, t: Token)
    requires Lawful(tr) && i < j < |tr| && Issues(tr[i], t)
    ensures !Issues(tr[j], t)
  {
    hide Permitted, Step, Sound;
    StepAt(tr, i);
    StepKeepsIssued(At(tr, i), tr[i], t);
    IssuedStays(tr, i + 1, j, t);
    StepAt(tr, j);
    StepKeepsIssued(At(tr, j), tr[j], t);
  }

  /** Tokens that were handed out stay so as the run goes on; once all 64-bit values were, none ever is again. */
  lemma ExhaustionIsFinal(s: State, t: State)
    requires Core(s) && Core(t) && s.trace <= t.trace && s.nextToken == 0
    ensures t.nextToken == 0
    ensures forall k, token: Token | |s.trace| <= k < |t.trace| :: !Issues(t.trace[k], token)
  {
    hide Permitted, Step, Sound, RecordsOk, LeasesOk, NoticesOk, DeferredOk, OrderOk;
    var tr := t.trace;
    assert tr[..|s.trace|] == s.trace && tr[..|tr|] == tr;
    forall token | token in s.ledger.issued ensures token in t.ledger.issued {
      IssuedStays(tr, |s.trace|, |tr|, token);
    }
    assert t.nextToken != 0 ==> Spent(t.nextToken, s.nextToken);
    forall k, token: Token | |s.trace| <= k < |tr| ensures !Issues(tr[k], token) {
      if Issues(tr[k], token) {
        StepAt(tr, k);
        StepKeepsIssued(At(tr, k), tr[k], token);
        IssuedStays(tr, k + 1, |tr|, token);
        assert Spent(token, 0);
        IssuedStays(tr, |s.trace|, k, token);
      }
    }
  }

  /** Whoever gets as far as needing a token is then told that the limit is exceeded, and nothing else can
      make an acquire, a watch or a subscription succeed. */
  lemma ExhaustedAnswers(s: State, self: Owner, id: Bytes, allowed: VersionRange, receiver: bool, name: Bytes)
    requires s.nextToken == 0
    ensures AcquireVerdict(s, self, id, allowed, receiver) != Ok
    ensures WatchVerdict(s, self) == if s.shutting || !MayGrow(s, self) then InvalidState else LimitExceeded
    ensures SubscribeVerdict(s, self, name)
         == if name == [] then InvalidArgument else if s.shutting || !MayGrow(s, self) then InvalidState else LimitExceeded
    ensures AcquireVerdict(s.(nextToken := 1), self, id, allowed, receiver) == Ok ==>
              AcquireVerdict(s, self, id, allowed, receiver) == LimitExceeded
  {
  }

  /** A credential once ended stays ended: no reload and no later lease brings it back. */
  lemma NeverRevived(tr: seq<Event>, i: nat, j: nat, k: nat, c: Token, info: LeaseInfo)
    requires Lawful(tr) && i < j < k <= |tr| && tr[i] == Leased(c, info) && Ends(tr[j], c, info)
    ensures c !in At(tr, k).outstanding
  {
    hide Permitted, Step, Sound;
    StepAt(tr, i);
    LeasedIsOutstanding(At(tr, i), c, info);
    StepKeepsIssued(At(tr, i), tr[i], c);
    IssuedStays(tr, i + 1, j, c);
    StepAt(tr, j);
    StepKeepsIssued(At(tr, j), tr[j], c);
    if c in At(tr, j).outstanding {
      var m := TakenBefore(tr, j, c);
      if m < i { TokensNeverRepeat(tr, m, i, c); }
      if i < m { TokensNeverRepeat(tr, i, m, c); }
    }
    EndedIsGone(At(tr, j), tr[j], c, info);
    IssuedStays(tr, j + 1, k, c);
  }

  lemma EndedIsGone(l: Ledger, e: Event, c: Token, info: LeaseInfo)
    requires Permitted(l, e) && Ends(e, c, info) && (c in l.outstanding ==> l.outstanding[c] == info)
    ensures c !in Step(l, e).outstanding
  {
  }

  /** Nothing is leased from an instance that is gone. */
  lemma GoneLendsNothing(tr: seq<Event>, k: nat, c: Token, g: Gen)
    requires Lawful(tr) && k <= |tr| && g in At(tr, k).lives && At(tr, k).lives[g].stage != Running
    ensures c in At(tr, k).outstanding ==> At(tr, k).outstanding[c].gen != g
  {
    hide FramesSound, ServiceSound, DeliverySound;
    PrefixLawful(tr, k);
    LawfulIsSound(tr[..k]);
    if c in At(tr, k).outstanding { assert Pinned(At(tr, k), At(tr, k).outstanding[c]); }
  }

  /** Whoever uses an ended credential, for a release or a well-formed call, is told it is stale. */
  lemma EndedIsStale(s: State, self: Owner, c: Token, wanted: Selector, size: nat, limit: nat)
    requires Core(s) && 0 < c && c !in s.ledger.outstanding
    ensures ReleaseVerdict(s, self, c) == Stale
    ensures (wanted.ByName? ==> CheckKey(wanted.name) == Ok) ==> CallVerdict(s, self, c, wanted, size, limit) == Stale
  {
    hide RecordsOk, TokensOk, NoticesOk, DeferredOk, OrderOk, Sound;
  }

  /** In every reachable state a lease joins a registered, live provider of the pinned generation and
      version to the host or to a registered instance, and counts the calls open on it. */
  lemma LeasesPinned(s: State, c: Token)
    requires Core(s) && c in s.leases
    ensures var info := s.leases[c].info;
            && info.provider in s.records && s.records[info.provider].gen == info.gen
            && s.records[info.provider].live && s.records[info.provider].version == info.version
            && Registered(s, info.consumer)
            && s.leases[c].activeCalls == s.ledger.inflight[c]
  {
    hide Core;
    var info := s.leases[c].info;
    LeaseFacts(s, c);
    Accounted(s, info.gen);
    RecordFacts(s, info.provider);
    if info.consumer.Plugin? { Accounted(s, info.consumer.gen); }
  }

  /** The engine's depth is the number of open scopes, and no instance is in more than one. */
  lemma DepthsCount(s: State, id: Bytes)
    requires Core(s)
    ensures s.depth == |s.ledger.stack|
    ensures id in s.records ==> s.records[id].depth <= 1
    ensures id in s.records ==>
              (s.records[id].depth == 1 <==> exists i | 0 <= i < |s.ledger.stack| ::
                 s.ledger.stack[i].PluginFrame? && s.ledger.stack[i].gen == s.records[id].gen)
  {
    hide LeasesOk, TokensOk, NoticesOk, DeferredOk, OrderOk;
    if id in s.records {
      RecordFacts(s, id);
      var g := s.records[id].gen;
      if s.ledger.lives[g].Inside? {
        var f := PluginFrame(g, s.ledger.lives[g].entry);
        assert f in s.ledger.stack;
        var i :| 0 <= i < |s.ledger.stack| && s.ledger.stack[i] == f;
      }
      if i :| 0 <= i < |s.ledger.stack| && s.ledger.stack[i].PluginFrame? && s.ledger.stack[i].gen == g {
        assert OpenFrame(s.ledger.lives, s.ledger.stack[i]);
      }
    }
  }

  // ---- notices --------------------------------------------------------------------------------------

  lemma StepKeepsDelivered(l: Ledger, e: Event, n: (Token, Gen, bool))
    requires Permitted(l, e) && n in l.delivered
    ensures n in Step(l, e).delivered
  {
    hide EntryRule, Legal, Serving, MayBorrow, MayCall, Departed, Notified, Deeds;
  }

  lemma {:induction false} DeliveredStays(tr: seq<Event>, i: nat, j: nat, n: (Token, Gen, bool))
    requires Lawful(tr) && i <= j <= |tr| && n in At(tr, i).delivered
    ensures n in At(tr, j).delivered
    decreases j - i
  {
    hide Permitted, Step, Sound;
    if i < j {
      DeliveredStays(tr, i, j - 1, n);
      StepAt(tr, j - 1);
      StepKeepsDelivered(At(tr, j - 1), tr[j - 1], n);
    }
  }

  /** Per watch and provider instance: at most one "available", then at most one "withdrawn". */
  lemma AvailableThenWithdrawn(tr: seq<Event>, i: nat, j: nat, a: Gen, b: Gen, first: Entry, second: Entry)
    requires Lawful(tr) && i < j < |tr| && first.OnCapability? && second.OnCapability?
    requires tr[i] == Entered(PluginFrame(a, first)) && tr[j] == Entered(PluginFrame(b, second))
    requires first.watch == second.watch && first.provider == second.provider
    ensures first.available && !second.available && first.version == second.version
  {
    hide Step, Sound, FramesSound, Legal;
    StepAt(tr, i);
    var n := (first.watch, first.provider, first.available);
    EnteredIsDelivered(At(tr, i), a, first);
    DeliveredStays(tr, i + 1, j, n);
    StepAt(tr, j);
    BirthsStay(tr, i, j, first.provider);
  }

  lemma EnteredIsDelivered(l: Ledger, g: Gen, entry: Entry)
    requires Permitted(l, Entered(PluginFrame(g, entry))) && entry.OnCapability?
    ensures (entry.watch, entry.provider, entry.available) in Step(l, Entered(PluginFrame(g, entry))).delivered
  {
  }

  lemma StepKeepsBirth(l: Ledger, e: Event, g: Gen)
    requires Permitted(l, e) && g in l.births
    ensures g in Step(l, e).births && Step(l, e).births[g] == l.births[g]
  {
    hide EntryRule, Legal, Serving, MayBorrow, MayCall, Departed, Notified, Deeds;
  }

  lemma {:induction false} BirthsStay(tr: seq<Event>, i: nat, j: nat, g: Gen)
    requires Lawful(tr) && i <= j <= |tr| && g in At(tr, i).births
    ensures g in At(tr, j).births && At(tr, j).births[g] == At(tr, i).births[g]
    decreases j - i
  {
    hide Permitted, Step, Sound;
    if i < j {
      BirthsStay(tr, i, j - 1, g);
      StepAt(tr, j - 1);
      StepKeepsBirth(At(tr, j - 1), tr[j - 1], g);
    }
  }

  /** A delivered notice tells the truth: the version of that instance, and, if it says available, an
      instance in service at that moment. */
  lemma NoticesAreTrue(tr: seq<Event>, k: nat, g: Gen, entry: Entry)
    requires Lawful(tr) && k < |tr| && entry.OnCapability? && tr[k] == Entered(PluginFrame(g, entry))
    ensures entry.provider in At(tr, k).births && At(tr, k).births[entry.provider].version == entry.version
    ensures entry.available ==> Serving(At(tr, k), entry.provider)
    ensures !entry.available ==> entry.provider in At(tr, k).everPublished && entry.provider !in At(tr, k).published
    ensures At(tr, k).stack == []
  {
    hide Step, Sound;
    StepAt(tr, k);
  }
}
