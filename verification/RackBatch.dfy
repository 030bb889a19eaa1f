/** What a start batch may change, and the record it leaves: the plan, the calls made, the order. */
module RackBatch {
  import opened Base
  import opened RackProtocol
  import opened RackState
  import opened RackSteps
  import opened RackVerdicts
  import opened RackMoves
  import opened PlanRules
  import opened Planner

  /** Everything outside `touched` stays as it was, whatever the batch flags did meanwhile. */
  ghost predicate Batch(s: State, t: State, touched: set<Bytes>) {
    && s.trace <= t.trace && t.nextGen == s.nextGen && t.depth == s.depth && t.retiring == s.retiring
    && t.shutting == s.shutting && t.draining == s.draining
    && t.records.Keys <= s.records.Keys
    && (forall id | id in t.records :: t.records[id].gen == s.records[id].gen)
    && (forall id | id in s.records && id !in touched :: Untouched(s, t, id))
    && t.ledger.births == s.ledger.births && t.ledger.stack == s.ledger.stack && t.ledger.inflight == s.ledger.inflight
  }

  lemma SweptIsBatch(s: State, t: State, touched: set<Bytes>)
    requires Swept(s, t, touched) && (s.starting || s.shutting)
    ensures Batch(s, t, touched) && t.starting == s.starting && t.initializing == s.initializing
  {
  }

  lemma BatchOnward(s: State, t: State, u: State, touched: set<Bytes>, more: set<Bytes>)
    requires Batch(s, t, touched) && Batch(t, u, more) && more <= touched
    ensures Batch(s, u, touched)
  {
    forall id | id in s.records && id !in touched ensures Untouched(s, u, id) {
      assert Untouched(s, t, id) && Untouched(t, u, id);
    }
  }

  lemma BatchFacts(s: State, t: State, touched: set<Bytes>)
    requires Batch(s, t, touched)
    ensures s.trace <= t.trace && t.records.Keys <= s.records.Keys && t.depth == s.depth && t.shutting == s.shutting
    ensures t.ledger.inflight == s.ledger.inflight && t.retiring == s.retiring
    ensures forall id | id in t.records :: id in s.records && t.records[id].gen == s.records[id].gen
  {
  }

  /** The batch flags are nobody's but the host's. */
  lemma FlagsKeepCore(s: State, starting: bool, initializing: bool)
    requires Core(s)
    ensures Core(s.(starting := starting, initializing := initializing))
    ensures Batch(s, s.(starting := starting, initializing := initializing), {})
  {
    hide LeasesOk, TokensOk, NoticesOk, DeferredOk, OrderOk, Sound;
    forall id | id in s.records ensures Untouched(s, s.(starting := starting, initializing := initializing), id) { }
  }

  // ---- the plan of a batch ------------------------------------------------------------------------

  /** The staged instances a batch takes up. */
  ghost function PendingNodes(s: State): set<OrderNode> {
    set id | id in s.records && s.records[id].phase == Created :: s.records[id].node
  }

  ghost function PendingIds(s: State): set<Bytes> {
    set id | id in s.records && s.records[id].phase == Created
  }

  /** What counts as started before the batch: `after` may name it, `before` may not. */
  ghost function EstablishedIds(s: State): set<Bytes> {
    set id | id in s.records && (Receives(s.records[id].phase) || s.records[id].phase == Starting)
  }

  /** The constraints of the staged instances can be met. */
  ghost predicate Plannable(s: State) {
    Sensible(PendingNodes(s), EstablishedIds(s)) && Acyclic(PendingNodes(s))
  }

  ghost predicate Staged(s: State, id: Bytes) {
    id in s.records && s.records[id].phase == Created
  }

  ghost predicate StartedBefore(s: State, id: Bytes) {
    id in s.records && (s.records[id].phase == Initialized || s.records[id].phase == Starting || s.records[id].phase == Active)
  }

  /** `id` must come before `other`, whichever of the two says so. */
  ghost predicate Constrains(s: State, id: Bytes, other: Bytes) {
    && Staged(s, id) && Staged(s, other)
    && (other in s.records[id].node.before || id in s.records[other].node.after)
  }

  /** Staged instances each of which must come before the next, and the last is the first. */
  ghost predicate Circle(s: State, p: seq<Bytes>) {
    && |p| > 1 && p[0] == p[|p| - 1]
    && forall i | 0 <= i < |p| - 1 :: Constrains(s, p[i], p[i + 1])
  }

  /** A batch can be planned exactly if `before` names other staged instances, `after` other staged or
      started ones, and no circle results. */
  lemma PlannableMeans(s: State)
    requires Core(s)
    ensures Plannable(s) <==>
      && (forall id, x | Staged(s, id) && x in s.records[id].node.before :: x != id && Staged(s, x))
      && (forall id, x | Staged(s, id) && x in s.records[id].node.after :: x != id && (Staged(s, x) || StartedBefore(s, x)))
      && (forall p :: !Circle(s, p))
  {
    hide Core;
    forall id | id in s.records ensures id != [] && s.records[id].node.id == id { RecordFacts(s, id); }
    ConstraintsMean(s);
    hide Sensible, Circle, PlanRules.Cycle;
    if !Acyclic(PendingNodes(s)) {
      var p :| PlanRules.Cycle(PendingNodes(s), p);
      CycleIsCircle(s, p);
    }
    if p :| Circle(s, p) { CircleIsCycle(s, p); }
  }

  lemma CycleIsCircle(s: State, p: seq<OrderNode>)
    requires PlanRules.Cycle(PendingNodes(s), p) && forall id | id in s.records :: s.records[id].node.id == id
    ensures Circle(s, IdsOf(p))
  {
    forall i | 0 <= i < |p| ensures Staged(s, p[i].id) && s.records[p[i].id].node == p[i] {
      assert p[i] in PendingNodes(s);
    }
    hide Staged;
    forall i | 0 <= i < |p| - 1 ensures Constrains(s, IdsOf(p)[i], IdsOf(p)[i + 1]) {
      assert Edge(p[i + 1 - 1], p[i + 1]);
    }
  }

  lemma CircleIsCycle(s: State, p: seq<Bytes>)
    requires Circle(s, p) && forall id | id in s.records :: s.records[id].node.id == id
    ensures !Acyclic(PendingNodes(s))
  {
    forall i | 0 <= i < |p| ensures Staged(s, p[i]) {
      if i < |p| - 1 { assert Constrains(s, p[i], p[i + 1]); } else { assert Constrains(s, p[0], p[1]); }
    }
    var q := seq(|p|, k requires 0 <= k < |p| => s.records[p[k]].node);
    forall i | 0 < i < |q| ensures Edge(q[i - 1], q[i]) { assert Constrains(s, p[i - 1], p[i - 1 + 1]); }
    assert PlanRules.Cycle(PendingNodes(s), q);
  }

  lemma ConstraintsMean(s: State)
    requires forall id | id in s.records :: id != [] && s.records[id].node.id == id
    ensures Sensible(PendingNodes(s), EstablishedIds(s)) <==>
      && (forall id, x | Staged(s, id) && x in s.records[id].node.before :: x != id && Staged(s, x))
      && (forall id, x | Staged(s, id) && x in s.records[id].node.after :: x != id && (Staged(s, x) || StartedBefore(s, x)))
  {
    var nodes, settled := PendingNodes(s), EstablishedIds(s);
    forall id ensures Known(nodes, id) <==> Staged(s, id) {
      if Staged(s, id) { assert s.records[id].node in nodes; }
    }
    hide Known;
    assert forall id | Staged(s, id) :: s.records[id].node in nodes && id !in settled;
  }

  function IdsOf(plan: seq<OrderNode>): (ids: seq<Bytes>)
    ensures |ids| == |plan| && forall k | 0 <= k < |plan| :: ids[k] == plan[k].id
  {
    seq(|plan|, k requires 0 <= k < |plan| => plan[k].id)
  }

  /** The same lifecycle call on each of these identities, in this order. */
  ghost function DeedsFor(s: State, ids: seq<Bytes>, entry: Entry): (deeds: seq<Deed>)
    ensures |deeds| == |ids|
    ensures forall k | 0 <= k < |ids| && ids[k] in s.records :: deeds[k] == Deed(s.records[ids[k]].gen, entry)
  {
    if ids == [] then []
    else
      var last := ids[|ids| - 1];
      DeedsFor(s, ids[..|ids| - 1], entry) + [Deed(if last in s.records then s.records[last].gen else 0, entry)]
  }

  lemma DeedsGrow(s: State, ids: seq<Bytes>, k: nat, entry: Entry)
    requires k < |ids| && ids[k] in s.records
    ensures DeedsFor(s, ids[..k + 1], entry) == DeedsFor(s, ids[..k], entry) + [Deed(s.records[ids[k]].gen, entry)]
  {
    assert ids[..k + 1][..k] == ids[..k];
  }

  /** A batch that succeeded: one plan, every init before every start, everything running and published. */
  ghost predicate TwoPhase(s: State, t: State, plan: seq<OrderNode>) {
    && IsPlan(PendingNodes(s), plan) && InPlanOrder(plan)
    && t.records.Keys == s.records.Keys
    && (forall id | id in PendingIds(s) ::
          id in t.records && t.records[id].gen == s.records[id].gen && t.records[id].phase == Active && t.records[id].published)
    && t.initOrder == s.initOrder + IdsOf(plan)
    && t.ledger.history == s.ledger.history + DeedsFor(s, IdsOf(plan), Init) + DeedsFor(s, IdsOf(plan), Entry.Start)
  }

  /** Unless something a teardown depends on failed meanwhile, none of these identities is left. */
  ghost predicate Cleaned(s: State, t: State, ids: set<Bytes>) {
    Smooth(t.trace, |s.trace|) ==> forall id | id in ids :: id !in t.records
  }

  lemma CleanedOnward(s: State, t: State, u: State, v: State, ids: set<Bytes>)
    requires Cleaned(t, u, ids) && s.trace <= t.trace <= u.trace && v.trace == u.trace && v.records == u.records
    ensures Cleaned(s, v, ids)
  {
    if !Smooth(u.trace, |t.trace|) { RoughStays(u.trace, |t.trace|, v.trace, |s.trace|); }
  }

  /** Lifecycle calls were added, all to one instance. */
  predicate OwnDeeds(before: seq<Deed>, after: seq<Deed>, g: Gen) {
    before <= after && forall a | |before| <= a < |after| :: after[a].gen == g
  }

  ghost predicate DoneTo(s: State, id: Bytes, d: Deed) {
    id in s.records && s.records[id].gen == d.gen
  }

  /** The lifecycle calls since `before` went to the batch members from `k` on, last member first. */
  ghost predicate Backwards(s: State, before: seq<Deed>, after: seq<Deed>, order: seq<Bytes>, k: nat) {
    && before <= after && k <= |order|
    && (forall a | |before| <= a < |after| :: exists j | k <= j < |order| :: DoneTo(s, order[j], after[a]))
    && (forall a, b, i, j | |before| <= a < b < |after| && 0 <= i < |order| && 0 <= j < |order|
          && DoneTo(s, order[i], after[a]) && DoneTo(s, order[j], after[b]) :: i >= j)
  }

  lemma BackwardsNone(s: State, before: seq<Deed>, order: seq<Bytes>)
    ensures Backwards(s, before, before, order, |order|)
  {
  }

  lemma BackwardsStep(s: State, before: seq<Deed>, middle: seq<Deed>, after: seq<Deed>, order: seq<Bytes>, k: nat)
    requires Core(s) && k < |order| && Backwards(s, before, middle, order, k + 1)
    requires order[k] in s.records ==> OwnDeeds(middle, after, s.records[order[k]].gen)
    requires order[k] !in s.records ==> after == middle
    requires forall i, j | 0 <= i < j < |order| :: order[i] != order[j]
    ensures Backwards(s, before, after, order, k)
  {
    hide Core;
    forall i, j, d | 0 <= i < |order| && 0 <= j < |order| && DoneTo(s, order[i], d) && DoneTo(s, order[j], d) ensures i == j {
      RecordFacts(s, order[i]);
      RecordFacts(s, order[j]);
    }
    forall a | |before| <= a < |after| ensures exists j | k <= j < |order| :: DoneTo(s, order[j], after[a]) {
      if a < |middle| {
        assert after[a] == middle[a];
        var j :| k + 1 <= j < |order| && DoneTo(s, order[j], middle[a]);
        assert DoneTo(s, order[j], after[a]);
      } else {
        assert DoneTo(s, order[k], after[a]);
      }
    }
    forall a, b, i, j | |before| <= a < b < |after| && 0 <= i < |order| && 0 <= j < |order|
      && DoneTo(s, order[i], after[a]) && DoneTo(s, order[j], after[b])
      ensures i >= j
    {
      if b < |middle| {
        assert after[a] == middle[a] && after[b] == middle[b];
      } else {
        assert DoneTo(s, order[k], after[b]);
        assert exists m | k <= m < |order| :: DoneTo(s, order[m], after[a]);
      }
    }
  }

  /** Gone, or pinned with its resources. */
  predicate GoneOrPinned(records: map<Bytes, Record>, id: Bytes) {
    id in records ==> records[id].phase == Revoking || records[id].phase == Faulted
  }

  // ---- one member of the batch --------------------------------------------------------------------

  /** A successful init() takes the record to Initialized and into the order. */
  lemma ReadiedSweeps(s: State, t: State, id: Bytes, deeds: seq<Deed>)
    requires Orderly(s) && s.starting && Apart(s, t, id, deeds) && id in t.records && t.records[id].live
    requires t.records[id].gen in t.ledger.lives && t.ledger.lives[t.records[id].gen] == Idle(Ready)
    requires id !in t.retiring
    ensures Swept(s, Readied(t, id), {id}) && Orderly(Readied(t, id))
  {
    var u := Readied(t, id);
    forall k | k in s.records && k != id ensures Untouched(s, u, k) { assert Untouched(s, t, k); }
    forall k | k in u.records
      ensures u.records[k].gen in u.ledger.lives
              && Settled(u.records[k], u.ledger.lives[u.records[k].gen], u.starting, k in u.retiring)
    {
      if k != id { assert Untouched(s, u, k); }
    }
  }

  lemma ReadyIsUnpublished(s: State, id: Bytes)
    requires Core(s) && s.depth == 0 && id in s.records && s.records[id].phase == Initialized
    ensures s.records[id].gen in s.ledger.lives && s.ledger.lives[s.records[id].gen] == Idle(Ready)
    ensures s.records[id].gen !in s.ledger.everPublished && !s.records[id].published && s.records[id].live
    ensures s.records[id].gen !in s.ledger.retiring
  {
    hide RecordsOk, LeasesOk, TokensOk, NoticesOk, DeferredOk, OrderOk;
    AtRest(s, id);
  }

  lemma CreatedIsMade(s: State, id: Bytes)
    requires Core(s) && s.depth == 0 && Orderly(s) && id in s.records && s.records[id].phase == Created
    ensures s.records[id].gen in s.ledger.lives && s.ledger.lives[s.records[id].gen] == Idle(Made)
    ensures !s.records[id].published && s.records[id].live && s.records[id].gen !in s.ledger.retiring
    ensures id !in s.retiring && id !in s.initOrder
  {
    hide LeasesOk, TokensOk, NoticesOk, DeferredOk, Sound;
    AtRest(s, id);
  }

  // ---- the batch step by step -------------------------------------------------------------------

  /** Phase one up to `k`: the members before it are initialized, the others still staged. */
  ghost predicate Initing(s: State, t: State, order: seq<Bytes>, k: nat) {
    && k <= |order| && t.starting && t.initializing && t.records.Keys == s.records.Keys
    && (forall j | 0 <= j < |order| :: order[j] in s.records && order[j] in t.records)
    && (forall j | 0 <= j < k :: t.records[order[j]].phase == Initialized)
    && (forall j | k <= j < |order| :: t.records[order[j]].phase == Created)
    && t.initOrder == s.initOrder + order[..k]
    && t.ledger.history == s.ledger.history + DeedsFor(s, order[..k], Init)
  }

  lemma InitStep(s: State, t: State, u: State, order: seq<Bytes>, k: nat)
    requires Initing(s, t, order, k) && k < |order| && Batch(t, u, {order[k]}) && Batch(s, t, Elements(order))
    requires forall i, j | 0 <= i < j < |order| :: order[i] != order[j]
    requires u.starting && u.initializing && u.records.Keys == t.records.Keys && order[k] in u.records
    requires u.records[order[k]].phase == Initialized && u.initOrder == t.initOrder + [order[k]]
    requires u.ledger.history == t.ledger.history + [Deed(t.records[order[k]].gen, Init)]
    ensures Initing(s, u, order, k + 1)
  {
    hide Batch;
    assert order[..k + 1] == order[..k] + [order[k]];
    DeedsGrow(s, order, k, Init);
    BatchFacts(s, t, Elements(order));
    forall j | 0 <= j < |order| && j != k ensures u.records[order[j]].phase == t.records[order[j]].phase {
      BatchOther(t, u, order[k], order[j]);
    }
  }

  lemma BatchOther(t: State, u: State, id: Bytes, other: Bytes)
    requires Batch(t, u, {id}) && other != id && other in t.records
    ensures other in u.records && SameButAnnounced(t.records[other], u.records[other])
  {
    assert Untouched(t, u, other);
  }

  /** Phase two up to `k`: the members before it run and are published, the others are initialized. */
  ghost predicate Launching(s: State, t: State, order: seq<Bytes>, k: nat) {
    && k <= |order| && t.starting && !t.initializing && t.records.Keys == s.records.Keys
    && (forall j | 0 <= j < |order| :: order[j] in s.records && order[j] in t.records)
    && (forall j | 0 <= j < k :: t.records[order[j]].phase == Active && t.records[order[j]].published)
    && (forall j | k <= j < |order| :: t.records[order[j]].phase == Initialized)
    && t.initOrder == s.initOrder
    && t.ledger.history == s.ledger.history + DeedsFor(s, order[..k], Entry.Start)
  }

  lemma LaunchStep(s: State, t: State, u: State, order: seq<Bytes>, k: nat)
    requires Launching(s, t, order, k) && k < |order| && Batch(t, u, {order[k]}) && Batch(s, t, Elements(order))
    requires forall i, j | 0 <= i < j < |order| :: order[i] != order[j]
    requires u.starting && !u.initializing && u.records.Keys == t.records.Keys && order[k] in u.records
    requires u.records[order[k]].phase == Active && u.records[order[k]].published && u.initOrder == t.initOrder
    requires u.ledger.history == t.ledger.history + [Deed(t.records[order[k]].gen, Entry.Start)]
    ensures Launching(s, u, order, k + 1)
  {
    hide Batch;
    assert order[..k + 1] == order[..k] + [order[k]];
    DeedsGrow(s, order, k, Entry.Start);
    BatchFacts(s, t, Elements(order));
    forall j | 0 <= j < |order| && j != k
      ensures u.records[order[j]].phase == t.records[order[j]].phase && u.records[order[j]].published == t.records[order[j]].published
    {
      BatchOther(t, u, order[k], order[j]);
    }
  }

  /** Two records of the same batch agree on generations, so the deeds they name agree. */
  lemma DeedsSame(s: State, t: State, ids: seq<Bytes>, entry: Entry)
    requires forall k | 0 <= k < |ids| ::
               (ids[k] in s.records <==> ids[k] in t.records)
               && (ids[k] in s.records && ids[k] in t.records ==> s.records[ids[k]].gen == t.records[ids[k]].gen)
    ensures DeedsFor(s, ids, entry) == DeedsFor(t, ids, entry)
  {
  }
}
