/** Shutting down: the order of teardown, and the record it leaves. */
module RackDown {
  import opened Base
  import opened Ordering
  import opened RackProtocol
  import opened RackState
  import opened RackSteps
  import opened RackMoves
  import opened RackBatch
  import opened Planner

  function Reversed<T>(s: seq<T>): (r: seq<T>)
    ensures |r| == |s| && forall k | 0 <= k < |s| :: r[k] == s[|s| - 1 - k]
  {
    seq(|s|, k requires 0 <= k < |s| => s[|s| - 1 - k])
  }

  /** Reverse initialization order, then what was never initialized, in registry order. */
  function TeardownOrder(initOrder: seq<Bytes>, ids: set<Bytes>): seq<Bytes> {
    Reversed(initOrder) + Ascending(ids - Elements(initOrder))
  }

  lemma TeardownParts(initOrder: seq<Bytes>, ids: set<Bytes>)
    ensures TeardownOrder(initOrder, ids) == Reversed(initOrder)[..|initOrder|] + Ascending(ids - Elements(initOrder))
  {
    hide Ascending;
  }

  /** Every registered instance is in the teardown order exactly once. */
  lemma TeardownCovers(s: State)
    requires Core(s)
    ensures Elements(TeardownOrder(s.initOrder, s.records.Keys)) == s.records.Keys
    ensures forall i, j | 0 <= i < j < |TeardownOrder(s.initOrder, s.records.Keys)| ::
              TeardownOrder(s.initOrder, s.records.Keys)[i] != TeardownOrder(s.initOrder, s.records.Keys)[j]
  {
    hide RecordsOk, LeasesOk, TokensOk, NoticesOk, DeferredOk, Sound, Ascending;
    var back, rest := Reversed(s.initOrder), Ascending(s.records.Keys - Elements(s.initOrder));
    var all := back + rest;
    forall id | id in s.records ensures id in all {
      if id in s.initOrder {
        var k :| 0 <= k < |s.initOrder| && s.initOrder[k] == id;
        assert back[|back| - 1 - k] == id;
      }
    }
    forall k | 0 <= k < |back| ensures back[k] in s.initOrder { }
    forall k | 0 <= k < |rest| ensures rest[k] in s.records && rest[k] !in s.initOrder { assert rest[k] in rest; }
  }

  /** A stretch in which no instance changed phase or life and no lifecycle call was made. */
  ghost predicate Steady(s: State, t: State) {
    && SameFlags(s, t) && Still(s, t) && s.trace <= t.trace
    && t.records.Keys == s.records.Keys && t.ledger.lives == s.ledger.lives && t.ledger.inflight == s.ledger.inflight
    && (forall id | id in s.records :: t.records[id].gen == s.records[id].gen && t.records[id].phase == s.records[id].phase)
  }

  lemma CalmIsSteady(s: State, t: State)
    requires Calm(s, t)
    ensures Steady(s, t)
  {
    forall id | id in s.records ensures t.records[id].gen == s.records[id].gen && t.records[id].phase == s.records[id].phase {
      assert SameButAnnounced(s.records[id], t.records[id]);
    }
  }

  lemma SteadyOnward(s: State, t: State, u: State)
    requires Steady(s, t) && Steady(t, u)
    ensures Steady(s, u)
  {
  }

  /** What tearing one record down calls: a staged one is only destroyed. */
  function DownDeeds(phase: Phase, g: Gen): seq<Deed> {
    if phase == Created then [Deed(g, Destroy)] else [Deed(g, Entry.Stop), Deed(g, Destroy)]
  }

  /** The calls of a complete teardown, one record after the other. */
  ghost function AllDeeds(s: State, ids: seq<Bytes>): seq<Deed> {
    if ids == [] then []
    else
      var last := ids[|ids| - 1];
      AllDeeds(s, ids[..|ids| - 1])
      + (if last in s.records then DownDeeds(s.records[last].phase, s.records[last].gen) else [])
  }

  lemma AllDeedsGrow(s: State, ids: seq<Bytes>, k: nat)
    requires k < |ids| && ids[k] in s.records
    ensures AllDeeds(s, ids[..k + 1]) == AllDeeds(s, ids[..k]) + DownDeeds(s.records[ids[k]].phase, s.records[ids[k]].gen)
  {
    assert ids[..k + 1][..k] == ids[..k];
  }

  lemma AllDeedsSame(s: State, t: State, ids: seq<Bytes>)
    requires t.records.Keys == s.records.Keys
    requires forall id | id in s.records :: t.records[id].gen == s.records[id].gen && t.records[id].phase == s.records[id].phase
    ensures AllDeeds(s, ids) == AllDeeds(t, ids)
  {
  }

  lemma NobodysDeeds(s: State, ids: seq<Bytes>)
    requires s.records == map[]
    ensures AllDeeds(s, ids) == []
  {
    if ids != [] { NobodysDeeds(s, ids[..|ids| - 1]); }
  }

  // ---- the order of a complete teardown, in so many words -------------------------------------------

  ghost predicate SomeonesCall(s: State, d: Deed) {
    exists id :: DoneTo(s, id, d)
  }

  /** Every record is destroyed once, after its stop() if it was initialized. What was initialized goes first,
      last in first out; what was not follows in ascending order of the identities' bytes. */
  ghost predicate DownInOrder(s: State, added: seq<Deed>) {
    && (forall a | 0 <= a < |added| :: added[a].entry == Entry.Stop || added[a].entry == Destroy)
    && (forall a | 0 <= a < |added| :: SomeonesCall(s, added[a]))
    && (forall a, b | 0 <= a < b < |added| :: added[a] != added[b])
    && (forall id | id in s.records ::
          && Deed(s.records[id].gen, Destroy) in added
          && (s.records[id].phase != Created <==> Deed(s.records[id].gen, Entry.Stop) in added))
    && (forall a, b | 0 <= a < |added| && 0 <= b < |added| && added[a].gen == added[b].gen
          && added[a].entry == Entry.Stop && added[b].entry == Destroy :: a < b)
    && (forall i, j, a, b | 0 <= i < j < |s.initOrder| && 0 <= a < |added| && 0 <= b < |added|
          && DoneTo(s, s.initOrder[j], added[a]) && DoneTo(s, s.initOrder[i], added[b]) :: a < b)
    && (forall x, y, a, b | x in s.initOrder && y !in s.initOrder && 0 <= a < |added| && 0 <= b < |added|
          && DoneTo(s, x, added[a]) && DoneTo(s, y, added[b]) :: a < b)
    && (forall x, y, a, b | x !in s.initOrder && y !in s.initOrder && SortsFirst(x, y)
          && 0 <= a < |added| && 0 <= b < |added| && DoneTo(s, x, added[a]) && DoneTo(s, y, added[b]) :: a < b)
  }

  /** Between `s` and `t` the whole rack was taken down, in order. */
  ghost predicate TakenDown(s: State, t: State) {
    && t.ledger.history == s.ledger.history + AllDeeds(s, TeardownOrder(s.initOrder, s.records.Keys))
    && s.ledger.history <= t.ledger.history && DownInOrder(s, t.ledger.history[|s.ledger.history|..])
  }

  lemma TakenDownBy(s: State, t: State)
    requires t.ledger.history == s.ledger.history + AllDeeds(s, TeardownOrder(s.initOrder, s.records.Keys))
    requires DownInOrder(s, AllDeeds(s, TeardownOrder(s.initOrder, s.records.Keys)))
    ensures TakenDown(s, t)
  {
    hide AllDeeds, TeardownOrder, DownInOrder;
    assert t.ledger.history[|s.ledger.history|..] == AllDeeds(s, TeardownOrder(s.initOrder, s.records.Keys));
  }

  lemma StillTakenDown(s: State, t: State, u: State)
    requires TakenDown(s, t) && u.ledger.history == t.ledger.history
    ensures TakenDown(s, u)
  {
    hide AllDeeds, TeardownOrder, DownInOrder;
  }

  /** Call `a` is one on the `owners[a]`-th of `ids`; the calls go through `ids` in order, each in full. */
  ghost predicate Owned(s: State, ids: seq<Bytes>, added: seq<Deed>, owners: seq<nat>) {
    && |owners| == |added|
    && (forall a | 0 <= a < |added| ::
          && owners[a] < |ids| && DoneTo(s, ids[owners[a]], added[a])
          && (added[a].entry == Destroy || (added[a].entry == Entry.Stop && s.records[ids[owners[a]]].phase != Created)))
    && (forall a, b | 0 <= a < b < |added| ::
          owners[a] < owners[b] || (owners[a] == owners[b] && added[a].entry == Entry.Stop && added[b].entry == Destroy))
    && (forall i | 0 <= i < |ids| && ids[i] in s.records ::
          && Deed(s.records[ids[i]].gen, Destroy) in added
          && (s.records[ids[i]].phase != Created ==> Deed(s.records[ids[i]].gen, Entry.Stop) in added))
  }

  lemma OwnedNext(s: State, ids: seq<Bytes>, id: Bytes, added: seq<Deed>, owners: seq<nat>) returns (more: seq<nat>)
    requires Owned(s, ids, added, owners) && id in s.records
    ensures Owned(s, ids + [id], added + DownDeeds(s.records[id].phase, s.records[id].gen), more)
  {
    var own := DownDeeds(s.records[id].phase, s.records[id].gen);
    more := owners + seq(|own|, k => |ids|);
    forall i | 0 <= i < |ids + [id]| && (ids + [id])[i] in s.records
      ensures Deed(s.records[(ids + [id])[i]].gen, Destroy) in added + own
      ensures s.records[(ids + [id])[i]].phase != Created ==> Deed(s.records[(ids + [id])[i]].gen, Entry.Stop) in added + own
    {
      if i < |ids| { assert (ids + [id])[i] == ids[i]; }
      assert own[|own| - 1] in own && own[0] in own;
    }
  }

  lemma {:induction false} AllDeedsOwned(s: State, ids: seq<Bytes>) returns (owners: seq<nat>)
    requires forall i | 0 <= i < |ids| :: ids[i] in s.records
    ensures Owned(s, ids, AllDeeds(s, ids), owners)
  {
    hide Owned, DownDeeds;
    if ids == [] {
      owners := [];
      NothingOwned(s);
    } else {
      var front, last := ids[..|ids| - 1], ids[|ids| - 1];
      owners := AllDeedsOwned(s, front);
      owners := OwnedNext(s, front, last, AllDeeds(s, front), owners);
      assert ids == front + [last];
    }
  }

  lemma NothingOwned(s: State)
    ensures Owned(s, [], [], [])
  {
  }

  ghost predicate GensApart(s: State) {
    forall x, y | x in s.records && y in s.records && x != y :: s.records[x].gen != s.records[y].gen
  }

  lemma CoreGensApart(s: State)
    requires Core(s)
    ensures GensApart(s)
  {
    hide Core;
    forall x, y | x in s.records && y in s.records && x != y ensures s.records[x].gen != s.records[y].gen {
      OtherGens(s, x, y);
    }
  }

  /** Whoever stands earlier in the list is dealt with earlier. */
  lemma OwnedInOrder(s: State, ids: seq<Bytes>, added: seq<Deed>, owners: seq<nat>, i: nat, j: nat, a: nat, b: nat)
    requires GensApart(s) && Owned(s, ids, added, owners) && i < j < |ids| && a < |added| && b < |added|
    requires forall i, j | 0 <= i < j < |ids| :: ids[i] != ids[j]
    requires DoneTo(s, ids[i], added[a]) && DoneTo(s, ids[j], added[b])
    ensures a < b
  {
    assert ids[owners[a]] == ids[i] && ids[owners[b]] == ids[j];
    assert owners[a] == i && owners[b] == j;
  }

  /** Where an identity stands in the teardown order. */
  lemma TeardownPlaces(s: State)
    requires Core(s)
    ensures var order, n := TeardownOrder(s.initOrder, s.records.Keys), |s.initOrder|;
            && (forall i | 0 <= i < n :: n <= |order| && order[n - 1 - i] == s.initOrder[i])
            && (forall k | n <= k < |order| :: order[k] !in s.initOrder)
            && (forall j, k | n <= j < k < |order| :: BytesLess(order[j], order[k]))
  {
    hide RecordsOk, LeasesOk, TokensOk, NoticesOk, DeferredOk, Sound, Ascending, BytesLess;
    var rest := Ascending(s.records.Keys - Elements(s.initOrder));
    forall k | 0 <= k < |rest| ensures rest[k] !in s.initOrder { assert rest[k] in rest; }
  }

  /** What was initialized, backwards; then the rest in ascending order; each record once. */
  ghost predicate Placed(s: State, order: seq<Bytes>) {
    && |s.initOrder| <= |order|
    && (forall i | 0 <= i < |s.initOrder| :: order[|s.initOrder| - 1 - i] == s.initOrder[i])
    && (forall k | |s.initOrder| <= k < |order| :: order[k] !in s.initOrder)
    && (forall j, k | |s.initOrder| <= j < k < |order| :: BytesLess(order[j], order[k]))
    && (forall i | 0 <= i < |order| :: order[i] in s.records)
    && (forall id | id in s.records :: exists k | 0 <= k < |order| :: order[k] == id)
    && (forall i, j | 0 <= i < j < |order| :: order[i] != order[j])
  }

  lemma TeardownIsPlaced(s: State)
    requires Core(s)
    ensures Placed(s, TeardownOrder(s.initOrder, s.records.Keys))
  {
    var order := TeardownOrder(s.initOrder, s.records.Keys);
    TeardownCovers(s);
    TeardownPlaces(s);
    assert |s.initOrder| <= |order|;
    hide Core, TeardownOrder, BytesLess, Placed;
    Coverage(s, order);
  }

  lemma Coverage(s: State, order: seq<Bytes>)
    requires Elements(order) == s.records.Keys && |s.initOrder| <= |order|
    requires forall i, j | 0 <= i < j < |order| :: order[i] != order[j]
    requires forall i | 0 <= i < |s.initOrder| :: order[|s.initOrder| - 1 - i] == s.initOrder[i]
    requires forall k | |s.initOrder| <= k < |order| :: order[k] !in s.initOrder
    requires forall j, k | |s.initOrder| <= j < k < |order| :: BytesLess(order[j], order[k])
    ensures Placed(s, order)
  {
    hide BytesLess;
    forall i | 0 <= i < |order| ensures order[i] in s.records { assert order[i] in Elements(order); }
    forall id | id in s.records ensures exists k | 0 <= k < |order| :: order[k] == id { assert id in Elements(order); }
  }

  /** The teardown order makes a complete teardown run in the order promised. */
  lemma TeardownRunsInOrder(s: State)
    requires Core(s)
    ensures DownInOrder(s, AllDeeds(s, TeardownOrder(s.initOrder, s.records.Keys)))
  {
    hide Core, AllDeeds, TeardownOrder, SortsFirst, BytesLess, GensApart, Owned, Placed;
    var order := TeardownOrder(s.initOrder, s.records.Keys);
    TeardownIsPlaced(s);
    CoreGensApart(s);
    assert forall i | 0 <= i < |order| :: order[i] in s.records by { PlacedRegistered(s, order); }
    var added := AllDeeds(s, order);
    var owners := AllDeedsOwned(s, order);
    DownBasics(s, order, added, owners);
    InitializedBackwards(s, order, added, owners);
    InitializedFirst(s, order, added, owners);
    RestAscends(s, order, added, owners);
  }

  lemma PlacedRegistered(s: State, order: seq<Bytes>)
    requires Placed(s, order)
    ensures forall i | 0 <= i < |order| :: order[i] in s.records
  {
  }

  lemma InitializedBackwards(s: State, order: seq<Bytes>, added: seq<Deed>, owners: seq<nat>)
    requires GensApart(s) && Owned(s, order, added, owners) && Placed(s, order)
    ensures forall i, j, a, b | 0 <= i < j < |s.initOrder| && 0 <= a < |added| && 0 <= b < |added|
              && DoneTo(s, s.initOrder[j], added[a]) && DoneTo(s, s.initOrder[i], added[b]) :: a < b
  {
    hide GensApart, Owned, BytesLess, DoneTo;
    var n := |s.initOrder|;
    forall i, j, a, b | 0 <= i < j < n && 0 <= a < |added| && 0 <= b < |added|
      && DoneTo(s, s.initOrder[j], added[a]) && DoneTo(s, s.initOrder[i], added[b])
      ensures a < b
    {
      assert order[n - 1 - j] == s.initOrder[j] && order[n - 1 - i] == s.initOrder[i];
      OwnedInOrder(s, order, added, owners, n - 1 - j, n - 1 - i, a, b);
    }
  }

  lemma InitializedFirst(s: State, order: seq<Bytes>, added: seq<Deed>, owners: seq<nat>)
    requires GensApart(s) && Owned(s, order, added, owners) && Placed(s, order)
    ensures forall x, y, a, b | x in s.initOrder && y !in s.initOrder && 0 <= a < |added| && 0 <= b < |added|
              && DoneTo(s, x, added[a]) && DoneTo(s, y, added[b]) :: a < b
  {
    hide GensApart, Owned, BytesLess;
    var n := |s.initOrder|;
    forall x, y, a, b | x in s.initOrder && y !in s.initOrder && 0 <= a < |added| && 0 <= b < |added|
      && DoneTo(s, x, added[a]) && DoneTo(s, y, added[b])
      ensures a < b
    {
      hide DoneTo;
      var i :| 0 <= i < n && s.initOrder[i] == x;
      var k :| 0 <= k < |order| && order[k] == y;
      PlaceOfRest(s, order, k);
      assert order[n - 1 - i] == x;
      OwnedInOrder(s, order, added, owners, n - 1 - i, k, a, b);
    }
  }

  /** An identity that was never initialized stands behind all that were. */
  lemma PlaceOfRest(s: State, order: seq<Bytes>, k: nat)
    requires Placed(s, order) && k < |order| && order[k] !in s.initOrder
    ensures |s.initOrder| <= k
  {
    forall m | 0 <= m < |s.initOrder| ensures order[m] in s.initOrder {
      assert order[m] == s.initOrder[|s.initOrder| - 1 - m];
    }
  }

  lemma RestAscends(s: State, order: seq<Bytes>, added: seq<Deed>, owners: seq<nat>)
    requires GensApart(s) && Owned(s, order, added, owners) && Placed(s, order)
    ensures forall x, y, a, b | x !in s.initOrder && y !in s.initOrder && SortsFirst(x, y)
              && 0 <= a < |added| && 0 <= b < |added| && DoneTo(s, x, added[a]) && DoneTo(s, y, added[b]) :: a < b
  {
    hide GensApart, Owned, BytesLess, SortsFirst;
    forall x, y, a, b | x !in s.initOrder && y !in s.initOrder && SortsFirst(x, y)
      && 0 <= a < |added| && 0 <= b < |added| && DoneTo(s, x, added[a]) && DoneTo(s, y, added[b])
      ensures a < b
    {
      var i :| 0 <= i < |order| && order[i] == x;
      var k :| 0 <= k < |order| && order[k] == y;
      hide DoneTo;
      PlaceOfRest(s, order, i);
      PlaceOfRest(s, order, k);
      LessIsFirstDifference(x, y);
      LessAsymmetric(x, y);
      OwnedInOrder(s, order, added, owners, i, k, a, b);
    }
  }

  lemma DownBasics(s: State, order: seq<Bytes>, added: seq<Deed>, owners: seq<nat>)
    requires GensApart(s) && Owned(s, order, added, owners) && Placed(s, order)
    ensures forall a | 0 <= a < |added| :: added[a].entry == Entry.Stop || added[a].entry == Destroy
    ensures forall a | 0 <= a < |added| :: SomeonesCall(s, added[a])
    ensures forall a, b | 0 <= a < b < |added| :: added[a] != added[b]
    ensures forall id | id in s.records ::
              && Deed(s.records[id].gen, Destroy) in added
              && (s.records[id].phase != Created <==> Deed(s.records[id].gen, Entry.Stop) in added)
    ensures forall a, b | 0 <= a < |added| && 0 <= b < |added| && added[a].gen == added[b].gen
              && added[a].entry == Entry.Stop && added[b].entry == Destroy :: a < b
  {
    hide BytesLess;
    forall a | 0 <= a < |added| ensures SomeonesCall(s, added[a]) { assert DoneTo(s, order[owners[a]], added[a]); }
    forall a, b | 0 <= a < b < |added| ensures added[a] != added[b] && (added[a].gen == added[b].gen ==> added[a].entry == Entry.Stop) {
      if owners[a] < owners[b] { assert order[owners[a]] != order[owners[b]]; }
    }
    forall id | id in s.records && Deed(s.records[id].gen, Entry.Stop) in added ensures s.records[id].phase != Created {
      var a :| 0 <= a < |added| && added[a] == Deed(s.records[id].gen, Entry.Stop);
      assert order[owners[a]] == id;
    }
  }

  ghost predicate NoneFaulted(s: State) {
    forall id | id in s.records :: s.records[id].phase != Faulted
  }

  /** Pass three up to `k`: what was visited is gone or pinned, the rest untouched; and with no
      quarantine and no setback nothing is pinned and every call was made in order. */
  ghost predicate Downed(s: State, t: State, order: seq<Bytes>, k: nat, pinned: seq<Bytes>) {
    && k <= |order| && Batch(s, t, Elements(order[..k])) && t.starting == s.starting
    && (forall j | 0 <= j < k :: order[j] in t.records ==> order[j] in pinned)
    && (forall id | id in pinned :: id in Elements(order[..k]))
    && (NoneFaulted(s) && Smooth(t.trace, |s.trace|) ==>
          pinned == [] && t.ledger.history == s.ledger.history + AllDeeds(s, order[..k]))
  }

  lemma DownedNone(s: State, order: seq<Bytes>)
    requires Batch(s, s, {})
    ensures Downed(s, s, order, 0, [])
  {
    assert Elements(order[..0]) == {};
  }

  /** What one visit does to its record. */
  ghost predicate Visited(t: State, u: State, id: Bytes, pinned: bool) {
    && id in t.records && Batch(t, u, {id}) && u.starting == t.starting
    && (id in u.records ==> pinned)
    && (pinned ==> t.records[id].phase == Faulted || !Smooth(u.trace, |t.trace|))
    && (!pinned ==> u.ledger.history == t.ledger.history + DownDeeds(t.records[id].phase, t.records[id].gen))
  }

  lemma DownedNext(s: State, t: State, order: seq<Bytes>, k: nat, pinned: seq<Bytes>)
    requires Downed(s, t, order, k, pinned) && k < |order| && order[k] in s.records
    requires forall i, j | 0 <= i < j < |order| :: order[i] != order[j]
    requires s.records[order[k]].phase != Starting
    ensures order[k] in t.records && t.records[order[k]] == s.records[order[k]]
  {
    assert Untouched(s, t, order[k]);
  }

  lemma DownedStep(s: State, t: State, u: State, order: seq<Bytes>, k: nat, pinned: seq<Bytes>, kept: bool)
    requires Downed(s, t, order, k, pinned) && k < |order| && order[k] in s.records
    requires order[k] in t.records && t.records[order[k]] == s.records[order[k]]
    requires Visited(t, u, order[k], kept)
    requires forall i, j | 0 <= i < j < |order| :: order[i] != order[j]
    ensures Downed(s, u, order, k + 1, if kept then pinned + [order[k]] else pinned)
  {
    hide Batch, Smooth, NoneFaulted;
    var id, more := order[k], if kept then pinned + [order[k]] else pinned;
    assert order[..k + 1] == order[..k] + [id];
    assert Elements(order[..k + 1]) == Elements(order[..k]) + {id};
    BatchWiden(s, t, Elements(order[..k]), Elements(order[..k + 1]));
    BatchOnward(s, t, u, Elements(order[..k + 1]), {id});
    BatchFacts(t, u, {id});
    BatchTrace(s, t, Elements(order[..k]));
    BatchTrace(t, u, {id});
    forall j | 0 <= j < k + 1 && order[j] in u.records ensures order[j] in more {
      if j < k { assert order[j] in t.records; }
    }
    forall x | x in more ensures x in Elements(order[..k + 1]) { }
    AllDeedsGrow(s, order, k);
    if NoneFaulted(s) && Smooth(u.trace, |s.trace|) { SmoothParts(s, t, u, id); }
  }

  lemma SmoothParts(s: State, t: State, u: State, id: Bytes)
    requires s.trace <= t.trace <= u.trace && Smooth(u.trace, |s.trace|)
    ensures Smooth(t.trace, |s.trace|) && Smooth(u.trace, |t.trace|)
    ensures NoneFaulted(s) && id in s.records ==> s.records[id].phase != Faulted
  {
    forall i | |s.trace| <= i < |t.trace| ensures !Setback(t.trace[i]) { assert t.trace[i] == u.trace[i]; }
  }

  lemma BatchTrace(s: State, t: State, touched: set<Bytes>)
    requires Batch(s, t, touched)
    ensures s.trace <= t.trace
  {
  }

  lemma BatchWiden(s: State, t: State, touched: set<Bytes>, wider: set<Bytes>)
    requires Batch(s, t, touched) && touched <= wider
    ensures Batch(s, t, wider)
  {
  }

  /** When every record was visited and none pinned, none is left. */
  lemma AllDown(s: State, t: State, order: seq<Bytes>, pinned: seq<Bytes>)
    requires Downed(s, t, order, |order|, pinned) && Elements(order) == s.records.Keys && pinned == []
    ensures t.records == map[]
  {
    assert order[..|order|] == order;
    forall id | id in s.records ensures id !in t.records {
      assert id in Elements(order);
      var k :| 0 <= k < |order| && order[k] == id;
    }
  }

  /** Leases join registered instances, or a registered instance and the host. */
  lemma NoRecordsNoLeases(s: State)
    requires Core(s) && s.records == map[]
    ensures s.leases == map[]
  {
    hide Core;
    if c :| c in s.leases {
      LeaseFacts(s, c);
      Accounted(s, s.leases[c].info.gen);
    }
  }
}
