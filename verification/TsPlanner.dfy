/**
 * The TypeScript planner: other input checks and statuses, the same schedule, and the extraction of a
 * cycle for the error report. The report is a closed cycle only while the walk it follows never runs
 * into a blocked node with no blocked successor.
 */
module TsPlanner {
  import opened Base
  import opened Ordering
  import opened PlanRules
  import opened Planner

  // ---- input checks ---------------------------------------------------------------------------

  predicate SelfReferring(node: OrderNode) {
    node.id in node.before || node.id in node.after
  }

  predicate IdentitiesSound(nodes: seq<OrderNode>, initialized: set<Bytes>) {
    && (forall i | 0 <= i < |nodes| :: nodes[i].id != [] && nodes[i].id !in initialized && !SelfReferring(nodes[i]))
    && (forall i, j | 0 <= i < j < |nodes| :: nodes[i].id != nodes[j].id)
  }

  ghost predicate HasUnknownTarget(nodes: seq<OrderNode>, initialized: set<Bytes>) {
    exists i, t | 0 <= i < |nodes| ::
      (t in nodes[i].before || t in nodes[i].after) && t !in initialized && t !in Ids(nodes)
  }

  ghost predicate HasConflict(nodes: seq<OrderNode>, initialized: set<Bytes>) {
    exists i, t | 0 <= i < |nodes| :: t in nodes[i].before && t in initialized
  }

  ghost function TsVerdict(nodes: seq<OrderNode>, initialized: set<Bytes>): Status {
    if !IdentitiesSound(nodes, initialized) then InvalidArgument
    else if HasUnknownTarget(nodes, initialized) then NotFound
    else if HasConflict(nodes, initialized) then InvalidState
    else if !Acyclic(Elements(nodes)) then Status.Cycle
    else Ok
  }

  method ValidateIdentities(nodes: seq<OrderNode>, initialized: set<Bytes>)
    returns (st: Status, index: map<Bytes, nat>)
    ensures st == if IdentitiesSound(nodes, initialized) then Ok else InvalidArgument
    ensures st == Ok ==> Indexed(nodes, index, |nodes|)
  {
    index := map[];
    var i := 0;
    while i < |nodes|
      invariant 0 <= i <= |nodes| && Indexed(nodes, index, i)
      invariant forall k | 0 <= k < i :: nodes[k].id != []
    {
      if nodes[i].id == [] || nodes[i].id in index { return InvalidArgument, index; }
      index := index[nodes[i].id := i];
      i := i + 1;
    }
    if exists id | id in index :: id in initialized { return InvalidArgument, index; }
    i := 0;
    while i < |nodes|
      invariant 0 <= i <= |nodes|
      invariant forall k | 0 <= k < i :: !SelfReferring(nodes[k])
    {
      if SelfReferring(nodes[i]) { return InvalidArgument, index; }
      i := i + 1;
    }
    return Ok, index;
  }

  // ---- edges ----------------------------------------------------------------------------------

  /** Collect one list of targets of node `i`; unknown targets are remembered, not fatal. */
  method CollectTargets(nodes: seq<OrderNode>, i: nat, targets: seq<Bytes>, forward: bool, initialized: set<Bytes>,
                        index: map<Bytes, nat>, graph: Graph) returns (unknown: bool, conflict: bool)
    requires i < |nodes| && Indexed(nodes, index, |nodes|) && initialized !! index.Keys
    requires graph.size == |nodes| && graph.Shape() && graph.Counts({})
    modifies graph
    ensures graph.Shape() && graph.Counts({})
    ensures unknown <==> exists t | t in targets :: t !in initialized && t !in index
    ensures conflict <==> exists t | t in targets :: t in initialized
    ensures forall a, b | 0 <= a < |nodes| && 0 <= b < |nodes| ::
              (a, b) in graph.edges <==>
                (a, b) in old(graph.edges)
                || (if forward then a == i && nodes[b].id in targets else b == i && nodes[a].id in targets)
  {
    unknown, conflict := false, false;
    var k := 0;
    while k < |targets|
      invariant 0 <= k <= |targets| && graph.Shape() && graph.Counts({})
      invariant unknown <==> exists t | t in targets[..k] :: t !in initialized && t !in index
      invariant conflict <==> exists t | t in targets[..k] :: t in initialized
      invariant forall a, b | 0 <= a < |nodes| && 0 <= b < |nodes| ::
                  (a, b) in graph.edges <==>
                    (a, b) in old(graph.edges)
                    || (if forward then a == i && nodes[b].id in targets[..k] else b == i && nodes[a].id in targets[..k])
    {
      var target := targets[k];
      assert targets[..k + 1] == targets[..k] + [target];
      if target in initialized {
        conflict := true;
      } else if target !in index {
        unknown := true;
      } else if forward {
        graph.AddEdge(i, index[target]);
      } else {
        graph.AddEdge(index[target], i);
      }
      k := k + 1;
    }
    assert targets[..k] == targets;
  }

  method CollectAll(nodes: seq<OrderNode>, initialized: set<Bytes>, index: map<Bytes, nat>)
    returns (unknown: bool, conflict: bool, graph: Graph)
    requires Indexed(nodes, index, |nodes|) && initialized !! index.Keys
    ensures fresh(graph) && graph.size == |nodes| && graph.Shape() && graph.Counts({})
    ensures unknown <==> exists i, t | 0 <= i < |nodes| ::
              (t in nodes[i].before || t in nodes[i].after) && t !in initialized && t !in index
    ensures conflict <==> exists i, t | 0 <= i < |nodes| :: t in nodes[i].before && t in initialized
    ensures Declared(nodes, |nodes|, graph.edges)
  {
    hide Declared, Extends, Indexed, Waiting, Lists;
    graph := new Graph(|nodes|);
    unknown, conflict := false, false;
    var i := 0;
    NoneDeclared(nodes);
    while i < |nodes|
      invariant 0 <= i <= |nodes| && graph.Shape() && graph.Counts({}) && Declared(nodes, i, graph.edges)
      invariant unknown <==> exists k, t | 0 <= k < i ::
                  (t in nodes[k].before || t in nodes[k].after) && t !in initialized && t !in index
      invariant conflict <==> exists k, t | 0 <= k < i :: t in nodes[k].before && t in initialized
    {
      ghost var before := graph.edges;
      var missing, clash := CollectOne(nodes, i, initialized, index, graph);
      DeclaredNext(nodes, i, before, graph.edges);
      unknown, conflict := unknown || missing, conflict || clash;
      i := i + 1;
    }
  }

  method CollectOne(nodes: seq<OrderNode>, i: nat, initialized: set<Bytes>, index: map<Bytes, nat>, graph: Graph)
    returns (unknown: bool, conflict: bool)
    requires i < |nodes| && Indexed(nodes, index, |nodes|) && initialized !! index.Keys
    requires graph.size == |nodes| && graph.Shape() && graph.Counts({})
    modifies graph
    ensures graph.Shape() && graph.Counts({})
    ensures unknown <==> exists t :: (t in nodes[i].before || t in nodes[i].after) && t !in initialized && t !in index
    ensures conflict <==> exists t :: t in nodes[i].before && t in initialized
    ensures Extends(nodes, i, old(graph.edges), graph.edges)
  {
    unknown, conflict := CollectTargets(nodes, i, nodes[i].before, true, initialized, index, graph);
    // An `after` target that is already initialized is satisfied: no edge, no conflict.
    var missing, _ := CollectTargets(nodes, i, nodes[i].after, false, initialized, index, graph);
    unknown := unknown || missing;
  }

  // ---- extracting a cycle -----------------------------------------------------------------------

  /** The blocked nodes: those whose counters never reached zero. */
  ghost function Left(indegree: seq<nat>): set<nat> {
    set j | 0 <= j < |indegree| && indegree[j] != 0
  }

  /** `j` is the blocked successor of `i` with the least identity. */
  ghost predicate Follows(nodes: seq<OrderNode>, edges: set<(nat, nat)>, left: set<nat>, i: nat, j: nat) {
    && j < |nodes| && (i, j) in edges && j in left
    && forall k | 0 <= k < |nodes| && (i, k) in edges && k in left && k != j :: BytesLess(nodes[j].id, nodes[k].id)
  }

  ghost predicate DeadEnd(nodes: seq<OrderNode>, edges: set<(nat, nat)>, left: set<nat>, i: nat) {
    forall k | 0 <= k < |nodes| && k in left :: (i, k) !in edges
  }

  /** The walk from the least blocked node, always to the least blocked successor. */
  ghost predicate Trail(nodes: seq<OrderNode>, edges: set<(nat, nat)>, left: set<nat>, walk: seq<nat>) {
    && walk != []
    && (forall k | 0 <= k < |walk| :: walk[k] < |nodes| && walk[k] in left)
    && (forall k | 0 <= k < |nodes| && k in left && k != walk[0] :: BytesLess(nodes[walk[0]].id, nodes[k].id))
    && (forall k | 0 < k < |walk| :: Follows(nodes, edges, left, walk[k - 1], walk[k]))
  }

  /** The walk runs into a blocked node from which no edge leads to a blocked node. */
  ghost predicate Strands(nodes: seq<OrderNode>, edges: set<(nat, nat)>, left: set<nat>) {
    exists walk :: Trail(nodes, edges, left, walk) && DeadEnd(nodes, edges, left, walk[|walk| - 1])
  }

  /** A closed simple walk along edges: what the report is meant to show. */
  ghost predicate ClosedCycle(edges: set<(nat, nat)>, cycle: seq<nat>) {
    && cycle != []
    && (forall a, b | 0 <= a < b < |cycle| :: cycle[a] != cycle[b])
    && (forall k | 0 < k < |cycle| :: (cycle[k - 1], cycle[k]) in edges)
    && (cycle[|cycle| - 1], cycle[0]) in edges
  }

  lemma FollowsUnique(nodes: seq<OrderNode>, edges: set<(nat, nat)>, left: set<nat>, i: nat, j: nat, k: nat)
    requires Follows(nodes, edges, left, i, j) && Follows(nodes, edges, left, i, k)
    ensures j == k
  {
    if j != k { LessAsymmetric(nodes[j].id, nodes[k].id); }
  }

  /** Once a walk has come back to itself, no trail can leave it. */
  lemma {:induction false} TrailInside(nodes: seq<OrderNode>, edges: set<(nat, nat)>, left: set<nat>, walk: seq<nat>, back: nat, trail: seq<nat>, k: nat)
    requires Trail(nodes, edges, left, walk) && back in walk && Follows(nodes, edges, left, walk[|walk| - 1], back)
    requires Trail(nodes, edges, left, trail) && k < |trail|
    ensures trail[k] in walk
  {
    if k == 0 {
      if trail[0] != walk[0] { LessAsymmetric(nodes[walk[0]].id, nodes[trail[0]].id); }
    } else {
      TrailInside(nodes, edges, left, walk, back, trail, k - 1);
      var m :| 0 <= m < |walk| && walk[m] == trail[k - 1];
      var next := if m + 1 < |walk| then walk[m + 1] else back;
      FollowsUnique(nodes, edges, left, walk[m], next, trail[k]);
    }
  }

  lemma ReturningNeverStrands(nodes: seq<OrderNode>, edges: set<(nat, nat)>, left: set<nat>, walk: seq<nat>, back: nat)
    requires Trail(nodes, edges, left, walk) && back in walk && Follows(nodes, edges, left, walk[|walk| - 1], back)
    ensures !Strands(nodes, edges, left)
  {
    forall trail | Trail(nodes, edges, left, trail) ensures !DeadEnd(nodes, edges, left, trail[|trail| - 1]) {
      TrailInside(nodes, edges, left, walk, back, trail, |trail| - 1);
      var m :| 0 <= m < |walk| && walk[m] == trail[|trail| - 1];
      assert Follows(nodes, edges, left, walk[m], if m + 1 < |walk| then walk[m + 1] else back);
    }
  }

  /** The blocked node with the least identity. */
  method LeastLeft(nodes: seq<OrderNode>, indegree: seq<nat>) returns (start: nat)
    requires |indegree| == |nodes| && Distinct(nodes) && exists j | 0 <= j < |nodes| :: indegree[j] != 0
    ensures start < |nodes| && indegree[start] != 0
    ensures forall k | 0 <= k < |nodes| && indegree[k] != 0 && k != start :: BytesLess(nodes[start].id, nodes[k].id)
  {
    var found: Option<nat> := None;
    var i := 0;
    while i < |nodes|
      invariant 0 <= i <= |nodes|
      invariant found.None? ==> forall k | 0 <= k < i :: indegree[k] == 0
      invariant found.Some? ==>
                  && found.value < i && indegree[found.value] != 0
                  && forall k | 0 <= k < i && indegree[k] != 0 && k != found.value :: BytesLess(nodes[found.value].id, nodes[k].id)
    {
      if indegree[i] != 0 {
        if found.None? {
          found := Some(i);
        } else {
          LessTotal(nodes[i].id, nodes[found.value].id);
          if BytesLess(nodes[i].id, nodes[found.value].id) {
            forall k | 0 <= k < i && indegree[k] != 0 && k != found.value ensures BytesLess(nodes[i].id, nodes[k].id) {
              LessTransitive(nodes[i].id, nodes[found.value].id, nodes[k].id);
            }
            found := Some(i);
          }
        }
      }
      i := i + 1;
    }
    start := found.value;
  }

  /** The blocked successor with the least identity, if there is one. */
  method LeastSuccessor(nodes: seq<OrderNode>, graph: Graph, current: nat) returns (next: Option<nat>)
    requires graph.size == |nodes| && graph.Shape() && Distinct(nodes) && current < |nodes|
    ensures next.None? ==> DeadEnd(nodes, graph.edges, Left(graph.indegree), current)
    ensures next.Some? ==> Follows(nodes, graph.edges, Left(graph.indegree), current, next.value)
  {
    next := None;
    var list, i := graph.successors[current], 0;
    assert Lists(list, graph.edges, current);
    assert forall k | 0 <= k < |list| :: list[k] in list && (current, list[k]) in graph.edges;
    while i < |list|
      invariant 0 <= i <= |list|
      invariant next.None? ==> forall k | 0 <= k < i :: graph.indegree[list[k]] == 0
      invariant next.Some? ==>
                  && next.value in list && graph.indegree[next.value] != 0
                  && forall k | 0 <= k < i && graph.indegree[list[k]] != 0 && list[k] != next.value ::
                       BytesLess(nodes[next.value].id, nodes[list[k]].id)
    {
      var candidate := list[i];
      assert candidate in list;
      if graph.indegree[candidate] != 0 {
        if next.None? {
          next := Some(candidate);
        } else {
          LessTotal(nodes[candidate].id, nodes[next.value].id);
          if BytesLess(nodes[candidate].id, nodes[next.value].id) {
            forall k | 0 <= k < i && graph.indegree[list[k]] != 0 && list[k] != next.value
              ensures BytesLess(nodes[candidate].id, nodes[list[k]].id)
            {
              assert list[k] in list;
              LessTransitive(nodes[candidate].id, nodes[next.value].id, nodes[list[k]].id);
            }
            next := Some(candidate);
          }
        }
      }
      i := i + 1;
    }
    if next.None? {
      forall k | 0 <= k < |nodes| && k in Left(graph.indegree) ensures (current, k) !in graph.edges {
        assert k in list <==> (current, k) in graph.edges;
      }
    } else {
      forall k | 0 <= k < |nodes| && (current, k) in graph.edges && k in Left(graph.indegree) && k != next.value
        ensures BytesLess(nodes[next.value].id, nodes[k].id)
      {
        assert k in list;
      }
    }
  }

  /** Follow least blocked successors from the least blocked node until one repeats, or there is none.
      What is reported is a closed cycle exactly when the walk does not strand. */
  method ExtractCycle(nodes: seq<OrderNode>, graph: Graph) returns (cycle: seq<nat>)
    requires graph.size == |nodes| && graph.Shape() && Distinct(nodes)
    requires exists j | 0 <= j < |nodes| :: graph.indegree[j] != 0
    ensures cycle != [] && forall k | 0 <= k < |cycle| :: cycle[k] in Left(graph.indegree)
    ensures ClosedCycle(graph.edges, cycle) <==> !Strands(nodes, graph.edges, Left(graph.indegree))
  {
    hide Follows, DeadEnd, BytesLess, Lists, ClosedCycle, Strands;
    ghost var left := Left(graph.indegree);
    var start := LeastLeft(nodes, graph.indegree);
    var walk: seq<nat> := [start];
    var next := LeastSuccessor(nodes, graph, start);
    assert Trail(nodes, graph.edges, left, walk);
    while next.Some? && next.value !in walk
      invariant Trail(nodes, graph.edges, left, walk)
      invariant DistinctIndices(walk, |nodes|)
      invariant next.None? ==> DeadEnd(nodes, graph.edges, left, walk[|walk| - 1])
      invariant next.Some? ==> Follows(nodes, graph.edges, left, walk[|walk| - 1], next.value)
      decreases |nodes| - |walk|
    {
      FollowsFacts(nodes, graph.edges, left, walk[|walk| - 1], next.value);
      ghost var before := walk;
      walk := walk + [next.value];
      IndexPigeonhole(walk, |nodes|);
      assert forall k | 0 < k < |walk| :: Follows(nodes, graph.edges, left, walk[k - 1], walk[k]);
      next := LeastSuccessor(nodes, graph, next.value);
    }
    if next.None? {
      DeadEndFacts(nodes, graph.edges, left, walk);
      return walk;
    }
    ReturningNeverStrands(nodes, graph.edges, left, walk, next.value);
    var from: nat :| from < |walk| && walk[from] == next.value;
    cycle := walk[from..];
    WalkCloses(nodes, graph.edges, left, walk, from);
  }

  lemma WalkCloses(nodes: seq<OrderNode>, edges: set<(nat, nat)>, left: set<nat>, walk: seq<nat>, from: nat)
    requires Trail(nodes, edges, left, walk) && DistinctIndices(walk, |nodes|) && from < |walk|
    requires Follows(nodes, edges, left, walk[|walk| - 1], walk[from])
    ensures ClosedCycle(edges, walk[from..])
  {
    var cycle := walk[from..];
    forall k | 0 < k < |cycle| ensures (cycle[k - 1], cycle[k]) in edges {
      assert Follows(nodes, edges, left, walk[from + k - 1], walk[from + k]);
    }
  }

  lemma FollowsFacts(nodes: seq<OrderNode>, edges: set<(nat, nat)>, left: set<nat>, i: nat, j: nat)
    requires Follows(nodes, edges, left, i, j)
    ensures j < |nodes| && (i, j) in edges && j in left
  {
  }

  lemma DeadEndFacts(nodes: seq<OrderNode>, edges: set<(nat, nat)>, left: set<nat>, walk: seq<nat>)
    requires Trail(nodes, edges, left, walk) && DeadEnd(nodes, edges, left, walk[|walk| - 1])
    ensures !ClosedCycle(edges, walk) && Strands(nodes, edges, left)
  {
  }

  /** The stated reason, where it holds, suffices: if every blocked node has a blocked successor, the
      report is a cycle. */
  lemma SuccessorsSuffice(nodes: seq<OrderNode>, edges: set<(nat, nat)>, left: set<nat>)
    requires forall i | i in left :: !DeadEnd(nodes, edges, left, i)
    ensures !Strands(nodes, edges, left)
  {
    forall walk | Trail(nodes, edges, left, walk) ensures !DeadEnd(nodes, edges, left, walk[|walk| - 1]) { }
  }

  // ---- the planner ------------------------------------------------------------------------------

  function EdgeSet(nodes: seq<OrderNode>): set<(nat, nat)> {
    set a: nat, b: nat | 0 <= a < |nodes| && 0 <= b < |nodes| && Edge(nodes[a], nodes[b]) :: (a, b)
  }

  ghost function BlockedSet(nodes: seq<OrderNode>): set<nat> {
    set j: nat | 0 <= j < |nodes| && Blocked(Elements(nodes), nodes[j])
  }

  /** The counters that stayed positive are those of the blocked nodes. */
  lemma LeftIsBlocked(nodes: seq<OrderNode>, edges: set<(nat, nat)>, indegree: seq<nat>, out: seq<nat>)
    requires |indegree| == |nodes| && forall j | 0 <= j < |nodes| :: j in out <==> indegree[j] == 0
    requires forall i | 0 <= i < |nodes| :: i !in out <==> Blocked(Elements(nodes), nodes[i])
    ensures Left(indegree) == BlockedSet(nodes)
  {
  }

  method TsPlanOrder(nodes: seq<OrderNode>, initialized: set<Bytes>) returns (st: Status, out: seq<nat>, cycle: seq<nat>)
    ensures st == TsVerdict(nodes, initialized)
    ensures st == Ok ==>
              && |out| == |nodes| && DistinctIndices(out, |nodes|)
              && IsPlan(Elements(nodes), Picked(nodes, out)) && InPlanOrder(Picked(nodes, out))
    ensures st != Ok ==> out == []
    ensures st == Status.Cycle ==>
              && cycle != [] && (forall k | 0 <= k < |cycle| :: cycle[k] in BlockedSet(nodes))
              && (ClosedCycle(EdgeSet(nodes), cycle) <==> !Strands(nodes, EdgeSet(nodes), BlockedSet(nodes)))
  {
    hide Maximal, Blocked, PlanRules.Cycle, IsPlan, InPlanOrder, Declared, Strands, ClosedCycle;
    out, cycle := [], [];
    var index;
    st, index := ValidateIdentities(nodes, initialized);
    if st != Ok { return; }
    IndexedIds(nodes, index);
    var unknown, conflict, graph := CollectAll(nodes, initialized, index);
    if unknown { return NotFound, [], []; }
    if conflict { return InvalidState, [], []; }
    AllDeclared(nodes, graph.edges);
    assert graph.edges == EdgeSet(nodes);
    out := Schedule(nodes, graph);
    IndexPigeonhole(out, |nodes|);
    PlanIffAcyclic(Elements(nodes), Picked(nodes, out));
    if |out| == |nodes| {
      AllPlaced(nodes, out);
      return;
    }
    SomeLeftOut(nodes, out);
    BlockedIndices(nodes, out);
    if forall j | 0 <= j < |nodes| :: graph.indegree[j] == 0 { AllOut(out, |nodes|); }
    LeftIsBlocked(nodes, graph.edges, graph.indegree, out);
    cycle := ExtractCycle(nodes, graph);
    return Status.Cycle, [], cycle;
  }

  lemma AllOut(out: seq<nat>, size: nat)
    requires DistinctIndices(out, size) && forall j | 0 <= j < size :: j in out
    ensures |out| == size
  {
    IndexPigeonhole(out, size);
    SizeOfDistinct(out);
    assert Elements(out) == Range(size);
  }

  lemma IndexedIds(nodes: seq<OrderNode>, index: map<Bytes, nat>)
    requires Indexed(nodes, index, |nodes|)
    ensures index.Keys == Ids(nodes)
  {
  }

  // ---- the two planners agree -------------------------------------------------------------------

  lemma TsPlannableIff(nodes: seq<OrderNode>, initialized: set<Bytes>)
    ensures TsVerdict(nodes, initialized) == Ok
            <==> Distinct(nodes) && Sensible(Elements(nodes), initialized) && Acyclic(Elements(nodes))
  {
    hide PlanRules.Cycle;
    forall t ensures t in Ids(nodes) <==> Known(Elements(nodes), t) { IdsKnown(nodes, t); }
    forall i | 0 <= i < |nodes| ensures nodes[i] in Elements(nodes) { }
    if TsVerdict(nodes, initialized) == Ok {
      forall x | x in Elements(nodes)
        ensures x.id != [] && x.id !in initialized && NodeSound(Elements(nodes), initialized, x)
      {
        var i :| 0 <= i < |nodes| && nodes[i] == x;
        assert !SelfReferring(nodes[i]);
      }
    }
  }

  /** Both planners accept the same inputs, but for one difference: only the C++ one also refuses empty
      or repeated entries in the list of initialized identities. */
  lemma PlannersAgree(nodes: seq<OrderNode>, initialized: seq<Bytes>)
    ensures PlanVerdict(nodes, initialized) == Ok
            <==> TsVerdict(nodes, Elements(initialized)) == Ok && CleanList(initialized)
  {
    PlannableIff(nodes, initialized);
    TsPlannableIff(nodes, Elements(initialized));
  }

  // ---- where the stated reason fails --------------------------------------------------------------

  function Letter(c: bv8): Bytes { [c] }

  /** b and c wait for each other, a waits for b: a is blocked, but nothing is blocked behind it. */
  function SinkExample(): seq<OrderNode> {
    [OrderNode(Letter(0x61), 0, [], [Letter(0x62)]),
     OrderNode(Letter(0x62), 0, [Letter(0x63)], []),
     OrderNode(Letter(0x63), 0, [Letter(0x62)], [])]
  }

  lemma SinkEdges()
    ensures EdgeSet(SinkExample()) == {(1, 2), (2, 1), (1, 0)}
  {
    var nodes := SinkExample();
    assert Edge(nodes[1], nodes[2]) && Edge(nodes[2], nodes[1]) && Edge(nodes[1], nodes[0]);
    assert !Edge(nodes[0], nodes[0]) && !Edge(nodes[0], nodes[1]) && !Edge(nodes[0], nodes[2]);
    assert !Edge(nodes[1], nodes[1]) && !Edge(nodes[2], nodes[2]) && !Edge(nodes[2], nodes[0]);
  }

  lemma SinkBlocked()
    ensures BlockedSet(SinkExample()) == {0, 1, 2}
    ensures PlanRules.Cycle(Elements(SinkExample()), [SinkExample()[1], SinkExample()[2], SinkExample()[1]])
  {
    var nodes := SinkExample();
    var a, b, c := nodes[0], nodes[1], nodes[2];
    assert a in nodes && b in nodes && c in nodes;
    assert Edge(b, c) && Edge(c, b) && Edge(b, a);
    assert BlockedBy(Elements(nodes), [b, c, b], [b], b);
    assert BlockedBy(Elements(nodes), [b, c, b], [b, c], c);
    assert BlockedBy(Elements(nodes), [b, c, b], [b, a], a);
  }

  /** Not every blocked node has a blocked successor: this input is refused as a cycle, and the walk over
      its blocked nodes starts at `a`, strands there, and the report is not a cycle. */
  lemma SinkStrands()
    ensures TsVerdict(SinkExample(), {}) == Status.Cycle && BlockedSet(SinkExample()) == {0, 1, 2}
    ensures Strands(SinkExample(), EdgeSet(SinkExample()), BlockedSet(SinkExample()))
    ensures !ClosedCycle(EdgeSet(SinkExample()), [0])
  {
    hide Blocked, PlanRules.Cycle, EdgeSet, BlockedSet;
    var nodes := SinkExample();
    SinkEdges();
    SinkBlocked();
    assert nodes[0] in nodes && nodes[1] in nodes && nodes[2] in nodes;
    assert nodes[0].id in Ids(nodes) && nodes[1].id in Ids(nodes) && nodes[2].id in Ids(nodes);
    assert nodes[0].id == Letter(0x61) && nodes[1].id == Letter(0x62) && nodes[2].id == Letter(0x63);
    assert IdentitiesSound(nodes, {}) && !HasUnknownTarget(nodes, {}) && !HasConflict(nodes, {});
    assert DeadEnd(nodes, EdgeSet(nodes), {0, 1, 2}, 0);
    assert Trail(nodes, EdgeSet(nodes), {0, 1, 2}, [0]);
    assert (0, 0) !in EdgeSet(nodes);
  }
}
