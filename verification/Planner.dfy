/**
 * The initialization planners: Kahn's algorithm with a greedy minimum over the ready nodes, over
 * indegrees and successor lists updated in place. The C++ and the TypeScript planner share the
 * scheduling loop and differ in how they check their input.
 */
module Planner {
  import opened Base
  import opened Ordering
  import opened PlanRules

  // ---- input checks ---------------------------------------------------------------------------

  function PendingFault(nodes: seq<OrderNode>, i: nat): Status
    requires i < |nodes|
  {
    if nodes[i].id == [] then InvalidArgument
    else if exists j | 0 <= j < i :: nodes[j].id == nodes[i].id then Duplicate
    else Ok
  }

  function InitializedFault(nodes: seq<OrderNode>, initialized: seq<Bytes>, i: nat): Status
    requires i < |initialized|
  {
    if initialized[i] == [] then InvalidArgument
    else if exists j | 0 <= j < i :: initialized[j] == initialized[i] then Duplicate
    else if exists j | 0 <= j < |nodes| :: nodes[j].id == initialized[i] then Duplicate
    else Ok
  }

  function Ids(nodes: seq<OrderNode>): set<Bytes> {
    set i | 0 <= i < |nodes| :: nodes[i].id
  }

  function BeforeFault(node: OrderNode, settled: set<Bytes>, ids: set<Bytes>, target: Bytes): Status {
    if target == node.id then Status.Cycle
    else if target in settled then InvalidState
    else if target !in ids then NotFound
    else Ok
  }

  function AfterFault(node: OrderNode, settled: set<Bytes>, ids: set<Bytes>, target: Bytes): Status {
    if target == node.id then Status.Cycle
    else if target in settled then Ok
    else if target !in ids then NotFound
    else Ok
  }

  /** The first fault among the pending identities below `count`. */
  function PendingVerdict(nodes: seq<OrderNode>, count: nat): (st: Status)
    requires count <= |nodes|
    ensures st == Ok <==> forall i | 0 <= i < count :: PendingFault(nodes, i) == Ok
  {
    if count == 0 then Ok
    else
      var earlier := PendingVerdict(nodes, count - 1);
      if earlier != Ok then earlier else PendingFault(nodes, count - 1)
  }

  function InitializedVerdict(nodes: seq<OrderNode>, initialized: seq<Bytes>, count: nat): (st: Status)
    requires count <= |initialized|
    ensures st == Ok <==> forall i | 0 <= i < count :: InitializedFault(nodes, initialized, i) == Ok
  {
    if count == 0 then Ok
    else
      var earlier := InitializedVerdict(nodes, initialized, count - 1);
      if earlier != Ok then earlier else InitializedFault(nodes, initialized, count - 1)
  }

  function BeforeVerdict(node: OrderNode, settled: set<Bytes>, ids: set<Bytes>, count: nat): (st: Status)
    requires count <= |node.before|
    ensures st == Ok <==> forall k | 0 <= k < count :: BeforeFault(node, settled, ids, node.before[k]) == Ok
  {
    if count == 0 then Ok
    else
      var earlier := BeforeVerdict(node, settled, ids, count - 1);
      if earlier != Ok then earlier else BeforeFault(node, settled, ids, node.before[count - 1])
  }

  function AfterVerdict(node: OrderNode, settled: set<Bytes>, ids: set<Bytes>, count: nat): (st: Status)
    requires count <= |node.after|
    ensures st == Ok <==> forall k | 0 <= k < count :: AfterFault(node, settled, ids, node.after[k]) == Ok
  {
    if count == 0 then Ok
    else
      var earlier := AfterVerdict(node, settled, ids, count - 1);
      if earlier != Ok then earlier else AfterFault(node, settled, ids, node.after[count - 1])
  }

  /** What is wrong with one node's constraints: its `before` list is checked first. */
  function NodeVerdict(node: OrderNode, settled: set<Bytes>, ids: set<Bytes>): Status {
    var before := BeforeVerdict(node, settled, ids, |node.before|);
    if before != Ok then before else AfterVerdict(node, settled, ids, |node.after|)
  }

  function ConstraintVerdict(nodes: seq<OrderNode>, settled: set<Bytes>, ids: set<Bytes>, count: nat): (st: Status)
    requires count <= |nodes|
    ensures st == Ok <==> forall i | 0 <= i < count :: NodeVerdict(nodes[i], settled, ids) == Ok
  {
    if count == 0 then Ok
    else
      var earlier := ConstraintVerdict(nodes, settled, ids, count - 1);
      if earlier != Ok then earlier else NodeVerdict(nodes[count - 1], settled, ids)
  }

  lemma {:induction false} PendingStays(nodes: seq<OrderNode>, i: nat, count: nat)
    requires i <= count <= |nodes| && PendingVerdict(nodes, i) != Ok
    ensures PendingVerdict(nodes, count) == PendingVerdict(nodes, i)
  {
    if i < count { PendingStays(nodes, i, count - 1); }
  }

  lemma {:induction false} InitializedStays(nodes: seq<OrderNode>, initialized: seq<Bytes>, i: nat, count: nat)
    requires i <= count <= |initialized| && InitializedVerdict(nodes, initialized, i) != Ok
    ensures InitializedVerdict(nodes, initialized, count) == InitializedVerdict(nodes, initialized, i)
  {
    if i < count { InitializedStays(nodes, initialized, i, count - 1); }
  }

  lemma {:induction false} BeforeStays(node: OrderNode, settled: set<Bytes>, ids: set<Bytes>, i: nat, count: nat)
    requires i <= count <= |node.before| && BeforeVerdict(node, settled, ids, i) != Ok
    ensures BeforeVerdict(node, settled, ids, count) == BeforeVerdict(node, settled, ids, i)
  {
    if i < count { BeforeStays(node, settled, ids, i, count - 1); }
  }

  lemma {:induction false} AfterStays(node: OrderNode, settled: set<Bytes>, ids: set<Bytes>, i: nat, count: nat)
    requires i <= count <= |node.after| && AfterVerdict(node, settled, ids, i) != Ok
    ensures AfterVerdict(node, settled, ids, count) == AfterVerdict(node, settled, ids, i)
  {
    if i < count { AfterStays(node, settled, ids, i, count - 1); }
  }

  lemma {:induction false} FirstFault(nodes: seq<OrderNode>, settled: set<Bytes>, ids: set<Bytes>, i: nat, count: nat)
    requires i < count <= |nodes| && NodeVerdict(nodes[i], settled, ids) != Ok
    requires forall k | 0 <= k < i :: NodeVerdict(nodes[k], settled, ids) == Ok
    ensures ConstraintVerdict(nodes, settled, ids, count) == NodeVerdict(nodes[i], settled, ids)
  {
    hide NodeVerdict;
    if i + 1 < count { FirstFault(nodes, settled, ids, i, count - 1); }
  }

  function Elements<T>(s: seq<T>): set<T> {
    set x | x in s
  }

  /** The first violation of the input rules, in the order they are checked. */
  function InputVerdict(nodes: seq<OrderNode>, initialized: seq<Bytes>): Status {
    if PendingVerdict(nodes, |nodes|) != Ok then PendingVerdict(nodes, |nodes|)
    else if InitializedVerdict(nodes, initialized, |initialized|) != Ok then
      InitializedVerdict(nodes, initialized, |initialized|)
    else ConstraintVerdict(nodes, Elements(initialized), Ids(nodes), |nodes|)
  }

  ghost function PlanVerdict(nodes: seq<OrderNode>, initialized: seq<Bytes>): Status {
    if InputVerdict(nodes, initialized) != Ok then InputVerdict(nodes, initialized)
    else if exists p :: PlanRules.Cycle(Elements(nodes), p) then Status.Cycle
    else Ok
  }

  /** What the identity check leaves for the lookups: every node findable by its identity. */
  ghost predicate Indexed(nodes: seq<OrderNode>, pending: map<Bytes, nat>, count: nat) {
    && count <= |nodes|
    && (forall i | 0 <= i < count :: nodes[i].id in pending && pending[nodes[i].id] == i)
    && (forall id | id in pending :: pending[id] < count && nodes[pending[id]].id == id)
  }

  method CheckPending(nodes: seq<OrderNode>) returns (st: Status, pending: map<Bytes, nat>)
    ensures st == PendingVerdict(nodes, |nodes|)
    ensures st == Ok ==> Indexed(nodes, pending, |nodes|)
  {
    pending := map[];
    var i := 0;
    while i < |nodes|
      invariant 0 <= i <= |nodes| && Indexed(nodes, pending, i) && PendingVerdict(nodes, i) == Ok
    {
      st := if nodes[i].id == [] then InvalidArgument else if nodes[i].id in pending then Duplicate else Ok;
      assert st == PendingFault(nodes, i);
      assert st == PendingVerdict(nodes, i + 1);
      if st != Ok {
        PendingStays(nodes, i + 1, |nodes|);
        return;
      }
      pending := pending[nodes[i].id := i];
      i := i + 1;
    }
    st := Ok;
  }

  method CheckInitialized(nodes: seq<OrderNode>, initialized: seq<Bytes>, pending: map<Bytes, nat>)
    returns (st: Status, settled: set<Bytes>)
    requires Indexed(nodes, pending, |nodes|)
    ensures st == InitializedVerdict(nodes, initialized, |initialized|)
    ensures st == Ok ==> settled == Elements(initialized)
  {
    settled := {};
    var i := 0;
    while i < |initialized|
      invariant 0 <= i <= |initialized| && InitializedVerdict(nodes, initialized, i) == Ok
      invariant forall x :: x in settled <==> exists j | 0 <= j < i :: initialized[j] == x
    {
      st := if initialized[i] == [] then InvalidArgument
            else if initialized[i] in settled || initialized[i] in pending then Duplicate else Ok;
      assert st == InitializedFault(nodes, initialized, i);
      assert st == InitializedVerdict(nodes, initialized, i + 1);
      if st != Ok {
        InitializedStays(nodes, initialized, i + 1, |initialized|);
        return;
      }
      settled := settled + {initialized[i]};
      i := i + 1;
    }
    st := Ok;
  }

  // ---- the edge graph -------------------------------------------------------------------------

  /** The nodes that still hold `j` back: its predecessors that are not done. */
  ghost function Waiting(edges: set<(nat, nat)>, size: nat, done: set<nat>, j: nat): set<nat> {
    set i: nat | i < size && (i, j) in edges && i !in done
  }

  /** Exactly the targets of the edges out of `i`, each once. */
  ghost predicate Lists(successors: seq<nat>, edges: set<(nat, nat)>, i: nat) {
    && (forall j :: j in successors <==> (i, j) in edges)
    && (forall a, b | 0 <= a < b < |successors| :: successors[a] != successors[b])
  }

  /** Deduplicated hard edges over node indices: successor lists, and one counter per node. */
  class Graph {
    const size: nat
    var successors: seq<seq<nat>>
    var indegree: seq<nat>
    var edges: set<(nat, nat)>

    ghost predicate Shape()
      reads this
    {
      && |successors| == size && |indegree| == size
      && (forall e | e in edges :: e.0 < size && e.1 < size)
      && (forall i | 0 <= i < size :: Lists(successors[i], edges, i))
    }

    /** Every counter is the number of predecessors that are not done. */
    ghost predicate Counts(done: set<nat>)
      reads this
    {
      |indegree| == size && forall j | 0 <= j < size :: indegree[j] == |Waiting(edges, size, done, j)|
    }

    constructor (size: nat)
      ensures this.size == size && Shape() && Counts({}) && edges == {}
    {
      this.size := size;
      successors, indegree, edges := seq(size, _ => []), seq(size, _ => 0), {};
    }

    /** Keep one copy of an edge, however often and from whichever end it is declared. */
    method AddEdge(from: nat, to: nat)
      requires Shape() && Counts({}) && from < size && to < size
      modifies this
      ensures Shape() && Counts({}) && edges == old(edges) + {(from, to)}
    {
      if (from, to) in edges { return; }
      edges := edges + {(from, to)};
      successors := successors[from := successors[from] + [to]];
      indegree := indegree[to := indegree[to] + 1];
      assert Waiting(edges, size, {}, to) == Waiting(old(edges), size, {}, to) + {from};
      forall j | 0 <= j < size && j != to ensures Waiting(edges, size, {}, j) == Waiting(old(edges), size, {}, j) { }
    }

    /** Node `index` is placed: run down its successors' counters and collect those that reach zero. */
    method Settle(index: nat, ghost done: set<nat>) returns (freed: seq<nat>)
      requires Shape() && Counts(done) && index < size && index !in done
      modifies this`indegree
      ensures Shape() && Counts(done + {index})
      ensures DistinctIndices(freed, size)
      ensures forall j | 0 <= j < size :: j in freed <==> (index, j) in edges && indegree[j] == 0
      ensures forall j | 0 <= j < size && (index, j) !in edges :: indegree[j] == old(indegree[j])
      ensures forall j | 0 <= j < size && (index, j) in edges :: old(indegree[j]) == indegree[j] + 1
    {
      freed := [];
      var next, k := successors[index], 0;
      forall j | 0 <= j < size && (index, j) in edges ensures indegree[j] > 0 {
        assert index in Waiting(edges, size, done, j);
      }
      while k < |next|
        invariant 0 <= k <= |next| && |indegree| == size
        invariant forall j | 0 <= j < size :: indegree[j] + (if j in next[..k] then 1 else 0) == old(indegree[j])
        invariant DistinctIndices(freed, size)
        invariant forall j | 0 <= j < size :: j in freed <==> j in next[..k] && indegree[j] == 0
      {
        var j := next[k];
        assert j in next && j !in next[..k];
        assert next[..k + 1] == next[..k] + [j];
        indegree := indegree[j := indegree[j] - 1];
        if indegree[j] == 0 { freed := freed + [j]; }
        k := k + 1;
      }
      assert next[..k] == next;
      forall j | 0 <= j < size ensures indegree[j] == |Waiting(edges, size, done + {index}, j)| {
        WaitingAfter(edges, size, done, index, j);
      }
    }
  }

  /** The edges the `before` list of node `i` declares up to `count`. */
  ghost predicate SaysBefore(nodes: seq<OrderNode>, i: nat, count: nat, a: nat, b: nat)
    requires i < |nodes| && count <= |nodes[i].before| && b < |nodes|
  {
    a == i && nodes[b].id in nodes[i].before[..count]
  }

  ghost predicate SaysAfter(nodes: seq<OrderNode>, i: nat, count: nat, a: nat, b: nat)
    requires i < |nodes| && count <= |nodes[i].after| && a < |nodes|
  {
    b == i && nodes[a].id in nodes[i].after[..count]
  }

  /** The edges declared by the nodes below `count`, from either end. */
  ghost predicate Declared(nodes: seq<OrderNode>, count: nat, edges: set<(nat, nat)>) {
    forall a, b | 0 <= a < |nodes| && 0 <= b < |nodes| ::
      (a, b) in edges <==> (a < count && nodes[b].id in nodes[a].before) || (b < count && nodes[a].id in nodes[b].after)
  }

  /** One more node's declarations are in. */
  ghost predicate Extends(nodes: seq<OrderNode>, i: nat, edges: set<(nat, nat)>, more: set<(nat, nat)>)
    requires i < |nodes|
  {
    forall a, b | 0 <= a < |nodes| && 0 <= b < |nodes| :: (a, b) in more <==> (a, b) in edges || Says(nodes, i, a, b)
  }

  lemma DeclaredNext(nodes: seq<OrderNode>, i: nat, edges: set<(nat, nat)>, more: set<(nat, nat)>)
    requires i < |nodes| && Declared(nodes, i, edges) && Extends(nodes, i, edges, more)
    ensures Declared(nodes, i + 1, more)
  {
  }

  method CollectBefore(nodes: seq<OrderNode>, i: nat, settled: set<Bytes>, pending: map<Bytes, nat>, graph: Graph)
    returns (st: Status)
    requires i < |nodes| && Indexed(nodes, pending, |nodes|)
    requires graph.size == |nodes| && graph.Shape() && graph.Counts({})
    modifies graph
    ensures graph.Shape() && graph.Counts({})
    ensures st == BeforeVerdict(nodes[i], settled, pending.Keys, |nodes[i].before|)
    ensures st == Ok ==> forall a, b | 0 <= a < |nodes| && 0 <= b < |nodes| ::
              (a, b) in graph.edges <==> (a, b) in old(graph.edges) || SaysBefore(nodes, i, |nodes[i].before|, a, b)
  {
    var node, k := nodes[i], 0;
    while k < |node.before|
      invariant 0 <= k <= |node.before| && BeforeVerdict(node, settled, pending.Keys, k) == Ok
      invariant graph.Shape() && graph.Counts({})
      invariant forall a, b | 0 <= a < |nodes| && 0 <= b < |nodes| ::
                  (a, b) in graph.edges <==> (a, b) in old(graph.edges) || SaysBefore(nodes, i, k, a, b)
    {
      var target := node.before[k];
      st := if target == node.id then Status.Cycle else if target in settled then InvalidState
            else if target !in pending then NotFound else Ok;
      assert st == BeforeVerdict(node, settled, pending.Keys, k + 1);
      if st != Ok {
        BeforeStays(node, settled, pending.Keys, k + 1, |node.before|);
        return;
      }
      graph.AddEdge(i, pending[target]);
      assert node.before[..k + 1] == node.before[..k] + [target];
      k := k + 1;
    }
    st := Ok;
  }

  method CollectAfter(nodes: seq<OrderNode>, i: nat, settled: set<Bytes>, pending: map<Bytes, nat>, graph: Graph)
    returns (st: Status)
    requires i < |nodes| && Indexed(nodes, pending, |nodes|) && settled !! pending.Keys
    requires graph.size == |nodes| && graph.Shape() && graph.Counts({})
    modifies graph
    ensures graph.Shape() && graph.Counts({})
    ensures st == AfterVerdict(nodes[i], settled, pending.Keys, |nodes[i].after|)
    ensures st == Ok ==> forall a, b | 0 <= a < |nodes| && 0 <= b < |nodes| ::
              (a, b) in graph.edges <==> (a, b) in old(graph.edges) || SaysAfter(nodes, i, |nodes[i].after|, a, b)
  {
    var node, k := nodes[i], 0;
    while k < |node.after|
      invariant 0 <= k <= |node.after| && AfterVerdict(node, settled, pending.Keys, k) == Ok
      invariant graph.Shape() && graph.Counts({})
      invariant forall a, b | 0 <= a < |nodes| && 0 <= b < |nodes| ::
                  (a, b) in graph.edges <==> (a, b) in old(graph.edges) || SaysAfter(nodes, i, k, a, b)
    {
      var target := node.after[k];
      st := if target == node.id then Status.Cycle else if target in settled then Ok
            else if target !in pending then NotFound else Ok;
      assert st == AfterVerdict(node, settled, pending.Keys, k + 1);
      if st != Ok {
        AfterStays(node, settled, pending.Keys, k + 1, |node.after|);
        return;
      }
      // A settled target already satisfies the constraint; it adds no edge.
      if target !in settled { graph.AddEdge(pending[target], i); }
      assert node.after[..k + 1] == node.after[..k] + [target];
      k := k + 1;
    }
    st := Ok;
  }

  /** The edges node `i` declares, from either list. */
  predicate Says(nodes: seq<OrderNode>, i: nat, a: nat, b: nat)
    requires i < |nodes| && a < |nodes| && b < |nodes|
  {
    (a == i && nodes[b].id in nodes[i].before) || (b == i && nodes[a].id in nodes[i].after)
  }

  method CollectNode(nodes: seq<OrderNode>, i: nat, settled: set<Bytes>, pending: map<Bytes, nat>, graph: Graph)
    returns (st: Status)
    requires i < |nodes| && Indexed(nodes, pending, |nodes|) && settled !! pending.Keys
    requires graph.size == |nodes| && graph.Shape() && graph.Counts({})
    modifies graph
    ensures graph.Shape() && graph.Counts({})
    ensures st == NodeVerdict(nodes[i], settled, pending.Keys)
    ensures st == Ok ==> Extends(nodes, i, old(graph.edges), graph.edges)
  {
    st := CollectBefore(nodes, i, settled, pending, graph);
    if st == Ok { st := CollectAfter(nodes, i, settled, pending, graph); }
    assert nodes[i].before[..|nodes[i].before|] == nodes[i].before;
    assert nodes[i].after[..|nodes[i].after|] == nodes[i].after;
  }

  /** Derive the hard edges; a clean result holds exactly the edges between the given nodes. */
  method CollectEdges(nodes: seq<OrderNode>, settled: set<Bytes>, pending: map<Bytes, nat>)
    returns (st: Status, graph: Graph)
    requires Indexed(nodes, pending, |nodes|) && settled !! pending.Keys
    ensures st == ConstraintVerdict(nodes, settled, pending.Keys, |nodes|)
    ensures fresh(graph) && graph.size == |nodes| && graph.Shape() && graph.Counts({})
    ensures st == Ok ==> forall a, b | 0 <= a < |nodes| && 0 <= b < |nodes| ::
              (a, b) in graph.edges <==> Edge(nodes[a], nodes[b])
  {
    hide Extends, Declared, NodeVerdict, Indexed, Waiting, Lists;
    graph := new Graph(|nodes|);
    var i := 0;
    NoneDeclared(nodes);
    while i < |nodes|
      invariant 0 <= i <= |nodes| && forall k | 0 <= k < i :: NodeVerdict(nodes[k], settled, pending.Keys) == Ok
      invariant graph.Shape() && graph.Counts({}) && Declared(nodes, i, graph.edges)
    {
      ghost var before := graph.edges;
      st := CollectNode(nodes, i, settled, pending, graph);
      if st != Ok {
        FirstFault(nodes, settled, pending.Keys, i, |nodes|);
        return;
      }
      DeclaredNext(nodes, i, before, graph.edges);
      i := i + 1;
    }
    st := Ok;
    AllDeclared(nodes, graph.edges);
  }

  lemma NoneDeclared(nodes: seq<OrderNode>)
    ensures Declared(nodes, 0, {})
  {
  }

  lemma AllDeclared(nodes: seq<OrderNode>, edges: set<(nat, nat)>)
    requires Declared(nodes, |nodes|, edges)
    ensures forall a, b | 0 <= a < |nodes| && 0 <= b < |nodes| :: (a, b) in edges <==> Edge(nodes[a], nodes[b])
  {
  }

  // ---- scheduling -----------------------------------------------------------------------------

  ghost predicate Distinct(nodes: seq<OrderNode>) {
    forall i, j | 0 <= i < j < |nodes| :: nodes[i].id != nodes[j].id
  }

  ghost predicate DistinctIndices(out: seq<nat>, size: nat) {
    && (forall k | 0 <= k < |out| :: out[k] < size)
    && (forall a, b | 0 <= a < b < |out| :: out[a] != out[b])
  }

  /** The nodes a sequence of indices names. */
  function Picked(nodes: seq<OrderNode>, out: seq<nat>): (r: seq<OrderNode>)
    requires forall k | 0 <= k < |out| :: out[k] < |nodes|
    ensures |r| == |out| && forall k | 0 <= k < |out| :: r[k] == nodes[out[k]]
  {
    seq(|out|, k requires 0 <= k < |out| => nodes[out[k]])
  }

  lemma WaitingAfter(edges: set<(nat, nat)>, size: nat, done: set<nat>, index: nat, j: nat)
    requires index < size && index !in done
    ensures |Waiting(edges, size, done + {index}, j)|
            == |Waiting(edges, size, done, j)| - (if (index, j) in edges then 1 else 0)
  {
    var before, after := Waiting(edges, size, done, j), Waiting(edges, size, done + {index}, j);
    if (index, j) in edges { assert before == after + {index}; } else { assert before == after; }
  }

  /** A node's predecessors are all placed exactly when its counter has run down to zero. */
  lemma ReadyIndex(nodes: seq<OrderNode>, edges: set<(nat, nat)>, out: seq<nat>, j: nat)
    requires Distinct(nodes) && DistinctIndices(out, |nodes|) && j < |nodes|
    requires forall a, b | 0 <= a < |nodes| && 0 <= b < |nodes| :: (a, b) in edges <==> Edge(nodes[a], nodes[b])
    ensures Ready(Elements(nodes), Picked(nodes, out), nodes[j])
            <==> j !in out && |Waiting(edges, |nodes|, Elements(out), j)| == 0
  {
    var placed, waiting := Picked(nodes, out), Waiting(edges, |nodes|, Elements(out), j);
    forall i | 0 <= i < |nodes| ensures nodes[i] in placed <==> i in out {
      if i in out { var k :| 0 <= k < |out| && out[k] == i; assert placed[k] == nodes[i]; }
    }
    if Ready(Elements(nodes), placed, nodes[j]) {
      assert waiting == {};
    }
    if |waiting| == 0 && j !in out {
      assert waiting == {};
      forall x | x in Elements(nodes) && Edge(x, nodes[j]) ensures x in placed {
        var i :| 0 <= i < |nodes| && nodes[i] == x;
        assert i !in waiting;
      }
    }
  }

  function Range(size: nat): (r: set<nat>)
    ensures |r| == size && forall i: nat :: i in r <==> i < size
  {
    if size == 0 then {} else Range(size - 1) + {size - 1}
  }

  lemma {:induction false} IndexPigeonhole(out: seq<nat>, size: nat)
    requires DistinctIndices(out, size)
    ensures |out| <= size
    ensures |out| == size ==> forall j | 0 <= j < size :: j in out
  {
    SizeOfDistinct(out);
    SubsetSize(Elements(out), Range(size));
    if |out| == size {
      if Elements(out) != Range(size) { StrictSubsetSize(Elements(out), Range(size)); }
      forall j | 0 <= j < size ensures j in out { assert j in Range(size); }
    }
  }

  lemma {:induction false} SizeOfDistinct(out: seq<nat>)
    requires forall a, b | 0 <= a < b < |out| :: out[a] != out[b]
    ensures |Elements(out)| == |out|
  {
    if out != [] {
      SizeOfDistinct(out[..|out| - 1]);
      assert Elements(out) == Elements(out[..|out| - 1]) + {out[|out| - 1]};
    }
  }

  lemma {:induction false} SubsetSize(a: set<nat>, b: set<nat>)
    requires a <= b
    ensures |a| <= |b|
  {
    if x :| x in a { SubsetSize(a - {x}, b - {x}); }
  }

  lemma StrictSubsetSize(a: set<nat>, b: set<nat>)
    requires a < b
    ensures |a| < |b|
  {
    var x :| x in b && x !in a;
    SubsetSize(a, b - {x});
  }

  lemma PrecedesTotal(x: OrderNode, y: OrderNode)
    requires x.id != y.id
    ensures Precedes(x, y) || Precedes(y, x)
  {
    LessTotal(x.id, y.id);
  }

  lemma PrecedesTransitive(x: OrderNode, y: OrderNode, z: OrderNode)
    requires Precedes(x, y) && Precedes(y, z)
    ensures Precedes(x, z)
  {
    if x.priority == y.priority && y.priority == z.priority { LessTransitive(x.id, y.id, z.id); }
  }

  /** The position of the least ready node. */
  method PickBest(nodes: seq<OrderNode>, ready: seq<nat>) returns (best: nat)
    requires ready != [] && Distinct(nodes) && DistinctIndices(ready, |nodes|)
    ensures best < |ready|
    ensures forall k | 0 <= k < |ready| && k != best :: Precedes(nodes[ready[best]], nodes[ready[k]])
    ensures forall k | 0 <= k < |ready| && k != best ::
              var x, y := nodes[ready[best]], nodes[ready[k]];
              x.priority < y.priority || (x.priority == y.priority && SortsFirst(x.id, y.id))
  {
    best := 0;
    var candidate := 1;
    while candidate < |ready|
      invariant 1 <= candidate <= |ready| && best < candidate
      invariant forall k | 0 <= k < candidate && k != best :: Precedes(nodes[ready[best]], nodes[ready[k]])
    {
      var challenger, champion := nodes[ready[candidate]], nodes[ready[best]];
      PrecedesTotal(challenger, champion);
      if Precedes(challenger, champion) {
        forall k | 0 <= k < candidate && k != best ensures Precedes(challenger, nodes[ready[k]]) {
          PrecedesTransitive(challenger, champion, nodes[ready[k]]);
        }
        best := candidate;
      }
      candidate := candidate + 1;
    }
    forall k | 0 <= k < |ready| && k != best
      ensures var x, y := nodes[ready[best]], nodes[ready[k]];
              x.priority < y.priority || (x.priority == y.priority && SortsFirst(x.id, y.id))
    {
      PrecedesMeans(nodes[ready[best]], nodes[ready[k]]);
    }
  }

  /** Exactly the unplaced nodes whose counters are zero, each once. */
  ghost predicate ReadyList(ready: seq<nat>, indegree: seq<nat>, out: seq<nat>) {
    && DistinctIndices(ready, |indegree|)
    && (forall j | 0 <= j < |indegree| :: j in ready <==> j !in out && indegree[j] == 0)
  }

  method FirstReady(graph: Graph) returns (ready: seq<nat>)
    requires graph.Shape()
    ensures ReadyList(ready, graph.indegree, [])
  {
    ready := [];
    var i := 0;
    while i < graph.size
      invariant 0 <= i <= graph.size
      invariant DistinctIndices(ready, i)
      invariant forall j | 0 <= j < i :: j in ready <==> graph.indegree[j] == 0
    {
      if graph.indegree[i] == 0 { ready := ready + [i]; }
      i := i + 1;
    }
  }

  /** One scheduling step: the least ready node is what the rules say comes next. */
  lemma StepIsGreedy(nodes: seq<OrderNode>, edges: set<(nat, nat)>, indegree: seq<nat>, ready: seq<nat>, out: seq<nat>, best: nat)
    requires Distinct(nodes) && DistinctIndices(out, |nodes|) && |indegree| == |nodes| && ReadyList(ready, indegree, out)
    requires forall a, b | 0 <= a < |nodes| && 0 <= b < |nodes| :: (a, b) in edges <==> Edge(nodes[a], nodes[b])
    requires forall j | 0 <= j < |nodes| :: indegree[j] == |Waiting(edges, |nodes|, Elements(out), j)|
    requires best < |ready| && forall k | 0 <= k < |ready| && k != best :: Precedes(nodes[ready[best]], nodes[ready[k]])
    ensures Next(Elements(nodes), Picked(nodes, out), nodes[ready[best]])
  {
    var placed, chosen := Picked(nodes, out), nodes[ready[best]];
    assert ready[best] in ready;
    ReadyIndex(nodes, edges, out, ready[best]);
    forall z | Ready(Elements(nodes), placed, z) && z != chosen ensures Precedes(chosen, z) {
      var j :| 0 <= j < |nodes| && nodes[j] == z;
      ReadyIndex(nodes, edges, out, j);
      var k :| 0 <= k < |ready| && ready[k] == j;
    }
  }

  lemma {:induction false} GreedyGrows(nodes: seq<OrderNode>, out: seq<nat>, index: nat)
    requires index < |nodes| && forall k | 0 <= k < |out| :: out[k] < |nodes|
    requires Greedy(Elements(nodes), Picked(nodes, out)) && Next(Elements(nodes), Picked(nodes, out), nodes[index])
    ensures Greedy(Elements(nodes), Picked(nodes, out + [index]))
  {
    var before, after := Picked(nodes, out), Picked(nodes, out + [index]);
    assert after == before + [nodes[index]];
    forall k | 0 <= k < |after| ensures Next(Elements(nodes), after[..k], after[k]) {
      assert after[..k] == before[..k];
      if k == |before| { assert before[..k] == before; }
    }
  }

  /** With no ready node left, the run is maximal. */
  lemma StuckIsMaximal(nodes: seq<OrderNode>, edges: set<(nat, nat)>, indegree: seq<nat>, out: seq<nat>)
    requires Distinct(nodes) && DistinctIndices(out, |nodes|) && |indegree| == |nodes| && ReadyList([], indegree, out)
    requires forall a, b | 0 <= a < |nodes| && 0 <= b < |nodes| :: (a, b) in edges <==> Edge(nodes[a], nodes[b])
    requires forall j | 0 <= j < |nodes| :: indegree[j] == |Waiting(edges, |nodes|, Elements(out), j)|
    requires Greedy(Elements(nodes), Picked(nodes, out))
    ensures Maximal(Elements(nodes), Picked(nodes, out))
  {
    forall y ensures !Ready(Elements(nodes), Picked(nodes, out), y) {
      if y in Elements(nodes) {
        var j :| 0 <= j < |nodes| && nodes[j] == y;
        ReadyIndex(nodes, edges, out, j);
        assert j !in [];
      }
    }
  }

  /** Taking the best node out of the ready list and adding the freed ones keeps the list exact. */
  lemma ReadyAfter(ready: seq<nat>, before: seq<nat>, after: seq<nat>, out: seq<nat>, best: nat, freed: seq<nat>, edges: set<(nat, nat)>)
    requires |before| == |after| && ReadyList(ready, before, out) && best < |ready|
    requires DistinctIndices(freed, |after|) && forall j | 0 <= j < |before| && j in out :: before[j] == 0
    requires forall j | 0 <= j < |after| :: j in freed <==> (ready[best], j) in edges && after[j] == 0
    requires forall j | 0 <= j < |after| && (ready[best], j) !in edges :: after[j] == before[j]
    requires forall j | 0 <= j < |after| && (ready[best], j) in edges :: before[j] == after[j] + 1
    ensures ready[best] !in out
    ensures ready[best] !in freed ==> ReadyList(ready[..best] + ready[best + 1..] + freed, after, out + [ready[best]])
  {
    var rest, index := ready[..best] + ready[best + 1..], ready[best];
    assert index in ready;
    forall k | 0 <= k < |rest| ensures rest[k] in ready && rest[k] != index {
      assert rest[k] == ready[if k < best then k else k + 1];
    }
    forall j | j in ready && j != index ensures j in rest {
      var k :| 0 <= k < |ready| && ready[k] == j;
      assert rest[if k < best then k else k - 1] == j;
    }
    if index !in freed {
      var all := rest + freed;
      forall a, b | 0 <= a < b < |all| ensures all[a] != all[b] {
        if a < |rest| <= b { assert all[b] in freed && before[all[a]] == 0; }
      }
      forall j | 0 <= j < |after| ensures j in all <==> j !in out + [index] && after[j] == 0 {
        assert j in all <==> j in rest || j in freed;
      }
    }
  }

  /** The loop's state: counters, ready list and the greedy sequence so far agree. */
  ghost predicate Scheduling(nodes: seq<OrderNode>, edges: set<(nat, nat)>, indegree: seq<nat>, ready: seq<nat>, out: seq<nat>) {
    && Distinct(nodes) && |indegree| == |nodes|
    && DistinctIndices(out, |nodes|) && ReadyList(ready, indegree, out)
    && (forall a, b | 0 <= a < |nodes| && 0 <= b < |nodes| :: (a, b) in edges <==> Edge(nodes[a], nodes[b]))
    && (forall j | 0 <= j < |nodes| :: indegree[j] == |Waiting(edges, |nodes|, Elements(out), j)|)
    && (forall j | 0 <= j < |nodes| && j in out :: indegree[j] == 0)
    && Greedy(Elements(nodes), Picked(nodes, out))
  }

  lemma SchedulingStep(nodes: seq<OrderNode>, edges: set<(nat, nat)>, before: seq<nat>, after: seq<nat>, ready: seq<nat>,
                       out: seq<nat>, best: nat, freed: seq<nat>)
    requires Scheduling(nodes, edges, before, ready, out) && best < |ready| && |after| == |nodes|
    requires forall k | 0 <= k < |ready| && k != best :: Precedes(nodes[ready[best]], nodes[ready[k]])
    requires DistinctIndices(freed, |after|)
    requires forall j | 0 <= j < |after| :: j in freed <==> (ready[best], j) in edges && after[j] == 0
    requires forall j | 0 <= j < |after| && (ready[best], j) !in edges :: after[j] == before[j]
    requires forall j | 0 <= j < |after| && (ready[best], j) in edges :: before[j] == after[j] + 1
    requires forall j | 0 <= j < |after| :: after[j] == |Waiting(edges, |nodes|, Elements(out) + {ready[best]}, j)|
    ensures Scheduling(nodes, edges, after, ready[..best] + ready[best + 1..] + freed, out + [ready[best]])
    ensures |out| < |nodes|
  {
    hide Greedy, Next, Precedes, Waiting;
    var index := ready[best];
    assert index in ready;
    StepIsGreedy(nodes, edges, before, ready, out, best);
    GreedyGrows(nodes, out, index);
    ReadyAfter(ready, before, after, out, best, freed, edges);
    assert Elements(out + [index]) == Elements(out) + {index};
    IndexPigeonhole(out + [index], |nodes|);
  }

  /** Kahn's loop: place the least ready node until none is left. */
  method Schedule(nodes: seq<OrderNode>, graph: Graph) returns (out: seq<nat>)
    requires graph.size == |nodes| && graph.Shape() && graph.Counts({}) && Distinct(nodes)
    requires forall a, b | 0 <= a < |nodes| && 0 <= b < |nodes| :: (a, b) in graph.edges <==> Edge(nodes[a], nodes[b])
    modifies graph`indegree
    ensures DistinctIndices(out, |nodes|) && Maximal(Elements(nodes), Picked(nodes, out))
    ensures graph.Shape() && graph.Counts(Elements(out))
    ensures forall j | 0 <= j < |nodes| :: j in out <==> graph.indegree[j] == 0
  {
    hide Scheduling, Lists, Precedes, Waiting;
    out := [];
    assert Elements(out) == {};
    var ready := FirstReady(graph);
    assert Scheduling(nodes, graph.edges, graph.indegree, ready, out) by {
      SchedulingStarts(nodes, graph.edges, graph.indegree, ready);
    }
    while ready != []
      invariant graph.Shape() && graph.Counts(Elements(out))
      invariant Scheduling(nodes, graph.edges, graph.indegree, ready, out)
      decreases |nodes| - |out|
    {
      SchedulingFacts(nodes, graph.edges, graph.indegree, ready, out);
      var best := PickBest(nodes, ready);
      var index := ready[best];
      ghost var before := graph.indegree;
      assert index in ready;
      var freed := graph.Settle(index, Elements(out));
      SchedulingStep(nodes, graph.edges, before, graph.indegree, ready, out, best, freed);
      assert Elements(out + [index]) == Elements(out) + {index};
      ready := ready[..best] + ready[best + 1..] + freed;
      out := out + [index];
    }
    SchedulingEnds(nodes, graph.edges, graph.indegree, out);
  }

  lemma SchedulingStarts(nodes: seq<OrderNode>, edges: set<(nat, nat)>, indegree: seq<nat>, ready: seq<nat>)
    requires Distinct(nodes) && |indegree| == |nodes| && ReadyList(ready, indegree, [])
    requires forall a, b | 0 <= a < |nodes| && 0 <= b < |nodes| :: (a, b) in edges <==> Edge(nodes[a], nodes[b])
    requires forall j | 0 <= j < |nodes| :: indegree[j] == |Waiting(edges, |nodes|, {}, j)|
    ensures Scheduling(nodes, edges, indegree, ready, []) && Elements<nat>([]) == {}
  {
    assert Elements<nat>([]) == {};
    EmptyIsGreedy(Elements(nodes));
  }

  lemma SchedulingFacts(nodes: seq<OrderNode>, edges: set<(nat, nat)>, indegree: seq<nat>, ready: seq<nat>, out: seq<nat>)
    requires Scheduling(nodes, edges, indegree, ready, out)
    ensures DistinctIndices(out, |nodes|) && DistinctIndices(ready, |nodes|) && forall j | j in ready :: j !in out
  {
    forall j | j in ready ensures j !in out { var k :| 0 <= k < |ready| && ready[k] == j; }
  }

  lemma SchedulingEnds(nodes: seq<OrderNode>, edges: set<(nat, nat)>, indegree: seq<nat>, out: seq<nat>)
    requires Scheduling(nodes, edges, indegree, [], out)
    ensures DistinctIndices(out, |nodes|) && Maximal(Elements(nodes), Picked(nodes, out))
    ensures forall j | 0 <= j < |nodes| :: j in out <==> indegree[j] == 0
  {
    hide Maximal, Greedy, Waiting;
    StuckIsMaximal(nodes, edges, indegree, out);
    assert forall j: nat :: j !in [];
  }

  lemma EmptyIsGreedy(nodes: set<OrderNode>)
    ensures Greedy(nodes, [])
  {
  }

  /** The C++ planner. Success yields every index once, in the one order the rules allow; a cycle
      yields the blocked identities in ascending order. */
  method PlanOrder(nodes: seq<OrderNode>, initialized: seq<Bytes>)
    returns (st: Status, out: seq<nat>, blocked: seq<Bytes>)
    ensures st == PlanVerdict(nodes, initialized)
    ensures st == Ok ==>
              && |out| == |nodes| && DistinctIndices(out, |nodes|)
              && IsPlan(Elements(nodes), Picked(nodes, out)) && InPlanOrder(Picked(nodes, out))
    ensures st != Ok ==> out == []
    ensures st != Ok && InputVerdict(nodes, initialized) == Ok ==>
              && (forall id :: id in blocked <==> exists i | 0 <= i < |nodes| :: nodes[i].id == id && Blocked(Elements(nodes), nodes[i]))
              && (forall i, j | 0 <= i < j < |blocked| :: BytesLess(blocked[i], blocked[j]))
  {
    hide Maximal, Blocked, PlanRules.Cycle, IsPlan, InPlanOrder, ConstraintVerdict, Ascending;
    out, blocked := [], [];
    var pending, settled, graph;
    st, pending := CheckPending(nodes);
    if st != Ok { return; }
    st, settled := CheckInitialized(nodes, initialized, pending);
    if st != Ok { return; }
    SettledApart(nodes, initialized, pending);
    st, graph := CollectEdges(nodes, settled, pending);
    if st != Ok { return; }
    PendingDistinct(nodes);
    out := Schedule(nodes, graph);
    IndexPigeonhole(out, |nodes|);
    PlanIffAcyclic(Elements(nodes), Picked(nodes, out));
    if |out| == |nodes| {
      AllPlaced(nodes, out);
      return;
    }
    SomeLeftOut(nodes, out);
    blocked := Ascending(set i | 0 <= i < |nodes| && i !in out :: nodes[i].id);
    BlockedIndices(nodes, out);
    return Status.Cycle, [], blocked;
  }

  lemma PendingDistinct(nodes: seq<OrderNode>)
    requires PendingVerdict(nodes, |nodes|) == Ok
    ensures Distinct(nodes)
  {
    forall i, j | 0 <= i < j < |nodes| ensures nodes[i].id != nodes[j].id { assert PendingFault(nodes, j) == Ok; }
  }

  lemma SettledApart(nodes: seq<OrderNode>, initialized: seq<Bytes>, pending: map<Bytes, nat>)
    requires InitializedVerdict(nodes, initialized, |initialized|) == Ok && Indexed(nodes, pending, |nodes|)
    ensures Elements(initialized) !! pending.Keys && pending.Keys == Ids(nodes)
  {
    forall x | x in Elements(initialized) ensures x !in pending {
      var k :| 0 <= k < |initialized| && initialized[k] == x;
      assert InitializedFault(nodes, initialized, k) == Ok;
    }
  }

  lemma AllPlaced(nodes: seq<OrderNode>, out: seq<nat>)
    requires DistinctIndices(out, |nodes|) && |out| == |nodes| && Maximal(Elements(nodes), Picked(nodes, out))
    ensures IsPlan(Elements(nodes), Picked(nodes, out)) && InPlanOrder(Picked(nodes, out))
  {
    IndexPigeonhole(out, |nodes|);
    forall x | x in Elements(nodes) ensures x in Picked(nodes, out) {
      var j :| 0 <= j < |nodes| && nodes[j] == x;
      assert j in out;
      var k :| 0 <= k < |out| && out[k] == j;
      assert Picked(nodes, out)[k] == x;
    }
    PlanInOrder(Elements(nodes), Picked(nodes, out));
  }

  lemma SomeLeftOut(nodes: seq<OrderNode>, out: seq<nat>)
    requires Distinct(nodes) && DistinctIndices(out, |nodes|) && |out| < |nodes|
    ensures !IsPlan(Elements(nodes), Picked(nodes, out))
  {
    if forall j | 0 <= j < |nodes| :: j in out {
      SizeOfDistinct(out);
      SubsetSize(Range(|nodes|), Elements(out));
    }
    var j :| 0 <= j < |nodes| && j !in out;
    PickedMembers(nodes, out, j);
  }

  lemma PickedMembers(nodes: seq<OrderNode>, out: seq<nat>, j: nat)
    requires Distinct(nodes) && DistinctIndices(out, |nodes|) && j < |nodes|
    ensures nodes[j] in Picked(nodes, out) <==> j in out
  {
    if j in out {
      var k :| 0 <= k < |out| && out[k] == j;
      assert Picked(nodes, out)[k] == nodes[j];
    }
  }

  /** The indices the schedule left out are those of the blocked nodes. */
  lemma BlockedIndices(nodes: seq<OrderNode>, out: seq<nat>)
    requires Distinct(nodes) && DistinctIndices(out, |nodes|) && Maximal(Elements(nodes), Picked(nodes, out))
    ensures forall i | 0 <= i < |nodes| :: i !in out <==> Blocked(Elements(nodes), nodes[i])
  {
    forall i | 0 <= i < |nodes| ensures i !in out <==> Blocked(Elements(nodes), nodes[i]) {
      PickedMembers(nodes, out, i);
      LeftOutIffBlocked(Elements(nodes), Picked(nodes, out), nodes[i]);
    }
  }

  /** The plan's identities depend on which nodes were given, not on their order: whatever planner
      produced them, and however the input was permuted. */
  lemma PermutationInvariant(nodes: seq<OrderNode>, nodes': seq<OrderNode>, out: seq<nat>, out': seq<nat>)
    requires multiset(nodes) == multiset(nodes')
    requires DistinctIndices(out, |nodes|) && IsPlan(Elements(nodes), Picked(nodes, out))
    requires DistinctIndices(out', |nodes'|) && IsPlan(Elements(nodes'), Picked(nodes', out'))
    ensures Picked(nodes, out) == Picked(nodes', out')
  {
    assert forall x :: x in nodes <==> x in multiset(nodes);
    assert forall x :: x in nodes' <==> x in multiset(nodes');
    assert Elements(nodes) == Elements(nodes');
    PlanUnique(Elements(nodes), Picked(nodes, out), Picked(nodes', out'));
  }

  // ---- which inputs can be planned ------------------------------------------------------------

  /** Every identity is new and non-empty, and every constraint names another pending node, or, for
      `after`, something already initialized. */
  ghost predicate Sensible(nodes: set<OrderNode>, settled: set<Bytes>) {
    forall x | x in nodes ::
      x.id != [] && x.id !in settled && NodeSound(nodes, settled, x)
  }

  ghost predicate Known(nodes: set<OrderNode>, id: Bytes) {
    exists y | y in nodes :: y.id == id
  }

  ghost predicate Acyclic(nodes: set<OrderNode>) {
    !exists p :: PlanRules.Cycle(nodes, p)
  }

  predicate CleanList(initialized: seq<Bytes>) {
    && (forall i | 0 <= i < |initialized| :: initialized[i] != [])
    && (forall i, j | 0 <= i < j < |initialized| :: initialized[i] != initialized[j])
  }

  lemma IdsKnown(nodes: seq<OrderNode>, id: Bytes)
    ensures id in Ids(nodes) <==> Known(Elements(nodes), id)
  {
    if Known(Elements(nodes), id) {
      var y :| y in Elements(nodes) && y.id == id;
      var k :| 0 <= k < |nodes| && nodes[k] == y;
    }
    if id in Ids(nodes) {
      var k :| 0 <= k < |nodes| && nodes[k].id == id;
      assert nodes[k] in Elements(nodes);
    }
  }

  /** One node's constraints name what they may name. */
  ghost predicate NodeSound(nodes: set<OrderNode>, settled: set<Bytes>, x: OrderNode) {
    && (forall t | t in x.before :: t != x.id && t !in settled && Known(nodes, t))
    && (forall t | t in x.after :: t != x.id && (t in settled || Known(nodes, t)))
  }

  lemma NodeSensible(nodes: seq<OrderNode>, settled: set<Bytes>, x: OrderNode)
    ensures NodeVerdict(x, settled, Ids(nodes)) == Ok <==> NodeSound(Elements(nodes), settled, x)
  {
    hide Known;
    forall t ensures t in Ids(nodes) <==> Known(Elements(nodes), t) { IdsKnown(nodes, t); }
    if NodeVerdict(x, settled, Ids(nodes)) == Ok {
      forall t | t in x.before ensures t != x.id && t !in settled && Known(Elements(nodes), t) {
        var k :| 0 <= k < |x.before| && x.before[k] == t;
        assert BeforeFault(x, settled, Ids(nodes), x.before[k]) == Ok;
      }
      forall t | t in x.after ensures t != x.id && (t in settled || Known(Elements(nodes), t)) {
        var k :| 0 <= k < |x.after| && x.after[k] == t;
        assert AfterFault(x, settled, Ids(nodes), x.after[k]) == Ok;
      }
    }
    if NodeSound(Elements(nodes), settled, x) {
      forall k | 0 <= k < |x.before| ensures BeforeFault(x, settled, Ids(nodes), x.before[k]) == Ok { assert x.before[k] in x.before; }
      forall k | 0 <= k < |x.after| ensures AfterFault(x, settled, Ids(nodes), x.after[k]) == Ok { assert x.after[k] in x.after; }
    }
  }

  lemma PendingSensible(nodes: seq<OrderNode>)
    ensures PendingVerdict(nodes, |nodes|) == Ok <==> Distinct(nodes) && forall i | 0 <= i < |nodes| :: nodes[i].id != []
  {
    if PendingVerdict(nodes, |nodes|) == Ok {
      PendingDistinct(nodes);
      forall i | 0 <= i < |nodes| ensures nodes[i].id != [] { assert PendingFault(nodes, i) == Ok; }
    }
  }

  lemma InitializedSensible(nodes: seq<OrderNode>, initialized: seq<Bytes>)
    ensures InitializedVerdict(nodes, initialized, |initialized|) == Ok
            <==> CleanList(initialized) && forall i | 0 <= i < |nodes| :: nodes[i].id !in Elements(initialized)
  {
    if InitializedVerdict(nodes, initialized, |initialized|) == Ok {
      forall i | 0 <= i < |initialized|
        ensures initialized[i] != [] && (forall j | 0 <= j < i :: initialized[j] != initialized[i])
                && (forall j | 0 <= j < |nodes| :: nodes[j].id != initialized[i])
      {
        assert InitializedFault(nodes, initialized, i) == Ok;
      }
    }
    if CleanList(initialized) && forall i | 0 <= i < |nodes| :: nodes[i].id !in Elements(initialized) {
      forall i | 0 <= i < |initialized| ensures InitializedFault(nodes, initialized, i) == Ok {
        assert initialized[i] in Elements(initialized);
      }
    }
  }

  /** The C++ planner accepts exactly the sensible, acyclic inputs with a clean initialized list. */
  lemma PlannableIff(nodes: seq<OrderNode>, initialized: seq<Bytes>)
    ensures PlanVerdict(nodes, initialized) == Ok
            <==> Distinct(nodes) && CleanList(initialized)
                 && Sensible(Elements(nodes), Elements(initialized)) && Acyclic(Elements(nodes))
  {
    hide NodeVerdict, NodeSound, PlanRules.Cycle, PendingFault, InitializedFault, PendingVerdict, InitializedVerdict;
    PendingSensible(nodes);
    InitializedSensible(nodes, initialized);
    forall x ensures NodeVerdict(x, Elements(initialized), Ids(nodes)) == Ok <==> NodeSound(Elements(nodes), Elements(initialized), x) {
      NodeSensible(nodes, Elements(initialized), x);
    }
    forall i | 0 <= i < |nodes| ensures nodes[i] in Elements(nodes) { }
  }

  lemma SharedMultiplicity(nodes: seq<OrderNode>, i: nat, j: nat)
    requires i < j < |nodes| && nodes[i] == nodes[j]
    ensures multiset(nodes)[nodes[i]] >= 2
  {
    assert nodes == nodes[..i] + [nodes[i]] + nodes[i + 1..j] + [nodes[j]] + nodes[j + 1..];
  }

  lemma {:induction false} SingleMultiplicity(nodes: seq<OrderNode>, x: OrderNode)
    requires Distinct(nodes)
    ensures multiset(nodes)[x] <= 1
  {
    if nodes != [] {
      var last := nodes[|nodes| - 1];
      SingleMultiplicity(nodes[..|nodes| - 1], x);
      assert nodes == nodes[..|nodes| - 1] + [last];
      if x == last { assert last !in nodes[..|nodes| - 1]; }
    }
  }

  lemma DistinctInvariant(nodes: seq<OrderNode>, nodes': seq<OrderNode>)
    requires multiset(nodes) == multiset(nodes') && Distinct(nodes)
    ensures Distinct(nodes')
  {
    forall i, j | 0 <= i < j < |nodes'| ensures nodes'[i].id != nodes'[j].id {
      assert nodes'[i] in multiset(nodes') && nodes'[j] in multiset(nodes');
      assert nodes'[i] in nodes && nodes'[j] in nodes;
      if nodes'[i] == nodes'[j] {
        SharedMultiplicity(nodes', i, j);
        SingleMultiplicity(nodes, nodes'[i]);
      }
    }
  }

  /** Whether an input can be planned does not depend on the order of the nodes either. */
  lemma AcceptanceInvariant(nodes: seq<OrderNode>, nodes': seq<OrderNode>, initialized: seq<Bytes>)
    requires multiset(nodes) == multiset(nodes')
    ensures PlanVerdict(nodes, initialized) == Ok <==> PlanVerdict(nodes', initialized) == Ok
  {
    hide PlanVerdict, PlanRules.Cycle, Sensible;
    PlannableIff(nodes, initialized);
    PlannableIff(nodes', initialized);
    assert forall x :: x in nodes <==> x in multiset(nodes);
    assert forall x :: x in nodes' <==> x in multiset(nodes');
    assert Elements(nodes) == Elements(nodes');
    if Distinct(nodes) { DistinctInvariant(nodes, nodes'); }
    if Distinct(nodes') { DistinctInvariant(nodes', nodes); }
  }
}
