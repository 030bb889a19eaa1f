/**
 * What an initialization plan is. Nodes are compared by (priority, identity bytes); a hard edge may be
 * declared from either endpoint. The rules speak of a set of nodes, so nothing here depends on the
 * order in which they were handed to a planner.
 */
module PlanRules {
  import opened Base
  import opened Ordering

  /** `x` must be initialized before `y`, whichever of the two declares it. */
  predicate Edge(x: OrderNode, y: OrderNode) {
    y.id in x.before || x.id in y.after
  }

  /** Ascending priority, then identity bytes. */
  predicate Precedes(x: OrderNode, y: OrderNode) {
    x.priority < y.priority || (x.priority == y.priority && BytesLess(x.id, y.id))
  }

  ghost predicate Ready(nodes: set<OrderNode>, placed: seq<OrderNode>, y: OrderNode) {
    y in nodes && y !in placed && forall x | x in nodes && Edge(x, y) :: x in placed
  }

  /** The one node to place next: ready, and ahead of every other ready node. */
  ghost predicate Next(nodes: set<OrderNode>, placed: seq<OrderNode>, y: OrderNode) {
    Ready(nodes, placed, y) && forall z | Ready(nodes, placed, z) && z != y :: Precedes(y, z)
  }

  ghost predicate Greedy(nodes: set<OrderNode>, plan: seq<OrderNode>) {
    forall k | 0 <= k < |plan| :: Next(nodes, plan[..k], plan[k])
  }

  /** A greedy sequence that cannot be continued. */
  ghost predicate Maximal(nodes: set<OrderNode>, plan: seq<OrderNode>) {
    Greedy(nodes, plan) && forall y :: !Ready(nodes, plan, y)
  }

  /** A plan places every node, each after all its predecessors, always taking the least ready one. */
  ghost predicate IsPlan(nodes: set<OrderNode>, plan: seq<OrderNode>) {
    Greedy(nodes, plan) && forall x | x in nodes :: x in plan
  }

  lemma PrecedesAsymmetric(x: OrderNode, y: OrderNode)
    requires Precedes(x, y)
    ensures !Precedes(y, x)
  {
    if x.priority == y.priority { LessAsymmetric(x.id, y.id); }
  }

  lemma NextUnique(nodes: set<OrderNode>, placed: seq<OrderNode>, y: OrderNode, z: OrderNode)
    requires Next(nodes, placed, y) && Next(nodes, placed, z)
    ensures y == z
  {
    if y != z { PrecedesAsymmetric(y, z); }
  }

  /** Two greedy sequences agree as far as both go. */
  lemma {:induction false} GreedyAgree(nodes: set<OrderNode>, p: seq<OrderNode>, q: seq<OrderNode>, k: nat)
    requires Greedy(nodes, p) && Greedy(nodes, q) && k <= |p| && k <= |q|
    ensures p[..k] == q[..k]
  {
    if k > 0 {
      GreedyAgree(nodes, p, q, k - 1);
      NextUnique(nodes, p[..k - 1], p[k - 1], q[k - 1]);
      assert p[..k] == p[..k - 1] + [p[k - 1]] && q[..k] == q[..k - 1] + [q[k - 1]];
    }
  }

  lemma GreedyContinues(nodes: set<OrderNode>, p: seq<OrderNode>, q: seq<OrderNode>)
    requires Greedy(nodes, p) && Greedy(nodes, q) && |p| < |q|
    ensures Ready(nodes, p, q[|p|])
  {
    GreedyAgree(nodes, p, q, |p|);
    assert p[..|p|] == p && Next(nodes, q[..|p|], q[|p|]);
  }

  /** There is one way to run out of ready nodes, so any two planners that obey the rules agree, and
      the order in which the nodes were given cannot matter. */
  lemma MaximalUnique(nodes: set<OrderNode>, p: seq<OrderNode>, q: seq<OrderNode>)
    requires Maximal(nodes, p) && Maximal(nodes, q)
    ensures p == q
  {
    var k := if |p| < |q| then |p| else |q|;
    GreedyAgree(nodes, p, q, k);
    assert p[..|p|] == p && q[..|q|] == q;
    if |p| < |q| { GreedyContinues(nodes, p, q); }
    if |q| < |p| { GreedyContinues(nodes, q, p); }
  }

  lemma PlanUnique(nodes: set<OrderNode>, p: seq<OrderNode>, q: seq<OrderNode>)
    requires IsPlan(nodes, p) && IsPlan(nodes, q)
    ensures p == q
  {
    MaximalUnique(nodes, p, q);
  }

  lemma GreedyMembers(nodes: set<OrderNode>, plan: seq<OrderNode>)
    requires Greedy(nodes, plan)
    ensures forall x | x in plan :: x in nodes
    ensures forall i, j | 0 <= i < j < |plan| :: plan[i] != plan[j]
  {
    forall x | x in plan ensures x in nodes {
      var k :| 0 <= k < |plan| && plan[k] == x;
      assert Next(nodes, plan[..k], plan[k]);
    }
    forall i, j | 0 <= i < j < |plan| ensures plan[i] != plan[j] {
      assert Next(nodes, plan[..j], plan[j]) && plan[..j][i] == plan[i];
    }
  }

  /** Every hard edge is respected: a placed node's predecessors were placed before it. */
  lemma EdgesRespected(nodes: set<OrderNode>, plan: seq<OrderNode>, x: OrderNode, j: nat)
    requires Greedy(nodes, plan) && j < |plan| && x in nodes && Edge(x, plan[j])
    ensures exists i | 0 <= i < j :: plan[i] == x
  {
    assert Next(nodes, plan[..j], plan[j]);
    assert x in plan[..j];
  }

  // ---- the order, in so many words --------------------------------------------------------------

  /** Constraints hold; and of two nodes of which the later could have come in the earlier one's place, the
      earlier has the smaller priority or, if these are equal, the identity that sorts first. */
  ghost predicate InPlanOrder(plan: seq<OrderNode>) {
    && (forall i, j | 0 <= i < j < |plan| :: plan[i] != plan[j])
    && (forall i, j | 0 <= i < |plan| && 0 <= j < |plan| && (plan[j].id in plan[i].before || plan[i].id in plan[j].after) :: i < j)
    && (forall i, j | 0 <= i < j < |plan| && CouldComeAt(plan, i, j) ::
          || plan[i].priority < plan[j].priority
          || (plan[i].priority == plan[j].priority && SortsFirst(plan[i].id, plan[j].id)))
  }

  lemma PrecedesMeans(x: OrderNode, y: OrderNode)
    ensures Precedes(x, y) <==> x.priority < y.priority || (x.priority == y.priority && SortsFirst(x.id, y.id))
  {
    LessIsFirstDifference(x.id, y.id);
  }

  /** Whatever must precede node `j` stands before position `i`. */
  ghost predicate CouldComeAt(plan: seq<OrderNode>, i: nat, j: nat)
    requires j < |plan|
  {
    forall k | 0 <= k < |plan| && (plan[j].id in plan[k].before || plan[k].id in plan[j].after) :: k < i
  }

  lemma PlanInOrder(nodes: set<OrderNode>, plan: seq<OrderNode>)
    requires IsPlan(nodes, plan)
    ensures InPlanOrder(plan) && (forall x :: x in plan <==> x in nodes)
  {
    hide SortsFirst, BytesLess;
    GreedyMembers(nodes, plan);
    forall i, j | 0 <= i < |plan| && 0 <= j < |plan| && Edge(plan[i], plan[j]) ensures i < j {
      EdgesRespected(nodes, plan, plan[i], j);
    }
    forall i, j | 0 <= i < j < |plan| && CouldComeAt(plan, i, j)
      ensures plan[i].priority < plan[j].priority
              || (plan[i].priority == plan[j].priority && SortsFirst(plan[i].id, plan[j].id))
    {
      assert Next(nodes, plan[..i], plan[i]);
      forall x | x in nodes && Edge(x, plan[j]) ensures x in plan[..i] {
        var k :| 0 <= k < |plan| && plan[k] == x;
        assert plan[..i][k] == x;
      }
      assert plan[j] !in plan[..i];
      assert Ready(nodes, plan[..i], plan[j]);
      PrecedesMeans(plan[i], plan[j]);
    }
  }

  // ---- cycles ---------------------------------------------------------------------------------

  ghost predicate Path(nodes: set<OrderNode>, p: seq<OrderNode>) {
    && p != []
    && (forall i | 0 <= i < |p| :: p[i] in nodes)
    && (forall i | 0 < i < |p| :: Edge(p[i - 1], p[i]))
  }

  ghost predicate Cycle(nodes: set<OrderNode>, p: seq<OrderNode>) {
    Path(nodes, p) && |p| > 1 && p[0] == p[|p| - 1]
  }

  /** On a directed cycle, or downstream of one: `p` runs around a cycle, `q` on from it to `x`. */
  ghost predicate BlockedBy(nodes: set<OrderNode>, p: seq<OrderNode>, q: seq<OrderNode>, x: OrderNode) {
    Cycle(nodes, p) && Path(nodes, q) && q[0] == p[0] && q[|q| - 1] == x
  }

  ghost predicate Blocked(nodes: set<OrderNode>, x: OrderNode) {
    exists p, q :: BlockedBy(nodes, p, q, x)
  }

  /** Along a path that ends in a placed node, positions in the plan ascend. */
  lemma {:induction false} PathPlaced(nodes: set<OrderNode>, plan: seq<OrderNode>, p: seq<OrderNode>, last: nat) returns (first: nat)
    requires Greedy(nodes, plan) && Path(nodes, p) && last < |plan| && plan[last] == p[|p| - 1]
    ensures first <= last && plan[first] == p[0]
    ensures |p| > 1 ==> first < last
  {
    if |p| == 1 {
      first := last;
    } else {
      EdgesRespected(nodes, plan, p[|p| - 2], last);
      var i :| 0 <= i < last && plan[i] == p[|p| - 2];
      first := PathPlaced(nodes, plan, p[..|p| - 1], i);
    }
  }

  /** Nothing on or downstream of a cycle is ever placed. */
  lemma BlockedUnplaced(nodes: set<OrderNode>, plan: seq<OrderNode>, x: OrderNode)
    requires Greedy(nodes, plan) && Blocked(nodes, x)
    ensures x !in plan
  {
    if x in plan {
      var p, q :| BlockedBy(nodes, p, q, x);
      var last :| 0 <= last < |plan| && plan[last] == x;
      var at := PathPlaced(nodes, plan, q, last);
      var again := PathPlaced(nodes, plan, p, at);
      GreedyMembers(nodes, plan);
      assert false;
    }
  }

  /** When no node is ready, every unplaced node has an unplaced predecessor: a path of any length
      through unplaced nodes leads to it. */
  lemma {:induction false} Upstream(nodes: set<OrderNode>, plan: seq<OrderNode>, x: OrderNode, length: nat) returns (p: seq<OrderNode>)
    requires Maximal(nodes, plan) && x in nodes && x !in plan && length > 0
    ensures |p| == length && Path(nodes, p) && p[|p| - 1] == x
    ensures forall i | 0 <= i < |p| :: p[i] !in plan
    decreases length
  {
    if length == 1 {
      p := [x];
    } else {
      assert !Ready(nodes, plan, x);
      var w :| w in nodes && Edge(w, x) && w !in plan;
      var r := Upstream(nodes, plan, w, length - 1);
      p := r + [x];
    }
  }

  lemma {:induction false} Pigeonhole(s: set<OrderNode>, p: seq<OrderNode>)
    requires forall i | 0 <= i < |p| :: p[i] in s
    requires forall i, j | 0 <= i < j < |p| :: p[i] != p[j]
    ensures |p| <= |s|
  {
    if p != [] {
      var last := p[|p| - 1];
      Pigeonhole(s - {last}, p[..|p| - 1]);
    }
  }

  lemma UnplacedBlocked(nodes: set<OrderNode>, plan: seq<OrderNode>, x: OrderNode)
    requires Maximal(nodes, plan) && x in nodes && x !in plan
    ensures Blocked(nodes, x)
  {
    var p := Upstream(nodes, plan, x, |nodes| + 1);
    if forall i, j | 0 <= i < j < |p| :: p[i] != p[j] { Pigeonhole(nodes, p); }
    var i, j :| 0 <= i < j < |p| && p[i] == p[j];
    var around, onward := p[i..j + 1], p[j..];
    assert BlockedBy(nodes, around, onward, x);
  }

  /** The nodes a maximal greedy run leaves out are exactly those on or downstream of a cycle. */
  lemma LeftOutIffBlocked(nodes: set<OrderNode>, plan: seq<OrderNode>, x: OrderNode)
    requires Maximal(nodes, plan) && x in nodes
    ensures x !in plan <==> Blocked(nodes, x)
  {
    if x !in plan { UnplacedBlocked(nodes, plan, x); }
    if Blocked(nodes, x) { BlockedUnplaced(nodes, plan, x); }
  }

  /** A maximal run is a plan exactly when the constraints form no cycle. */
  lemma PlanIffAcyclic(nodes: set<OrderNode>, plan: seq<OrderNode>)
    requires Maximal(nodes, plan)
    ensures IsPlan(nodes, plan) <==> !exists p :: Cycle(nodes, p)
  {
    if p :| Cycle(nodes, p) {
      assert Path(nodes, [p[0]]);
      assert BlockedBy(nodes, p, [p[0]], p[0]);
      LeftOutIffBlocked(nodes, plan, p[0]);
    }
    if !IsPlan(nodes, plan) {
      var x :| x in nodes && x !in plan;
      UnplacedBlocked(nodes, plan, x);
      var p, q :| BlockedBy(nodes, p, q, x);
      assert Cycle(nodes, p);
    }
  }
}
