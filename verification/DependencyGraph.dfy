/** The forward edges of a plan as a graph: chains of dependencies, cycles, and the
    nodes that no order can schedule. */
module DependencyGraph {
  import opened Basics
  import opened FlowTypes
  import opened PlanShape

  /** `b` is a dependency of the node called `a`. */
  ghost predicate DependsOn(nodes: seq<Node>, a: string, b: string) {
    exists i :: 0 <= i < |nodes| && nodes[i].stepId == a && b in nodes[i].dependsOn
  }

  /** Each element depends on the next one. */
  ghost predicate Chain(nodes: seq<Node>, p: seq<string>) {
    |p| > 0 && forall i :: 0 <= i < |p| - 1 ==> DependsOn(nodes, p[i], p[i + 1])
  }

  ghost predicate Connects(nodes: seq<Node>, p: seq<string>, a: string, b: string) {
    Chain(nodes, p) && p[0] == a && p[|p| - 1] == b
  }

  /** `x` depends on itself through one or more edges. */
  ghost predicate OnCycle(nodes: seq<Node>, x: string) {
    exists p :: |p| >= 2 && Connects(nodes, p, x, x)
  }

  /** `x` lies on a cycle or depends, through any number of edges, on one that does. */
  ghost predicate Tainted(nodes: seq<Node>, x: string) {
    exists p, y :: Connects(nodes, p, x, y) && OnCycle(nodes, y)
  }

  ghost predicate Acyclic(nodes: seq<Node>) {
    forall i :: 0 <= i < |nodes| ==> !OnCycle(nodes, nodes[i].stepId)
  }

  /** `order` schedules every node it lists after all its dependencies. */
  ghost predicate Schedule(nodes: seq<Node>, order: seq<string>) {
    forall k, dep :: 0 <= k < |order| && DependsOn(nodes, order[k], dep) ==> dep in order[..k]
  }

  // ------------------------------------------------- scheduled nodes are untainted

  /** Along a chain from a scheduled node positions only go down. */
  lemma {:induction false} ChainGoesDown(nodes: seq<Node>, order: seq<string>, p: seq<string>, k: nat) returns (j: nat)
    requires Schedule(nodes, order) && Chain(nodes, p) && k < |order| && order[k] == p[0]
    ensures j <= k && order[j] == p[|p| - 1] && (|p| >= 2 ==> j < k)
    decreases |p|
  {
    if |p| == 1 {
      j := k;
    } else {
      assert DependsOn(nodes, p[0], p[0 + 1]);
      var m :| 0 <= m < k && order[..k][m] == p[1];
      assert forall i :: 0 <= i < |p[1..]| - 1 ==> DependsOn(nodes, p[1..][i], p[1..][i + 1]) by {
        forall i | 0 <= i < |p[1..]| - 1 ensures DependsOn(nodes, p[1..][i], p[1..][i + 1]) {
          assert DependsOn(nodes, p[i + 1], p[i + 1 + 1]);
        }
      }
      j := ChainGoesDown(nodes, order, p[1..], m);
    }
  }

  lemma {:induction false} FirstPosition(order: seq<string>, x: string) returns (k: nat)
    requires x in order
    ensures k < |order| && order[k] == x && x !in order[..k]
  {
    k := 0;
    while order[k] != x
      invariant k < |order| && x !in order[..k] && x in order[k..]
      decreases |order| - k
    {
      assert order[..k + 1] == order[..k] + [order[k]];
      assert order[k..] == [order[k]] + order[k + 1..];
      k := k + 1;
    }
  }

  /** A node that some schedule contains is not on a cycle. */
  lemma {:induction false} ScheduledNotOnCycle(nodes: seq<Node>, order: seq<string>, x: string)
    requires Schedule(nodes, order) && x in order
    ensures !OnCycle(nodes, x)
  {
    if OnCycle(nodes, x) {
      var p :| |p| >= 2 && Connects(nodes, p, x, x);
      var k := FirstPosition(order, x);
      var j := ChainGoesDown(nodes, order, p, k);
      assert false;
    }
  }

  lemma {:induction false} ScheduledUntainted(nodes: seq<Node>, order: seq<string>, x: string)
    requires Schedule(nodes, order) && x in order
    ensures !Tainted(nodes, x)
  {
    if Tainted(nodes, x) {
      var p, y :| Connects(nodes, p, x, y) && OnCycle(nodes, y);
      var k := FirstPosition(order, x);
      var j := ChainGoesDown(nodes, order, p, k);
      ScheduledNotOnCycle(nodes, order, y);
      assert false;
    }
  }

  // ------------------------------------------------- unschedulable nodes are tainted

  /** Every member of `rest` depends on a member of `rest`. */
  ghost predicate Stuck(nodes: seq<Node>, rest: set<string>) {
    forall x :: x in rest ==> exists y :: y in rest && DependsOn(nodes, x, y)
  }

  /** From a stuck node one can walk any number of edges without leaving the set. */
  lemma {:induction false} StuckWalk(nodes: seq<Node>, rest: set<string>, x: string, n: nat) returns (p: seq<string>)
    requires Stuck(nodes, rest) && x in rest
    ensures |p| == n + 1 && Chain(nodes, p) && p[0] == x
    ensures forall i :: 0 <= i < |p| ==> p[i] in rest
  {
    hide DependsOn, Chain, Stuck;
    p := [x];
    assert Chain(nodes, p) by { SingleChain(nodes, x); }
    while |p| < n + 1
      invariant 1 <= |p| <= n + 1 && Chain(nodes, p) && p[0] == x
      invariant forall i :: 0 <= i < |p| ==> p[i] in rest
    {
      var y := StuckNext(nodes, rest, p[|p| - 1]);
      ChainGrows(nodes, p, y);
      p := p + [y];
    }
  }

  lemma {:induction false} StuckNext(nodes: seq<Node>, rest: set<string>, x: string) returns (y: string)
    requires Stuck(nodes, rest) && x in rest
    ensures y in rest && DependsOn(nodes, x, y)
  {
    hide DependsOn;
    y :| y in rest && DependsOn(nodes, x, y);
  }

  lemma {:induction false} SingleChain(nodes: seq<Node>, x: string)
    ensures Chain(nodes, [x])
  {}

  lemma {:induction false} ChainGrows(nodes: seq<Node>, p: seq<string>, y: string)
    requires Chain(nodes, p) && DependsOn(nodes, p[|p| - 1], y)
    ensures Chain(nodes, p + [y])
  {
    hide DependsOn;
    var longer := p + [y];
    forall i | 0 <= i < |longer| - 1 ensures DependsOn(nodes, longer[i], longer[i + 1]) {
      if i < |p| - 1 {
        assert DependsOn(nodes, p[i], p[i + 1]);
      }
    }
  }

  /** A sequence longer than the set it draws from repeats an element. */
  lemma {:induction false} Repeats(p: seq<string>, rest: set<string>) returns (i: nat, j: nat)
    requires |p| > |rest| && forall k :: 0 <= k < |p| ==> p[k] in rest
    ensures i < j < |p| && p[i] == p[j]
    decreases |p|
  {
    var last := p[|p| - 1];
    if k :| 0 <= k < |p| - 1 && p[k] == last {
      i, j := k, |p| - 1;
    } else {
      i, j := Repeats(p[..|p| - 1], rest - {last});
    }
  }

  lemma {:induction false} SubChain(nodes: seq<Node>, p: seq<string>, i: nat, j: nat)
    requires Chain(nodes, p) && i <= j < |p|
    ensures Connects(nodes, p[i..j + 1], p[i], p[j])
  {
    var q := p[i..j + 1];
    forall k | 0 <= k < |q| - 1 ensures DependsOn(nodes, q[k], q[k + 1]) {
      assert DependsOn(nodes, p[i + k], p[i + k + 1]);
    }
  }

  lemma {:induction false} StuckTainted(nodes: seq<Node>, rest: set<string>, x: string)
    requires Stuck(nodes, rest) && x in rest
    ensures Tainted(nodes, x)
  {
    hide DependsOn, Chain, Stuck;
    var p := StuckWalk(nodes, rest, x, |rest|);
    var i, j := Repeats(p, rest);
    SubChain(nodes, p, i, j);
    SubChain(nodes, p, 0, i);
    assert OnCycle(nodes, p[i]);
  }

  /** A tainted node leads to a node on a cycle, so some node is on a cycle. */
  lemma {:induction false} AcyclicUntainted(nodes: seq<Node>, x: string)
    requires Acyclic(nodes)
    ensures !Tainted(nodes, x)
  {
    if Tainted(nodes, x) {
      var p, y :| Connects(nodes, p, x, y) && OnCycle(nodes, y);
      var i := CycleNode(nodes, y);
      assert false;
    }
  }

  lemma {:induction false} CycleNode(nodes: seq<Node>, y: string) returns (i: nat)
    requires OnCycle(nodes, y)
    ensures i < |nodes| && nodes[i].stepId == y
  {
    var q :| |q| >= 2 && Connects(nodes, q, y, y);
    assert DependsOn(nodes, q[0], q[0 + 1]);
    i :| 0 <= i < |nodes| && nodes[i].stepId == q[0] && q[1] in nodes[i].dependsOn;
  }

  lemma {:induction false} CycleTainted(nodes: seq<Node>, x: string)
    requires OnCycle(nodes, x)
    ensures Tainted(nodes, x)
  {
    assert Connects(nodes, [x], x, x);
  }
}
