/** What the recovery budgets are (src/flow/run.ts:134-143): the last declared edge of a key
    text gives its budget, and without collisions they add up to the sum in the bound. */
module FlowBudgets {
  import opened Basics
  import opened FlowTypes
  import opened PlanShape
  import opened FlowFold
  import opened FlowTermination

  /** The m-th edge of the i-th node. */
  predicate EdgeAt(nodes: seq<Node>, i: nat, m: nat) {
    i < |nodes| && m < |nodes[i].recoveries|
  }

  function KeyAt(nodes: seq<Node>, i: nat, m: nat): string
    requires EdgeAt(nodes, i, m)
  {
    EdgeKey(nodes[i].stepId, nodes[i].recoveries[m].to)
  }

  /** No edge declared after it has the same key text. */
  ghost predicate LastOfKey(nodes: seq<Node>, i: nat, m: nat)
    requires EdgeAt(nodes, i, m)
  {
    forall j: nat, n: nat :: EdgeAt(nodes, j, n) && (j > i || (j == i && n > m)) ==>
      KeyAt(nodes, j, n) != KeyAt(nodes, i, m)
  }

  /** No two declared edges have the same key text. */
  ghost predicate NoCollision(nodes: seq<Node>) {
    forall i: nat, m: nat, j: nat, n: nat ::
      EdgeAt(nodes, i, m) && EdgeAt(nodes, j, n) && (i != j || m != n) ==> KeyAt(nodes, i, m) != KeyAt(nodes, j, n)
  }

  lemma {:induction false} EdgeBudgetsLast(stepId: string, edges: seq<RecoveryEdge>, known: map<string, int>, m: nat)
    requires m < |edges|
    requires forall n :: m < n < |edges| ==> EdgeKey(stepId, edges[n].to) != EdgeKey(stepId, edges[m].to)
    ensures Get(EdgeBudgets(stepId, edges, known), EdgeKey(stepId, edges[m].to)) == Some(edges[m].maxReentries)
  {
    hide EdgeKey;
    if m + 1 < |edges| {
      EdgeBudgetsLast(stepId, edges[..|edges| - 1], known, m);
    }
  }

  lemma {:induction false} EdgeBudgetsOther(
    stepId: string, edges: seq<RecoveryEdge>, known: map<string, int>, key: string)
    requires forall m :: 0 <= m < |edges| ==> EdgeKey(stepId, edges[m].to) != key
    ensures Get(EdgeBudgets(stepId, edges, known), key) == Get(known, key)
  {
    hide EdgeKey;
    if |edges| > 0 {
      EdgeBudgetsOther(stepId, edges[..|edges| - 1], known, key);
    }
  }

  /** The last declared edge of a key text gives its budget. */
  lemma {:induction false} BudgetAt(nodes: seq<Node>, i: nat, m: nat)
    requires EdgeAt(nodes, i, m) && LastOfKey(nodes, i, m)
    ensures Get(Budgets(nodes), KeyAt(nodes, i, m)) == Some(nodes[i].recoveries[m].maxReentries)
  {
    hide EdgeKey, EdgeBudgets;
    var front, last := nodes[..|nodes| - 1], nodes[|nodes| - 1];
    var key := KeyAt(nodes, i, m);
    forall n: nat | n < |last.recoveries| ensures EdgeAt(nodes, |front|, n) && KeyAt(nodes, |front|, n)
                                                  == EdgeKey(last.stepId, last.recoveries[n].to) {}
    if i < |front| {
      forall j: nat, n: nat | EdgeAt(front, j, n)
        ensures EdgeAt(nodes, j, n) && KeyAt(front, j, n) == KeyAt(nodes, j, n)
      {}
      assert EdgeAt(front, i, m);
      BudgetAt(front, i, m);
      EdgeBudgetsOther(last.stepId, last.recoveries, Budgets(front), key);
    } else {
      EdgeBudgetsLast(last.stepId, last.recoveries, Budgets(front), m);
    }
  }

  /** Every budget is that of some declared edge. */
  lemma {:induction false} BudgetDeclared(nodes: seq<Node>, key: string)
    requires key in Budgets(nodes)
    ensures exists i: nat, m: nat :: EdgeAt(nodes, i, m) && KeyAt(nodes, i, m) == key
  {
    hide EdgeKey, EdgeBudgets;
    var front, last := nodes[..|nodes| - 1], nodes[|nodes| - 1];
    if m: nat :| m < |last.recoveries| && EdgeKey(last.stepId, last.recoveries[m].to) == key {
      assert EdgeAt(nodes, |front|, m) && KeyAt(nodes, |front|, m) == key;
    } else {
      EdgeBudgetsOther(last.stepId, last.recoveries, Budgets(front), key);
      BudgetDeclared(front, key);
      var i: nat, m: nat :| EdgeAt(front, i, m) && KeyAt(front, i, m) == key;
      assert EdgeAt(nodes, i, m) && KeyAt(nodes, i, m) == key;
    }
  }

  /** Different declared edges have different budget keys. */
  ghost predicate KeysApart(nodes: seq<Node>) {
    forall i, j, a, b ::
        0 <= i < |nodes| && 0 <= j < |nodes| && Declares(nodes[i], a) && Declares(nodes[j], b) && (i != j || a != b) ==>
      EdgeKey(nodes[i].stepId, a) != EdgeKey(nodes[j].stepId, b)
  }

  /** In a valid plan that is to say that no two edges collide. */
  lemma {:induction false} ApartNoCollision(nodes: seq<Node>)
    requires RecoveriesValid(nodes)
    ensures KeysApart(nodes) <==> NoCollision(nodes)
  {
    hide EdgeKey, EdgeValid;
    if KeysApart(nodes) {
      forall i: nat, m: nat, j: nat, n: nat | EdgeAt(nodes, i, m) && EdgeAt(nodes, j, n) && (i != j || m != n)
        ensures KeyAt(nodes, i, m) != KeyAt(nodes, j, n)
      {
        assert Declares(nodes[i], nodes[i].recoveries[m].to) && Declares(nodes[j], nodes[j].recoveries[n].to);
        if i == j {
          assert Targets(nodes[i].recoveries)[m] != Targets(nodes[i].recoveries)[n];
        }
      }
    }
    if NoCollision(nodes) {
      forall i, j, a, b | 0 <= i < |nodes| && 0 <= j < |nodes| && Declares(nodes[i], a) && Declares(nodes[j], b)
          && (i != j || a != b)
        ensures EdgeKey(nodes[i].stepId, a) != EdgeKey(nodes[j].stepId, b)
      {
        var m: nat :| m < |nodes[i].recoveries| && nodes[i].recoveries[m].to == a;
        var n: nat :| n < |nodes[j].recoveries| && nodes[j].recoveries[n].to == b;
        assert EdgeAt(nodes, i, m) && EdgeAt(nodes, j, n);
        assert KeyAt(nodes, i, m) != KeyAt(nodes, j, n);
      }
    }
  }

  // ------------------------------------------------------------------- what they add up to

  ghost predicate Positive(m: map<string, int>) {
    forall k :: k in m ==> m[k] >= 1
  }

  /** The edges' keys are new, and none comes twice. */
  ghost predicate FreshKeys(stepId: string, edges: seq<RecoveryEdge>, known: map<string, int>) {
    && (forall m :: 0 <= m < |edges| ==> EdgeKey(stepId, edges[m].to) !in known)
    && (forall m, n :: 0 <= m < n < |edges| ==> EdgeKey(stepId, edges[m].to) != EdgeKey(stepId, edges[n].to))
  }

  lemma {:induction false} EdgeBudgetsExactly(stepId: string, edges: seq<RecoveryEdge>, known: map<string, int>)
    requires Positive(known) && EdgesPositive(edges)
    ensures var all := EdgeBudgets(stepId, edges, known);
      && Positive(all) && known.Keys <= all.Keys && Total(all) <= Total(known) + EdgeSum(edges)
      && (forall m :: 0 <= m < |edges| ==> EdgeKey(stepId, edges[m].to) in all)
      && (Total(all) == Total(known) + EdgeSum(edges) <==> FreshKeys(stepId, edges, known))
  {
    hide EdgeKey, Total;
    if |edges| > 0 {
      var front, last := edges[..|edges| - 1], edges[|edges| - 1];
      EdgeBudgetsExactly(stepId, front, known);
      var before, key := EdgeBudgets(stepId, front, known), EdgeKey(stepId, last.to);
      TotalSet(before, key, last.maxReentries);
      if FreshKeys(stepId, front, known) && key !in known && forall m :: 0 <= m < |front| ==>
        EdgeKey(stepId, front[m].to) != key {
        EdgeBudgetsOther(stepId, front, known, key);
      }
    }
  }

  lemma {:induction false} CollisionSplit(nodes: seq<Node>)
    requires |nodes| > 0
    ensures var front, last := nodes[..|nodes| - 1], nodes[|nodes| - 1];
      NoCollision(nodes) <==> NoCollision(front) && FreshKeys(last.stepId, last.recoveries, Budgets(front))
  {
    hide EdgeKey, EdgeBudgets;
    var front, last := nodes[..|nodes| - 1], nodes[|nodes| - 1];
    forall j: nat, n: nat ensures EdgeAt(nodes, j, n) <==>
        EdgeAt(front, j, n) || (j == |front| && n < |last.recoveries|) {}
    forall j: nat, n: nat | EdgeAt(front, j, n) ensures KeyAt(front, j, n) == KeyAt(nodes, j, n) {}
    forall m: nat | m < |last.recoveries|
      ensures KeyAt(nodes, |front|, m) == EdgeKey(last.stepId, last.recoveries[m].to)
    {}
    BudgetsKeyed(front);
    hide Budgets;
    if NoCollision(nodes) {
      forall m | 0 <= m < |last.recoveries| ensures EdgeKey(last.stepId, last.recoveries[m].to) !in Budgets(front) {
        if EdgeKey(last.stepId, last.recoveries[m].to) in Budgets(front) {
          BudgetDeclared(front, EdgeKey(last.stepId, last.recoveries[m].to));
        }
      }
    }
  }

  lemma {:induction false} BudgetsKeyed(nodes: seq<Node>)
    ensures forall i: nat, m: nat :: EdgeAt(nodes, i, m) ==> KeyAt(nodes, i, m) in Budgets(nodes)
  {
    hide EdgeKey;
    if |nodes| > 0 {
      var front, last := nodes[..|nodes| - 1], nodes[|nodes| - 1];
      BudgetsKeyed(front);
      KeysKept(last.stepId, last.recoveries, Budgets(front));
      hide EdgeBudgets;
      forall i: nat, m: nat | EdgeAt(nodes, i, m) ensures KeyAt(nodes, i, m) in Budgets(nodes) {
        if i < |front| {
          assert EdgeAt(front, i, m) && KeyAt(front, i, m) == KeyAt(nodes, i, m);
        }
      }
    }
  }

  lemma {:induction false} KeysKept(stepId: string, edges: seq<RecoveryEdge>, known: map<string, int>)
    ensures known.Keys <= EdgeBudgets(stepId, edges, known).Keys
    ensures forall m :: 0 <= m < |edges| ==> EdgeKey(stepId, edges[m].to) in EdgeBudgets(stepId, edges, known)
  {
    hide EdgeKey;
    if |edges| > 0 {
      KeysKept(stepId, edges[..|edges| - 1], known);
    }
  }

  lemma {:induction false} TotalExactly(nodes: seq<Node>)
    requires forall i :: 0 <= i < |nodes| ==> EdgesPositive(nodes[i].recoveries)
    ensures Positive(Budgets(nodes)) && Total(Budgets(nodes)) <= BudgetSum(nodes)
    ensures Total(Budgets(nodes)) == BudgetSum(nodes) <==> NoCollision(nodes)
  {
    hide EdgeKey, EdgeBudgets, Total, FreshKeys, NoCollision;
    if |nodes| > 0 {
      var front, last := nodes[..|nodes| - 1], nodes[|nodes| - 1];
      TotalExactly(front);
      EdgeBudgetsExactly(last.stepId, last.recoveries, Budgets(front));
      CollisionSplit(nodes);
    } else {
      assert NoCollision(nodes) && Total(Budgets(nodes)) == 0 by { NothingTotals(nodes); }
    }
  }

  lemma {:induction false} NothingTotals(nodes: seq<Node>)
    requires |nodes| == 0
    ensures NoCollision(nodes) && Total(Budgets(nodes)) == 0
  {}

  /** The budgets of a valid plan add up to the sum that enters the bound exactly when no two
      edges share one. */
  lemma {:induction false} BudgetsTotalExactly(nodes: seq<Node>)
    requires RecoveriesValid(nodes)
    ensures Total(Budgets(nodes)) == BudgetSum(nodes) <==> KeysApart(nodes)
  {
    hide Total, Budgets, NoCollision, KeysApart;
    ApartNoCollision(nodes);
    forall i | 0 <= i < |nodes| ensures EdgesPositive(nodes[i].recoveries) {
      forall e | e in nodes[i].recoveries ensures e.maxReentries >= 1 { assert EdgeValid(nodes, e); }
    }
    TotalExactly(nodes);
  }

  // ------------------------------------------------------------------- plain step names

  /** No step's name contains the sign that the key texts put between two names. */
  ghost predicate PlainIds(nodes: seq<Node>) {
    forall i :: 0 <= i < |nodes| ==> '=' !in nodes[i].stepId
  }

  lemma {:induction false} SignAt(from: string, to: string)
    requires '=' !in from
    ensures var k := EdgeKey(from, to); var n := |from|;
      && |k| == n + 2 + |to| && k[..n] == from && k[n] == '=' && k[n + 2..] == to
      && forall i :: 0 <= i < n ==> k[i] != '='
  {
    assert forall i :: 0 <= i < |from| ==> EdgeKey(from, to)[i] == from[i] && from[i] in from;
  }

  lemma {:induction false} PlainKey(from: string, to: string, from': string, to': string)
    requires '=' !in from && '=' !in from' && EdgeKey(from, to) == EdgeKey(from', to')
    ensures from == from' && to == to'
  {
    hide EdgeKey;
    SignAt(from, to);
    SignAt(from', to');
    assert |from| == |from'|;
  }

  /** Then every declared edge of a valid plan has a budget of its own, the declared one. */
  lemma {:induction false} PlainBudgets(nodes: seq<Node>, i: nat, m: nat)
    requires UniqueIds(nodes) && RecoveriesValid(nodes) && PlainIds(nodes) && EdgeAt(nodes, i, m)
    ensures KeysApart(nodes)
    ensures Get(Budgets(nodes), EdgeKey(nodes[i].stepId, nodes[i].recoveries[m].to))
         == Some(nodes[i].recoveries[m].maxReentries)
  {
    hide EdgeKey, Budgets;
    forall i, j, a, b | 0 <= i < |nodes| && 0 <= j < |nodes| && Declares(nodes[i], a) && Declares(nodes[j], b)
        && (i != j || a != b)
      ensures EdgeKey(nodes[i].stepId, a) != EdgeKey(nodes[j].stepId, b)
    {
      if EdgeKey(nodes[i].stepId, a) == EdgeKey(nodes[j].stepId, b) {
        PlainKey(nodes[i].stepId, a, nodes[j].stepId, b);
      }
    }
    hide Declares, UniqueIds, PlainIds, RecoveriesValid;
    ApartNoCollision(nodes);
    BudgetAt(nodes, i, m);
  }
}
