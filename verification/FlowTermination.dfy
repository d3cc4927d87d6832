/** The execution bound is never exceeded: the guard of src/flow/run.ts:271-279 is
    unreachable for validated plans, whatever the steps and choosers do. */
module FlowTermination {
  import opened Basics
  import opened JsonValues
  import opened FlowTypes
  import opened PlanShape
  import opened FlowFold
  import opened FlowLease
  import opened FlowSteps

  /** The sum of all budgets that are left. */
  ghost function Total(m: map<string, int>): int {
    if m == map[] then 0 else var k :| k in m; m[k] + Total(m - {k})
  }

  ghost predicate NonNegative(m: map<string, int>) {
    forall k :: k in m ==> m[k] >= 0
  }

  lemma {:induction false} TotalSplit(m: map<string, int>, k: string)
    requires k in m
    ensures Total(m) == m[k] + Total(m - {k})
  {
    var j :| j in m && Total(m) == m[j] + Total(m - {j});
    if j != k {
      TotalSplit(m - {j}, k);
      TotalSplit(m - {k}, j);
      assert m - {j} - {k} == m - {k} - {j};
    }
  }

  lemma {:induction false} TotalSet(m: map<string, int>, k: string, v: int)
    ensures Total(m[k := v]) == Total(m) - GetOr(m, k, 0) + v
  {
    TotalSplit(m[k := v], k);
    assert m[k := v] - {k} == m - {k};
    if k in m {
      TotalSplit(m, k);
    } else {
      assert m - {k} == m;
    }
  }

  lemma {:induction false} TotalNonNegative(m: map<string, int>)
    requires NonNegative(m)
    ensures Total(m) >= 0
  {
    if m != map[] {
      var k :| k in m && Total(m) == m[k] + Total(m - {k});
      TotalNonNegative(m - {k});
    }
  }

  ghost predicate EdgesPositive(edges: seq<RecoveryEdge>) {
    forall e :: e in edges ==> e.maxReentries >= 1
  }

  lemma {:induction false} EdgeBudgetsTotal(stepId: string, edges: seq<RecoveryEdge>, m: map<string, int>)
    requires NonNegative(m) && EdgesPositive(edges)
    ensures NonNegative(EdgeBudgets(stepId, edges, m))
    ensures Total(EdgeBudgets(stepId, edges, m)) <= Total(m) + EdgeSum(edges)
  {
    if |edges| > 0 {
      var front, last := edges[..|edges| - 1], edges[|edges| - 1];
      EdgeBudgetsTotal(stepId, front, m);
      TotalSet(EdgeBudgets(stepId, front, m), EdgeKey(stepId, last.to), last.maxReentries);
    }
  }

  /** Two edges whose key texts collide share one budget, so the budgets never hold
      more than the sum that enters the bound. */
  lemma {:induction false} BudgetsTotal(nodes: seq<Node>)
    requires forall i :: 0 <= i < |nodes| ==> EdgesPositive(nodes[i].recoveries)
    ensures NonNegative(Budgets(nodes)) && 0 <= Total(Budgets(nodes)) <= BudgetSum(nodes)
  {
    if |nodes| > 0 {
      BudgetsTotal(nodes[..|nodes| - 1]);
      var last := nodes[|nodes| - 1];
      EdgeBudgetsTotal(last.stepId, last.recoveries, Budgets(nodes[..|nodes| - 1]));
    }
    TotalNonNegative(Budgets(nodes));
  }

  /** How many executions are still possible: one per remaining node, and one further
      pass over the plan per unit of budget. */
  ghost function Reserve(nodes: seq<Node>, f: Fold): int {
    |nodes| - f.index + |nodes| * Total(f.budgets)
  }

  ghost predicate Bounded(nodes: seq<Node>, f: Fold, limit: int) {
    f.index <= |nodes| && NonNegative(f.budgets) && f.executions + Reserve(nodes, f) <= limit
  }

  lemma {:induction false} AdvanceBounded(nodes: seq<Node>, f: Fold, g: Fold, limit: int)
    requires Bounded(nodes, f, limit) && f.index < |nodes|
    requires g.executions == f.executions + 1 && g.index == f.index + 1 && g.budgets == f.budgets
    ensures Bounded(nodes, g, limit)
  {}

  lemma {:induction false} RerouteBounded(nodes: seq<Node>, f: Fold, g: Fold, key: string, limit: int)
    requires Bounded(nodes, f, limit) && f.index < |nodes| && g.index < |nodes|
    requires key in f.budgets && f.budgets[key] > 0
    requires g.executions == f.executions + 1 && g.budgets == f.budgets[key := f.budgets[key] - 1]
    ensures Bounded(nodes, g, limit)
  {
    TotalSet(f.budgets, key, f.budgets[key] - 1);
    OneLess(|nodes|, Total(g.budgets), Total(f.budgets));
    hide Total;
  }

  lemma {:induction false} OneLess(n: nat, a: int, b: int)
    requires a == b - 1
    ensures n * a == n * b - n
  {}

  lemma {:induction false} CallBounded(nodes: seq<Node>, f: Fold, limit: int)
    requires Bounded(nodes, f, limit) && f.index < |nodes|
    ensures f.executions + 1 <= limit
  {
    TotalNonNegative(f.budgets);
  }

  /** No run from a bounded fold exceeds the limit, and none trips the guard. */
  lemma {:induction false} DriveBounded(flow: Flow, env: Env, f: Fold, limit: int)
    requires Runnable(flow) && limit <= ExecutionBound(flow.Nodes())
    requires Bounded(flow.Nodes(), f, limit)
    requires f.open.Some? ==> f.index < |flow.Nodes()| && f.open == Some(flow.Nodes()[f.index].segment)
    ensures var o := Drive(flow, env, f);
      o.final.executions <= limit && (o.Broke? ==> !o.fault.BoundExceeded?)
    decreases ExecutionsLeft(flow.Nodes(), f), f.open.None?
  {
    hide RunNode, Drive, ExecutionBound, Contiguous, UniqueIds, RecoveriesValid, Declares, Answer, Total, EdgeKey;
    var nodes := flow.Nodes();
    if f.index >= |nodes| {
      DriveDone(flow, env, f);
      TotalNonNegative(f.budgets);
    } else if f.open.None? {
      DriveClosed(flow, env, f);
      CallBounded(nodes, f, limit);
      if env.session(f.sessions, nodes[f.index].segment).None? {
        DriveBounded(flow, env, Enter(f, nodes[f.index].segment), limit);
      }
    } else {
      DriveOpen(flow, env, f);
      CallBounded(nodes, f, limit);
      var s := RunNode(flow, env, f);
      match s {
        case Faulted(h, fault) =>
          if Reaches(flow, f, nodes[f.index]) {
            StepFault(flow, env, f);
            StepExecutions(flow, env, f);
          } else {
            StepStopped(flow, env, f);
            StepExecutions(flow, env, f);
          }
        case Advanced(h) =>
          StepAdvance(flow, env, f);
          MoveKeeps(nodes, h, h.index + 1);
          AdvanceBounded(nodes, f, MoveTo(nodes, h, h.index + 1), limit);
          DriveBounded(flow, env, MoveTo(nodes, h, h.index + 1), limit);
        case ReroutedTo(h, to) =>
          StepReroute(flow, env, f);
          MoveKeeps(nodes, h, to);
          RerouteBounded(nodes, f, MoveTo(nodes, h, to), EdgeKey(nodes[f.index].stepId, nodes[to].stepId), limit);
          DriveBounded(flow, env, MoveTo(nodes, h, to), limit);
      }
    }
  }

  /** One lease makes at most n * (1 + sum of maxReentries) node executions, so the
      bound guard never fires. */
  lemma {:induction false} LeaseTerminates(flow: Flow, env: Env, initial: State, resume: bool, journal: seq<Row>)
    requires Runnable(flow)
    ensures var r := RunFlow(flow, env, initial, resume, journal);
      && r.final.executions <= |flow.Nodes()| * (1 + BudgetSum(flow.Nodes()))
      && (r.FailedWith? ==> !r.fault.BoundExceeded?)
  {
    hide Drive, Hydrate, ReplayGuard, Conclude, RunFlow, Budgets, BudgetSum;
    var nodes := flow.Nodes();
    var rows := Visible(env, resume, journal);
    var f := StartingFold(flow, env, initial, rows);
    LeaseCases(flow, env, initial, resume, journal);
    StartBounded(flow, env, initial, rows);
    DriveBounded(flow, env, f, ExecutionBound(nodes));
    ConcludeKeeps(env, Drive(flow, env, f));
    CallLimit(nodes, f, ExecutionBound(nodes));
  }

  lemma {:induction false} CallLimit(nodes: seq<Node>, f: Fold, limit: int)
    requires Bounded(nodes, f, limit)
    ensures f.executions <= limit
  {
    TotalNonNegative(f.budgets);
  }

  lemma {:induction false} StartBounded(flow: Flow, env: Env, initial: State, rows: seq<Row>)
    requires Runnable(flow)
    ensures var f := StartingFold(flow, env, initial, rows);
      && Bounded(flow.Nodes(), f, ExecutionBound(flow.Nodes())) && f.open.None?
  {
    var nodes := flow.Nodes();
    forall i | 0 <= i < |nodes| ensures EdgesPositive(nodes[i].recoveries) {
      forall e | e in nodes[i].recoveries ensures e.maxReentries >= 1 { assert EdgeValid(nodes, e); }
    }
    BudgetsTotal(nodes);
    hide Hydrate, Budgets, BudgetSum, Total, Contiguous, RecoveriesValid, UniqueIds;
    HydrateKeeps(flow, env, Fresh(flow, initial), rows);
    Scale(|nodes|, Total(Budgets(nodes)), BudgetSum(nodes));
  }

  lemma {:induction false} Scale(n: nat, a: int, b: int)
    requires a <= b
    ensures n * a <= n * b
    ensures n * (1 + b) == n + n * b
  {}
}
