/** The converse of `FlowOnce`: `validateFlowPlan` accepts recovery edges that jump
    back over an effectful-once node (src/flow/plan.ts:164-182), and for every such
    plan there is a run that enters the node twice. */
module FlowReturn {
  import opened Basics
  import opened JsonValues
  import opened FlowTypes
  import opened PlanShape
  import opened FlowFold
  import opened FlowLease
  import opened FlowSteps
  import opened FlowTermination
  import opened FlowNeeds
  import opened FlowOnce

  // ------------------------------------------------------------ the hostile world

  /** A string longer than all the given ones and than the name of no station. */
  function Unheard(names: seq<string>): (r: string)
    ensures |r| > |UNKNOWN_STATION| && r !in names && forall n :: n in names ==> |r| > |n|
  {
    if |names| == 0 then UNKNOWN_STATION + "!"
    else Unheard(names[..|names| - 1]) + names[|names| - 1]
  }

  /** Every step returns what it provides; the `when`-th call alone, if it is `lost`'s,
      lands somewhere unexpected. */
  function Answers(nodes: seq<Node>, lost: nat, when: nat): (nat, string, State, Option<string>) -> RunResult
    requires lost < |nodes|
  {
    (n: nat, stepId: string, input: State, token: Option<string>) =>
      var i := IndexOf(nodes, stepId);
      var state: State := if i.None? then map[] else map key | key in Elements(nodes[i.value].supplies) :: Null;
      var landing := if n == when && stepId == nodes[lost].stepId
                     then Some(Landing([], Unheard(nodes[lost].expects))) else None;
      Returned(StepOutcome(state, landing, [], None))
  }

  function HostileEnv(nodes: seq<Node>, lost: nat, when: nat): Env
    requires lost < |nodes|
  {
    Env(Answers(nodes, lost, when), (n: nat, segment: string) => None, (n: nat) => true, true)
  }

  function HostileFlow(plan: Plan, initialKeys: seq<string>, from: string, to: string): Flow {
    Flow(plan, "", Elements(StepIds(plan.nodes)), {}, map[from := (s: State, station: string) => Some(to)], map[],
        initialKeys)
  }

  // ----------------------------------------------------------------- single steps

  lemma {:induction false} StepOnTrack(flow: Flow, env: Env, f: Fold)
    requires Runnable(flow) && f.index < |flow.Nodes()| && Reaches(flow, f, flow.Nodes()[f.index])
    requires Answer(env, f, flow.Nodes()[f.index]).Returned?
    requires Answer(env, f, flow.Nodes()[f.index]).outcome.observed.None?
    ensures RunNode(flow, env, f).Advanced?
  {
    NodeRuns(flow, env, f);
    hide RunNode, Reaches, MinConfidence, Commit, GiveUp, Divert;
  }

  lemma {:induction false} StepDiverts(flow: Flow, env: Env, f: Fold, to: string)
    requires Runnable(flow) && f.index < |flow.Nodes()| && Reaches(flow, f, flow.Nodes()[f.index])
    requires var node := flow.Nodes()[f.index]; var a := Answer(env, f, node);
      && a.Returned? && a.outcome.observed.Some?
      && a.outcome.observed.value.observed != UNKNOWN_STATION
      && a.outcome.observed.value.observed !in node.expects
      && node.stepId in flow.choosers
      && flow.choosers[node.stepId](f.state, a.outcome.observed.value.observed) == Some(to)
      && Declares(node, to) && GetOr(f.budgets, EdgeKey(node.stepId, to), 0) > 0
    ensures RunNode(flow, env, f).ReroutedTo?
    ensures IndexOf(flow.Nodes(), to) == Some(RunNode(flow, env, f).to)
  {
    NodeRuns(flow, env, f);
    hide RunNode, Reaches, MinConfidence, Commit, GiveUp, Divert, Inputs, StartedRow, IndexOf, EdgeKey;
    var node := flow.Nodes()[f.index];
    var attempt := AttemptOf(f, node);
    var g := f.(executions := f.executions + 1, attempts := f.attempts[node.stepId := attempt]);
    var h := Start(env, g, node, attempt);
    var o := Answer(env, f, node).outcome;
    assert Absorb(h, node.stepId, o).state == f.state && Absorb(h, node.stepId, o).budgets == f.budgets;
    assert Classify(flow, Absorb(h, node.stepId, o), node, o.observed) == Recoverable(to);
  }

  // ------------------------------------------------------------------ a calm walk

  /** The fold is inside a session, has what it needs and will not hit the bound. */
  ghost predicate Steady(flow: Flow, f: Fold) {
    && Supplied(flow, Prior(flow.Nodes()), f)
    && Bounded(flow.Nodes(), f, ExecutionBound(flow.Nodes()))
    && (f.open.Some? ==> f.index < |flow.Nodes()| && f.open == Some(flow.Nodes()[f.index].segment))
  }

  ghost predicate HostileSetup(flow: Flow, env: Env, lost: nat, when: nat) {
    && Runnable(flow) && NeedsMet(flow.Nodes(), flow.initialKeys) && lost < |flow.Nodes()|
    && flow.registered == Elements(StepIds(flow.Nodes()))
    && env == HostileEnv(flow.Nodes(), lost, when)
  }

  lemma {:induction false} HostileReaches(flow: Flow, env: Env, f: Fold, lost: nat, when: nat)
    requires HostileSetup(flow, env, lost, when) && Steady(flow, f) && f.index < |flow.Nodes()|
    ensures Reaches(flow, f, flow.Nodes()[f.index])
  {
    var nodes := flow.Nodes();
    PriorMeets(nodes, flow.initialKeys);
    ReachesOrOther(flow, Prior(nodes), f);
    CallBounded(nodes, f, ExecutionBound(nodes));
    assert StepIds(nodes)[f.index] == nodes[f.index].stepId;
  }

  /** Answers to node `i`, with the keys it declares. */
  lemma {:induction false} HostileAnswer(flow: Flow, env: Env, f: Fold, lost: nat, when: nat)
    requires HostileSetup(flow, env, lost, when) && f.index < |flow.Nodes()|
    ensures var node := flow.Nodes()[f.index]; var a := Answer(env, f, node);
      && a.Returned? && a.outcome.state.Keys == Elements(node.supplies)
      && a.outcome.observed == if f.executions + 1 == when && f.index == lost
                               then Some(Landing([], Unheard(node.expects))) else None
  {
    IndexOfUnique(flow.Nodes(), f.index);
    SameNode(flow.Nodes(), f.index, lost);
    hide IndexOf;
  }

  lemma {:induction false} EnterSteady(flow: Flow, f: Fold)
    requires Steady(flow, f) && f.index < |flow.Nodes()| && f.open.None?
    ensures Steady(flow, Enter(f, flow.Nodes()[f.index].segment))
  {
    hide ExecutionBound, ProvidedBefore, Total;
  }

  /** One on-track node. */
  lemma {:induction false} WalkOne(
    flow: Flow, env: Env, f: Fold, lost: nat, when: nat, stepId: string)
    returns (g: Fold)
    requires HostileSetup(flow, env, lost, when) && Steady(flow, f) && f.index < |flow.Nodes()|
    requires f.open.Some? && !(f.executions + 1 == when && f.index == lost)
    ensures Drive(flow, env, f) == Drive(flow, env, g)
    ensures Steady(flow, g) && g.index == f.index + 1 && g.executions == f.executions + 1 && g.budgets == f.budgets
    ensures Entries(g.log, stepId) == Entries(f.log, stepId) + (if flow.Nodes()[f.index].stepId == stepId then 1 else 0)
  {
    hide RunNode, Reaches, Drive, ExecutionBound, HostileSetup, Steady, MoveTo, Entries, Runnable;
    WalkAdvances(flow, env, f, lost, when);
    DriveOpen(flow, env, f);
    g := MoveTo(flow.Nodes(), RunNode(flow, env, f).next, f.index + 1);
    WalkSteady(flow, env, f, g);
    NodeEntriesExact(flow, env, f, stepId);
    MoveQuiet(flow.Nodes(), RunNode(flow, env, f).next, f.index + 1, stepId);
  }

  lemma {:induction false} WalkAdvances(flow: Flow, env: Env, f: Fold, lost: nat, when: nat)
    requires HostileSetup(flow, env, lost, when) && Steady(flow, f) && f.index < |flow.Nodes()|
    requires f.open.Some? && !(f.executions + 1 == when && f.index == lost)
    ensures Runnable(flow) && f.open == Some(flow.Nodes()[f.index].segment)
    ensures RunNode(flow, env, f).Advanced? && Answer(env, f, flow.Nodes()[f.index]).Returned?
    ensures Elements(flow.Nodes()[f.index].supplies) <= Answer(env, f, flow.Nodes()[f.index]).outcome.state.Keys
  {
    HostileReaches(flow, env, f, lost, when);
    HostileAnswer(flow, env, f, lost, when);
    StepOnTrack(flow, env, f);
  }

  lemma {:induction false} WalkSteady(flow: Flow, env: Env, f: Fold, g: Fold)
    requires Runnable(flow) && Steady(flow, f) && f.index < |flow.Nodes()| && f.open.Some?
    requires RunNode(flow, env, f).Advanced? && Answer(env, f, flow.Nodes()[f.index]).Returned?
    requires Elements(flow.Nodes()[f.index].supplies) <= Answer(env, f, flow.Nodes()[f.index]).outcome.state.Keys
    requires g == MoveTo(flow.Nodes(), RunNode(flow, env, f).next, f.index + 1)
    ensures Steady(flow, g) && g.index == f.index + 1 && g.executions == f.executions + 1 && g.budgets == f.budgets
  {
    hide RunNode, Reaches, ExecutionBound, MoveTo, Bounded, Contiguous, RecoveriesValid, UniqueIds, Supplied;
    hide EncodeDelta, SegmentEnd;
    var nodes, h := flow.Nodes(), RunNode(flow, env, f).next;
    StepAdvance(flow, env, f);
    MoveKeeps(nodes, h, f.index + 1);
    MovePlaced(nodes, h, f.index + 1);
    AdvanceBounded(nodes, f, g, ExecutionBound(nodes));
    WalkSupplied(flow, env, f, g);
  }

  lemma {:induction false} WalkSupplied(flow: Flow, env: Env, f: Fold, g: Fold)
    requires Runnable(flow) && f.index < |flow.Nodes()| && Supplied(flow, Prior(flow.Nodes()), f)
    requires RunNode(flow, env, f).Advanced?
    requires Answer(env, f, flow.Nodes()[f.index]).Returned?
    requires Elements(flow.Nodes()[f.index].supplies) <= Answer(env, f, flow.Nodes()[f.index]).outcome.state.Keys
    requires g.index == f.index + 1 && g.state == RunNode(flow, env, f).next.state
    requires g.provided == RunNode(flow, env, f).next.provided
    ensures Supplied(flow, Prior(flow.Nodes()), g)
  {
    hide RunNode, Reaches, ExecutionBound, Contiguous, RecoveriesValid, UniqueIds, EncodeDelta, SegmentEnd;
    hide Supplied, Elements, Prior, Accrues;
    StepAdvance(flow, env, f);
    PriorAccrues(flow.Nodes());
    SuppliedNext(flow, Prior(flow.Nodes()), f, g, Answer(env, f, flow.Nodes()[f.index]).outcome.state);
  }

  lemma {:induction false} NodeEntriesExact(flow: Flow, env: Env, f: Fold, stepId: string)
    requires Runnable(flow) && f.index < |flow.Nodes()| && !RunNode(flow, env, f).Faulted?
    ensures Entries(RunNode(flow, env, f).next.log, stepId)
         == Entries(f.log, stepId) + (if flow.Nodes()[f.index].stepId == stepId then 1 else 0)
  {
    StepLog(flow, env, f);
    StepCalled(flow, env, f);
    hide RunNode, Reaches, ExecutionBound, Contiguous, RecoveriesValid, UniqueIds, Inputs, Entries;
    var node, s := flow.Nodes()[f.index], RunNode(flow, env, f);
    var started, call := StartedEvent(env, f, node), Call(f, node);
    CallEntries(f.log, started, call, stepId);
    if !Answer(env, f, node).Died? {
      var e := s.next.log[|f.log| + 2];
      assert s.next.log == f.log + [started, call] + [e];
      Quiet(f.log + [started, call], e, stepId);
    }
  }

  /** From any steady fold the driver walks on to node `j`. */
  lemma {:induction false} Walk(flow: Flow, env: Env, f: Fold, j: nat, lost: nat, when: nat, k: nat) returns (g: Fold)
    requires HostileSetup(flow, env, lost, when) && Steady(flow, f) && f.index <= j <= |flow.Nodes()|
    requires k < |flow.Nodes()|
    requires f.executions >= when || (f.executions + (j - f.index) < when)
    ensures Drive(flow, env, f) == Drive(flow, env, g)
    ensures Steady(flow, g) && g.index == j && g.executions == f.executions + (j - f.index) && g.budgets == f.budgets
    ensures Entries(g.log, flow.Nodes()[k].stepId)
            == Entries(f.log, flow.Nodes()[k].stepId) + (if f.index <= k < j then 1 else 0)
    decreases j - f.index, f.open.None?
  {
    hide RunNode, Drive, Steady, Entries, ExecutionBound;
    var nodes := flow.Nodes();
    var id := nodes[k].stepId;
    if f.index == j {
      g := f;
    } else if f.open.None? {
      DriveClosed(flow, env, f);
      EnterSteady(flow, f);
      Quiet(f.log, Opened(nodes[f.index].segment), id);
      g := Walk(flow, env, Enter(f, nodes[f.index].segment), j, lost, when, k);
    } else {
      SameNode(nodes, f.index, k);
      var h := WalkOne(flow, env, f, lost, when, id);
      g := Walk(flow, env, h, j, lost, when, k);
    }
  }

  // ------------------------------------------------------------- driver logs grow

  lemma {:induction false} DriveGrows(flow: Flow, env: Env, f: Fold)
    requires Runnable(flow)
    requires f.open.Some? ==> f.index < |flow.Nodes()| && f.open == Some(flow.Nodes()[f.index].segment)
    ensures f.log <= Drive(flow, env, f).final.log
    decreases ExecutionsLeft(flow.Nodes(), f), f.open.None?
  {
    hide RunNode, Drive, ExecutionBound, Reaches, ClosingRow, Contiguous, RecoveriesValid, UniqueIds, MoveTo;
    var nodes := flow.Nodes();
    if f.index >= |nodes| {
      DriveDone(flow, env, f);
    } else if f.open.None? {
      DriveClosed(flow, env, f);
      if env.session(f.sessions, nodes[f.index].segment).None? {
        DriveGrows(flow, env, Enter(f, nodes[f.index].segment));
      }
    } else {
      DriveOpen(flow, env, f);
      StepLog(flow, env, f);
      var s := RunNode(flow, env, f);
      if !s.Faulted? {
        var to := if s.Advanced? then f.index + 1 else s.to;
        MoveKeeps(nodes, s.next, to);
        MovePlaced(nodes, s.next, to);
        DriveGrows(flow, env, MoveTo(nodes, s.next, to));
      }
    }
  }

  // ----------------------------------------------------------------- the theorem

  lemma {:induction false} EdgeBudgetsPositive(stepId: string, edges: seq<RecoveryEdge>, m: map<string, int>)
    requires EdgesPositive(edges) && forall key :: key in m ==> m[key] >= 1
    ensures var b := EdgeBudgets(stepId, edges, m);
      && m.Keys <= b.Keys && (forall key :: key in b ==> b[key] >= 1)
      && forall e :: e in edges ==> EdgeKey(stepId, e.to) in b
  {
    hide EdgeKey;
    if |edges| > 0 {
      EdgeBudgetsPositive(stepId, edges[..|edges| - 1], m);
    }
  }

  /** Every declared edge has budget, even when another edge's key text collides. */
  lemma {:induction false} BudgetsPositive(nodes: seq<Node>, i: nat, to: string)
    requires forall j :: 0 <= j < |nodes| ==> EdgesPositive(nodes[j].recoveries)
    ensures forall key :: key in Budgets(nodes) ==> Budgets(nodes)[key] >= 1
    ensures i < |nodes| && Declares(nodes[i], to) ==> EdgeKey(nodes[i].stepId, to) in Budgets(nodes)
  {
    if |nodes| > 0 {
      var front, last := nodes[..|nodes| - 1], nodes[|nodes| - 1];
      BudgetsPositive(front, i, to);
      EdgeBudgetsPositive(last.stepId, last.recoveries, Budgets(front));
      hide EdgeKey, EdgeBudgets;
      if i < |front| {
        assert front[i] == nodes[i];
      }
    }
  }

  /** The driver reaches the lost node, is diverted back and walks over `k` again. */
  lemma {:induction false} ReturnRun(flow: Flow, env: Env, initial: State, i: nat, to: string, k: nat)
    requires HostileSetup(flow, env, i, i + 1)
    requires Declares(flow.Nodes()[i], to) && IndexOf(flow.Nodes(), to).Some?
    requires IndexOf(flow.Nodes(), to).value <= k <= i
    requires flow.choosers == map[flow.Nodes()[i].stepId := (s: State, station: string) => Some(to)]
    requires Elements(flow.initialKeys) <= initial.Keys
    ensures Entries(Drive(flow, env, Fresh(flow, initial)).final.log, flow.Nodes()[k].stepId) >= 2
  {
    hide Drive, RunNode, Entries, ExecutionBound, Total, Contiguous, RecoveriesValid, Budgets, EdgeKey, Reaches, MoveTo;
    var nodes := flow.Nodes();
    var id := nodes[k].stepId;
    var start := Fresh(flow, initial);
    FreshSteady(flow, env, initial);
    NoEntries([], id);
    var f := Walk(flow, env, start, i, i, i + 1, k);
    var g := f;
    if f.open.None? {
      DriveClosed(flow, env, f);
      EnterSteady(flow, f);
      Quiet(f.log, Opened(nodes[i].segment), id);
      g := Enter(f, nodes[i].segment);
    }
    var h := Diverted(flow, env, g, i, to, id);
    SameNode(nodes, i, k);
    hide Steady;
    var last := Walk(flow, env, h, k + 1, i, i + 1, k);
    DriveGrows(flow, env, last) by {
      assert Steady(flow, last);
    }
    EntriesPrefix(last.log, Drive(flow, env, last).final.log, id);
  }

  /** The lost node sends the driver back. */
  lemma {:induction false} Diverted(flow: Flow, env: Env, g: Fold, i: nat, to: string, stepId: string) returns (h: Fold)
    requires HostileSetup(flow, env, i, i + 1) && Steady(flow, g) && g.open.Some?
    requires g.index == i && g.executions == i && g.budgets == Budgets(flow.Nodes())
    requires Declares(flow.Nodes()[i], to) && IndexOf(flow.Nodes(), to).Some? && IndexOf(flow.Nodes(), to).value <= i
    requires flow.choosers == map[flow.Nodes()[i].stepId := (s: State, station: string) => Some(to)]
    ensures Drive(flow, env, g) == Drive(flow, env, h)
    ensures Steady(flow, h) && IndexOf(flow.Nodes(), to) == Some(h.index) && h.executions == i + 1
    ensures Entries(h.log, stepId) == Entries(g.log, stepId) + (if flow.Nodes()[i].stepId == stepId then 1 else 0)
  {
    hide Drive, RunNode, Entries, ExecutionBound, Budgets, MoveTo, HostileSetup, Steady, Runnable;
    DivertedStep(flow, env, g, i, to);
    var s := RunNode(flow, env, g);
    DriveOpen(flow, env, g);
    NodeEntriesExact(flow, env, g, stepId);
    h := MoveTo(flow.Nodes(), s.next, s.to);
    MoveKeeps(flow.Nodes(), s.next, s.to);
    MoveQuiet(flow.Nodes(), s.next, s.to, stepId);
    DivertedSteady(flow, env, g, h);
  }

  lemma {:induction false} DivertedStep(flow: Flow, env: Env, g: Fold, i: nat, to: string)
    requires HostileSetup(flow, env, i, i + 1) && Steady(flow, g) && g.open.Some?
    requires g.index == i && g.executions == i && g.budgets == Budgets(flow.Nodes())
    requires Declares(flow.Nodes()[i], to) && IndexOf(flow.Nodes(), to).Some?
    requires flow.choosers == map[flow.Nodes()[i].stepId := (s: State, station: string) => Some(to)]
    ensures Runnable(flow) && RecoveriesValid(flow.Nodes()) && i < |flow.Nodes()|
    ensures g.open == Some(flow.Nodes()[i].segment)
    ensures var s := RunNode(flow, env, g);
      s.ReroutedTo? && IndexOf(flow.Nodes(), to) == Some(s.to) && s.next.executions == i + 1
  {
    HostileReaches(flow, env, g, i, i + 1);
    HostileAnswer(flow, env, g, i, i + 1);
    BudgetsCover(flow, i, to);
    StepDiverts(flow, env, g, to);
    hide RunNode, Reaches, Budgets;
  }

  lemma {:induction false} DivertedSteady(flow: Flow, env: Env, g: Fold, h: Fold)
    requires Runnable(flow) && Steady(flow, g) && g.open.Some? && g.index < |flow.Nodes()|
    requires RunNode(flow, env, g).ReroutedTo? && RunNode(flow, env, g).to <= g.index
    requires h == MoveTo(flow.Nodes(), RunNode(flow, env, g).next, RunNode(flow, env, g).to)
    ensures Steady(flow, h)
  {
    hide RunNode, ExecutionBound, Contiguous, RecoveriesValid, EdgeKey, Reaches, MoveTo, Bounded, UniqueIds;
    hide IndexOf, Declares;
    var nodes, s := flow.Nodes(), RunNode(flow, env, g);
    StepReroute(flow, env, g);
    MoveKeeps(nodes, s.next, s.to);
    MovePlaced(nodes, s.next, s.to);
    RerouteBounded(nodes, g, h, EdgeKey(nodes[g.index].stepId, nodes[s.to].stepId), ExecutionBound(nodes));
    ProvidedGrows(nodes, s.to, g.index);
  }

  lemma {:induction false} NoEntries(log: seq<Event>, stepId: string)
    requires log == []
    ensures Entries(log, stepId) == 0
  {}

  lemma {:induction false} AllPositive(nodes: seq<Node>)
    requires RecoveriesValid(nodes)
    ensures forall j :: 0 <= j < |nodes| ==> EdgesPositive(nodes[j].recoveries)
  {
    forall j | 0 <= j < |nodes| ensures EdgesPositive(nodes[j].recoveries) {
      forall e | e in nodes[j].recoveries ensures e.maxReentries >= 1 { assert EdgeValid(nodes, e); }
    }
  }

  lemma {:induction false} BudgetsCover(flow: Flow, i: nat, to: string)
    requires Runnable(flow) && i < |flow.Nodes()| && Declares(flow.Nodes()[i], to)
    ensures GetOr(Budgets(flow.Nodes()), EdgeKey(flow.Nodes()[i].stepId, to), 0) > 0
  {
    AllPositive(flow.Nodes());
    BudgetsPositive(flow.Nodes(), i, to);
    hide Budgets, EdgeKey;
  }

  lemma {:induction false} FreshSteady(flow: Flow, env: Env, initial: State)
    requires Runnable(flow) && Elements(flow.initialKeys) <= initial.Keys
    ensures Steady(flow, Fresh(flow, initial))
  {
    StartBounded(flow, env, initial, []);
    hide ExecutionBound, Total, Budgets;
  }

  /** No run of any flow with this plan enters node `k` twice in one lease. */
  ghost predicate OncePerLease(plan: Plan, initialKeys: seq<string>, k: nat)
    requires k < |plan.nodes|
  {
    forall flow: Flow, env: Env, initial: State ::
      flow.plan == plan && flow.initialKeys == initialKeys && Runnable(flow) && Reliable(env) ==>
        Entries(RunFlow(flow, env, initial, true, []).final.log, plan.nodes[k].stepId) <= 1
  }

  /** For a validated plan: an effectful-once step is entered at most once in every run
      exactly when no recovery edge returns to it or over it. */
  lemma {:induction false} OnceExactly(plan: Plan, initialKeys: seq<string>, k: nat)
    requires k < |plan.nodes| && plan.nodes[k].idempotency == EffectfulOnce
    requires UniqueIds(plan.nodes) && Contiguous(plan.nodes) && RecoveriesValid(plan.nodes)
    requires NeedsMet(plan.nodes, initialKeys)
    ensures OncePerLease(plan, initialKeys, k) <==> NoReturnTo(plan.nodes, k)
  {
    hide RunFlow, Drive, NeedsMet, Contiguous, RecoveriesValid;
    var nodes := plan.nodes;
    if NoReturnTo(nodes, k) {
      forall flow: Flow, env: Env, initial: State
        | flow.plan == plan && flow.initialKeys == initialKeys && Runnable(flow) && Reliable(env)
        ensures Entries(RunFlow(flow, env, initial, true, []).final.log, nodes[k].stepId) <= 1
      {
        LeaseOnce(flow, env, initial, [], k);
      }
    } else {
      var i, to :| 0 <= i < |nodes| && Declares(nodes[i], to) && IndexOf(nodes, to).Some?
          && IndexOf(nodes, to).value <= k <= i;
      ReturnBreaks(plan, initialKeys, i, to, k);
    }
  }

  lemma {:induction false} ReturnBreaks(plan: Plan, initialKeys: seq<string>, i: nat, to: string, k: nat)
    requires UniqueIds(plan.nodes) && Contiguous(plan.nodes) && RecoveriesValid(plan.nodes)
    requires NeedsMet(plan.nodes, initialKeys)
    requires i < |plan.nodes| && Declares(plan.nodes[i], to) && IndexOf(plan.nodes, to).Some?
    requires IndexOf(plan.nodes, to).value <= k <= i
    ensures !OncePerLease(plan, initialKeys, k)
  {
    hide Drive, NeedsMet, Contiguous, RecoveriesValid, UniqueIds, Conclude, Budgets;
    var nodes := plan.nodes;
    var flow := HostileFlow(plan, initialKeys, nodes[i].stepId, to);
    var env := HostileEnv(nodes, i, i + 1);
    var initial: State := map key | key in Elements(initialKeys) :: Null;
    ReturnRun(flow, env, initial, i, to, k);
    LeaseCases(flow, env, initial, true, []);
    ConcludeQuiet(env, Drive(flow, env, Fresh(flow, initial)), nodes[k].stepId);
    assert Reliable(env);
  }
}
