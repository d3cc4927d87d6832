/** The converse of needs soundness: every walk within the budgets, and every chain of such
    walks across leases, is driven by some steps, choosers and crashes into `MISSING_NEED`,
    although steps and caller supply all they declare. */
module StarvedRun {
  import opened Basics
  import opened JsonValues
  import opened FlowTypes
  import opened PlanShape
  import opened FlowFold
  import opened FlowLease
  import opened FlowSteps
  import opened FlowTermination
  import opened FlowBudgets
  import opened FlowNeeds
  import opened FlowOnce
  import opened FlowReturn
  import opened FlowStarve
  import opened StarvedWalks
  import opened DependencyGraph
  import opened PlanValidator

  // ----------------------------------------------------------------- a scripted world

  /** A station that the node does not expect and that names the target. */
  function Signal(node: Node, to: string): string {
    Unheard(node.expects) + to
  }

  function Follow(node: Node): Chooser {
    (s: State, station: string) =>
      if |station| < |Unheard(node.expects)| then None else Some(station[|Unheard(node.expects)|..])
  }

  /** The n-th call lands where the walk goes next. */
  function ScriptAnswers(
    nodes: seq<Node>, key: string, path: seq<nat>): (nat, string, State, Option<string>) -> RunResult
  {
    (n: nat, stepId: string, input: State, token: Option<string>) =>
      var i := IndexOf(nodes, stepId);
      var state: State := if i.None? then map[] else map k | k in Elements(nodes[i.value].supplies) :: Null;
      var landing := if n > 0 && Detours(nodes, key, path, n - 1) && i.Some?
                     then Some(Landing([], Signal(nodes[i.value], nodes[path[n]].stepId))) else None;
      Returned(StepOutcome(state, landing, [], None))
  }

  function ScriptEnv(nodes: seq<Node>, key: string, path: seq<nat>): Env {
    Env(ScriptAnswers(nodes, key, path), (n: nat, segment: string) => None, (n: nat) => true, true)
  }

  function ScriptFlow(plan: Plan, initialKeys: seq<string>): Flow {
    Flow(plan, "", Elements(StepIds(plan.nodes)), {},
         map id | id in Elements(StepIds(plan.nodes)) && IndexOf(plan.nodes, id).Some? ::
             Follow(plan.nodes[IndexOf(plan.nodes, id).value]),
         map k | k in ProvidedBefore(plan.nodes, |plan.nodes|) ::
             Codec((v: Option<Json>) => Some(Null), (v: Json) => Some(v)),
         initialKeys)
  }

  // -------------------------------------------------------------------- simple walks

  /** A walk can be had without visiting a node twice. */
  lemma {:induction false} SimpleWalk(nodes: seq<Node>, key: string, path: seq<nat>) returns (simple: seq<nat>)
    requires Walked(nodes, key, path)
    ensures Walked(nodes, key, simple) && Distinct(simple) && simple[|simple| - 1] == path[|path| - 1]
    decreases |path|
  {
    hide Walked;
    if a, b :| 0 <= a < b < |path| && path[a] == path[b] {
      var shorter := path[..a] + path[b..];
      CutWalked(nodes, key, path, a, b);
      simple := SimpleWalk(nodes, key, shorter);
    } else {
      simple := path;
    }
  }

  lemma {:induction false} CutWalked(nodes: seq<Node>, key: string, path: seq<nat>, a: nat, b: nat)
    requires Walked(nodes, key, path) && a < b < |path| && path[a] == path[b]
    ensures var shorter := path[..a] + path[b..];
      Walked(nodes, key, shorter) && shorter[|shorter| - 1] == path[|path| - 1]
  {
    hide Hop;
    var shorter := path[..a] + path[b..];
    forall k | 0 <= k < |shorter| - 1 ensures Hop(nodes, key, shorter[k], shorter[k + 1]) {
      if k < a {
        assert Hop(nodes, key, path[k], path[k + 1]);
      } else {
        assert Hop(nodes, key, path[b + k - a], path[b + k - a + 1]);
      }
    }
  }

  // --------------------------------------------------------------- following the script

  ghost predicate Scripted(flow: Flow, env: Env, key: string, path: seq<nat>) {
    var nodes := flow.Nodes();
    && Runnable(flow)
    && flow == ScriptFlow(flow.plan, flow.initialKeys) && env == ScriptEnv(nodes, key, path)
    && Hops(nodes, key, path)
    && path[|path| - 1] < |nodes|
  }

  /** The fold is at the k-th node of the walk, the key is still missing, and the budgets
      pay for what the walk has yet to take. */
  ghost predicate OnScript(flow: Flow, key: string, path: seq<nat>, k: nat, f: Fold) {
    var nodes := flow.Nodes();
    && k < |path| && f.index == path[k] < |nodes| && f.executions == k
    && key !in f.state && f.provided <= f.state.Keys
    && Bounded(nodes, f, ExecutionBound(nodes))
    && (f.open.Some? ==> f.open == Some(nodes[f.index].segment))
    && Affordable(nodes, key, path, k, f.budgets)
  }

  lemma {:induction false} HopOf(nodes: seq<Node>, key: string, path: seq<nat>, k: nat)
    requires Hops(nodes, key, path) && k + 1 < |path| && path[|path| - 1] < |nodes|
    ensures path[k] < |nodes| && path[k + 1] < |nodes|
    ensures if Detours(nodes, key, path, k) then Edge(nodes, path[k], path[k + 1])
            else Onward(nodes, key, path[k], path[k + 1])
  {
    hide Edge;
    assert Hop(nodes, key, path[k], path[k + 1]);
    assert path[k] < |nodes| by { HopBounded(nodes, key, path[k], path[k + 1]); }
    if k + 2 < |path| {
      assert Hop(nodes, key, path[k + 1], path[k + 1 + 1]);
      HopBounded(nodes, key, path[k + 1], path[k + 1 + 1]);
    }
  }

  lemma {:induction false} HopBounded(nodes: seq<Node>, key: string, p: nat, q: nat)
    requires Hop(nodes, key, p, q)
    ensures p < |nodes|
  {}

  lemma {:induction false} NeedMissing(needs: seq<string>, state: State, key: string)
    requires key in needs && key !in state
    ensures FirstMissing(needs, state).Some?
  {
    if needs[0] in state {
      NeedMissing(needs[1..], state, key);
    }
  }

  /** What the script answers to the node it is at. */
  lemma {:induction false} ScriptAnswer(flow: Flow, env: Env, key: string, path: seq<nat>, k: nat, f: Fold)
    requires Scripted(flow, env, key, path) && OnScript(flow, key, path, k, f)
    ensures var node := flow.Nodes()[f.index]; var a := Answer(env, f, node);
      && a.Returned? && a.outcome.state.Keys == Elements(node.supplies)
      && a.outcome.observed == if Detours(flow.Nodes(), key, path, k)
                               then Some(Landing([], Signal(node, flow.Nodes()[path[k + 1]].stepId))) else None
  {
    hide Hops, Contiguous, RecoveriesValid, Bounded, Signal, Detours, Affordable, ScriptFlow, Inputs, IndexOf;
    IndexOfUnique(flow.Nodes(), f.index);
  }

  /** The signal is unexpected and the chooser reads the target from it. */
  lemma {:induction false} SignalRead(node: Node, state: State, to: string)
    ensures Signal(node, to) != UNKNOWN_STATION && Signal(node, to) !in node.expects
    ensures Follow(node)(state, Signal(node, to)) == Some(to)
  {
    var base := Unheard(node.expects);
    assert (base + to)[|base|..] == to;
    assert |base + to| >= |base|;
  }

  lemma {:induction false} ScriptOnward(
    flow: Flow, env: Env, key: string, path: seq<nat>, k: nat, f: Fold)
    returns (g: Fold)
    requires Scripted(flow, env, key, path) && OnScript(flow, key, path, k, f) && f.open.Some?
    requires k + 1 < |path| && !Detours(flow.Nodes(), key, path, k) && Reaches(flow, f, flow.Nodes()[f.index])
    ensures Drive(flow, env, f) == Drive(flow, env, g) && OnScript(flow, key, path, k + 1, g)
  {
    hide RunNode, Reaches, Drive, ExecutionBound, Bounded, MoveTo, Contiguous, RecoveriesValid, UniqueIds, Hops;
    hide Scripted;
    hide Affordable, Detours, Answer, Onward, Edge;
    var nodes := flow.Nodes();
    ScriptAnswer(flow, env, key, path, k, f);
    ScriptRunnable(flow, env, key, path);
    HopOf(nodes, key, path, k);
    StepOnTrack(flow, env, f);
    DriveAdvances(flow, env, f);
    g := MoveTo(nodes, RunNode(flow, env, f).next, f.index + 1);
    assert path[k + 1] == f.index + 1 && key !in nodes[f.index].supplies by {
      OnwardHop(nodes, key, path[k], path[k + 1]);
    }
    OnwardState(flow, env, f, g, key);
    OnwardArrives(flow, key, path, k, f, g);
  }

  lemma {:induction false} OnwardHop(nodes: seq<Node>, key: string, p: nat, q: nat)
    requires Onward(nodes, key, p, q)
    ensures q == p + 1 && p < |nodes| && key !in nodes[p].supplies
  {}

  lemma {:induction false} OnwardArrives(flow: Flow, key: string, path: seq<nat>, k: nat, f: Fold, g: Fold)
    requires OnScript(flow, key, path, k, f) && k + 1 < |path| && path[k + 1] == f.index + 1 < |flow.Nodes()|
    requires g.index == f.index + 1 && g.executions == f.executions + 1 && g.budgets == f.budgets
    requires key !in g.state && g.provided <= g.state.Keys
    requires g.open.Some? ==> g.index < |flow.Nodes()| && g.open == Some(flow.Nodes()[g.index].segment)
    ensures OnScript(flow, key, path, k + 1, g)
  {
    hide ExecutionBound, Bounded, Affordable;
    FewerAhead(flow.Nodes(), key, path, k, f.budgets);
    AdvanceBounded(flow.Nodes(), f, g, ExecutionBound(flow.Nodes()));
  }

  /** What a completed node leaves. */
  lemma {:induction false} OnwardState(flow: Flow, env: Env, f: Fold, g: Fold, key: string)
    requires Runnable(flow) && f.index < |flow.Nodes()| && RunNode(flow, env, f).Advanced?
    requires key !in f.state && key !in flow.Nodes()[f.index].supplies && f.provided <= f.state.Keys
    requires Answer(env, f, flow.Nodes()[f.index]).Returned?
    requires Answer(env, f, flow.Nodes()[f.index]).outcome.state.Keys == Elements(flow.Nodes()[f.index].supplies)
    requires g == MoveTo(flow.Nodes(), RunNode(flow, env, f).next, f.index + 1)
    ensures g.index == f.index + 1 && g.executions == f.executions + 1 && g.budgets == f.budgets
    ensures key !in g.state && g.provided <= g.state.Keys
    ensures g.open.Some? ==> g.index < |flow.Nodes()| && g.open == Some(flow.Nodes()[g.index].segment)
  {
    hide RunNode, Reaches, MoveTo, Contiguous, RecoveriesValid, UniqueIds, Inputs, EncodeDelta, SegmentEnd;
    var h := RunNode(flow, env, f).next;
    StepAdvance(flow, env, f);
    MoveKeeps(flow.Nodes(), h, f.index + 1);
    MovePlaced(flow.Nodes(), h, f.index + 1);
    assert g.state == f.state + Answer(env, f, flow.Nodes()[f.index]).outcome.state;
  }

  lemma {:induction false} FewerAhead(nodes: seq<Node>, key: string, path: seq<nat>, k: nat, budgets: map<string, int>)
    requires Affordable(nodes, key, path, k, budgets)
    ensures Affordable(nodes, key, path, k + 1, budgets)
  {
    forall b ensures Uses(nodes, key, path, k + 1, b) <= Uses(nodes, key, path, k, b) {
      hide EdgeKey, Detours;
    }
    hide Uses;
  }

  /** Taking an edge spends what the walk has reserved for it. */
  lemma {:induction false} SpendsOne(nodes: seq<Node>, key: string, path: seq<nat>, k: nat, budgets: map<string, int>)
    requires Affordable(nodes, key, path, k, budgets)
    requires k + 1 < |path| && path[k] < |nodes| && Detours(nodes, key, path, k)
    ensures var spent := EdgeKey(nodes[path[k]].stepId, nodes[path[k + 1]].stepId);
      && spent in budgets && budgets[spent] > 0
      && Affordable(nodes, key, path, k + 1, budgets[spent := budgets[spent] - 1])
  {
    var spent := EdgeKey(nodes[path[k]].stepId, nodes[path[k + 1]].stepId);
    hide EdgeKey, Detours;
    assert Uses(nodes, key, path, k, spent) == Uses(nodes, key, path, k + 1, spent) + 1;
    assert GetOr(budgets, spent, 0) > 0;
    var left := budgets[spent := budgets[spent] - 1];
    forall b ensures Uses(nodes, key, path, k + 1, b) <= GetOr(left, b, 0) {
      assert Uses(nodes, key, path, k, b) <= GetOr(budgets, b, 0);
    }
  }

  lemma {:induction false} ScriptDetour(
    flow: Flow, env: Env, key: string, path: seq<nat>, k: nat, f: Fold)
    returns (g: Fold)
    requires Scripted(flow, env, key, path) && OnScript(flow, key, path, k, f) && f.open.Some?
    requires k + 1 < |path| && Detours(flow.Nodes(), key, path, k) && Reaches(flow, f, flow.Nodes()[f.index])
    ensures Drive(flow, env, f) == Drive(flow, env, g) && OnScript(flow, key, path, k + 1, g)
  {
    hide RunNode, Reaches, Drive, ExecutionBound, Bounded, MoveTo, Contiguous, RecoveriesValid, UniqueIds, Hops;
    hide Scripted, EdgeKey, Affordable, Detours, Edge, Onward;
    var nodes := flow.Nodes();
    ScriptRunnable(flow, env, key, path);
    DetourStep(flow, env, key, path, k, f);
    DriveReroutes(flow, env, f);
    g := MoveTo(nodes, RunNode(flow, env, f).next, RunNode(flow, env, f).to);
    DetourState(flow, env, f, g);
    DetourArrives(flow, key, path, k, f, g);
  }

  lemma {:induction false} DetourArrives(flow: Flow, key: string, path: seq<nat>, k: nat, f: Fold, g: Fold)
    requires OnScript(flow, key, path, k, f) && k + 1 < |path| && path[k + 1] < |flow.Nodes()|
    requires Hops(flow.Nodes(), key, path) && path[|path| - 1] < |flow.Nodes()| && Detours(flow.Nodes(), key, path, k)
    requires g.index == path[k + 1] && g.executions == f.executions + 1 && g.state == f.state
    requires g.provided == f.provided
    requires g.open.Some? ==> g.open == Some(flow.Nodes()[g.index].segment)
    requires var spent := EdgeKey(flow.Nodes()[f.index].stepId, flow.Nodes()[g.index].stepId);
      spent in f.budgets && f.budgets[spent] > 0 && g.budgets == f.budgets[spent := f.budgets[spent] - 1]
    ensures OnScript(flow, key, path, k + 1, g)
  {
    hide ExecutionBound, Bounded, Hops, EdgeKey, Affordable, Detours;
    var nodes := flow.Nodes();
    var spent := EdgeKey(nodes[path[k]].stepId, nodes[path[k + 1]].stepId);
    SpendsOne(nodes, key, path, k, f.budgets);
    RerouteBounded(nodes, f, g, spent, ExecutionBound(nodes));
  }

  /** What a reroute leaves. */
  lemma {:induction false} DetourState(flow: Flow, env: Env, f: Fold, g: Fold)
    requires Runnable(flow) && f.index < |flow.Nodes()| && RunNode(flow, env, f).ReroutedTo?
    requires g == MoveTo(flow.Nodes(), RunNode(flow, env, f).next, RunNode(flow, env, f).to)
    ensures g.index == RunNode(flow, env, f).to < |flow.Nodes()| && g.executions == f.executions + 1
    ensures g.state == f.state
    ensures g.provided == f.provided
    ensures g.open.Some? ==> g.open == Some(flow.Nodes()[g.index].segment)
    ensures var spent := EdgeKey(flow.Nodes()[f.index].stepId, flow.Nodes()[g.index].stepId);
      spent in f.budgets && f.budgets[spent] > 0 && g.budgets == f.budgets[spent := f.budgets[spent] - 1]
  {
    hide RunNode, Reaches, MoveTo, Contiguous, RecoveriesValid, UniqueIds, EdgeKey, Declares, IndexOf;
    var s := RunNode(flow, env, f);
    StepReroute(flow, env, f);
    MoveKeeps(flow.Nodes(), s.next, s.to);
    MovePlaced(flow.Nodes(), s.next, s.to);
  }

  lemma {:induction false} DetourStep(flow: Flow, env: Env, key: string, path: seq<nat>, k: nat, f: Fold)
    requires Scripted(flow, env, key, path) && OnScript(flow, key, path, k, f) && f.open.Some?
    requires k + 1 < |path| && Detours(flow.Nodes(), key, path, k) && Reaches(flow, f, flow.Nodes()[f.index])
    ensures RunNode(flow, env, f).ReroutedTo? && RunNode(flow, env, f).to == path[k + 1]
  {
    hide RunNode, Reaches, ExecutionBound, Bounded, Contiguous, RecoveriesValid, Hops, Inputs, EdgeKey, Signal;
    hide Follow, IndexOf, Uses, Detours, Affordable;
    var nodes := flow.Nodes();
    var node := nodes[f.index];
    HopOf(nodes, key, path, k);
    var to := nodes[path[k + 1]].stepId;
    ScriptAnswer(flow, env, key, path, k, f);
    SignalRead(node, f.state, to);
    SpendsOne(nodes, key, path, k, f.budgets);
    ScriptFollows(flow, env, key, path, f.index);
    hide Scripted, OnScript, Answer;
    StepDiverts(flow, env, f, to);
  }

  lemma {:induction false} ScriptFollows(flow: Flow, env: Env, key: string, path: seq<nat>, i: nat)
    requires Scripted(flow, env, key, path) && i < |flow.Nodes()|
    ensures Runnable(flow) && flow.Nodes()[i].stepId in flow.choosers
    ensures flow.choosers[flow.Nodes()[i].stepId] == Follow(flow.Nodes()[i])
  {
    var nodes := flow.Nodes();
    IndexOfUnique(nodes, i);
    assert StepIds(nodes)[i] == nodes[i].stepId;
    hide IndexOf, Hops, Contiguous, RecoveriesValid, ScriptEnv;
  }

  /** The driver follows the walk to its end, unless some need is missing on the way. */
  lemma {:induction false} FollowsScript(flow: Flow, env: Env, key: string, path: seq<nat>, k: nat, f: Fold)
    returns (missed: bool, g: Fold)
    requires Scripted(flow, env, key, path) && OnScript(flow, key, path, k, f)
    ensures Runnable(flow)
    ensures missed ==> Drive(flow, env, f).Broke? && Drive(flow, env, f).fault.MissingNeed?
    ensures !missed ==>
              && Drive(flow, env, f) == Drive(flow, env, g)
              && OnScript(flow, key, path, |path| - 1, g) && g.open.Some?
              && FirstMissing(flow.Nodes()[g.index].needs, g.state).None?
    decreases |path| - k, f.open.None?
  {
    var nodes := flow.Nodes();
    var node := nodes[f.index];
    ScriptRunnable(flow, env, key, path);
    hide Drive, RunNode, Reaches, Scripted, Runnable, ExecutionBound, Affordable, Hops, FirstMissing, Detours;
    missed, g := false, f;
    if f.open.None? {
      DriveClosed(flow, env, f);
      EnterOnScript(flow, key, path, k, f);
      missed, g := FollowsScript(flow, env, key, path, k, Enter(f, node.segment));
    } else if FirstMissing(node.needs, f.state).Some? {
      MissingBreaks(flow, env, f);
      missed := true;
    } else if k + 1 < |path| {
      ScriptReaches(flow, env, f);
      if Detours(nodes, key, path, k) {
        g := ScriptDetour(flow, env, key, path, k, f);
      } else {
        g := ScriptOnward(flow, env, key, path, k, f);
      }
      missed, g := FollowsScript(flow, env, key, path, k + 1, g);
    }
  }

  lemma {:induction false} ScriptRunnable(flow: Flow, env: Env, key: string, path: seq<nat>)
    requires Scripted(flow, env, key, path)
    ensures Runnable(flow) && flow.registered == Elements(StepIds(flow.Nodes())) && Hops(flow.Nodes(), key, path)
    ensures path[|path| - 1] < |flow.Nodes()|
    ensures forall n, segment :: env.session(n, segment).None?
  {
    hide Hops;
  }

  lemma {:induction false} EnterOnScript(flow: Flow, key: string, path: seq<nat>, k: nat, f: Fold)
    requires OnScript(flow, key, path, k, f) && f.open.None?
    ensures OnScript(flow, key, path, k, Enter(f, flow.Nodes()[f.index].segment))
  {
    hide ExecutionBound, Total, Affordable;
  }

  lemma {:induction false} ScriptReaches(flow: Flow, env: Env, f: Fold)
    requires Runnable(flow) && flow.registered == Elements(StepIds(flow.Nodes())) && f.index < |flow.Nodes()|
    requires Bounded(flow.Nodes(), f, ExecutionBound(flow.Nodes()))
    requires FirstMissing(flow.Nodes()[f.index].needs, f.state).None?
    ensures Reaches(flow, f, flow.Nodes()[f.index])
  {
    hide ExecutionBound, FirstMissing, Total;
    CallBounded(flow.Nodes(), f, ExecutionBound(flow.Nodes()));
    assert StepIds(flow.Nodes())[f.index] == flow.Nodes()[f.index].stepId;
  }

  lemma {:induction false} MissingBreaks(flow: Flow, env: Env, f: Fold)
    requires Runnable(flow) && flow.registered == Elements(StepIds(flow.Nodes())) && f.index < |flow.Nodes()|
    requires f.open == Some(flow.Nodes()[f.index].segment)
    requires Bounded(flow.Nodes(), f, ExecutionBound(flow.Nodes()))
    requires FirstMissing(flow.Nodes()[f.index].needs, f.state).Some?
    ensures Drive(flow, env, f).Broke? && Drive(flow, env, f).fault.MissingNeed?
  {
    hide Drive, RunNode, ExecutionBound, FirstMissing, Contiguous, UniqueIds, Total;
    CallBounded(flow.Nodes(), f, ExecutionBound(flow.Nodes()));
    assert StepIds(flow.Nodes())[f.index] == flow.Nodes()[f.index].stepId;
    StepStopped(flow, env, f);
    DriveFaults(flow, env, f);
  }

  // ----------------------------------------------------------------- scripted leases

  function Nulls(keys: seq<string>): State {
    map k | k in Elements(keys) :: Null
  }

  /** A lease that plays the walk, and sees these rows. */
  function ScriptedLease(plan: Plan, initialKeys: seq<string>, key: string, path: seq<nat>, seen: seq<Row>): Attempt {
    Attempt(ScriptEnv(plan.nodes, key, path), Nulls(initialKeys), true, seen)
  }

  ghost predicate ValidNodes(nodes: seq<Node>) {
    UniqueIds(nodes) && Contiguous(nodes) && RecoveriesValid(nodes)
  }

  lemma {:induction false} ScriptedIs(plan: Plan, initialKeys: seq<string>, key: string, path: seq<nat>)
    requires ValidNodes(plan.nodes) && Hops(plan.nodes, key, path) && path[|path| - 1] < |plan.nodes|
    ensures var flow := ScriptFlow(plan, initialKeys);
      flow.plan == plan && flow.initialKeys == initialKeys && Runnable(flow) && InVocabulary(flow)
    ensures Scripted(ScriptFlow(plan, initialKeys), ScriptEnv(plan.nodes, key, path), key, path)
  {
    hide Hops, Contiguous, UniqueIds, RecoveriesValid;
  }

  lemma {:induction false} ScriptRuns(plan: Plan, initialKeys: seq<string>)
    requires ValidNodes(plan.nodes)
    ensures var flow := ScriptFlow(plan, initialKeys); Runnable(flow) && InVocabulary(flow)
  {
    hide Contiguous, UniqueIds, RecoveriesValid;
  }

  lemma {:induction false} ScriptSupplies(nodes: seq<Node>, key: string, path: seq<nat>)
    requires UniqueIds(nodes)
    ensures SuppliesAll(ScriptEnv(nodes, key, path), nodes)
  {
    hide Detours, Signal, IndexOf;
    forall i | 0 <= i < |nodes| ensures IndexOf(nodes, nodes[i].stepId) == Some(i) {
      IndexOfUnique(nodes, i);
    }
  }

  lemma {:induction false} BeginsOnScript(flow: Flow, key: string, path: seq<nat>, f: Fold)
    requires Runnable(flow) && Hops(flow.Nodes(), key, path) && path[|path| - 1] < |flow.Nodes()|
    requires Affordable(flow.Nodes(), key, path, 0, Budgets(flow.Nodes()))
    requires f.index == path[0] && f.executions == 0 && f.open.None? && f.budgets == Budgets(flow.Nodes())
    requires key !in f.state && f.provided <= f.state.Keys && Bounded(flow.Nodes(), f, ExecutionBound(flow.Nodes()))
    ensures OnScript(flow, key, path, 0, f)
  {
    hide Budgets, Bounded, ExecutionBound, Affordable, Runnable;
    if |path| > 1 {
      HopOf(flow.Nodes(), key, path, 0);
    } else {
      assert path[0] == path[|path| - 1];
    }
  }

  // ------------------------------------------------------- journaling a boundary without it

  /** A row from which the next lease starts at node `b` without the key. */
  ghost predicate LacksAt(flow: Flow, key: string, b: nat, row: Row)
    requires 0 < b <= |flow.Nodes()|
  {
    && row.status == Completed && row.stepId == flow.Nodes()[b - 1].stepId
    && row.stateDelta.Some? && key !in row.stateDelta.value && DecodeDelta(flow, row.stateDelta.value).Some?
  }

  /** The lease that sees only that row starts there. */
  lemma {:induction false} ResumesAt(flow: Flow, env: Env, key: string, b: nat, row: Row)
    requires Runnable(flow) && 0 < b < |flow.Nodes()| && SegmentEnd(flow.Nodes(), b - 1) && LacksAt(flow, key, b, row)
    requires key !in flow.initialKeys
    ensures var f := StartingFold(flow, env, Nulls(flow.initialKeys), [row]);
      && f.index == b && f.executions == 0 && f.open.None? && f.budgets == Budgets(flow.Nodes())
      && key !in f.state && f.provided <= f.state.Keys
    ensures ReplayGuard(flow.Nodes(), [row], b).None?
  {
    var initial := Nulls(flow.initialKeys);
    OneRowResumes(flow, env, initial, row, b);
    DecodeKeys(flow, row.stateDelta.value);
    hide DecodeDelta, Runnable, SegmentEnd, Budgets, ReplayGuard, Hydrate;
    HydrateKeeps(flow, env, Fresh(flow, initial), [row]);
  }

  /** The scripted steps' values are always encoded and decoded. */
  lemma {:induction false} ScriptDelta(flow: Flow, provided: set<string>, state: State)
    requires flow == ScriptFlow(flow.plan, flow.initialKeys)
    ensures var delta := EncodeDelta(flow, provided, state);
      && delta.Some? && delta.value.Keys == provided * flow.spec.Keys && DecodeDelta(flow, delta.value).Some?
  {
    hide ProvidedBefore, Follow, IndexOf;
    forall k, v: Option<Json> | k in flow.spec ensures flow.spec[k].encode(v).Some? {}
    forall k, e: Json | k in flow.spec ensures flow.spec[k].decode(e).Some? {}
    hide ScriptFlow;
  }

  /** Behind the end of its walk the driver completes one more node and journals it. */
  lemma {:induction false} CompletesNode(flow: Flow, env: Env, key: string, path: seq<nat>, f: Fold) returns (row: Row)
    requires Scripted(flow, env, key, path) && OnScript(flow, key, path, |path| - 1, f) && f.open.Some?
    requires FirstMissing(flow.Nodes()[f.index].needs, f.state).None?
    requires SegmentEnd(flow.Nodes(), f.index) && key !in flow.Nodes()[f.index].supplies
    ensures Runnable(flow) && LacksAt(flow, key, f.index + 1, row)
    ensures exists e :: e in Drive(flow, env, f).final.log && e.Append? && e.row == row
  {
    hide RunNode, Reaches, Drive, ExecutionBound, Bounded, MoveTo, Contiguous, RecoveriesValid, UniqueIds, Hops;
    hide Affordable;
    hide Inputs, EncodeDelta, DecodeDelta, SegmentEnd, FirstMissing, ScriptFlow, ScriptEnv, Call, StartedEvent;
    ScriptAnswer(flow, env, key, path, |path| - 1, f);
    ScriptRunnable(flow, env, key, path);
    hide Scripted, Answer;
    var nodes := flow.Nodes();
    ScriptReaches(flow, env, f);
    StepOnTrack(flow, env, f);
    StepAdvance(flow, env, f);
    StepLog(flow, env, f);
    DriveAdvances(flow, env, f);
    var h := RunNode(flow, env, f).next;
    MoveKeeps(nodes, h, f.index + 1);
    MovePlaced(nodes, h, f.index + 1);
    DriveGrows(flow, env, MoveTo(nodes, h, f.index + 1));
    var e := h.log[|f.log| + 2];
    row := e.row;
    assert e in Drive(flow, env, f).final.log by {
      assert h.log <= Drive(flow, env, f).final.log;
    }
    ScriptDelta(flow, h.provided, h.state);
  }

  /** A lease that sees these rows starts at node `b` without the key. */
  ghost predicate Startable(flow: Flow, key: string, b: nat, seen: seq<Row>) {
    || (b == 0 && seen == [])
    || (&& 0 < b < |flow.Nodes()| && SegmentEnd(flow.Nodes(), b - 1)
        && |seen| == 1 && LacksAt(flow, key, b, seen[0]))
  }

  /** What one scripted lease does: it misses a need, or gets to the end of its walk. */
  lemma {:induction false} LeaseFollows(flow: Flow, env: Env, key: string, path: seq<nat>, seen: seq<Row>)
    returns (missed: bool, g: Fold)
    requires Scripted(flow, env, key, path) && key !in flow.initialKeys && env.read
    requires Affordable(flow.Nodes(), key, path, 0, Budgets(flow.Nodes()))
    requires Startable(flow, key, path[0], seen)
    ensures Runnable(flow)
    ensures var r := RunFlow(flow, env, Nulls(flow.initialKeys), true, seen);
      && (missed ==> MissesNeed(r))
      && (!missed ==>
            && OnScript(flow, key, path, |path| - 1, g) && g.open.Some?
            && FirstMissing(flow.Nodes()[g.index].needs, g.state).None?
            && r == Conclude(env, Drive(flow, env, g)))
  {
    hide Drive, RunFlow, Conclude, Budgets, Hops, Affordable, OnScript, Scripted, Runnable, ReplayGuard, LacksAt;
    hide SegmentEnd;
    hide FirstMissing, ExecutionBound, Bounded, StartingFold, UniqueIds, Contiguous, RecoveriesValid, Elements, Nulls;
    ScriptRunnable(flow, env, key, path);
    assert |path| > 0 by { HopsSome(flow.Nodes(), key, path); }
    var initial := Nulls(flow.initialKeys);
    var f := StartingFold(flow, env, initial, seen);
    LeaseCases(flow, env, initial, true, seen);
    StartBounded(flow, env, initial, seen);
    if seen == [] {
      FreshBegins(flow, env, key);
    } else {
      assert seen == [seen[0]];
      ResumesAt(flow, env, key, path[0], seen[0]);
    }
    BeginsOnScript(flow, key, path, f);
    missed, g := FollowsScript(flow, env, key, path, 0, f);
    ConcludeKeeps(env, Drive(flow, env, f));
  }

  lemma {:induction false} HopsSome(nodes: seq<Node>, key: string, path: seq<nat>)
    requires Hops(nodes, key, path)
    ensures |path| > 0
  {}

  lemma {:induction false} FreshBegins(flow: Flow, env: Env, key: string)
    requires key !in flow.initialKeys
    ensures var f := StartingFold(flow, env, Nulls(flow.initialKeys), []);
      && f.index == 0 && f.executions == 0 && f.open.None? && f.budgets == Budgets(flow.Nodes())
      && key !in f.state && f.provided <= f.state.Keys
    ensures ReplayGuard(flow.Nodes(), [], 0).None?
  {}

  // --------------------------------------------------------------------- many leases

  /** The scripted operation so far: proper leases of the scripted flow. */
  ghost predicate Proper(plan: Plan, initialKeys: seq<string>, attempts: seq<Attempt>) {
    var flow := ScriptFlow(plan, initialKeys);
    Runnable(flow) && Supplying(flow, attempts)
  }

  ghost predicate SomeMisses(flow: Flow, attempts: seq<Attempt>)
    requires Runnable(flow)
  {
    exists j :: 0 <= j < |attempts| && AttemptMisses(flow, attempts[j])
  }

  ghost predicate AttemptMisses(flow: Flow, a: Attempt)
    requires Runnable(flow)
  {
    MissesNeed(RunFlow(flow, a.env, a.initial, a.resume, a.seen))
  }

  ghost predicate SomeWrote(flow: Flow, attempts: seq<Attempt>, row: Row)
    requires Runnable(flow)
  {
    exists j :: 0 <= j < |attempts| && Wrote(flow, attempts[j], row)
  }

  /** One more lease that sees nothing, or one row that was written. */
  lemma {:induction false} OneMoreLease(
    plan: Plan, initialKeys: seq<string>, attempts: seq<Attempt>, key: string, path: seq<nat>, seen: seq<Row>)
    requires ValidNodes(plan.nodes) && Proper(plan, initialKeys, attempts)
    requires forall row :: row in seen ==> SomeWrote(ScriptFlow(plan, initialKeys), attempts, row)
    ensures Proper(plan, initialKeys, attempts + [ScriptedLease(plan, initialKeys, key, path, seen)])
  {
    ScriptSupplies(plan.nodes, key, path);
    hide Wrote, SuppliesAll, ScriptEnv, Runnable;
    var flow := ScriptFlow(plan, initialKeys);
    var longer := attempts + [ScriptedLease(plan, initialKeys, key, path, seen)];
    forall j, row | 0 <= j < |longer| && row in longer[j].seen
      ensures exists i :: 0 <= i < j && Wrote(flow, longer[i], row)
    {
      if j < |attempts| {
        var i :| 0 <= i < j && Wrote(flow, attempts[i], row);
        assert longer[i] == attempts[i];
      } else {
        var i :| 0 <= i < |attempts| && Wrote(flow, attempts[i], row);
        assert longer[i] == attempts[i];
      }
    }
  }

  /** The earlier leases have written what the next one needs to see. */
  ghost predicate Handed(flow: Flow, key: string, b: nat, attempts: seq<Attempt>, seen: seq<Row>)
    requires Runnable(flow)
  {
    Startable(flow, key, b, seen) && forall row :: row in seen ==> SomeWrote(flow, attempts, row)
  }

  /** The operation can get to every node at which one can start without the key: some
      leases have journaled the boundary in front of it, or one has missed a need. */
  lemma {:induction false} Reaching(plan: Plan, initialKeys: seq<string>, key: string, b: nat, leases: nat)
    returns (attempts: seq<Attempt>, seen: seq<Row>)
    requires ValidNodes(plan.nodes) && Restarts(plan.nodes, key, b, leases) && key !in initialKeys
    ensures Proper(plan, initialKeys, attempts)
    ensures var flow := ScriptFlow(plan, initialKeys);
            SomeMisses(flow, attempts) || Handed(flow, key, b, attempts, seen)
    decreases leases
  {
    hide RunFlow, ScriptFlow, Supplying, LacksAt, SomeWrote, AttemptMisses, Crosses, Proper;
    ScriptRuns(plan, initialKeys);
    var flow := ScriptFlow(plan, initialKeys);
    attempts, seen := [], [];
    NoLeases(plan, initialKeys);
    if b == 0 {
      assert Handed(flow, key, b, attempts, seen);
    } else {
      hide Handed, SomeMisses;
      var start: nat :| Restarts(plan.nodes, key, start, leases - 1) && Crosses(plan.nodes, key, start, b);
      attempts, seen := Reaching(plan, initialKeys, key, start, leases - 1);
      if !SomeMisses(flow, attempts) {
        attempts, seen := CrossingLease(plan, initialKeys, key, start, b, attempts, seen);
      }
    }
  }

  lemma {:induction false} NoLeases(plan: Plan, initialKeys: seq<string>)
    requires ValidNodes(plan.nodes)
    ensures Proper(plan, initialKeys, [])
  {
    ScriptRuns(plan, initialKeys);
    hide Runnable, ScriptFlow;
  }

  lemma {:induction false} WalkOf(nodes: seq<Node>, key: string, start: nat, i: nat) returns (path: seq<nat>)
    requires EvadesFrom(nodes, key, start, i)
    ensures AffordableWalk(nodes, key, start, i, path) && |path| > 0 && path[0] == start && path[|path| - 1] == i
  {
    path :| AffordableWalk(nodes, key, start, i, path);
  }

  /** The next lease plays a walk from there: it misses a need, or gets to the walk's end. */
  lemma {:induction false} NextLease(
    plan: Plan, initialKeys: seq<string>, key: string, start: nat, i: nat, path: seq<nat>, before: seq<Attempt>,
        seen: seq<Row>)
    returns (attempts: seq<Attempt>, missed: bool, g: Fold)
    requires ValidNodes(plan.nodes) && key !in initialKeys && Proper(plan, initialKeys, before)
    requires Handed(ScriptFlow(plan, initialKeys), key, start, before, seen)
    requires AffordableWalk(plan.nodes, key, start, i, path) && i < |plan.nodes|
    ensures attempts == before + [ScriptedLease(plan, initialKeys, key, path, seen)]
    ensures Proper(plan, initialKeys, attempts)
    ensures Scripted(ScriptFlow(plan, initialKeys), ScriptEnv(plan.nodes, key, path), key, path)
    ensures var flow, a := ScriptFlow(plan, initialKeys), attempts[|before|];
      && (missed ==> SomeMisses(flow, attempts))
      && (!missed ==>
            && OnScript(flow, key, path, |path| - 1, g) && g.index == i && g.open.Some?
            && FirstMissing(plan.nodes[i].needs, g.state).None?
            && RunFlow(flow, a.env, a.initial, a.resume, a.seen) == Conclude(a.env, Drive(flow, a.env, g)))
  {
    var flow, env := ScriptFlow(plan, initialKeys), ScriptEnv(plan.nodes, key, path);
    ScriptedIs(plan, initialKeys, key, path);
    assert env.read;
    hide RunFlow, Hops, Affordable, ScriptFlow, ScriptEnv, SuppliesAll, Supplying, Startable, SomeWrote, Proper;
    hide Drive, Conclude;
    hide Scripted, Runnable, SegmentEnd, FirstMissing, ValidNodes, Nulls, UniqueIds, Contiguous, RecoveriesValid;
    attempts := before + [ScriptedLease(plan, initialKeys, key, path, seen)];
    OneMoreLease(plan, initialKeys, before, key, path, seen);
    missed, g := LeaseFollows(flow, env, key, path, seen);
    assert attempts[|before|] == ScriptedLease(plan, initialKeys, key, path, seen);
    if missed {
      assert AttemptMisses(flow, attempts[|before|]);
    }
  }

  lemma {:induction false} CrossingLease(
    plan: Plan, initialKeys: seq<string>, key: string, start: nat, b: nat, before: seq<Attempt>, handed: seq<Row>)
    returns (attempts: seq<Attempt>, seen: seq<Row>)
    requires ValidNodes(plan.nodes) && key !in initialKeys && Crosses(plan.nodes, key, start, b)
    requires Proper(plan, initialKeys, before) && Handed(ScriptFlow(plan, initialKeys), key, start, before, handed)
    ensures Proper(plan, initialKeys, attempts)
    ensures var flow := ScriptFlow(plan, initialKeys);
            SomeMisses(flow, attempts) || Handed(flow, key, b, attempts, seen)
  {
    ScriptRuns(plan, initialKeys);
    var flow := ScriptFlow(plan, initialKeys);
    var path := WalkOf(plan.nodes, key, start, b - 1);
    hide RunFlow, AffordableWalk, ScriptFlow, ScriptEnv, Supplying, LacksAt, Proper, Drive, Conclude, Scripted;
    hide Runnable, OnScript;
    hide SegmentEnd, FirstMissing, ValidNodes, Nulls, Handed, EvadesFrom;
    var missed, g;
    attempts, missed, g := NextLease(plan, initialKeys, key, start, b - 1, path, before, handed);
    seen := [];
    if !missed {
      var a := attempts[|before|];
      var row := CompletesNode(flow, a.env, key, path, g);
      seen := [row];
      ConcludeKeeps(a.env, Drive(flow, a.env, g));
      assert Wrote(flow, a, row);
      assert SomeWrote(flow, attempts, row);
      HandedOne(flow, key, b, attempts, row);
    }
  }

  lemma {:induction false} HandedOne(flow: Flow, key: string, b: nat, attempts: seq<Attempt>, row: Row)
    requires Runnable(flow) && 0 < b < |flow.Nodes()| && SegmentEnd(flow.Nodes(), b - 1)
    requires LacksAt(flow, key, b, row) && SomeWrote(flow, attempts, row)
    ensures Handed(flow, key, b, attempts, [row])
  {
    hide LacksAt, SomeWrote, SegmentEnd, Runnable;
  }

  /** The last lease gets to the node whose need is missing. */
  lemma {:induction false} StarvedLease(
    plan: Plan, initialKeys: seq<string>, key: string, start: nat, i: nat, before: seq<Attempt>, seen: seq<Row>)
    returns (attempts: seq<Attempt>)
    requires ValidNodes(plan.nodes) && key !in initialKeys && Proper(plan, initialKeys, before)
    requires Handed(ScriptFlow(plan, initialKeys), key, start, before, seen)
    requires i < |plan.nodes| && key in plan.nodes[i].needs && EvadesFrom(plan.nodes, key, start, i)
    ensures Proper(plan, initialKeys, attempts) && SomeMisses(ScriptFlow(plan, initialKeys), attempts)
    ensures |attempts| == |before| + 1 && attempts[|before|].seen == seen
  {
    var path := WalkOf(plan.nodes, key, start, i);
    hide RunFlow, AffordableWalk, ScriptFlow, ScriptEnv, Supplying, Proper, Drive, Conclude, Scripted, Runnable;
    hide Handed, ValidNodes, Nulls;
    hide EvadesFrom, FirstMissing;
    var missed, g;
    attempts, missed, g := NextLease(plan, initialKeys, key, start, i, path, before, seen);
    if !missed {
      NeedMissing(plan.nodes[i].needs, g.state, key);
    }
  }

  // ------------------------------------------------------------------- the exact conditions

  /** No fresh run of any flow with this plan whose steps and caller supply what they
      declare ends with `MISSING_NEED`. */
  ghost predicate NeedsKept(plan: Plan, initialKeys: seq<string>) {
    forall flow: Flow, env: Env, initial: State ::
      flow.plan == plan && flow.initialKeys == initialKeys && Runnable(flow) && InVocabulary(flow)
      && SuppliesAll(env, plan.nodes) && Elements(initialKeys) <= initial.Keys ==>
        !MissesNeed(RunFlow(flow, env, initial, true, []))
  }

  /** No lease of any operation does, whatever its earlier leases did, whichever of the rows
      they tried to write it sees. */
  ghost predicate NeedsKeptOverLeases(plan: Plan, initialKeys: seq<string>) {
    forall flow: Flow, attempts: seq<Attempt> ::
      flow.plan == plan && flow.initialKeys == initialKeys && Runnable(flow) && InVocabulary(flow)
      && Supplying(flow, attempts) ==>
        !SomeMisses(flow, attempts)
  }

  /** For every valid plan: no fresh run ever misses a need exactly when no walk within the
      budgets reaches one past all its providers. */
  lemma {:induction false} NeedsExactly(plan: Plan, initialKeys: seq<string>)
    requires ValidNodes(plan.nodes)
    ensures NeedsKept(plan, initialKeys) <==> !StarvesInBudget(plan.nodes, initialKeys)
  {
    hide RunFlow, ValidNodes, SuppliesAll, InVocabulary, EvadesFrom, Runnable;
    var nodes := plan.nodes;
    if StarvesInBudget(nodes, initialKeys) {
      var i: nat, need :| i < |nodes| && need in nodes[i].needs && need !in initialKeys
          && EvadesFrom(nodes, need, 0, i);
      StarvedBreaks(plan, initialKeys, need, i);
    } else {
      forall flow: Flow, env: Env, initial: State
        | flow.plan == plan && flow.initialKeys == initialKeys && Runnable(flow) && InVocabulary(flow)
          && SuppliesAll(env, nodes) && Elements(initialKeys) <= initial.Keys
        ensures !MissesNeed(RunFlow(flow, env, initial, true, []))
      {
        if MissesNeed(RunFlow(flow, env, initial, true, [])) {
          LeaseMisses(flow, env, initial);
        }
      }
    }
  }

  /** Every walk within the budgets is driven into a missing need. */
  lemma {:induction false} StarvedBreaks(plan: Plan, initialKeys: seq<string>, key: string, i: nat)
    requires ValidNodes(plan.nodes) && i < |plan.nodes| && key in plan.nodes[i].needs && key !in initialKeys
    requires EvadesFrom(plan.nodes, key, 0, i)
    ensures !NeedsKept(plan, initialKeys)
  {
    hide RunFlow, EvadesFrom, Runnable, ScriptFlow, SuppliesAll, InVocabulary, ValidNodes;
    ScriptRuns(plan, initialKeys);
    NoLeases(plan, initialKeys);
    var attempts := StarvedLease(plan, initialKeys, key, 0, i, [], []);
    var flow := ScriptFlow(plan, initialKeys);
    ScriptIs(plan, initialKeys);
    var j :| 0 <= j < |attempts| && AttemptMisses(flow, attempts[j]);
    LoneFresh(flow, attempts);
    assert MissesNeed(RunFlow(flow, attempts[0].env, attempts[0].initial, true, []));
  }

  lemma {:induction false} ScriptIs(plan: Plan, initialKeys: seq<string>)
    ensures ScriptFlow(plan, initialKeys).plan == plan && ScriptFlow(plan, initialKeys).initialKeys == initialKeys
  {}

  /** With nothing to see, to resume is to start. */
  lemma {:induction false} LoneFresh(flow: Flow, attempts: seq<Attempt>)
    requires Runnable(flow) && |attempts| == 1 && attempts[0].seen == []
    ensures var a := attempts[0];
      RunFlow(flow, a.env, a.initial, a.resume, a.seen) == RunFlow(flow, a.env, a.initial, true, [])
  {
    hide Drive, Conclude, Runnable;
  }

  /** For every valid plan: no lease of any operation misses a need exactly when no chain of
      walks does, each within fresh budgets, each but the last up to a boundary. */
  lemma {:induction false} NeedsOverLeasesExactly(plan: Plan, initialKeys: seq<string>)
    requires ValidNodes(plan.nodes)
    ensures NeedsKeptOverLeases(plan, initialKeys) <==> !StarvesOverLeases(plan.nodes, initialKeys)
  {
    hide RunFlow, ValidNodes, InVocabulary, EvadesFrom, Runnable, StartsAt, Supplying;
    var nodes := plan.nodes;
    if StarvesOverLeases(nodes, initialKeys) {
      var start: nat, i: nat, need :| i < |nodes| && need in nodes[i].needs && need !in initialKeys
        && StartsAt(nodes, need, start) && EvadesFrom(nodes, need, start, i);
      OperationStarves(plan, initialKeys, need, start, i);
    } else {
      forall flow: Flow, attempts: seq<Attempt>
        | flow.plan == plan && flow.initialKeys == initialKeys && Runnable(flow) && InVocabulary(flow)
          && Supplying(flow, attempts)
        ensures !SomeMisses(flow, attempts)
      {
        if j :| 0 <= j < |attempts| && AttemptMisses(flow, attempts[j]) {
          OperationMisses(flow, attempts, j);
        }
      }
    }
  }

  lemma {:induction false} OperationStarves(plan: Plan, initialKeys: seq<string>, key: string, start: nat, i: nat)
    requires ValidNodes(plan.nodes) && i < |plan.nodes| && key in plan.nodes[i].needs && key !in initialKeys
    requires StartsAt(plan.nodes, key, start) && EvadesFrom(plan.nodes, key, start, i)
    ensures !NeedsKeptOverLeases(plan, initialKeys)
  {
    hide RunFlow, EvadesFrom, Runnable, ScriptFlow, Supplying, InVocabulary, ValidNodes, SomeMisses, LacksAt;
    hide SomeWrote, SegmentEnd;
    ScriptRuns(plan, initialKeys);
    ScriptIs(plan, initialKeys);
    var leases: nat :| Restarts(plan.nodes, key, start, leases);
    var attempts, seen := Reaching(plan, initialKeys, key, start, leases);
    var flow := ScriptFlow(plan, initialKeys);
    if !SomeMisses(flow, attempts) {
      attempts := StarvedLease(plan, initialKeys, key, start, i, attempts, seen);
    }
    assert Supplying(flow, attempts) && SomeMisses(flow, attempts);
  }

  // ------------------------------------------------------ plans whose keys do not collide

  /** A walk without repetitions uses no budget twice. */
  lemma {:induction false} UsesOnce(nodes: seq<Node>, key: string, path: seq<nat>, k: nat, m: nat, budget: string)
    requires UniqueIds(nodes) && KeysApart(nodes) && Hops(nodes, key, path) && Distinct(path)
    requires path[|path| - 1] < |nodes|
    requires k < m && m < |path| && path[k] < |nodes| && Detours(nodes, key, path, k)
    requires budget == EdgeKey(nodes[path[k]].stepId, nodes[path[k + 1]].stepId)
    ensures Uses(nodes, key, path, m, budget) == 0
    decreases |path| - m
  {
    hide EdgeKey, Hops, Detours, UniqueIds, KeysApart;
    if m + 1 < |path| {
      UsesOnce(nodes, key, path, k, m + 1, budget);
      if path[m] < |nodes| && Detours(nodes, key, path, m) {
        KeysDiffer(nodes, key, path, k, m);
      }
    }
  }

  lemma {:induction false} KeysDiffer(nodes: seq<Node>, key: string, path: seq<nat>, k: nat, m: nat)
    requires KeysApart(nodes) && Hops(nodes, key, path) && Distinct(path) && path[|path| - 1] < |nodes|
    requires k < m && m + 1 < |path| && path[k] < |nodes| && path[m] < |nodes| && Detours(nodes, key, path, k)
    requires Detours(nodes, key, path, m)
    ensures EdgeKey(nodes[path[k]].stepId, nodes[path[k + 1]].stepId) != EdgeKey(nodes[path[m]].stepId,
            nodes[path[m + 1]].stepId)
  {
    hide EdgeKey, Walked;
    HopOf(nodes, key, path, k);
    HopOf(nodes, key, path, m);
    assert path[k] != path[m];
  }

  lemma {:induction false} SimpleAffordable(flow: Flow, key: string, path: seq<nat>, k: nat, budget: string)
    requires Runnable(flow) && KeysApart(flow.Nodes()) && Hops(flow.Nodes(), key, path) && Distinct(path)
    requires path[|path| - 1] < |flow.Nodes()|
    ensures Uses(flow.Nodes(), key, path, k, budget) <= GetOr(Budgets(flow.Nodes()), budget, 0)
    decreases |path| - k
  {
    hide EdgeKey, Hops, Detours, KeysApart, Budgets, Contiguous, RecoveriesValid;
    var nodes := flow.Nodes();
    if k + 1 >= |path| {
      BudgetNotNegative(flow, budget);
    } else {
      SimpleAffordable(flow, key, path, k + 1, budget);
      HopOf(nodes, key, path, k);
      if Detours(nodes, key, path, k) && EdgeKey(nodes[path[k]].stepId, nodes[path[k + 1]].stepId) == budget {
        UsesOnce(nodes, key, path, k, k + 1, budget);
        BudgetsCover(flow, path[k], nodes[path[k + 1]].stepId);
      }
    }
  }

  lemma {:induction false} BudgetNotNegative(flow: Flow, budget: string)
    requires Runnable(flow)
    ensures GetOr(Budgets(flow.Nodes()), budget, 0) >= 0
  {
    AllPositive(flow.Nodes());
    BudgetsTotal(flow.Nodes());
    hide Budgets, Total;
  }

  /** Where budget keys do not collide every walk can be had within the budgets: leases add
      nothing, and starving is starving within the budgets. */
  lemma {:induction false} ApartInBudget(flow: Flow)
    requires Runnable(flow) && KeysApart(flow.Nodes())
    ensures StarvesInBudget(flow.Nodes(), flow.initialKeys) <==> Starves(flow.Nodes(), flow.initialKeys)
    ensures StarvesOverLeases(flow.Nodes(), flow.initialKeys) <==> Starves(flow.Nodes(), flow.initialKeys)
  {
    hide Hops, KeysApart, Runnable, Budgets, Uses;
    var nodes := flow.Nodes();
    forall i: nat, need | i < |nodes| ensures EvadesFrom(nodes, need, 0, i) <==> Evades(nodes, need, i) {
      if path :| AffordableWalk(nodes, need, 0, i, path) {
        assert Walked(nodes, need, path);
      }
      if Evades(nodes, need, i) {
        var path := EvadingWalk(nodes, need, i);
        var simple := SimpleWalk(nodes, need, path);
        forall b ensures Uses(nodes, need, simple, 0, b) <= GetOr(Budgets(nodes), b, 0) {
          SimpleAffordable(flow, need, simple, 0, b);
        }
        assert AffordableWalk(nodes, need, 0, i, simple);
      }
    }
    hide EvadesFrom, Evades;
    if Starves(nodes, flow.initialKeys) {
      var i: nat, need :| i < |nodes| && need in nodes[i].needs && need !in flow.initialKeys && Evades(nodes, need, i);
      HeadStarts(nodes, need);
    }
    if StarvesOverLeases(nodes, flow.initialKeys) {
      var start: nat, i: nat, need :| i < |nodes| && need in nodes[i].needs && need !in flow.initialKeys
        && StartsAt(nodes, need, start) && EvadesFrom(nodes, need, start, i);
      ChainEvades(nodes, need, start);
      JoinEvades(nodes, need, start, i);
    }
  }

  /** A chain of walks is a walk, if nobody counts the budgets. */
  lemma {:induction false} ChainEvades(nodes: seq<Node>, key: string, start: nat)
    requires StartsAt(nodes, key, start)
    ensures Evades(nodes, key, start)
  {
    var leases: nat :| Restarts(nodes, key, start, leases);
    RestartEvades(nodes, key, start, leases);
  }

  lemma {:induction false} RestartEvades(nodes: seq<Node>, key: string, b: nat, leases: nat)
    requires Restarts(nodes, key, b, leases)
    ensures Evades(nodes, key, b)
    decreases leases
  {
    hide EvadesFrom, Evades, SegmentEnd;
    if b == 0 {
      EvadesHead(nodes, key);
    } else {
      var start: nat :| Restarts(nodes, key, start, leases - 1) && Crosses(nodes, key, start, b);
      RestartEvades(nodes, key, start, leases - 1);
      JoinEvades(nodes, key, start, b - 1);
      assert Onward(nodes, key, b - 1, b);
      EvadesHop(nodes, key, b - 1, b);
    }
  }

  lemma {:induction false} JoinEvades(nodes: seq<Node>, key: string, start: nat, i: nat)
    requires Evades(nodes, key, start) && EvadesFrom(nodes, key, start, i)
    ensures Evades(nodes, key, i)
  {
    var path :| AffordableWalk(nodes, key, start, i, path);
    JoinHops(nodes, key, start, path);
  }

  lemma {:induction false} JoinHops(nodes: seq<Node>, key: string, start: nat, path: seq<nat>)
    requires Evades(nodes, key, start) && Hops(nodes, key, path) && path[0] == start
    ensures Evades(nodes, key, path[|path| - 1])
    decreases |path|
  {
    hide Evades, Hop;
    if |path| > 1 {
      var front := path[..|path| - 1];
      forall k | 0 <= k < |front| - 1 ensures Hop(nodes, key, front[k], front[k + 1]) {
        assert Hop(nodes, key, path[k], path[k + 1]);
      }
      JoinHops(nodes, key, start, front);
      assert Hop(nodes, key, path[|path| - 2], path[|path| - 2 + 1]);
      EvadesHop(nodes, key, path[|path| - 2], path[|path| - 1]);
    }
  }

  /** A provider with a recovery edge to its consumer: valid, and it starves. */
  function SkippingPlan(): Plan {
    var provider := Node("a", [], ["x"], [], [RecoveryEdge("b", 1)], [], Read, "s", []);
    var consumer := Node("b", ["x"], [], ["a"], [], [], Read, "s", []);
    Plan("f", "acuity", "1.0.0", [provider, consumer])
  }

  /** The validator accepts plans that starve: its needs check does not see a reroute that
      arrives without what the rerouted step provides. */
  lemma {:induction false} ValidYetStarving()
    ensures ValidPlan(SkippingPlan(), []) && Starves(SkippingPlan().nodes, [])
  {
    var nodes := SkippingPlan().nodes;
    SkippingShape();
    SkippingNeeds();
    SkippingEdges();
    SkippingAcyclic();
    SkippingStarves();
    hide Acyclic, Starves, UniqueIds, Contiguous, RecoveriesValid, NeedsMet, DepsKnown, SkippingPlan;
  }

  lemma {:induction false} SkippingShape()
    ensures UniqueIds(SkippingPlan().nodes) && Contiguous(SkippingPlan().nodes)
  {
    var nodes := SkippingPlan().nodes;
    assert nodes[0].stepId[0] == 'a' && nodes[1].stepId[0] == 'b';
  }

  lemma {:induction false} SkippingNeeds()
    ensures NeedsMet(SkippingPlan().nodes, []) && DepsKnown(SkippingPlan().nodes)
  {
    var nodes := SkippingPlan().nodes;
    assert |nodes| == 2 && nodes[0].needs == [] && nodes[1].needs == ["x"] && nodes[0].supplies == ["x"];
    assert nodes[0].dependsOn == [] && nodes[1].dependsOn == ["a"];
    assert StepIds(nodes)[0] == "a";
    assert ProvidedBefore(nodes, 1) == Elements(nodes[0].supplies);
    assert "x" in nodes[0].supplies;
    hide SkippingPlan, ProvidedBefore;
  }

  lemma {:induction false} SkippingEdges()
    ensures RecoveriesValid(SkippingPlan().nodes)
  {
    var nodes := SkippingPlan().nodes;
    assert StepIds(nodes)[1] == "b";
    hide StepIds;
    forall i | 0 <= i < |nodes|
      ensures Distinct(Targets(nodes[i].recoveries)) && forall e :: e in nodes[i].recoveries ==> EdgeValid(nodes, e)
    {
      assert |nodes[i].recoveries| <= 1 && forall e :: e in nodes[i].recoveries ==> e == RecoveryEdge("b", 1);
    }
  }

  lemma {:induction false} SkippingAcyclic()
    ensures Acyclic(SkippingPlan().nodes)
  {
    var nodes := SkippingPlan().nodes;
    var order := ["a", "b"];
    assert nodes[0].stepId[0] == 'a' && nodes[1].stepId[0] == 'b';
    forall k, dep | 0 <= k < |order| && DependsOn(nodes, order[k], dep) ensures dep in order[..k] {
      var i :| 0 <= i < |nodes| && nodes[i].stepId == order[k] && dep in nodes[i].dependsOn;
      assert i == 1 && k == 1 && order[..1] == ["a"];
    }
    forall i | 0 <= i < |nodes| ensures !OnCycle(nodes, nodes[i].stepId) {
      assert nodes[i].stepId == order[i];
      ScheduledNotOnCycle(nodes, order, nodes[i].stepId);
    }
  }

  lemma {:induction false} SkippingStarves()
    ensures Starves(SkippingPlan().nodes, [])
  {
    var nodes := SkippingPlan().nodes;
    assert nodes[0].stepId[0] == 'a' && nodes[1].stepId[0] == 'b';
    assert RecoveryEdge("b", 1) in nodes[0].recoveries;
    assert Declares(nodes[0], nodes[1].stepId);
    assert IndexOf(nodes, nodes[1].stepId) == Some(1);
    assert Edge(nodes, 0, 1);
    var path := [0, 1];
    assert Walked(nodes, "x", path) && path[|path| - 1] == 1;
    assert Evades(nodes, "x", 1) && "x" in nodes[1].needs;
  }
}
