/** What one node of the fold does, case by case. The theorems about whole leases
    rest on these lemmas instead of on the body of `RunNode`. */
module FlowSteps {
  import opened Basics
  import opened JsonValues
  import opened FlowTypes
  import opened PlanShape
  import opened FlowFold

  /** The call of the step at `f.index`, if the node gets that far. */
  function Call(f: Fold, node: Node): Event {
    Entered(node.stepId, Inputs(node.needs, f.state), Get(f.tokens, node.stepId))
  }

  function AttemptOf(f: Fold, node: Node): nat {
    GetOr(f.attempts, node.stepId, 0) + 1
  }

  function StartedEvent(env: Env, f: Fold, node: Node): Event {
    Append(StartedRow(node.stepId, AttemptOf(f, node), Get(f.tokens, node.stepId)), env.append(f.appends))
  }

  /** Neither the bound, nor a missing need, nor an unregistered step stops the node. */
  predicate Reaches(flow: Flow, f: Fold, node: Node) {
    && node.stepId in flow.registered
    && f.executions + 1 <= ExecutionBound(flow.Nodes())
    && FirstMissing(node.needs, f.state).None?
  }

  function Answer(env: Env, f: Fold, node: Node): RunResult {
    env.run(f.executions + 1, node.stepId, Inputs(node.needs, f.state), Get(f.tokens, node.stepId))
  }

  /** A node that does not get to its call faults in one of three ways. */
  lemma {:induction false} StepStopped(flow: Flow, env: Env, f: Fold)
    requires f.index < |flow.Nodes()| && RecoveriesValid(flow.Nodes())
    requires !Reaches(flow, f, flow.Nodes()[f.index])
    ensures var node, s := flow.Nodes()[f.index], RunNode(flow, env, f);
      && s.Faulted? && s.next.log == f.log && s.next.appends == f.appends
      && s.next.succeeded == f.succeeded && s.next.budgets == f.budgets
      && (s.fault == if node.stepId !in flow.registered then UnknownStep(node.stepId)
                     else if f.executions + 1 > ExecutionBound(flow.Nodes()) then BoundExceeded(node.stepId)
                     else MissingNeed(node.stepId, FirstMissing(node.needs, f.state).value))
  {
    hide Settle, Start;
  }

  /** The row with which an answered call ends. */
  ghost predicate ClosingRow(env: Env, f: Fold, s: Step, stepId: string, attempt: nat, e: Event) {
    && e.Append? && e.kept == env.append(f.appends)
    && e.row.stepId == stepId && e.row.attempt == attempt
    && e.row.status == (if s.Advanced? then Completed else if s.ReroutedTo? then Rerouted else Failed)
  }

  lemma {:induction false} SettleLog(flow: Flow, env: Env, f: Fold, attempt: nat, result: RunResult)
    requires f.index < |flow.Nodes()| && RecoveriesValid(flow.Nodes())
    ensures var s := Settle(flow, env, f, attempt, result);
      if result.Died? then s == Faulted(f, Defect)
      else
        && |s.next.log| == |f.log| + 1 && s.next.appends == f.appends + 1
        && s.next.log == f.log + [s.next.log[|f.log|]]
        && ClosingRow(env, f, s, flow.Nodes()[f.index].stepId, attempt, s.next.log[|f.log|])
  {
    hide Commit, Divert, GiveUp, Classify, IndexOf, ErrorCode, ClosingRow, MinConfidence;
    var node := flow.Nodes()[f.index];
    var s := Settle(flow, env, f, attempt, result);
    match result
    case Died =>
    case Threw(error) => GiveUpLog(flow, env, f, attempt, None, ErrorCode(error), s);
    case Returned(o) =>
      var g := Absorb(f, node.stepId, o);
      match Classify(flow, g, node, o.observed) {
        case OnTrack => CommitLog(flow, env, g, attempt, o, s);
        case Recoverable(to) => DivertLog(flow, env, g, attempt, o.observed, to, s);
        case Divergent(_) => GiveUpLog(flow, env, g, attempt, o.observed, "FLOW_DIVERGED", s);
      }
      SameClosing(env, f, g, s, node.stepId, attempt);
  }

  /** The fold ends with one more event, the closing row of the step. */
  ghost predicate Closes(flow: Flow, env: Env, f: Fold, attempt: nat, s: Step)
    requires f.index < |flow.Nodes()|
  {
    && |s.next.log| == |f.log| + 1 && s.next.appends == f.appends + 1
    && s.next.log == f.log + [s.next.log[|f.log|]]
    && ClosingRow(env, f, s, flow.Nodes()[f.index].stepId, attempt, s.next.log[|f.log|])
  }

  lemma {:induction false} SameClosing(env: Env, f: Fold, g: Fold, s: Step, stepId: string, attempt: nat)
    requires g.log == f.log && g.appends == f.appends
    ensures forall e :: ClosingRow(env, g, s, stepId, attempt, e) ==> ClosingRow(env, f, s, stepId, attempt, e)
  {}

  lemma {:induction false} CommitLog(flow: Flow, env: Env, f: Fold, attempt: nat, o: StepOutcome, s: Step)
    requires f.index < |flow.Nodes()| && s == Advanced(Commit(flow, env, f, attempt, o))
    ensures Closes(flow, env, f, attempt, s)
  {
    hide EncodeDelta, SegmentEnd, Elements;
  }

  lemma {:induction false} DivertLog(
    flow: Flow, env: Env, f: Fold, attempt: nat, landing: Option<Landing>, to: string, s: Step)
    requires f.index < |flow.Nodes()| && s.ReroutedTo? && s.next == Divert(flow, env, f, attempt, landing, to)
    ensures Closes(flow, env, f, attempt, s)
  {
    hide EdgeKey;
  }

  lemma {:induction false} GiveUpLog(
    flow: Flow, env: Env, f: Fold, attempt: nat, landing: Option<Landing>, code: string, s: Step)
    requires f.index < |flow.Nodes()| && s.Faulted? && s.next == GiveUp(flow, env, f, attempt, landing, code)
    ensures Closes(flow, env, f, attempt, s)
  {}

  lemma {:induction false} NodeRuns(flow: Flow, env: Env, f: Fold)
    requires f.index < |flow.Nodes()| && RecoveriesValid(flow.Nodes())
    requires Reaches(flow, f, flow.Nodes()[f.index])
    ensures var node := flow.Nodes()[f.index]; var attempt := AttemptOf(f, node);
      var g := f.(executions := f.executions + 1, attempts := f.attempts[node.stepId := attempt]);
      RunNode(flow, env, f) == Settle(flow, env, Start(env, g, node, attempt), attempt, Answer(env, f, node))
  {
    hide Settle, Start, FirstMissing, Inputs, ExecutionBound;
  }

  /** The acts of a node: nothing, or `started`, the call, and at most one more row. */
  lemma {:induction false} StepLog(flow: Flow, env: Env, f: Fold)
    requires f.index < |flow.Nodes()| && RecoveriesValid(flow.Nodes())
    ensures var node, s := flow.Nodes()[f.index], RunNode(flow, env, f);
      if !Reaches(flow, f, node) then s.Faulted? && s.next.log == f.log && s.next.appends == f.appends
      else if Answer(env, f, node).Died? then
        && s.Faulted? && s.fault == Defect
        && s.next.log == f.log + [StartedEvent(env, f, node), Call(f, node)] && s.next.appends == f.appends + 1
      else
        && |s.next.log| == |f.log| + 3 && s.next.appends == f.appends + 2
        && s.next.log == f.log + [StartedEvent(env, f, node), Call(f, node), s.next.log[|f.log| + 2]]
        && ClosingRow(env, f.(appends := f.appends + 1), s, node.stepId, AttemptOf(f, node), s.next.log[|f.log| + 2])
  {
    hide RunNode, Settle, Inputs, StartedRow, ExecutionBound, FirstMissing, RecoveriesValid;
    var node := flow.Nodes()[f.index];
    if Reaches(flow, f, node) {
      NodeRuns(flow, env, f);
      var attempt := AttemptOf(f, node);
      var g := f.(executions := f.executions + 1, attempts := f.attempts[node.stepId := attempt]);
      var h := Start(env, g, node, attempt);
      assert h.log == f.log + [StartedEvent(env, f, node), Call(f, node)];
      SettleLog(flow, env, h, attempt, Answer(env, f, node));
    } else {
      StepStopped(flow, env, f);
    }
  }

  /** A fault after the call is a step failure, a divergence or a defect. */
  lemma {:induction false} StepFault(flow: Flow, env: Env, f: Fold)
    requires f.index < |flow.Nodes()| && RecoveriesValid(flow.Nodes())
    requires Reaches(flow, f, flow.Nodes()[f.index]) && RunNode(flow, env, f).Faulted?
    ensures var node, s := flow.Nodes()[f.index], RunNode(flow, env, f);
      && s.next.succeeded == f.succeeded && s.next.budgets == f.budgets
      && (match Answer(env, f, node)
          case Died => s.fault == Defect
          case Threw(error) => s.fault == StepFailed(node.stepId, error)
          case Returned(o) => o.observed.Some? && s.fault == Diverged(node.stepId, o.observed.value))
  {
    NodeRuns(flow, env, f);
    hide RunNode, EncodeDelta, MinConfidence, IndexOf, SegmentEnd, FirstMissing, Inputs, Commit, EdgeKey;
  }

  /** Advancing merges the outcome and journals the cumulative delta at segment ends. */
  lemma {:induction false} StepAdvance(flow: Flow, env: Env, f: Fold)
    requires f.index < |flow.Nodes()| && RecoveriesValid(flow.Nodes())
    requires RunNode(flow, env, f).Advanced?
    ensures var node, s := flow.Nodes()[f.index], RunNode(flow, env, f);
      && Reaches(flow, f, node)
      && Answer(env, f, node).Returned?
      && var o := Answer(env, f, node).outcome;
         && s.next.state == f.state + o.state
         && s.next.provided == f.provided + Elements(node.supplies)
         && s.next.budgets == f.budgets && s.next.rerouted == f.rerouted
         && s.next.succeeded == f.succeeded + [Success(node.stepId, o.state, node.stepId in flow.compensable)]
         && |s.next.log| == |f.log| + 3 && s.next.log[|f.log| + 2].Append?
         && s.next.log[|f.log| + 2].row.stateDelta
            == (if SegmentEnd(flow.Nodes(), f.index) then EncodeDelta(flow, s.next.provided, s.next.state) else None)
  {
    hide EncodeDelta, MinConfidence, IndexOf, SegmentEnd, FirstMissing, Inputs, ExecutionBound;
  }

  lemma {:induction false} SettleReroute(flow: Flow, env: Env, f: Fold, attempt: nat, result: RunResult)
    requires f.index < |flow.Nodes()| && RecoveriesValid(flow.Nodes())
    requires Settle(flow, env, f, attempt, result).ReroutedTo?
    ensures var node, s := flow.Nodes()[f.index], Settle(flow, env, f, attempt, result);
      var to := flow.Nodes()[s.to].stepId; var key := EdgeKey(node.stepId, to);
      && Declares(node, to) && IndexOf(flow.Nodes(), to) == Some(s.to)
      && key in f.budgets && f.budgets[key] > 0
      && s.next.budgets == f.budgets[key := f.budgets[key] - 1]
      && s.next.state == f.state && s.next.provided == f.provided && s.next.succeeded == f.succeeded
      && s.next.rerouted
      && |s.next.log| == |f.log| + 1 && s.next.log[|f.log|].Append?
      && s.next.log[|f.log|].row.reroute == Some(Reroute(to, f.budgets[key] - 1))
      && s.next.log[|f.log|].row.stateDelta == None
  {
    hide EncodeDelta, MinConfidence, SegmentEnd, Commit, GiveUp;
  }

  /** A reroute spends one unit of a declared edge's budget and nothing else. */
  lemma {:induction false} StepReroute(flow: Flow, env: Env, f: Fold)
    requires f.index < |flow.Nodes()| && RecoveriesValid(flow.Nodes())
    requires RunNode(flow, env, f).ReroutedTo?
    ensures var node, s := flow.Nodes()[f.index], RunNode(flow, env, f);
      var to := flow.Nodes()[s.to].stepId; var key := EdgeKey(node.stepId, to);
      && Reaches(flow, f, node)
      && Declares(node, to) && IndexOf(flow.Nodes(), to) == Some(s.to)
      && key in f.budgets && f.budgets[key] > 0
      && s.next.budgets == f.budgets[key := f.budgets[key] - 1]
      && s.next.state == f.state && s.next.provided == f.provided && s.next.succeeded == f.succeeded
      && s.next.rerouted
      && |s.next.log| == |f.log| + 3 && s.next.log[|f.log| + 2].Append?
      && s.next.log[|f.log| + 2].row.reroute == Some(Reroute(to, f.budgets[key] - 1))
      && s.next.log[|f.log| + 2].row.stateDelta == None
  {
    hide RunNode, Settle, Inputs, FirstMissing, ExecutionBound, RecoveriesValid, Declares, EdgeKey;
    var node := flow.Nodes()[f.index];
    if !Reaches(flow, f, node) {
      StepStopped(flow, env, f);
    } else {
      NodeRuns(flow, env, f);
      var attempt := AttemptOf(f, node);
      var g := f.(executions := f.executions + 1, attempts := f.attempts[node.stepId := attempt]);
      SettleReroute(flow, env, Start(env, g, node, attempt), attempt, Answer(env, f, node));
    }
  }

  /** Everything the driver adds around a node leaves the rest of the fold alone. */
  lemma {:induction false} MoveKeeps(nodes: seq<Node>, f: Fold, index: nat)
    ensures var g := MoveTo(nodes, f, index);
      && g == f.(index := index, open := g.open, log := g.log)
      && (g.log == f.log || (f.open.Some? && g.log == f.log + [Closed(f.open.value)]))
  {}

  lemma {:induction false} StepExecutions(flow: Flow, env: Env, f: Fold)
    requires f.index < |flow.Nodes()| && RecoveriesValid(flow.Nodes())
    ensures RunNode(flow, env, f).next.executions <= f.executions + 1
  {
    hide Settle, FirstMissing, Inputs, ExecutionBound;
  }
}
