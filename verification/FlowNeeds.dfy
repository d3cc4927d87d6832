/** Needs soundness across leases: when the state is guaranteed to hold every need at the
    node that has it, `MISSING_NEED` (src/flow/run.ts:283-289) never occurs, even when
    journal rows were lost, repeated or reordered. `FlowStarve` says which plans give
    such a guarantee. */
module FlowNeeds {
  import opened Basics
  import opened JsonValues
  import opened FlowTypes
  import opened PlanShape
  import opened FlowFold
  import opened FlowLease
  import opened FlowSteps

  /** `sure[i]` are keys that the steps have provided whenever the fold is at node `i`. */
  type Guarantee = seq<set<string>>

  /** A guarantee for each node and one for the end of the plan. */
  predicate Fits(nodes: seq<Node>, sure: Guarantee) {
    |sure| == |nodes| + 1
  }

  /** Nothing is sure at the start, and a completed node adds no more than it provides. */
  ghost predicate Accrues(nodes: seq<Node>, sure: Guarantee)
    requires Fits(nodes, sure)
  {
    sure[0] == {} && forall i :: 0 <= i < |nodes| ==> sure[i + 1] <= sure[i] + Elements(nodes[i].supplies)
  }

  /** A reroute arrives with no more than was sure where it left. */
  ghost predicate SurvivesEdges(nodes: seq<Node>, sure: Guarantee)
    requires Fits(nodes, sure)
  {
    forall i, to :: 0 <= i < |nodes| && Declares(nodes[i], to) && IndexOf(nodes, to).Some? ==>
      sure[IndexOf(nodes, to).value] <= sure[i]
  }

  /** Every need is an initial key or sure. */
  ghost predicate Meets(nodes: seq<Node>, initialKeys: seq<string>, sure: Guarantee)
    requires Fits(nodes, sure)
  {
    forall i, need :: 0 <= i < |nodes| && need in nodes[i].needs ==> need in Elements(initialKeys) + sure[i]
  }

  ghost predicate Assures(nodes: seq<Node>, initialKeys: seq<string>, sure: Guarantee) {
    Fits(nodes, sure) && Accrues(nodes, sure) && SurvivesEdges(nodes, sure) && Meets(nodes, initialKeys, sure)
  }

  /** What a plan walked from node to node provides. */
  function Prior(nodes: seq<Node>): (sure: Guarantee)
    ensures Fits(nodes, sure)
  {
    seq(|nodes| + 1, i requires 0 <= i <= |nodes| => ProvidedBefore(nodes, i))
  }

  lemma {:induction false} PriorAccrues(nodes: seq<Node>)
    ensures Accrues(nodes, Prior(nodes))
  {}

  lemma {:induction false} PriorMeets(nodes: seq<Node>, initialKeys: seq<string>)
    ensures Meets(nodes, initialKeys, Prior(nodes)) <==> NeedsMet(nodes, initialKeys)
  {
    var sure := Prior(nodes);
    assert forall i :: 0 <= i <= |nodes| ==> sure[i] == ProvidedBefore(nodes, i);
    hide ProvidedBefore, Prior;
  }

  /** Steps return at least what they declare to provide. */
  ghost predicate SuppliesAll(env: Env, nodes: seq<Node>) {
    forall i, k, input, token ::
      0 <= i < |nodes| && env.run(k, nodes[i].stepId, input, token).Returned? ==>
        Elements(nodes[i].supplies) <= env.run(k, nodes[i].stepId, input, token).outcome.state.Keys
  }

  /** Provided keys belong to the state vocabulary. */
  ghost predicate InVocabulary(flow: Flow) {
    ProvidedBefore(flow.Nodes(), |flow.Nodes()|) <= flow.spec.Keys
  }

  /** What is sure belongs to the state vocabulary. */
  ghost predicate Encodable(flow: Flow, sure: Guarantee) {
    forall i :: 0 <= i < |sure| ==> sure[i] <= flow.spec.Keys
  }

  /** A boundary row carries everything that is sure behind its node. */
  ghost predicate RowCarries(flow: Flow, sure: Guarantee, row: Row)
    requires Fits(flow.Nodes(), sure)
  {
    IsBoundary(flow.Nodes(), row) ==>
      sure[IndexOf(flow.Nodes(), row.stepId).value + 1] <= row.stateDelta.value.Keys
  }

  ghost predicate RowsCarry(flow: Flow, sure: Guarantee, rows: seq<Row>)
    requires Fits(flow.Nodes(), sure)
  {
    forall row :: row in rows ==> RowCarries(flow, sure, row)
  }

  ghost predicate LogCarries(flow: Flow, sure: Guarantee, log: seq<Event>)
    requires Fits(flow.Nodes(), sure)
  {
    forall e :: e in log && e.Append? ==> RowCarries(flow, sure, e.row)
  }

  ghost predicate Supplied(flow: Flow, sure: Guarantee, f: Fold)
    requires Fits(flow.Nodes(), sure)
  {
    && f.index <= |flow.Nodes()|
    && Elements(flow.initialKeys) + sure[f.index] <= f.state.Keys
    && sure[f.index] <= f.provided
  }

  lemma {:induction false} NothingMissing(needs: seq<string>, state: State)
    requires forall need :: need in needs ==> need in state
    ensures FirstMissing(needs, state).None?
  {
    if |needs| > 0 {
      NothingMissing(needs[1..], state);
    }
  }

  lemma {:induction false} ReachesOrOther(flow: Flow, sure: Guarantee, f: Fold)
    requires f.index < |flow.Nodes()| && Fits(flow.Nodes(), sure) && Meets(flow.Nodes(), flow.initialKeys, sure)
    requires Supplied(flow, sure, f)
    ensures FirstMissing(flow.Nodes()[f.index].needs, f.state).None?
  {
    NothingMissing(flow.Nodes()[f.index].needs, f.state);
  }

  /** Rows other than a boundary's say nothing that could go wrong. */
  lemma {:induction false} PlainCarries(flow: Flow, sure: Guarantee, row: Row)
    requires Fits(flow.Nodes(), sure)
    requires row.status != Completed || row.stateDelta.None?
    ensures RowCarries(flow, sure, row)
  {}

  lemma {:induction false} ConcatCarries(flow: Flow, sure: Guarantee, a: seq<Event>, b: seq<Event>)
    requires Fits(flow.Nodes(), sure)
    requires LogCarries(flow, sure, a) && LogCarries(flow, sure, b)
    ensures LogCarries(flow, sure, a + b)
  {
    hide RowCarries;
  }

  lemma {:induction false} NodeLogCarries(flow: Flow, sure: Guarantee, env: Env, f: Fold)
    requires Runnable(flow) && f.index < |flow.Nodes()| && Fits(flow.Nodes(), sure)
    requires Accrues(flow.Nodes(), sure) && Encodable(flow, sure)
    requires Supplied(flow, sure, f) && LogCarries(flow, sure, f.log)
    ensures LogCarries(flow, sure, RunNode(flow, env, f).next.log)
  {
    hide RunNode, Reaches, ExecutionBound, RowCarries, Encodable, Accrues, Contiguous, RecoveriesValid, UniqueIds;
    hide Supplied;
    StepLog(flow, env, f);
    var node, s := flow.Nodes()[f.index], RunNode(flow, env, f);
    var started := StartedEvent(env, f, node);
    PlainCarries(flow, sure, started.row);
    if s.Advanced? {
      AdvanceCarries(flow, sure, env, f);
    }
    if Reaches(flow, f, node) && !Answer(env, f, node).Died? {
      var e := s.next.log[|f.log| + 2];
      if !s.Advanced? {
        PlainCarries(flow, sure, e.row);
      }
      assert LogCarries(flow, sure, [started, Call(f, node), e]);
      ConcatCarries(flow, sure, f.log, [started, Call(f, node), e]);
    } else if Reaches(flow, f, node) {
      assert LogCarries(flow, sure, [started, Call(f, node)]);
      ConcatCarries(flow, sure, f.log, [started, Call(f, node)]);
    }
  }

  lemma {:induction false} AdvanceCarries(flow: Flow, sure: Guarantee, env: Env, f: Fold)
    requires Runnable(flow) && f.index < |flow.Nodes()| && Fits(flow.Nodes(), sure)
    requires Accrues(flow.Nodes(), sure) && Encodable(flow, sure)
    requires Supplied(flow, sure, f) && RunNode(flow, env, f).Advanced?
    ensures |RunNode(flow, env, f).next.log| == |f.log| + 3
    ensures RunNode(flow, env, f).next.log[|f.log| + 2].Append?
    ensures RowCarries(flow, sure, RunNode(flow, env, f).next.log[|f.log| + 2].row)
  {
    hide RunNode, Reaches, Call, ExecutionBound, Budgets, Contiguous, RecoveriesValid, StartedEvent, Inputs;
    var nodes, s := flow.Nodes(), RunNode(flow, env, f);
    StepLog(flow, env, f);
    StepAdvance(flow, env, f);
    IndexOfUnique(nodes, f.index);
    assert sure[f.index + 1] <= sure[f.index] + Elements(nodes[f.index].supplies);
    assert sure[f.index + 1] <= flow.spec.Keys;
  }

  lemma {:induction false} DriveSupplied(flow: Flow, sure: Guarantee, env: Env, f: Fold)
    requires Runnable(flow) && Assures(flow.Nodes(), flow.initialKeys, sure) && Encodable(flow, sure)
    requires SuppliesAll(env, flow.Nodes())
    requires Supplied(flow, sure, f) && LogCarries(flow, sure, f.log)
    requires f.open.Some? ==> f.index < |flow.Nodes()| && f.open == Some(flow.Nodes()[f.index].segment)
    ensures var o := Drive(flow, env, f);
      LogCarries(flow, sure, o.final.log) && (o.Broke? ==> !o.fault.MissingNeed?)
    decreases ExecutionsLeft(flow.Nodes(), f), f.open.None?
  {
    hide RunNode, Drive, ExecutionBound, Meets, Accrues, SurvivesEdges, Encodable, Reaches, SuppliesAll;
    hide Contiguous, RecoveriesValid, UniqueIds, FirstMissing, LogCarries, Supplied, MoveTo, Leave;
    var nodes := flow.Nodes();
    SuppliedPlaced(flow, sure, f);
    if f.index >= |nodes| {
      DriveDone(flow, env, f);
    } else if f.open.None? {
      DriveClosed(flow, env, f);
      if env.session(f.sessions, nodes[f.index].segment).None? {
        EnterSupplied(flow, sure, f, nodes[f.index].segment);
        DriveSupplied(flow, sure, env, Enter(f, nodes[f.index].segment));
      }
    } else {
      DriveOpen(flow, env, f);
      ReachesOrOther(flow, sure, f);
      NodeLogCarries(flow, sure, env, f);
      var s := RunNode(flow, env, f);
      match s {
        case Faulted(h, fault) =>
          FaultNotMissing(flow, env, f);
          LeaveCarries(flow, sure, h);
        case Advanced(h) =>
          AdvanceSupplied(flow, sure, env, f);
          MoveCarries(flow, sure, h, h.index + 1);
          DriveSupplied(flow, sure, env, MoveTo(nodes, h, h.index + 1));
        case ReroutedTo(h, to) =>
          RerouteSupplied(flow, sure, env, f);
          MoveCarries(flow, sure, h, to);
          DriveSupplied(flow, sure, env, MoveTo(nodes, h, to));
      }
    }
  }

  lemma {:induction false} SuppliedPlaced(flow: Flow, sure: Guarantee, f: Fold)
    requires Fits(flow.Nodes(), sure) && Supplied(flow, sure, f)
    ensures f.index <= |flow.Nodes()|
  {}

  lemma {:induction false} EnterSupplied(flow: Flow, sure: Guarantee, f: Fold, segment: string)
    requires Fits(flow.Nodes(), sure) && Supplied(flow, sure, f) && LogCarries(flow, sure, f.log)
    ensures Supplied(flow, sure, Enter(f, segment)) && LogCarries(flow, sure, Enter(f, segment).log)
  {
    hide RowCarries;
  }

  /** Moving on adds no rows. */
  lemma {:induction false} MoveCarries(flow: Flow, sure: Guarantee, f: Fold, index: nat)
    requires Fits(flow.Nodes(), sure) && LogCarries(flow, sure, f.log)
    ensures var g := MoveTo(flow.Nodes(), f, index);
      && LogCarries(flow, sure, g.log) && g.executions == f.executions
      && (g.open.Some? ==> index < |flow.Nodes()| && g.open == Some(flow.Nodes()[index].segment) && g.index == index)
  {
    hide RowCarries;
  }

  lemma {:induction false} LeaveCarries(flow: Flow, sure: Guarantee, f: Fold)
    requires Fits(flow.Nodes(), sure) && LogCarries(flow, sure, f.log)
    ensures LogCarries(flow, sure, Leave(f).log)
  {
    hide RowCarries;
  }

  lemma {:induction false} FaultNotMissing(flow: Flow, env: Env, f: Fold)
    requires Runnable(flow) && f.index < |flow.Nodes()| && RunNode(flow, env, f).Faulted?
    requires FirstMissing(flow.Nodes()[f.index].needs, f.state).None?
    ensures !RunNode(flow, env, f).fault.MissingNeed?
  {
    hide RunNode, ExecutionBound, FirstMissing;
    if Reaches(flow, f, flow.Nodes()[f.index]) {
      StepFault(flow, env, f);
    } else {
      StepStopped(flow, env, f);
    }
  }

  lemma {:induction false} OutcomeSupplies(
    env: Env, nodes: seq<Node>, i: nat, k: nat, input: State, token: Option<string>)
    requires SuppliesAll(env, nodes) && i < |nodes| && env.run(k, nodes[i].stepId, input, token).Returned?
    ensures Elements(nodes[i].supplies) <= env.run(k, nodes[i].stepId, input, token).outcome.state.Keys
  {}

  /** The node's provides join what is supplied. */
  lemma {:induction false} SuppliedNext(flow: Flow, sure: Guarantee, f: Fold, g: Fold, added: State)
    requires Fits(flow.Nodes(), sure) && Accrues(flow.Nodes(), sure)
    requires Supplied(flow, sure, f) && f.index < |flow.Nodes()| && g.index == f.index + 1
    requires g.state == f.state + added && g.provided == f.provided + Elements(flow.Nodes()[f.index].supplies)
    requires Elements(flow.Nodes()[f.index].supplies) <= added.Keys
    ensures Supplied(flow, sure, g)
  {
    hide Elements;
    assert sure[f.index + 1] <= sure[f.index] + Elements(flow.Nodes()[f.index].supplies);
    assert (f.state + added).Keys == f.state.Keys + added.Keys;
  }

  lemma {:induction false} AdvanceSupplied(flow: Flow, sure: Guarantee, env: Env, f: Fold)
    requires Runnable(flow) && f.index < |flow.Nodes()| && Fits(flow.Nodes(), sure)
    requires Accrues(flow.Nodes(), sure) && Supplied(flow, sure, f)
    requires SuppliesAll(env, flow.Nodes()) && RunNode(flow, env, f).Advanced?
    ensures Supplied(flow, sure, MoveTo(flow.Nodes(), RunNode(flow, env, f).next, f.index + 1))
  {
    hide RunNode, Reaches, EncodeDelta, SegmentEnd, MoveTo, Inputs, ExecutionBound, Contiguous, UniqueIds;
    hide SuppliesAll, Supplied, Elements, Accrues;
    StepAdvance(flow, env, f);
    var next := RunNode(flow, env, f).next;
    MoveKeeps(flow.Nodes(), next, f.index + 1);
    var node := flow.Nodes()[f.index];
    OutcomeSupplies(env, flow.Nodes(), f.index, f.executions + 1, Inputs(node.needs, f.state),
        Get(f.tokens, node.stepId));
    SuppliedNext(flow, sure, f, MoveTo(flow.Nodes(), next, f.index + 1), Answer(env, f, node).outcome.state);
  }

  lemma {:induction false} RerouteSupplied(flow: Flow, sure: Guarantee, env: Env, f: Fold)
    requires Runnable(flow) && f.index < |flow.Nodes()| && Fits(flow.Nodes(), sure) && Supplied(flow, sure, f)
    requires SurvivesEdges(flow.Nodes(), sure) && RunNode(flow, env, f).ReroutedTo?
    ensures Supplied(flow, sure, MoveTo(flow.Nodes(), RunNode(flow, env, f).next, RunNode(flow, env, f).to))
  {
    hide RunNode, Reaches;
    StepReroute(flow, env, f);
    assert sure[RunNode(flow, env, f).to] <= sure[f.index];
  }

  lemma {:induction false} SkipCarries(flow: Flow, sure: Guarantee, env: Env, f: Fold, n: nat)
    requires n <= |flow.Nodes()| && Fits(flow.Nodes(), sure) && LogCarries(flow, sure, f.log)
    ensures LogCarries(flow, sure, Skip(flow, env, f, n).log)
  {
    hide RowCarries;
    if n > 0 {
      SkipCarries(flow, sure, env, f, n - 1);
      var g := Skip(flow, env, f, n - 1);
      var id := flow.Nodes()[n - 1].stepId;
      var row := BareRow(id, GetOr(g.attempts, id, 1), SkippedResume);
      PlainCarries(flow, sure, row);
      ConcatCarries(flow, sure, g.log, [Append(row, env.append(g.appends))]);
    }
  }

  lemma {:induction false} DecodeKeys(flow: Flow, delta: State)
    requires DecodeDelta(flow, delta).Some?
    ensures DecodeDelta(flow, delta).value.Keys == delta.Keys * flow.spec.Keys
  {}

  /** Hydration restores all keys that the skipped nodes provided. */
  lemma {:induction false} HydrateSupplied(flow: Flow, sure: Guarantee, env: Env, f: Fold, rows: seq<Row>)
    requires Runnable(flow) && Fits(flow.Nodes(), sure) && Encodable(flow, sure) && RowsCarry(flow, sure, rows)
    requires f.index == 0 && Supplied(flow, sure, f) && LogCarries(flow, sure, f.log)
    ensures Supplied(flow, sure, Hydrate(flow, env, f, rows)) && LogCarries(flow, sure, Hydrate(flow, env, f, rows).log)
  {
    hide Contiguous, RecoveriesValid, UniqueIds, SegmentEnd, Skip;
    hide IndexOf, SeedTokens, SeedAttempts, LastBoundary, DecodeDelta;
    var nodes := flow.Nodes();
    var g := f.(tokens := SeedTokens(rows), attempts := SeedAttempts(rows));
    var boundary := LastBoundary(nodes, rows);
    if boundary.Some? && DecodeDelta(flow, boundary.value.stateDelta.value).Some? {
      var decoded := DecodeDelta(flow, boundary.value.stateDelta.value).value;
      var start := IndexOf(nodes, boundary.value.stepId).value + 1;
      assert RowCarries(flow, sure, boundary.value);
      DecodeKeys(flow, boundary.value.stateDelta.value);
      assert sure[start] <= flow.spec.Keys;
      var h := g.(state := g.state + decoded, provided := g.provided + decoded.Keys, index := start);
      assert Supplied(flow, sure, h);
      SkipKeeps(flow, env, h, start);
      SkipCarries(flow, sure, env, h, start);
    }
  }

  lemma {:induction false} CompensateCarries(flow: Flow, sure: Guarantee, env: Env, f: Fold, n: nat)
    requires n <= |f.succeeded| && Fits(flow.Nodes(), sure) && LogCarries(flow, sure, f.log)
    ensures LogCarries(flow, sure, Compensate(env, f, n).log)
    decreases n
  {
    if n > 0 {
      var entry := f.succeeded[n - 1];
      var g := if !entry.undo then f
               else Checkpoint(env, f.(log := f.log + [Undone(entry.stepId, entry.output)]),
                               BareRow(entry.stepId, GetOr(f.attempts, entry.stepId, 1), Compensated));
      hide IsBoundary;
      CompensateCarries(flow, sure, env, g, n - 1);
    }
  }

  /** A flow whose plan assures its needs, run as its type demands. */
  ghost predicate WellSupplied(flow: Flow, sure: Guarantee, env: Env, initial: State) {
    && Runnable(flow)
    && Assures(flow.Nodes(), flow.initialKeys, sure)
    && Encodable(flow, sure)
    && SuppliesAll(env, flow.Nodes())
    && Elements(flow.initialKeys) <= initial.Keys
  }

  /** One lease: no missing need, and every row it attempts to write is again good. */
  lemma {:induction false} LeaseSupplied(
    flow: Flow, sure: Guarantee, env: Env, initial: State, resume: bool, journal: seq<Row>)
    requires WellSupplied(flow, sure, env, initial)
    requires RowsCarry(flow, sure, journal)
    ensures var r := RunFlow(flow, env, initial, resume, journal);
      && (r.FailedWith? ==> !r.fault.MissingNeed?)
      && LogCarries(flow, sure, r.final.log)
  {
    hide RunFlow, Drive, Hydrate, ReplayGuard, Conclude, Budgets, SuppliesAll, RowCarries, Contiguous;
    hide RecoveriesValid, Meets, SurvivesEdges, Encodable;
    var rows := Visible(env, resume, journal);
    var f := StartingFold(flow, env, initial, rows);
    LeaseCases(flow, env, initial, resume, journal);
    assert Supplied(flow, sure, Fresh(flow, initial)) && LogCarries(flow, sure, Fresh(flow, initial).log);
    if |rows| > 0 {
      HydrateSupplied(flow, sure, env, Fresh(flow, initial), rows);
      HydrateKeeps(flow, env, Fresh(flow, initial), rows);
    }
    DriveSupplied(flow, sure, env, f);
    ConcludeCarries(flow, sure, env, Drive(flow, env, f));
  }

  lemma {:induction false} ConcludeCarries(flow: Flow, sure: Guarantee, env: Env, o: Outcome)
    requires Fits(flow.Nodes(), sure)
    requires LogCarries(flow, sure, o.final.log)
    ensures LogCarries(flow, sure, Conclude(env, o).final.log)
    ensures Conclude(env, o).FailedWith? ==> o.Broke? && Conclude(env, o).fault == o.fault
  {
    if o.Broke? {
      CompensateCarries(flow, sure, env, o.final, |o.final.succeeded|);
    }
  }

  /** A lease together with the rows it happened to see. */
  datatype Attempt = Attempt(env: Env, initial: State, resume: bool, seen: seq<Row>)

  ghost predicate Wrote(flow: Flow, a: Attempt, row: Row)
    requires Runnable(flow)
  {
    exists e :: e in RunFlow(flow, a.env, a.initial, a.resume, a.seen).final.log && e.Append? && e.row == row
  }

  /** Each lease saw only rows that earlier leases attempted to write: any of them, in
      any order, any number of times. */
  ghost predicate SawOnlyWritten(flow: Flow, attempts: seq<Attempt>)
    requires Runnable(flow)
  {
    forall j, row :: 0 <= j < |attempts| && row in attempts[j].seen ==>
      exists i :: 0 <= i < j && Wrote(flow, attempts[i], row)
  }

  lemma {:induction false} LeasesCarry(flow: Flow, sure: Guarantee, attempts: seq<Attempt>, j: nat)
    requires Runnable(flow) && Fits(flow.Nodes(), sure) && SawOnlyWritten(flow, attempts)
    requires forall i :: 0 <= i < |attempts| ==> WellSupplied(flow, sure, attempts[i].env, attempts[i].initial)
    requires j < |attempts|
    ensures RowsCarry(flow, sure, attempts[j].seen)
    decreases j
  {
    hide RowCarries, RunFlow, Runnable;
    forall row | row in attempts[j].seen
      ensures RowCarries(flow, sure, row)
    {
      var i :| 0 <= i < j && Wrote(flow, attempts[i], row);
      LeasesCarry(flow, sure, attempts, i);
      var a := attempts[i];
      LeaseSupplied(flow, sure, a.env, a.initial, a.resume, a.seen);
    }
  }

  /** Over any sequence of leases of one flow, no lease ever misses a need that the plan
      assures. */
  lemma {:induction false} NeverMissing(flow: Flow, sure: Guarantee, attempts: seq<Attempt>, j: nat)
    requires Runnable(flow) && Fits(flow.Nodes(), sure) && SawOnlyWritten(flow, attempts)
    requires forall i :: 0 <= i < |attempts| ==> WellSupplied(flow, sure, attempts[i].env, attempts[i].initial)
    requires j < |attempts|
    ensures var a := attempts[j]; var r := RunFlow(flow, a.env, a.initial, a.resume, a.seen);
      r.FailedWith? ==> !r.fault.MissingNeed?
  {
    hide RunFlow, RowCarries;
    LeasesCarry(flow, sure, attempts, j);
    var a := attempts[j];
    LeaseSupplied(flow, sure, a.env, a.initial, a.resume, a.seen);
  }
}
