/** What the builder's checks buy at run time: a built flow's lease fails only for
    reasons that lie outside the engine. */
module BuiltFlows {
  import opened Basics
  import opened JsonValues
  import opened FlowTypes
  import opened PlanShape
  import opened FlowFold
  import opened FlowLease
  import opened FlowSteps
  import opened FlowTermination
  import opened FlowNeeds
  import opened FlowStarve
  import opened FlowOnce
  import opened FlowBuilder
  import opened BookingGate
  import opened BookingOnce

  ghost predicate AllRegistered(flow: Flow) {
    forall i :: 0 <= i < |flow.Nodes()| ==> flow.Nodes()[i].stepId in flow.registered
  }

  /** The fold never meets a planned step it does not know. */
  lemma {:induction false} DriveRegistered(flow: Flow, env: Env, f: Fold)
    requires Runnable(flow) && AllRegistered(flow)
    requires f.open.Some? ==> f.index < |flow.Nodes()| && f.open == Some(flow.Nodes()[f.index].segment)
    ensures Drive(flow, env, f).Broke? ==> !Drive(flow, env, f).fault.UnknownStep?
    decreases ExecutionsLeft(flow.Nodes(), f), f.open.None?
  {
    hide RunNode, Drive, ExecutionBound, Contiguous, UniqueIds;
    var nodes := flow.Nodes();
    if f.index >= |nodes| {
      DriveDone(flow, env, f);
    } else if f.open.None? {
      DriveClosed(flow, env, f);
      if env.session(f.sessions, nodes[f.index].segment).None? {
        DriveRegistered(flow, env, Enter(f, nodes[f.index].segment));
      }
    } else {
      DriveOpen(flow, env, f);
      var s := RunNode(flow, env, f);
      match s {
        case Faulted(h, fault) =>
          FaultRegistered(flow, env, f);
        case Advanced(h) =>
          DriveRegistered(flow, env, MoveTo(nodes, h, h.index + 1));
        case ReroutedTo(h, to) =>
          DriveRegistered(flow, env, MoveTo(nodes, h, to));
      }
    }
  }

  lemma {:induction false} FaultRegistered(flow: Flow, env: Env, f: Fold)
    requires f.index < |flow.Nodes()| && RecoveriesValid(flow.Nodes()) && AllRegistered(flow)
    requires RunNode(flow, env, f).Faulted?
    ensures !RunNode(flow, env, f).fault.UnknownStep?
  {
    hide RunNode, ExecutionBound, FirstMissing;
    if Reaches(flow, f, flow.Nodes()[f.index]) {
      StepFault(flow, env, f);
    } else {
      StepStopped(flow, env, f);
    }
  }

  /** The engine's own internal errors: they mean the flow was not what it claimed. */
  predicate EngineFault(fault: Fault) {
    fault.UnknownStep? || fault.BoundExceeded? || fault.MissingNeed?
  }

  /** Whatever steps, callers and journal do, a lease of a built flow never meets a step it
      does not know and never trips the execution bound. */
  lemma {:induction false} BuiltFlowKnown(
    b: Builder, id: Identity, sha: string -> string, env: Env, initial: State, resume: bool, journal: seq<Row>)
    requires Accepted(b)
    ensures Runnable(Assemble(b, id, sha))
    ensures var r := RunFlow(Assemble(b, id, sha), env, initial, resume, journal);
      r.FailedWith? ==> !r.fault.UnknownStep? && !r.fault.BoundExceeded?
  {
    hide RunFlow, Drive, Hydrate, ReplayGuard, Conclude, Budgets, Accepted, Contiguous, RecoveriesValid, UniqueIds;
    var flow := Assemble(b, id, sha);
    BuiltRegistered(b, id, sha);
    var f := StartingFold(flow, env, initial, Visible(env, resume, journal));
    LeaseCases(flow, env, initial, resume, journal);
    StartBounded(flow, env, initial, Visible(env, resume, journal));
    DriveRegistered(flow, env, f);
    ConcludeKeeps(env, Drive(flow, env, f));
    LeaseTerminates(flow, env, initial, resume, journal);
  }

  /** A lease of a built flow breaks only on a step's failure, a divergence, a session
      failure, a defect, or the refusal to replay, provided its plan does not starve, steps
      and caller supply what their types say, and the boundary rows of the journal carry
      what is sure behind them, as every row does that such a lease writes. */
  lemma {:induction false} BuiltFlowSound(
    b: Builder, id: Identity, sha: string -> string, env: Env, initial: State, resume: bool, journal: seq<Row>)
    requires Accepted(b)
    requires var flow := Assemble(b, id, sha);
      && !Starves(flow.Nodes(), flow.initialKeys) && InVocabulary(flow)
      && SuppliesAll(env, flow.Nodes()) && Elements(flow.initialKeys) <= initial.Keys
      && RowsCarry(flow, Sure(flow.Nodes()), journal)
    ensures Runnable(Assemble(b, id, sha))
    ensures var r := RunFlow(Assemble(b, id, sha), env, initial, resume, journal);
      r.FailedWith? ==> !EngineFault(r.fault)
  {
    hide RunFlow, RowsCarry, Accepted, Starves, SuppliesAll, Assures, Contiguous, RecoveriesValid, UniqueIds;
    var flow := Assemble(b, id, sha);
    BuiltFlowKnown(b, id, sha, env, initial, resume, journal);
    SureAssures(flow.Nodes(), flow.initialKeys);
    LeaseSupplied(flow, Sure(flow.Nodes()), env, initial, resume, journal);
  }

  lemma {:induction false} BuiltRegistered(b: Builder, id: Identity, sha: string -> string)
    requires Accepted(b)
    ensures Runnable(Assemble(b, id, sha)) && AllRegistered(Assemble(b, id, sha))
  {
    hide Accepted, DeriveNode;
    var nodes := Assemble(b, id, sha).Nodes();
    if |nodes| == 0 {
      EmptyRunnable(Assemble(b, id, sha));
    }
    forall i | 0 <= i < |nodes|
      ensures Runnable(Assemble(b, id, sha)) && nodes[i].stepId in Assemble(b, id, sha).registered
    {
      BuiltRunnable(b, id, sha, i);
    }
  }

  lemma {:induction false} EmptyRunnable(flow: Flow)
    requires |flow.Nodes()| == 0
    ensures Runnable(flow)
  {}

  // ---------------------------------------------------------------- submitted at most once

  /** No declared edge leads from the i-th step or a later one back to it or an earlier one. */
  ghost predicate NoneDeclaredOver(b: Builder, i: nat) {
    forall k, e, s, t ::
      0 <= k < |b.recoveries| && 0 <= e < |b.recoveries[k].edges| && 0 <= s < |b.steps| && 0 <= t < |b.steps|
      && b.steps[s].id == b.recoveries[k].from && b.steps[t].id == b.recoveries[k].edges[e].to ==>
        !(t <= i <= s)
  }

  lemma {:induction false} DeclaredNoReturn(b: Builder, id: Identity, sha: string -> string, flow: Flow, i: nat)
    requires BuiltFrom(b, id, sha, flow) && NoneDeclaredOver(b, i)
    ensures NoReturnTo(flow.Nodes(), i)
  {
    var nodes := flow.Nodes();
    hide IndexOf, RecoveriesFrom;
    forall i | 0 <= i < |nodes| ensures nodes[i].stepId == b.steps[i].id { assert NodeFrom(b.steps[i], nodes[i]); }
    assert RecoveriesFrom(b, flow);
    hide BuiltFrom, NodeFrom;
    BuiltNoReturn(b, flow, i);
  }

  lemma {:induction false} BuiltNoReturn(b: Builder, flow: Flow, i: nat)
    requires RecoveriesFrom(b, flow) && NoneDeclaredOver(b, i) && |flow.Nodes()| == |b.steps|
    requires forall i :: 0 <= i < |b.steps| ==> flow.Nodes()[i].stepId == b.steps[i].id
    ensures NoReturnTo(flow.Nodes(), i)
  {
    var nodes := flow.Nodes();
    hide IndexOf;
    forall s, to | 0 <= s < |nodes| && Declares(nodes[s], to) && IndexOf(nodes, to).Some?
      ensures !(IndexOf(nodes, to).value <= i <= s)
    {
      var edge :| edge in nodes[s].recoveries && edge.to == to;
      var k :| 0 <= k < |b.recoveries| && b.recoveries[k].from == nodes[s].stepId;
      assert nodes[s].recoveries == b.recoveries[k].edges;
      var e :| 0 <= e < |b.recoveries[k].edges| && b.recoveries[k].edges[e] == edge;
      var t := IndexOf(nodes, to).value;
    }
  }

  /** From declaration to operation: a step that was declared effectful-once, with no
      declared edge returning to it or over it, is entered at most once over all leases of
      the flow that was built. */
  lemma {:induction false} DeclaredOnce(
    b: Builder, id: Identity, sha: string -> string, flow: Flow, i: nat,
    leases: seq<Lease>, pinned: Option<string>, traces: seq<seq<Event>>)
    requires BuiltFrom(b, id, sha, flow) && i < |b.steps|
    requires b.steps[i].idempotency == EffectfulOnce && NoneDeclaredOver(b, i)
    requires Operation(leases, pinned, traces) && forall j :: 0 <= j < |leases| ==> leases[j].flow.plan == flow.plan
    requires forall j :: 0 <= j < |leases| ==> ReliableJournal(leases[j].env)
    ensures Entries(History(traces), b.steps[i].id) <= 1
  {
    DeclaredNoReturn(b, id, sha, flow, i);
    assert NodeFrom(b.steps[i], flow.Nodes()[i]);
    hide Operation, ReliableJournal, Entries, NoReturnTo, RecoveriesFrom, NoneDeclaredOver;
    PinOnePlan(leases, pinned, flow.plan);
    EffectfulOnceOverLeases(leases, pinned, flow.plan, traces, i);
  }
}
