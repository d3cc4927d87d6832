/** The failure boundary (src/server/flow-runner.ts:114-123, 183-264): what
    `failed_pre_submit` says about the submit step, within a lease and over a whole
    operation. */
module BookingBoundary {
  import opened Basics
  import opened JsonValues
  import opened FlowTypes
  import opened PlanShape
  import opened FlowFold
  import opened FlowLease
  import opened FlowSteps
  import opened FlowOnce
  import opened FlowResume
  import opened BookingGate
  import opened BookingOnce

  /** A recovery-free plan that ends in submit, its only effectful-once step, and then
      extract-confirmation. */
  ghost predicate BookingPlan(nodes: seq<Node>) {
    && |nodes| >= 2
    && RecoveryFree(nodes)
    && nodes[|nodes| - 2].stepId == SUBMIT && nodes[|nodes| - 1].stepId == EXTRACT
    && forall i :: 0 <= i < |nodes| ==> (nodes[i].idempotency == EffectfulOnce <==> i == |nodes| - 2)
  }

  /** Steps and sessions fail with their own errors, not with a ready booking verdict. */
  ghost predicate Honest(env: Env) {
    && (forall k, stepId, input, token :: env.run(k, stepId, input, token).Threw? ==>
          !env.run(k, stepId, input, token).error.Execution?)
    && forall k, segment :: env.session(k, segment).Some? ==> !env.session(k, segment).value.Execution?
  }

  // -------------------------------------------------------------- within a lease

  /** Once submit was entered, the last started step is at or past the boundary. */
  ghost predicate Marked(log: seq<Event>) {
    Entries(log, SUBMIT) > 0 ==> PastBoundary(LastStarted(log))
  }

  lemma {:induction false} LastStartedQuiet(log: seq<Event>, e: Event)
    requires !(e.Append? && e.row.status == Started)
    ensures LastStarted(log + [e]) == LastStarted(log)
  {
    assert (log + [e])[..|log|] == log;
  }

  lemma {:induction false} MarkedQuiet(log: seq<Event>, e: Event)
    requires !(e.Append? && e.row.status == Started) && !e.Entered?
    ensures LastStarted(log + [e]) == LastStarted(log)
    ensures Entries(log + [e], SUBMIT) == Entries(log, SUBMIT)
  {
    LastStartedQuiet(log, e);
    Quiet(log, e, SUBMIT);
  }

  /** The acts of a node, seen from the boundary. */
  lemma {:induction false} NodeMarks(flow: Flow, env: Env, f: Fold)
    requires Runnable(flow) && f.index < |flow.Nodes()|
    ensures var node, s := flow.Nodes()[f.index], RunNode(flow, env, f);
      if Reaches(flow, f, node) then
        && LastStarted(s.next.log) == Some(node.stepId)
        && Entries(s.next.log, SUBMIT) == Entries(f.log, SUBMIT) + (if node.stepId == SUBMIT then 1 else 0)
      else s.Faulted? && s.next.log == f.log && !s.fault.Diverged? && !s.fault.StepFailed?
  {
    hide RunNode, Reaches, ExecutionBound, Contiguous, RecoveriesValid, UniqueIds, Inputs, Entries, LastStarted;
    hide StartedRow;
    StepLog(flow, env, f);
    var node, s := flow.Nodes()[f.index], RunNode(flow, env, f);
    if Reaches(flow, f, node) {
      var started, call := StartedEvent(env, f, node), Call(f, node);
      StartMarks(flow, env, f, node);
      if !Answer(env, f, node).Died? {
        var e := s.next.log[|f.log| + 2];
        assert s.next.log == f.log + [started, call] + [e];
        MarkedQuiet(f.log + [started, call], e);
      }
    } else {
      StepStopped(flow, env, f);
    }
  }

  lemma {:induction false} StartMarks(flow: Flow, env: Env, f: Fold, node: Node)
    ensures var log := f.log + [StartedEvent(env, f, node), Call(f, node)];
      && LastStarted(log) == Some(node.stepId)
      && Entries(log, SUBMIT) == Entries(f.log, SUBMIT) + (if node.stepId == SUBMIT then 1 else 0)
  {
    hide Inputs;
    var started, call := StartedEvent(env, f, node), Call(f, node);
    CallEntries(f.log, started, call, SUBMIT);
    assert f.log + [started, call] == (f.log + [started]) + [call];
    LastStartedQuiet(f.log + [started], call);
    assert (f.log + [started])[..|f.log|] == f.log;
  }

  /** What an outcome of the driver tells about the boundary. */
  ghost predicate Settled(o: Outcome) {
    && Marked(o.final.log)
    && (o.Broke? && o.fault.Diverged? ==> LastStarted(o.final.log) == Some(o.fault.stepId))
    && (o.Broke? && o.fault.StepFailed? ==> !o.fault.error.Execution?)
    && (o.Broke? && o.fault.SessionFailed? ==> !o.fault.error.Execution?)
    && (o.Broke? ==> !o.fault.Replay?)
  }

  ghost predicate Approaching(nodes: seq<Node>, f: Fold) {
    && Marked(f.log)
    && (f.index <= |nodes| - 2 ==> Entries(f.log, SUBMIT) == 0)
  }

  ghost function Fuel(flow: Flow, f: Fold): nat {
    if ExecutionBound(flow.Nodes()) >= f.executions then ExecutionBound(flow.Nodes()) - f.executions + 1 else 0
  }

  lemma {:induction false} DriveSettles(flow: Flow, env: Env, f: Fold)
    requires Runnable(flow) && BookingPlan(flow.Nodes()) && Honest(env) && Approaching(flow.Nodes(), f)
    requires f.open.Some? ==> f.index < |flow.Nodes()| && f.open == Some(flow.Nodes()[f.index].segment)
    ensures Settled(Drive(flow, env, f))
    decreases Fuel(flow, f), 1
  {
    hide RunNode, Drive, BookingPlan, Contiguous, RecoveriesValid, UniqueIds, Entries, LastStarted;
    var nodes := flow.Nodes();
    if f.index >= |nodes| {
      DriveDone(flow, env, f);
    } else if f.open.None? {
      DriveClosed(flow, env, f);
      if env.session(f.sessions, nodes[f.index].segment).None? {
        MarkedQuiet(f.log, Opened(nodes[f.index].segment));
        NodeSettles(flow, env, Enter(f, nodes[f.index].segment));
      }
    } else {
      NodeSettles(flow, env, f);
    }
  }

  lemma {:induction false} NodeSettles(flow: Flow, env: Env, f: Fold)
    requires Runnable(flow) && BookingPlan(flow.Nodes()) && Honest(env) && Approaching(flow.Nodes(), f)
    requires f.index < |flow.Nodes()| && f.open == Some(flow.Nodes()[f.index].segment)
    ensures Settled(Drive(flow, env, f))
    decreases Fuel(flow, f), 0
  {
    hide RunNode, Drive, Runnable, Honest, BookingPlan, Settled, Approaching, MoveTo, Leave;
    RunnableParts(flow);
    NoDetour(flow, env, f);
    var s := RunNode(flow, env, f);
    if s.Advanced? {
      DriveAdvances(flow, env, f);
      AdvanceApproaches(flow, env, f);
      MovePlacedAt(flow.Nodes(), s.next, f.index + 1);
      MoveKeeps(flow.Nodes(), s.next, f.index + 1);
      DriveSettles(flow, env, MoveTo(flow.Nodes(), s.next, f.index + 1));
    } else {
      DriveFaults(flow, env, f);
      FaultSettles(flow, env, f);
    }
  }

  lemma {:induction false} RunnableParts(flow: Flow)
    requires Runnable(flow)
    ensures RecoveriesValid(flow.Nodes()) && UniqueIds(flow.Nodes())
  {}

  lemma {:induction false} NoDetour(flow: Flow, env: Env, f: Fold)
    requires Runnable(flow) && BookingPlan(flow.Nodes()) && f.index < |flow.Nodes()|
    ensures !RunNode(flow, env, f).ReroutedTo?
  {
    if RunNode(flow, env, f).ReroutedTo? {
      StepReroute(flow, env, f);
      assert false;
    }
  }

  /** Position and name agree: only the last two nodes lie at or past the boundary. */
  lemma {:induction false} BoundaryNodes(nodes: seq<Node>, i: nat)
    requires BookingPlan(nodes) && UniqueIds(nodes) && i < |nodes|
    ensures nodes[i].stepId == SUBMIT <==> i == |nodes| - 2
    ensures nodes[i].stepId == EXTRACT <==> i == |nodes| - 1
  {}

  lemma {:induction false} AdvanceApproaches(flow: Flow, env: Env, f: Fold)
    requires Runnable(flow) && BookingPlan(flow.Nodes()) && Approaching(flow.Nodes(), f)
    requires f.index < |flow.Nodes()| && RunNode(flow, env, f).Advanced?
    ensures Approaching(flow.Nodes(), MoveTo(flow.Nodes(), RunNode(flow, env, f).next, f.index + 1))
  {
    hide RunNode, Reaches, Contiguous, UniqueIds, Entries, LastStarted, ExecutionBound, RecoveriesValid;
    hide BookingPlan, MoveTo, StartedEvent, Call;
    BoundaryNodes(flow.Nodes(), f.index);
    NodeMarks(flow, env, f);
    MoveMarks(flow.Nodes(), RunNode(flow, env, f).next, f.index + 1);
  }

  lemma {:induction false} MoveMarks(nodes: seq<Node>, f: Fold, index: nat)
    ensures var g := MoveTo(nodes, f, index);
      g.index == index && LastStarted(g.log) == LastStarted(f.log) && Entries(g.log, SUBMIT) == Entries(f.log, SUBMIT)
  {
    hide Entries, LastStarted;
    if f.open.Some? {
      MarkedQuiet(f.log, Closed(f.open.value));
    }
  }

  lemma {:induction false} FaultSettles(flow: Flow, env: Env, f: Fold)
    requires Runnable(flow) && BookingPlan(flow.Nodes()) && Honest(env) && Approaching(flow.Nodes(), f)
    requires f.index < |flow.Nodes()| && RunNode(flow, env, f).Faulted?
    ensures Settled(Broke(Leave(RunNode(flow, env, f).next), RunNode(flow, env, f).fault))
  {
    hide RunNode, Reaches, Contiguous, UniqueIds, RecoveriesValid, BookingPlan, Entries, LastStarted, ExecutionBound;
    BoundaryNodes(flow.Nodes(), f.index);
    NodeMarks(flow, env, f);
    var s := RunNode(flow, env, f);
    var node := flow.Nodes()[f.index];
    if Reaches(flow, f, node) {
      StepFault(flow, env, f);
    } else {
      StepStopped(flow, env, f);
    }
    if s.next.open.Some? {
      MarkedQuiet(s.next.log, Closed(s.next.open.value));
    }
  }

  lemma {:induction false} CompensateMarks(env: Env, f: Fold, n: nat)
    requires n <= |f.succeeded|
    ensures LastStarted(Compensate(env, f, n).log) == LastStarted(f.log)
    decreases n
  {
    hide LastStarted;
    if n > 0 {
      var entry := f.succeeded[n - 1];
      if entry.undo {
        var undone := f.(log := f.log + [Undone(entry.stepId, entry.output)]);
        var row := BareRow(entry.stepId, GetOr(f.attempts, entry.stepId, 1), Compensated);
        LastStartedQuiet(f.log, Undone(entry.stepId, entry.output));
        LastStartedQuiet(undone.log, Append(row, env.append(f.appends)));
        CompensateMarks(env, Checkpoint(env, undone, row), n - 1);
      } else {
        CompensateMarks(env, f, n - 1);
      }
    }
  }

  lemma {:induction false} SkipMarks(flow: Flow, env: Env, f: Fold, n: nat)
    requires n <= |flow.Nodes()|
    ensures LastStarted(Skip(flow, env, f, n).log) == LastStarted(f.log)
  {
    if n > 0 {
      SkipMarks(flow, env, f, n - 1);
      var g := Skip(flow, env, f, n - 1);
      var id := flow.Nodes()[n - 1].stepId;
      LastStartedQuiet(g.log, Append(BareRow(id, GetOr(g.attempts, id, 1), SkippedResume), env.append(g.appends)));
    }
  }

  /** Hydration starts nothing. */
  lemma {:induction false} HydrateMarks(flow: Flow, env: Env, f: Fold, rows: seq<Row>)
    requires f.log == []
    ensures LastStarted(Hydrate(flow, env, f, rows).log) == None
  {
    hide IndexOf, SeedTokens, SeedAttempts, LastBoundary, DecodeDelta, Skip;
    var g := f.(tokens := SeedTokens(rows), attempts := SeedAttempts(rows));
    var boundary := LastBoundary(flow.Nodes(), rows);
    if boundary.Some? {
      var decoded := DecodeDelta(flow, boundary.value.stateDelta.value);
      if decoded.Some? {
        var start := IndexOf(flow.Nodes(), boundary.value.stepId).value + 1;
        SkipMarks(flow, env,
            g.(state := g.state + decoded.value, provided := g.provided + decoded.value.Keys, index := start), start);
      }
    }
  }

  /** A settled outcome past the boundary is never reported as failed_pre_submit. */
  lemma {:induction false} PastBoundaryReconciles(env: Env, o: Outcome)
    requires Settled(o) && o.Broke? && PastBoundary(LastStarted(o.final.log))
    ensures var r := Conclude(env, o);
      FaultToFailure(r.fault, LastStarted(r.final.log)).status == ReconcileRequired
  {
    hide FaultToFailure;
    CompensateMarks(env, o.final, |o.final.succeeded|);
    FailureRule(Conclude(env, o).fault, LastStarted(Conclude(env, o).final.log));
    hide Compensate, LastStarted, Marked;
  }

  /** The verdict of a run that starts at the head or behind a boundary. */
  lemma {:induction false} RunSettles(flow: Flow, env: Env, initial: State, journal: seq<Row>)
    requires Runnable(flow) && BookingPlan(flow.Nodes()) && Honest(env)
    ensures var rows := Visible(env, true, journal); var f := StartingFold(flow, env, initial, rows);
      && f.index <= |flow.Nodes()| && LastStarted(f.log) == None && Entries(f.log, SUBMIT) == 0
      && f.open.None? && f.executions == 0 && f.sessions == 0
      && Settled(Drive(flow, env, f))
  {
    hide Drive, Hydrate, Budgets, Runnable, BookingPlan, Honest, Settled, Entries, LastStarted, RunFlow;
    var rows := Visible(env, true, journal);
    var f := StartingFold(flow, env, initial, rows);
    HydrateKeeps(flow, env, Fresh(flow, initial), rows);
    HydrateMarks(flow, env, Fresh(flow, initial), rows);
    HydrateQuiet(flow, env, Fresh(flow, initial), rows, SUBMIT);
    EmptyMarks();
    DriveSettles(flow, env, f);
  }

  lemma {:induction false} EmptyMarks()
    ensures LastStarted([]) == None && Entries([], SUBMIT) == 0
  {}

  lemma {:induction false} GateVerdict(flow: Flow, env: BookingEnv, initial: State, rows: seq<Row>, pending: nat)
    requires pending < |flow.Nodes()|
    ensures var v := ProbeGate(flow, env, initial, rows, pending).verdict;
      v.Booked? || (v.Failing? && v.failure.status == ReconcileRequired)
  {}

  /** Within one lease, whatever the journal holds and even if its reads and writes
      fail: `failed_pre_submit` means this lease did not enter submit. */
  lemma {:induction false} PreSubmitMeansNotEntered(
    flow: Flow, env: BookingEnv, initial: State, pinned: Option<string>, journal: seq<Row>)
    requires Runnable(flow) && BookingPlan(flow.Nodes()) && Honest(env.fold)
    ensures var b := ExecuteBooking(flow, env, initial, pinned, journal);
      b.verdict.Failing? && b.verdict.failure.status == FailedPreSubmit ==> Entries(b.log, SUBMIT) == 0
  {
    hide RunFlow, ProbeGate, Entries, LastStarted, Honest, Drive, Hydrate, ReplayGuard, Budgets, PendingFrom;
    hide FaultToFailure, Conclude;
    var nodes := flow.Nodes();
    var rows := if env.gateRead then journal else [];
    var pending := PendingFrom(nodes, rows, 0);
    EmptyMarks();
    if Pinned(flow, pinned) && pending.Some? {
      GateVerdict(flow, env, initial, rows, pending.value);
    } else if Pinned(flow, pinned) {
      hide Runnable, BookingPlan;
      FoldMeansNotEntered(flow, env.fold, initial, journal);
    }
  }

  lemma {:induction false} FoldMeansNotEntered(flow: Flow, env: Env, initial: State, journal: seq<Row>)
    requires Runnable(flow) && BookingPlan(flow.Nodes()) && Honest(env)
    ensures var r := RunFlow(flow, env, initial, true, journal); var v := FoldVerdict(r);
      v.Failing? && v.failure.status == FailedPreSubmit ==> Entries(r.final.log, SUBMIT) == 0
  {
    hide RunFlow, Entries, LastStarted, Honest, Drive, Hydrate, ReplayGuard, Budgets, Runnable, BookingPlan;
    RunSettles(flow, env, initial, journal);
    LeaseCases(flow, env, initial, true, journal);
    var f := StartingFold(flow, env, initial, Visible(env, true, journal));
    var o := Drive(flow, env, f);
    ConcludeQuiet(env, o, SUBMIT);
    if o.Broke? && PastBoundary(LastStarted(o.final.log)) {
      PastBoundaryReconciles(env, o);
    }
  }

  // ------------------------------------------------------------ over an operation

  /** Resume starts at the head or right behind a segment's last node. */
  lemma {:induction false} StartBehindSegment(flow: Flow, env: Env, initial: State, rows: seq<Row>)
    ensures var f := StartingFold(flow, env, initial, rows);
      f.index == 0 || (f.index <= |flow.Nodes()| && SegmentEnd(flow.Nodes(), f.index - 1))
  {
    hide IndexOf, SeedTokens, SeedAttempts, DecodeDelta, Skip, SegmentEnd, Budgets;
    if |rows| > 0 {
      var f := Fresh(flow, initial);
      var g := f.(tokens := SeedTokens(rows), attempts := SeedAttempts(rows));
      var boundary := LastBoundary(flow.Nodes(), rows);
      if boundary.Some? {
        var decoded := DecodeDelta(flow, boundary.value.stateDelta.value);
        if decoded.Some? {
          var start := IndexOf(flow.Nodes(), boundary.value.stepId).value + 1;
          SkipKeeps(flow, env,
              g.(state := g.state + decoded.value, provided := g.provided + decoded.value.Keys, index := start), start);
        }
      }
    }
  }

  /** With evidence of submit in the journal, the fold either refuses, or starts behind
      submit; it can only start right behind submit if submit ends a segment. */
  lemma {:induction false} EvidenceSkips(flow: Flow, env: Env, initial: State, journal: seq<Row>)
    requires Runnable(flow) && BookingPlan(flow.Nodes()) && env.read && HasEvidence(journal, SUBMIT)
    ensures var f := StartingFold(flow, env, initial, journal); var n := |flow.Nodes()|;
      && Visible(env, true, journal) == journal && |journal| > 0
      && f.index <= n
      && (f.index <= n - 2 ==> ReplayGuard(flow.Nodes(), journal, f.index).Some?)
      && (f.index == n - 1 ==> SegmentEnd(flow.Nodes(), n - 2))
      && (f.index > n - 2 ==> ReplayGuard(flow.Nodes(), journal, f.index).None?)
  {
    StartBehindSegment(flow, env, initial, journal);
    hide StartingFold, SegmentEnd, HasEvidence, Runnable, RecoveryFree;
    var f := StartingFold(flow, env, initial, journal);
    StartWithinPlan(flow, env, initial, journal);
    var nodes := flow.Nodes();
    assert nodes[|nodes| - 2].idempotency == EffectfulOnce;
    assert journal != [] by { NoRowsNoEvidence(SUBMIT); }
  }

  lemma {:induction false} NoRowsNoEvidence(stepId: string)
    ensures !HasEvidence([], stepId)
  {}

  /** Submit and extract-confirmation share a segment: then no lease of the operation
      reports failed_pre_submit after submit was entered. */
  lemma {:induction false} EvidenceReconciles(
    flow: Flow, env: BookingEnv, initial: State, pinned: Option<string>, journal: seq<Row>)
    requires Runnable(flow) && BookingPlan(flow.Nodes()) && Honest(env.fold) && ReliableJournal(env)
    requires HasEvidence(journal, SUBMIT) && !SegmentEnd(flow.Nodes(), |flow.Nodes()| - 2)
    ensures var v := ExecuteBooking(flow, env, initial, pinned, journal).verdict;
      !(v.Failing? && v.failure.status == FailedPreSubmit)
  {
    hide RunFlow, ProbeGate, Honest, Drive, StartingFold, ReplayGuard, HasEvidence, PendingFrom, SegmentEnd;
    var nodes := flow.Nodes();
    var pending := PendingFrom(nodes, journal, 0);
    if Pinned(flow, pinned) && pending.Some? {
      GateVerdict(flow, env, initial, journal, pending.value);
    } else if Pinned(flow, pinned) {
      EvidenceSkips(flow, env.fold, initial, journal);
      LeaseCases(flow, env.fold, initial, true, journal);
      var f := StartingFold(flow, env.fold, initial, journal);
      if f.index == |nodes| {
        DriveDone(flow, env.fold, f);
      }
    }
  }
}
