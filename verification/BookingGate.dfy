/** The lease-level wrapper of a booking (src/server/flow-runner.ts): plan-hash skew,
    the confirmation-probe gate in front of `runFlow`, and the mapping of faults onto
    the booking status vocabulary. */
module BookingGate {
  import opened Basics
  import opened JsonValues
  import opened FlowTypes
  import opened PlanShape
  import opened FlowFold
  import opened FlowLease

  const SUBMIT := "acuity/submit"
  const EXTRACT := "acuity/extract-confirmation"
  const PROOF := "acuity/verify-zero-total"
  const CONFIRMATION := "confirmation"

  /** `probe` answers the standalone probe call, on an input whose keys may be absent. */
  datatype BookingEnv = BookingEnv(
    fold: Env,
    skewRead: bool,
    gateRead: bool,
    probeSession: Option<StepError>,
    probe: (string, State) -> RunResult)

  datatype Verdict =
    | Booked(confirmation: Json)
    | Failing(failure: Failure)
    | Requeued

  /** What a lease did, and how it ended if nothing cut it short. */
  datatype Booking = Booking(log: seq<Event>, verdict: Verdict)

  // ----------------------------------------------------------- status boundaries

  predicate PastBoundary(stepId: Option<string>) {
    stepId == Some(SUBMIT) || stepId == Some(EXTRACT)
  }

  function StatusForStep(stepId: Option<string>): FailureStatus {
    if PastBoundary(stepId) then ReconcileRequired else FailedPreSubmit
  }

  /** The last step whose `started` row was handed to the journal, kept or not. */
  function LastStarted(log: seq<Event>): Option<string> {
    if |log| == 0 then None
    else
      var e := log[|log| - 1];
      if e.Append? && e.row.status == Started then Some(e.row.stepId) else LastStarted(log[..|log| - 1])
  }

  /** No step is started behind that event. */
  lemma {:induction false} LastStartedIs(log: seq<Event>, q: nat)
    requires q < |log| && log[q].Append? && log[q].row.status == Started
    requires forall j :: q < j < |log| && log[j].Append? ==> log[j].row.status != Started
    ensures LastStarted(log) == Some(log[q].row.stepId)
  {
    if q + 1 < |log| {
      LastStartedIs(log[..|log| - 1], q);
    }
  }

  lemma {:induction false} NoneStarted(log: seq<Event>)
    requires forall e :: e in log && e.Append? ==> e.row.status != Started
    ensures LastStarted(log).None?
  {
    if |log| > 0 {
      NoneStarted(log[..|log| - 1]);
    }
  }

  function ByStatus(status: FailureStatus, code: string): Failure {
    Failure(status, code, status == FailedPreSubmit)
  }

  function StepFailure(error: StepError, lastStarted: Option<string>): Failure {
    var status := StatusForStep(lastStarted);
    match error
    case Execution(failure) => failure
    case Middleware(_, code, _) => ByStatus(status, code)
    case Tagged(tag, text) => ByStatus(status, if text.Some? then tag else "UNKNOWN")
    case Untagged => ByStatus(status, "UNKNOWN")
  }

  function FaultToFailure(fault: Fault, lastStarted: Option<string>): Failure {
    match fault
    case Replay(_) => Failure(ReconcileRequired, "EFFECTFUL_ONCE_REPLAY", false)
    case Diverged(stepId, _) =>
      if stepId == PROOF then Failure(FailedPreSubmit, "PAYMENT_BYPASS_NOT_PROVEN", false)
      else ByStatus(StatusForStep(Some(stepId)), "FLOW_DIVERGED")
    case StepFailed(_, error) => StepFailure(error, lastStarted)
    case SessionFailed(_, error) => StepFailure(error, lastStarted)
    case MissingNeed(_, _) => ByStatus(StatusForStep(lastStarted), "FlowRunError")
    case UnknownStep(_) => ByStatus(StatusForStep(lastStarted), "FlowRunError")
    case BoundExceeded(_) => ByStatus(StatusForStep(lastStarted), "FlowRunError")
    case Defect => ByStatus(StatusForStep(lastStarted), "UNKNOWN")
  }

  /** Reconcile is demanded exactly past the external point of no return, and only
      failures before it may be retried, the unproven payment bypass excepted. A failure
      that a step states itself is passed through. */
  lemma {:induction false} FailureRule(fault: Fault, lastStarted: Option<string>)
    ensures var r := FaultToFailure(fault, lastStarted);
      if (fault.StepFailed? || fault.SessionFailed?) && fault.error.Execution? then r == fault.error.failure
      else
        && (r.status == ReconcileRequired <==>
              || fault.Replay?
              || (fault.Diverged? && PastBoundary(Some(fault.stepId)))
              || (!fault.Replay? && !fault.Diverged? && PastBoundary(lastStarted)))
        && (r.retryable <==> r.status == FailedPreSubmit && !(fault.Diverged? && fault.stepId == PROOF))
        && (fault.Replay? ==> r.code == "EFFECTFUL_ONCE_REPLAY")
        && (fault.Diverged? ==>
              r.code == if fault.stepId == PROOF then "PAYMENT_BYPASS_NOT_PROVEN" else "FLOW_DIVERGED")
        && (fault.MissingNeed? || fault.UnknownStep? || fault.BoundExceeded? ==> r.code == "FlowRunError")
        && (fault.Defect? ==> r.code == "UNKNOWN")
        && ((fault.StepFailed? || fault.SessionFailed?) && fault.error.Middleware? ==> r.code == fault.error.code)
        && ((fault.StepFailed? || fault.SessionFailed?) && fault.error.Tagged? ==>
              r.code == if fault.error.text.Some? then fault.error.tag else "UNKNOWN")
        && ((fault.StepFailed? || fault.SessionFailed?) && fault.error.Untagged? ==> r.code == "UNKNOWN")
  {
    ProofBeforeBoundary();
    hide PastBoundary;
  }

  lemma {:induction false} ProofBeforeBoundary()
    ensures !PastBoundary(Some(PROOF))
  {
    assert PROOF[7] == 'v' && SUBMIT[7] == 's' && EXTRACT[7] == 'e';
  }

  // ------------------------------------------------------------------- skew check

  /** A started effectful-once step of this flow is journaled. */
  predicate EffectStarted(nodes: seq<Node>, rows: seq<Row>) {
    exists row, node :: row in rows && node in nodes &&
      row.status == Started && node.idempotency == EffectfulOnce && node.stepId == row.stepId
  }

  /** Nothing pinned, or pinned to this very plan. */
  predicate Pinned(flow: Flow, pinned: Option<string>) {
    pinned.None? || pinned.value == "" || pinned.value == flow.planHash
  }

  function SkewVerdict(flow: Flow, env: BookingEnv, journal: seq<Row>): Verdict {
    if EffectStarted(flow.Nodes(), if env.skewRead then journal else [])
    then Failing(Failure(ReconcileRequired, "FLOW_PLAN_SKEW", false))
    else Requeued
  }

  // ------------------------------------------------------------------- probe gate

  predicate HasRow(rows: seq<Row>, stepId: string, status: Status) {
    exists row :: row in rows && row.stepId == stepId && row.status == status
  }

  /** The first effectful-once node that was started and never completed. */
  function PendingFrom(nodes: seq<Node>, rows: seq<Row>, i: nat): (r: Option<nat>)
    requires i <= |nodes|
    ensures r.Some? ==>
              && i <= r.value < |nodes| && nodes[r.value].idempotency == EffectfulOnce
              && HasRow(rows, nodes[r.value].stepId, Started) && !HasRow(rows, nodes[r.value].stepId, Completed)
    ensures r.Some? ==> forall j :: i <= j < r.value && nodes[j].idempotency == EffectfulOnce ==>
                          (HasRow(rows, nodes[j].stepId, Started) ==> HasRow(rows, nodes[j].stepId, Completed))
    ensures r.None? ==> forall j :: i <= j < |nodes| && nodes[j].idempotency == EffectfulOnce ==>
                          (HasRow(rows, nodes[j].stepId, Started) ==> HasRow(rows, nodes[j].stepId, Completed))
    decreases |nodes| - i
  {
    if i == |nodes| then None
    else if nodes[i].idempotency == EffectfulOnce && HasRow(rows, nodes[i].stepId, Started)
            && !HasRow(rows, nodes[i].stepId, Completed)
    then Some(i)
    else PendingFrom(nodes, rows, i + 1)
  }

  lemma {:induction false} NothingPending(nodes: seq<Node>, i: nat)
    requires i <= |nodes|
    ensures PendingFrom(nodes, [], i).None?
    decreases |nodes| - i
  {
    if i < |nodes| {
      NothingPending(nodes, i + 1);
    }
  }

  /** The first read node from `i` on. */
  function ReadNodeFrom(nodes: seq<Node>, i: nat): (r: Option<nat>)
    requires i <= |nodes|
    ensures r.Some? ==> i <= r.value < |nodes| && nodes[r.value].idempotency == Read
    ensures r.Some? ==> forall j :: i <= j < r.value ==> nodes[j].idempotency != Read
    ensures r.None? ==> forall j :: i <= j < |nodes| ==> nodes[j].idempotency != Read
    decreases |nodes| - i
  {
    if i == |nodes| then None
    else if nodes[i].idempotency == Read then Some(i)
    else ReadNodeFrom(nodes, i + 1)
  }

  /** The command's initial state overlaid with the raw journaled deltas. */
  function MergedDeltas(initial: State, rows: seq<Row>): State {
    if |rows| == 0 then initial
    else
      var rest, row := MergedDeltas(initial, rows[..|rows| - 1]), rows[|rows| - 1];
      if row.stateDelta.Some? then rest + row.stateDelta.value else rest
  }

  /** The largest journaled attempt of a step, at least 1. */
  function MaxAttempt(rows: seq<Row>, stepId: string): (n: nat)
    ensures n >= 1 && forall i :: 0 <= i < |rows| && rows[i].stepId == stepId ==> rows[i].attempt <= n
    ensures n > 1 ==> exists i :: 0 <= i < |rows| && rows[i].stepId == stepId && rows[i].attempt == n
  {
    if |rows| == 0 then 1
    else
      var rest, row := MaxAttempt(rows[..|rows| - 1], stepId), rows[|rows| - 1];
      if row.stepId == stepId && row.attempt > rest then row.attempt else rest
  }

  function Ambiguous(log: seq<Event>): Booking {
    Booking(log, Failing(Failure(ReconcileRequired, "CONFIRMATION_PROBE_AMBIGUOUS", false)))
  }

  /** The acts of the probe call: a session around one `run`. */
  function ProbeActs(node: Node, input: State, session: Option<StepError>): seq<Event> {
    if session.Some? then [] else [Opened(node.segment), Entered(node.stepId, input, None), Closed(node.segment)]
  }

  function ProbeGate(flow: Flow, env: BookingEnv, initial: State, rows: seq<Row>, pending: nat): Booking
    requires pending < |flow.Nodes()|
  {
    var nodes := flow.Nodes();
    var found := ReadNodeFrom(nodes, pending + 1);
    if found.None? || nodes[found.value].stepId !in flow.registered then Ambiguous([])
    else
      var probe := nodes[found.value];
      var input := Inputs(probe.needs, MergedDeltas(initial, rows));
      var acts := ProbeActs(probe, input, env.probeSession);
      var answer := if env.probeSession.Some? then Threw(env.probeSession.value) else env.probe(probe.stepId, input);
      if answer.Returned? then
        var confirmation := Get(answer.outcome.state, CONFIRMATION);
        if confirmation.Some? && Truthy(confirmation.value) then
          var first := BareRow(nodes[pending].stepId, MaxAttempt(rows, nodes[pending].stepId),
            Completed).(landing := answer.outcome.observed);
          var second := BareRow(probe.stepId, MaxAttempt(rows, probe.stepId),
            Completed).(landing := answer.outcome.observed);
          Booking(acts + [Append(first, env.fold.append(0)), Append(second, env.fold.append(1))],
              Booked(confirmation.value))
        else Ambiguous(acts)
      else
        var row := BareRow(probe.stepId, MaxAttempt(rows, probe.stepId), Failed).(
          landing := Some(Landing(probe.expects, UNKNOWN_STATION)), error := Some("CONFIRMATION_PROBE_AMBIGUOUS"));
        Ambiguous(acts + [Append(row, env.fold.append(0))])
  }

  // ------------------------------------------------------------------- the lease

  function FoldVerdict(r: LeaseResult): Verdict {
    match r
    case FailedWith(final, fault) => Failing(FaultToFailure(fault, LastStarted(final.log)))
    case Succeeded(final) =>
      var confirmation := Get(final.state, CONFIRMATION);
      if confirmation.Some? && Truthy(confirmation.value) then Booked(confirmation.value)
      else Failing(Failure(ReconcileRequired, "FLOW_OUTPUT_MISSING", false))
  }

  function ExecuteBooking(
    flow: Flow, env: BookingEnv, initial: State, pinned: Option<string>, journal: seq<Row>): Booking
    requires Runnable(flow)
  {
    if !Pinned(flow, pinned) then Booking([], SkewVerdict(flow, env, journal))
    else
      var rows := if env.gateRead then journal else [];
      var pending := PendingFrom(flow.Nodes(), rows, 0);
      if pending.Some? then ProbeGate(flow, env, initial, rows, pending.value)
      else
        var r := RunFlow(flow, env.fold, initial, true, journal);
        Booking(r.final.log, FoldVerdict(r))
  }
}
