/** The booking execution as it is written (src/server/flow-runner.ts): the skew check,
    the probe gate and the traced `runFlow` call, over a run object. Each method is
    proved against the specification of `BookingGate`. */
module BookingRunner {
  import opened Basics
  import opened JsonValues
  import opened FlowTypes
  import opened PlanShape
  import opened FlowFold
  import opened FlowLease
  import opened FlowRunner
  import opened BookingGate

  /** The journal interceptor: remembers the step of the last `started` append. */
  class Trace {
    var lastStarted: Option<string>

    constructor ()
      ensures lastStarted == None
    {
      lastStarted := None;
    }

    method Note(e: Event)
      modifies this
      ensures lastStarted == if e.Append? && e.row.status == Started then Some(e.row.stepId) else old(lastStarted)
    {
      if e.Append? && e.row.status == Started {
        lastStarted := Some(e.row.stepId);
      }
    }

    /** Every append of a run passes the interceptor, in order, kept or not. */
    method Follow(log: seq<Event>)
      requires lastStarted == None
      modifies this
      ensures lastStarted == LastStarted(log)
    {
      for i := 0 to |log|
        invariant lastStarted == LastStarted(log[..i])
      {
        assert log[..i + 1][..i] == log[..i];
        Note(log[i]);
      }
      assert log[..|log|] == log;
    }
  }

  /** A pinned plan hash that does not match never executes. */
  method CheckFlowPlanSkew(
    flow: Flow, env: BookingEnv, pinned: Option<string>, journal: seq<Row>)
    returns (refusal: Option<Verdict>)
    ensures refusal == if Pinned(flow, pinned) then None else Some(SkewVerdict(flow, env, journal))
  {
    if pinned.None? || pinned.value == "" || pinned.value == flow.planHash {
      return None;
    }
    var rows := if env.skewRead then journal else [];
    var effectful: set<string> := {};
    for i := 0 to |flow.Nodes()|
      invariant effectful == set j | 0 <= j < i && flow.Nodes()[j].idempotency == EffectfulOnce ::
                flow.Nodes()[j].stepId
    {
      if flow.Nodes()[i].idempotency == EffectfulOnce {
        effectful := effectful + {flow.Nodes()[i].stepId};
      }
    }
    for i := 0 to |rows|
      invariant forall j :: 0 <= j < i ==> !(rows[j].status == Started && rows[j].stepId in effectful)
    {
      if rows[i].status == Started && rows[i].stepId in effectful {
        assert rows[i] in rows;
        return Some(Failing(Failure(ReconcileRequired, "FLOW_PLAN_SKEW", false)));
      }
    }
    assert !EffectStarted(flow.Nodes(), rows) by {
      forall row, node | row in rows && node in flow.Nodes() && node.idempotency == EffectfulOnce
          && node.stepId == row.stepId
        ensures row.status != Started
      {
        assert row.stepId in effectful;
      }
    }
    return Some(Requeued);
  }

  /** The probe's input: initial state overlaid with every journaled delta. */
  method MergeDeltas(initial: State, rows: seq<Row>) returns (merged: State)
    ensures merged == MergedDeltas(initial, rows)
  {
    merged := initial;
    for i := 0 to |rows|
      invariant merged == MergedDeltas(initial, rows[..i])
    {
      assert rows[..i + 1][..i] == rows[..i];
      if rows[i].stateDelta.Some? {
        merged := merged + rows[i].stateDelta.value;
      }
    }
    assert rows[..|rows|] == rows;
  }

  method MaxJournaledAttempt(rows: seq<Row>, stepId: string) returns (max: nat)
    ensures max == MaxAttempt(rows, stepId)
  {
    max := 1;
    for i := 0 to |rows|
      invariant max == MaxAttempt(rows[..i], stepId)
    {
      assert rows[..i + 1][..i] == rows[..i];
      if rows[i].stepId == stepId && rows[i].attempt > max {
        max := rows[i].attempt;
      }
    }
    assert rows[..|rows|] == rows;
  }

  class BookingRun {
    const flow: Flow
    const env: BookingEnv
    const initial: State

    var log: seq<Event>
    var appends: nat

    constructor (flow: Flow, env: BookingEnv, initial: State)
      ensures this.flow == flow && this.env == env && this.initial == initial
      ensures log == [] && appends == 0
    {
      this.flow, this.env, this.initial := flow, env, initial;
      log, appends := [], 0;
    }

    /** A failed evidence append changes no verdict. */
    method AppendEvidence(row: Row)
      modifies this
      ensures log == old(log) + [Append(row, env.fold.append(old(appends)))] && appends == old(appends) + 1
    {
      log := log + [Append(row, env.fold.append(appends))];
      appends := appends + 1;
    }

    method CallProbe(probe: Node, input: State) returns (answer: RunResult)
      modifies this`log
      ensures log == old(log) + ProbeActs(probe, input, env.probeSession)
      ensures answer == if env.probeSession.Some? then Threw(env.probeSession.value) else env.probe(probe.stepId, input)
    {
      if env.probeSession.Some? {
        return Threw(env.probeSession.value);
      }
      log := log + [Opened(probe.segment), Entered(probe.stepId, input, None), Closed(probe.segment)];
      return env.probe(probe.stepId, input);
    }

    /** Resolve a started and never completed effectful-once step without running it. */
    method ProbeConfirmationGate(rows: seq<Row>, pending: nat) returns (verdict: Verdict)
      requires pending < |flow.Nodes()| && log == [] && appends == 0
      modifies this
      ensures Booking(log, verdict) == ProbeGate(flow, env, initial, rows, pending)
    {
      hide MergedDeltas, MaxAttempt;
      var nodes := flow.Nodes();
      var ambiguous := Failing(Failure(ReconcileRequired, "CONFIRMATION_PROBE_AMBIGUOUS", false));
      var found := ReadNodeFrom(nodes, pending + 1);
      if found.None? || nodes[found.value].stepId !in flow.registered {
        return ambiguous;
      }
      var probe := nodes[found.value];
      var merged := MergeDeltas(initial, rows);
      var answer := CallProbe(probe, Inputs(probe.needs, merged));
      var second := MaxJournaledAttempt(rows, probe.stepId);
      if answer.Returned? {
        var confirmation := Get(answer.outcome.state, CONFIRMATION);
        if confirmation.None? || !Truthy(confirmation.value) {
          return ambiguous;
        }
        var first := MaxJournaledAttempt(rows, nodes[pending].stepId);
        AppendEvidence(BareRow(nodes[pending].stepId, first, Completed).(landing := answer.outcome.observed));
        AppendEvidence(BareRow(probe.stepId, second, Completed).(landing := answer.outcome.observed));
        return Booked(confirmation.value);
      }
      AppendEvidence(BareRow(probe.stepId, second, Failed).(
        landing := Some(Landing(probe.expects, UNKNOWN_STATION)), error := Some("CONFIRMATION_PROBE_AMBIGUOUS")));
      return ambiguous;
    }

    /** Drive the fold and map how it ended. */
    method RunFlowToVerdict(journal: seq<Row>) returns (verdict: Verdict)
      requires Runnable(flow) && log == []
      modifies this`log
      ensures var r := RunFlow(flow, env.fold, initial, true, journal);
        log == r.final.log && verdict == FoldVerdict(r)
    {
      hide RunFlow, FaultToFailure;
      var run := new FlowRun(flow, env.fold, initial);
      var fault := run.Run(true, journal);
      log := run.log;
      if fault.Some? {
        var trace := new Trace();
        trace.Follow(log);
        return Failing(FaultToFailure(fault.value, trace.lastStarted));
      }
      var confirmation := Get(run.state, CONFIRMATION);
      if confirmation.None? || !Truthy(confirmation.value) {
        return Failing(Failure(ReconcileRequired, "FLOW_OUTPUT_MISSING", false));
      }
      return Booked(confirmation.value);
    }

    /** Skew check, then the probe gate, then the fold. */
    method Execute(pinned: Option<string>, journal: seq<Row>) returns (verdict: Verdict)
      requires Runnable(flow) && log == [] && appends == 0
      modifies this
      ensures Booking(log, verdict) == ExecuteBooking(flow, env, initial, pinned, journal)
    {
      hide ProbeGate, RunFlow, FoldVerdict, Runnable, SkewVerdict, Pinned;
      var refusal := CheckFlowPlanSkew(flow, env, pinned, journal);
      if refusal.Some? {
        return refusal.value;
      }
      var rows := if env.gateRead then journal else [];
      var pending := PendingFrom(flow.Nodes(), rows, 0);
      if pending.Some? {
        verdict := ProbeConfirmationGate(rows, pending.value);
      } else {
        verdict := RunFlowToVerdict(journal);
      }
    }
  }
}
