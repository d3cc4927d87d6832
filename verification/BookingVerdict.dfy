/** How a booking lease ends (src/server/flow-runner.ts:277-312, 432-549, 566-631): when it is
    booked, when its output is missing, when the probe leaves it ambiguous, and what the
    probe's evidence settles for the leases behind it. */
module BookingVerdict {
  import opened Basics
  import opened JsonValues
  import opened FlowTypes
  import opened PlanShape
  import opened FlowFold
  import opened FlowLease
  import opened BookingGate

  /** An effectful-once step was started and never completed. */
  ghost predicate PendingAt(nodes: seq<Node>, rows: seq<Row>, k: nat) {
    && k < |nodes| && nodes[k].idempotency == EffectfulOnce
    && (exists row :: row in rows && row.stepId == nodes[k].stepId && row.status == Started)
    && (forall row :: row in rows && row.stepId == nodes[k].stepId ==> row.status != Completed)
  }

  ghost predicate NonePending(nodes: seq<Node>, rows: seq<Row>) {
    forall k :: 0 <= k < |nodes| ==> !PendingAt(nodes, rows, k)
  }

  ghost predicate FirstPending(nodes: seq<Node>, rows: seq<Row>, k: nat) {
    PendingAt(nodes, rows, k) && forall j :: 0 <= j < k ==> !PendingAt(nodes, rows, j)
  }

  /** The first read node behind node `k`. */
  ghost predicate FirstReadBehind(nodes: seq<Node>, k: nat, p: nat) {
    k < p < |nodes| && nodes[p].idempotency == Read && forall j :: k < j < p ==> nodes[j].idempotency != Read
  }

  /** A confirmation that JavaScript takes for true. */
  ghost predicate Confirms(state: State, v: Json) {
    CONFIRMATION in state && state[CONFIRMATION] == v && v != Null && v != Bool(false) && v != Num(0) && v != Str("")
  }

  /** Nothing is pinned, or this very plan. */
  ghost predicate PinMatches(flow: Flow, pinned: Option<string>) {
    pinned == None || pinned == Some("") || pinned == Some(flow.planHash)
  }

  /** The journal rows that the gate sees. */
  function Seen(env: BookingEnv, journal: seq<Row>): seq<Row> {
    if env.gateRead then journal else []
  }

  /** The fold ran to its end and its state confirms the booking. */
  ghost predicate FoldConfirms(flow: Flow, env: BookingEnv, initial: State, journal: seq<Row>, v: Json)
    requires Runnable(flow)
  {
    var r := RunFlow(flow, env.fold, initial, true, journal);
    NonePending(flow.Nodes(), Seen(env, journal)) && r.Succeeded? && Confirms(r.final.state, v)
  }

  /** Node `p` can probe for the pending node `k`, and its call confirmed the booking. */
  ghost predicate ProbeConfirms(
    flow: Flow, env: BookingEnv, initial: State, rows: seq<Row>, k: nat, p: nat, v: Json)
  {
    var nodes := flow.Nodes();
    && FirstPending(nodes, rows, k) && FirstReadBehind(nodes, k, p)
    && nodes[p].stepId in flow.registered && env.probeSession.None?
    && var a := env.probe(nodes[p].stepId, Inputs(nodes[p].needs, MergedDeltas(initial, rows)));
       a.Returned? && Confirms(a.outcome.state, v)
  }

  // ------------------------------------------------------------------ what is pending

  lemma {:induction false} PendingIs(nodes: seq<Node>, rows: seq<Row>)
    ensures var r := PendingFrom(nodes, rows, 0);
      (r.Some? ==> FirstPending(nodes, rows, r.value)) && (r.None? ==> NonePending(nodes, rows))
  {
    forall k | 0 <= k < |nodes|
      ensures PendingAt(nodes, rows, k) <==>
                (nodes[k].idempotency == EffectfulOnce
                 && HasRow(rows, nodes[k].stepId, Started) && !HasRow(rows, nodes[k].stepId, Completed))
    {}
    hide PendingFrom, PendingAt, HasRow;
  }

  lemma {:induction false} OneFirst(nodes: seq<Node>, rows: seq<Row>, j: nat, k: nat)
    requires FirstPending(nodes, rows, j)
    ensures FirstPending(nodes, rows, k) ==> j == k
    ensures !NonePending(nodes, rows)
  {
    assert PendingAt(nodes, rows, j) && j < |nodes|;
    hide PendingAt;
  }

  lemma {:induction false} ReadIs(nodes: seq<Node>, k: nat, p: nat)
    requires k < |nodes|
    ensures ReadNodeFrom(nodes, k + 1) == Some(p) <==> FirstReadBehind(nodes, k, p)
  {
    hide ReadNodeFrom;
  }

  // ------------------------------------------------------------------------- verdicts

  /** A lease is booked exactly when its pin matches and the fold confirms the booking, or a
      started step is pending and the probe does. */
  lemma {:induction false} BookedExactly(
    flow: Flow, env: BookingEnv, initial: State, pinned: Option<string>, journal: seq<Row>, v: Json)
    requires Runnable(flow)
    ensures ExecuteBooking(flow, env, initial, pinned, journal).verdict == Booked(v) <==>
              PinMatches(flow, pinned)
              && (|| FoldConfirms(flow, env, initial, journal, v)
                  || exists k: nat, p: nat :: ProbeConfirms(flow, env, initial, Seen(env, journal), k, p, v))
  {
    hide RunFlow, Runnable, PendingFrom, FaultToFailure, EffectStarted, FirstPending, NonePending, MergedDeltas;
    hide ProbeGate, FoldVerdict, ProbeConfirms, Confirms;
    var nodes, rows := flow.Nodes(), Seen(env, journal);
    PendingIs(nodes, rows);
    var r := PendingFrom(nodes, rows, 0);
    if r.Some? {
      GateBooked(flow, env, initial, rows, r.value, v);
      NotFolded(nodes, rows, r.value);
    } else {
      FoldBooked(RunFlow(flow, env.fold, initial, true, journal), v);
      NotProbed(flow, env, initial, rows, v);
    }
  }

  lemma {:induction false} NotFolded(nodes: seq<Node>, rows: seq<Row>, k: nat)
    requires FirstPending(nodes, rows, k)
    ensures !NonePending(nodes, rows)
  {
    OneFirst(nodes, rows, k, k);
  }

  lemma {:induction false} NotProbed(flow: Flow, env: BookingEnv, initial: State, rows: seq<Row>, v: Json)
    requires NonePending(flow.Nodes(), rows)
    ensures forall k: nat, p: nat :: !ProbeConfirms(flow, env, initial, rows, k, p, v)
  {
    hide Confirms, PendingAt, MergedDeltas;
    forall k: nat, p: nat ensures !ProbeConfirms(flow, env, initial, rows, k, p, v) {
      if FirstPending(flow.Nodes(), rows, k) {
        OneFirst(flow.Nodes(), rows, k, k);
      }
    }
  }

  lemma {:induction false} FoldBooked(r: LeaseResult, v: Json)
    ensures FoldVerdict(r) == Booked(v) <==> r.Succeeded? && Confirms(r.final.state, v)
  {
    hide FaultToFailure, LastStarted;
  }

  lemma {:induction false} GateBooked(flow: Flow, env: BookingEnv, initial: State, rows: seq<Row>, k: nat, v: Json)
    requires FirstPending(flow.Nodes(), rows, k) && k < |flow.Nodes()|
    ensures ProbeGate(flow, env, initial, rows, k).verdict == Booked(v) <==>
              exists k': nat, p: nat :: ProbeConfirms(flow, env, initial, rows, k', p, v)
  {
    hide FirstPending, MergedDeltas, MaxAttempt, FirstReadBehind, Inputs;
    var nodes := flow.Nodes();
    var found := ReadNodeFrom(nodes, k + 1);
    forall p: nat ensures found == Some(p) <==> FirstReadBehind(nodes, k, p) {
      ReadIs(nodes, k, p);
    }
    forall k': nat ensures FirstPending(nodes, rows, k') ==> k' == k {
      OneFirst(nodes, rows, k, k');
    }
    if found.Some? {
      assert ProbeGate(flow, env, initial, rows, k).verdict == Booked(v) <==>
               ProbeConfirms(flow, env, initial, rows, k, found.value, v);
    }
  }

  /** A fold that ran to its end without a confirmation is FLOW_OUTPUT_MISSING, and only
      then is that the verdict of such a lease. */
  lemma {:induction false} OutputMissingExactly(
    flow: Flow, env: BookingEnv, initial: State, pinned: Option<string>, journal: seq<Row>)
    requires Runnable(flow) && PinMatches(flow, pinned) && NonePending(flow.Nodes(), Seen(env, journal))
    requires RunFlow(flow, env.fold, initial, true, journal).Succeeded?
    ensures var b := ExecuteBooking(flow, env, initial, pinned, journal);
      var r := RunFlow(flow, env.fold, initial, true, journal);
      && b.log == r.final.log
      && (b.verdict == Failing(Failure(ReconcileRequired, "FLOW_OUTPUT_MISSING", false)) <==>
            forall v :: !Confirms(r.final.state, v))
  {
    hide RunFlow, Runnable, PendingFrom, EffectStarted, NonePending, FirstPending;
    var nodes, rows := flow.Nodes(), Seen(env, journal);
    PendingIs(nodes, rows);
    if PendingFrom(nodes, rows, 0).Some? {
      NotFolded(nodes, rows, PendingFrom(nodes, rows, 0).value);
    }
    var state := RunFlow(flow, env.fold, initial, true, journal).final.state;
    assert (exists v :: Confirms(state, v)) <==> CONFIRMATION in state && Confirms(state, state[CONFIRMATION]);
  }

  /** A fold that ended with a fault is reported by that fault. */
  lemma {:induction false} FaultReported(
    flow: Flow, env: BookingEnv, initial: State, pinned: Option<string>, journal: seq<Row>)
    requires Runnable(flow) && PinMatches(flow, pinned) && NonePending(flow.Nodes(), Seen(env, journal))
    requires RunFlow(flow, env.fold, initial, true, journal).FailedWith?
    ensures var b := ExecuteBooking(flow, env, initial, pinned, journal);
      var r := RunFlow(flow, env.fold, initial, true, journal);
      b.log == r.final.log && b.verdict == Failing(FaultToFailure(r.fault, LastStarted(r.final.log)))
  {
    hide RunFlow, Runnable, PendingFrom, EffectStarted, NonePending, FirstPending, FaultToFailure, LastStarted;
    var nodes, rows := flow.Nodes(), Seen(env, journal);
    PendingIs(nodes, rows);
    if PendingFrom(nodes, rows, 0).Some? {
      NotFolded(nodes, rows, PendingFrom(nodes, rows, 0).value);
    }
  }

  /** A mismatching pin does nothing and is a skew to reconcile, or to queue again. */
  lemma {:induction false} SkewReported(
    flow: Flow, env: BookingEnv, initial: State, pinned: Option<string>, journal: seq<Row>)
    requires Runnable(flow) && !PinMatches(flow, pinned)
    ensures var b := ExecuteBooking(flow, env, initial, pinned, journal);
      var evidence := exists row, node :: row in (if env.skewRead then journal else []) && node in flow.Nodes() &&
                        row.status == Started && node.idempotency == EffectfulOnce && node.stepId == row.stepId;
      && b.log == []
      && b.verdict == if evidence then Failing(Failure(ReconcileRequired, "FLOW_PLAN_SKEW", false)) else Requeued
  {
    hide RunFlow, Runnable;
  }

  // ------------------------------------------------------------------- what is settled

  ghost predicate CompletedIn(log: seq<Event>, stepId: string) {
    exists q :: 0 <= q < |log| && log[q].Append? && log[q].row.stepId == stepId && log[q].row.status == Completed
  }

  ghost predicate IsProbe(nodes: seq<Node>, k: nat, stepId: string) {
    exists p: nat :: FirstReadBehind(nodes, k, p) && nodes[p].stepId == stepId
  }

  /** The attempt is the largest that is journaled for the step, or the first. */
  ghost predicate GoesOn(rows: seq<Row>, stepId: string, attempt: nat) {
    && attempt >= 1 && (forall row :: row in rows && row.stepId == stepId ==> row.attempt <= attempt)
    && (attempt == 1 || exists row :: row in rows && row.stepId == stepId && row.attempt == attempt)
  }

  lemma {:induction false} MaxGoesOn(rows: seq<Row>, stepId: string)
    ensures GoesOn(rows, stepId, MaxAttempt(rows, stepId))
  {
    hide MaxAttempt;
  }

  /** Booked with both steps journaled as completed, or ambiguous with none. */
  ghost predicate SettlesPending(nodes: seq<Node>, rows: seq<Row>, k: nat, b: Booking)
    requires k < |nodes|
  {
    && (forall q :: 0 <= q < |b.log| && b.log[q].Append? ==> GoesOn(rows, b.log[q].row.stepId, b.log[q].row.attempt))
    && (b.verdict.Booked? || b.verdict == Failing(Failure(ReconcileRequired, "CONFIRMATION_PROBE_AMBIGUOUS", false)))
    && (forall q :: 0 <= q < |b.log| && b.log[q].Entered? ==> IsProbe(nodes, k, b.log[q].stepId))
    && (b.verdict.Booked? <==> CompletedIn(b.log, nodes[k].stepId))
    && (forall id :: CompletedIn(b.log, id) ==> b.verdict.Booked? && (id == nodes[k].stepId || IsProbe(nodes, k, id)))
    && (b.verdict.Booked? ==> exists id :: IsProbe(nodes, k, id) && CompletedIn(b.log, id))
  }

  /** While a step is pending nothing but the probe is called, and the lease is booked or
      ambiguous: booked, its acts journal the pending step and the probe as completed;
      ambiguous, they journal nothing as completed. */
  lemma {:induction false} PendingSettles(
    flow: Flow, env: BookingEnv, initial: State, pinned: Option<string>, journal: seq<Row>, k: nat)
    requires Runnable(flow) && PinMatches(flow, pinned) && FirstPending(flow.Nodes(), Seen(env, journal), k)
    requires k < |flow.Nodes()|
    ensures SettlesPending(flow.Nodes(), Seen(env, journal), k, ExecuteBooking(flow, env, initial, pinned, journal))
  {
    hide RunFlow, Runnable, FirstPending, FoldVerdict, EffectStarted, ProbeGate, PendingFrom, SettlesPending;
    var nodes, rows := flow.Nodes(), Seen(env, journal);
    PendingIs(nodes, rows);
    var r := PendingFrom(nodes, rows, 0);
    if r.None? {
      NotFolded(nodes, rows, k);
      assert false;
    } else {
      OneFirst(nodes, rows, r.value, k);
      assert r.value == k;
      GateSettles(flow, env, initial, rows, k);
    }
  }

  /** The acts of a gate whose probe confirms: the probe, and one row for each step. */
  lemma {:induction false} ConfirmedSettles(
    nodes: seq<Node>, rows: seq<Row>, k: nat, p: nat, acts: seq<Event>, first: Event, second: Event, v: Json)
    requires k < |nodes| && FirstReadBehind(nodes, k, p)
    requires forall e :: e in acts ==> !e.Append? && (e.Entered? ==> e.stepId == nodes[p].stepId)
    requires first.Append? && first.row.stepId == nodes[k].stepId && first.row.status == Completed
    requires second.Append? && second.row.stepId == nodes[p].stepId && second.row.status == Completed
    requires GoesOn(rows, first.row.stepId, first.row.attempt) && GoesOn(rows, second.row.stepId, second.row.attempt)
    ensures SettlesPending(nodes, rows, k, Booking(acts + [first, second], Booked(v)))
  {
    assert IsProbe(nodes, k, nodes[p].stepId);
    hide IsProbe, GoesOn, FirstReadBehind;
    var log := acts + [first, second];
    assert log[|acts|] == first && log[|acts| + 1] == second;
    assert CompletedIn(log, nodes[k].stepId) && CompletedIn(log, nodes[p].stepId);
    forall q | 0 <= q < |acts| ensures log[q] == acts[q] && log[q] in acts {}
  }

  /** The acts of a gate that stays in doubt. */
  lemma {:induction false} DoubtSettles(nodes: seq<Node>, rows: seq<Row>, k: nat, log: seq<Event>)
    requires k < |nodes|
    requires forall e :: e in log && e.Entered? ==> IsProbe(nodes, k, e.stepId)
    requires forall e :: e in log && e.Append? ==>
               e.row.status != Completed && GoesOn(rows, e.row.stepId, e.row.attempt)
    ensures SettlesPending(nodes, rows, k, Ambiguous(log))
  {
    hide IsProbe, GoesOn;
    forall q | 0 <= q < |log| ensures log[q] in log {}
  }

  lemma {:induction false} GateSettles(flow: Flow, env: BookingEnv, initial: State, rows: seq<Row>, k: nat)
    requires k < |flow.Nodes()|
    ensures SettlesPending(flow.Nodes(), rows, k, ProbeGate(flow, env, initial, rows, k))
  {
    hide MergedDeltas, MaxAttempt, FirstReadBehind, Inputs, Truthy, SettlesPending, GoesOn;
    var nodes := flow.Nodes();
    var found := ReadNodeFrom(nodes, k + 1);
    MaxGoesOn(rows, nodes[k].stepId);
    if found.None? || nodes[found.value].stepId !in flow.registered {
      DoubtSettles(nodes, rows, k, []);
    } else {
      var p := found.value;
      ReadIs(nodes, k, p);
      assert IsProbe(nodes, k, nodes[p].stepId);
      MaxGoesOn(rows, nodes[p].stepId);
      var b := ProbeGate(flow, env, initial, rows, k);
      var n := |b.log|;
      if b.verdict.Booked? {
        ConfirmedSettles(nodes, rows, k, p, b.log[..n - 2], b.log[n - 2], b.log[n - 1], b.verdict.confirmation);
        assert b.log == b.log[..n - 2] + [b.log[n - 2], b.log[n - 1]];
      } else {
        DoubtSettles(nodes, rows, k, b.log);
      }
    }
  }

  /** The row of a probe call that failed: nothing was seen of the landing. */
  ghost predicate TellsFailure(e: Event, probe: Node, kept: bool) {
    && e.Append? && e.kept == kept && e.row.stepId == probe.stepId && e.row.status == Failed
    && e.row.landing == Some(Landing(probe.expects, UNKNOWN_STATION))
    && e.row.error == Some("CONFIRMATION_PROBE_AMBIGUOUS")
  }

  ghost predicate TellsCompletion(e: Event, stepId: string, landing: Option<Landing>, kept: bool) {
    && e.Append? && e.kept == kept && e.row.stepId == stepId && e.row.status == Completed
    && e.row.landing == landing && e.row.error.None? && e.row.stateDelta.None?
  }

  /** What a lease journals about its probe: a failed call as failed, a confirming answer as
      the completion of both steps, any other answer not at all. */
  ghost predicate TellsProbe(rows: seq<Event>, pending: Node, probe: Node, answer: RunResult, env: Env) {
    if !answer.Returned? then |rows| == 1 && TellsFailure(rows[0], probe, env.append(0))
    else if forall v :: !Confirms(answer.outcome.state, v) then rows == []
    else
      && |rows| == 2 && TellsCompletion(rows[0], pending.stepId, answer.outcome.observed, env.append(0))
      && TellsCompletion(rows[1], probe.stepId, answer.outcome.observed, env.append(1))
  }

  /** All acts of a lease that finds a step pending: the session, the one call of the probe
      on the merged state, and what it journals. */
  lemma {:induction false} PendingLogged(
    flow: Flow, env: BookingEnv, initial: State, pinned: Option<string>, journal: seq<Row>, k: nat, p: nat)
    requires Runnable(flow) && PinMatches(flow, pinned) && FirstPending(flow.Nodes(), Seen(env, journal), k)
    requires FirstReadBehind(flow.Nodes(), k, p) && k < |flow.Nodes()|
    ensures var log, probe := ExecuteBooking(flow, env, initial, pinned, journal).log, flow.Nodes()[p];
      var input := Inputs(probe.needs, MergedDeltas(initial, Seen(env, journal)));
      if probe.stepId !in flow.registered then log == []
      else if env.probeSession.Some? then |log| == 1 && TellsFailure(log[0], probe, env.fold.append(0))
      else
        && |log| >= 3
        && log[..3] == [Opened(probe.segment), Entered(probe.stepId, input, None), Closed(probe.segment)]
        && TellsProbe(log[3..], flow.Nodes()[k], probe, env.probe(probe.stepId, input), env.fold)
  {
    hide RunFlow, Runnable, FirstPending, FoldVerdict, EffectStarted, PendingFrom, FirstReadBehind, ProbeGate;
    hide TellsProbe, TellsFailure;
    var nodes, rows := flow.Nodes(), Seen(env, journal);
    PendingIs(nodes, rows);
    var r := PendingFrom(nodes, rows, 0);
    OneFirst(nodes, rows, k, if r.Some? then r.value else k);
    assert r == Some(k);
    ReadIs(nodes, k, p);
    GateLogged(flow, env, initial, rows, k, p);
  }

  lemma {:induction false} GateLogged(flow: Flow, env: BookingEnv, initial: State, rows: seq<Row>, k: nat, p: nat)
    requires k < |flow.Nodes()| && p < |flow.Nodes()| && ReadNodeFrom(flow.Nodes(), k + 1) == Some(p)
    ensures var log, probe := ProbeGate(flow, env, initial, rows, k).log, flow.Nodes()[p];
      var input := Inputs(probe.needs, MergedDeltas(initial, rows));
      if probe.stepId !in flow.registered then log == []
      else if env.probeSession.Some? then |log| == 1 && TellsFailure(log[0], probe, env.fold.append(0))
      else
        && |log| >= 3
        && log[..3] == [Opened(probe.segment), Entered(probe.stepId, input, None), Closed(probe.segment)]
        && TellsProbe(log[3..], flow.Nodes()[k], probe, env.probe(probe.stepId, input), env.fold)
  {
    hide MergedDeltas, MaxAttempt, Inputs, ReadNodeFrom, Truthy;
    var probe := flow.Nodes()[p];
    var answer := env.probe(probe.stepId, Inputs(probe.needs, MergedDeltas(initial, rows)));
    if answer.Returned? {
      ConfirmsIf(answer.outcome.state);
    }
  }

  lemma {:induction false} ConfirmsIf(state: State)
    ensures (exists v :: Confirms(state, v)) <==> Get(state, CONFIRMATION).Some? && Truthy(state[CONFIRMATION])
  {
    assert Get(state, CONFIRMATION).Some? && Truthy(state[CONFIRMATION]) ==> Confirms(state, state[CONFIRMATION]);
  }

  /** Deltas are merged in journal order: the last row that has the key wins. */
  lemma {:induction false} MergedLast(initial: State, rows: seq<Row>, q: nat, key: string)
    requires q < |rows| && rows[q].stateDelta.Some? && key in rows[q].stateDelta.value
    requires forall j :: q < j < |rows| && rows[j].stateDelta.Some? ==> key !in rows[j].stateDelta.value
    ensures key in MergedDeltas(initial, rows) && MergedDeltas(initial, rows)[key] == rows[q].stateDelta.value[key]
  {
    if q + 1 < |rows| {
      MergedLast(initial, rows[..|rows| - 1], q, key);
    }
  }

  lemma {:induction false} MergedInitial(initial: State, rows: seq<Row>, key: string)
    requires forall j :: 0 <= j < |rows| && rows[j].stateDelta.Some? ==> key !in rows[j].stateDelta.value
    ensures Get(MergedDeltas(initial, rows), key) == Get(initial, key)
  {
    if |rows| > 0 {
      MergedInitial(initial, rows[..|rows| - 1], key);
    }
  }
}
