/** At most once over a whole operation: any number of leases, each cut by a crash at
    any point, never enter an effectful-once step twice. */
module BookingOnce {
  import opened Basics
  import opened JsonValues
  import opened FlowTypes
  import opened PlanShape
  import opened FlowFold
  import opened FlowLease
  import opened FlowSteps
  import opened FlowOnce
  import opened BookingGate

  /** One lease: the flow its replica constructed, and the world it ran in. */
  datatype Lease = Lease(flow: Flow, env: BookingEnv, initial: State)

  /** The acts of all leases before the j-th, in order. */
  function History(traces: seq<seq<Event>>): seq<Event> {
    if |traces| == 0 then [] else History(traces[..|traces| - 1]) + traces[|traces| - 1]
  }

  ghost predicate LeaseCut(lease: Lease, pinned: Option<string>, before: seq<Event>, trace: seq<Event>)
    requires Runnable(lease.flow)
  {
    trace <= ExecuteBooking(lease.flow, lease.env, lease.initial, pinned, Kept(before)).log
  }

  /** `traces[j]` is what the j-th lease did before it ended or crashed; it read the
      journal rows that all earlier leases left. */
  ghost predicate Operation(leases: seq<Lease>, pinned: Option<string>, traces: seq<seq<Event>>) {
    && |traces| == |leases|
    && (forall j :: 0 <= j < |leases| ==> Runnable(leases[j].flow))
    && forall j :: 0 <= j < |leases| ==> LeaseCut(leases[j], pinned, History(traces[..j]), traces[j])
  }

  ghost predicate ReliableJournal(env: BookingEnv) {
    Reliable(env.fold) && env.skewRead && env.gateRead
  }

  /** Every lease that the skew check lets through constructed the same plan. */
  ghost predicate OnePlan(leases: seq<Lease>, pinned: Option<string>, plan: Plan) {
    forall j :: 0 <= j < |leases| && Pinned(leases[j].flow, pinned) ==> leases[j].flow.plan == plan
  }

  /** The pinned hash names one plan: replicas that agree on the hash agree on the plan. */
  ghost predicate HashNamesPlan(leases: seq<Lease>, hash: string, plan: Plan) {
    hash != "" && forall j :: 0 <= j < |leases| && leases[j].flow.planHash == hash ==> leases[j].flow.plan == plan
  }

  /** A pin to a hash that names one plan is one reason, and a rollout that never changes
      the plan is another. */
  lemma {:induction false} PinOnePlan(leases: seq<Lease>, pinned: Option<string>, plan: Plan)
    ensures pinned.Some? && HashNamesPlan(leases, pinned.value, plan) ==> OnePlan(leases, pinned, plan)
    ensures (forall j :: 0 <= j < |leases| ==> leases[j].flow.plan == plan) ==> OnePlan(leases, pinned, plan)
  {}

  lemma {:induction false} StartedFirstPrefix(a: seq<Event>, b: seq<Event>, stepId: string)
    requires a <= b && StartedFirst(b, stepId)
    ensures StartedFirst(a, stepId)
  {}

  lemma {:induction false} KeptHas(log: seq<Event>, p: nat)
    requires p < |log| && log[p].Append? && log[p].kept
    ensures log[p].row in Kept(log)
  {
    if p < |log| - 1 {
      KeptHas(log[..|log| - 1], p);
    }
  }

  /** An entered step has journaled evidence. */
  lemma {:induction false} EnteredHasEvidence(log: seq<Event>, stepId: string)
    requires StartedFirst(log, stepId) && Entries(log, stepId) > 0
    ensures HasEvidence(Kept(log), stepId)
  {
    var p := EntryAt(log, stepId);
    KeptHas(log, p - 1);
  }

  lemma {:induction false} EntryAt(log: seq<Event>, stepId: string) returns (p: nat)
    requires Entries(log, stepId) > 0
    ensures p < |log| && log[p].Entered? && log[p].stepId == stepId
  {
    var e := log[|log| - 1];
    if e.Entered? && e.stepId == stepId {
      p := |log| - 1;
    } else {
      p := EntryAt(log[..|log| - 1], stepId);
    }
  }

  /** The gate runs a read step and writes rows: it never enters an effectful one. */
  lemma {:induction false} GateQuiet(flow: Flow, env: BookingEnv, initial: State, rows: seq<Row>, pending: nat, k: nat)
    requires UniqueIds(flow.Nodes()) && pending < |flow.Nodes()|
    requires k < |flow.Nodes()| && flow.Nodes()[k].idempotency == EffectfulOnce
    ensures var log := ProbeGate(flow, env, initial, rows, pending).log; var id := flow.Nodes()[k].stepId;
      Entries(log, id) == 0 && StartedFirst(log, id)
  {
    var nodes := flow.Nodes();
    var id := nodes[k].stepId;
    var log := ProbeGate(flow, env, initial, rows, pending).log;
    var found := ReadNodeFrom(nodes, pending + 1);
    if found.Some? {
      assert nodes[found.value].stepId != id;
    }
    assert forall p :: 0 <= p < |log| ==> !log[p].Entered? || log[p].stepId != id;
    NoEntries(log, id);
  }

  lemma {:induction false} NoEntries(log: seq<Event>, stepId: string)
    requires forall p :: 0 <= p < |log| ==> !log[p].Entered? || log[p].stepId != stepId
    ensures Entries(log, stepId) == 0
  {
    if |log| > 0 {
      NoEntries(log[..|log| - 1], stepId);
    }
  }

  /** One lease after any history: it enters the step only if the journal has no
      evidence of it, and then at most once, right after the kept `started` row. */
  lemma {:induction false} BookingLeaseOnce(lease: Lease, pinned: Option<string>, plan: Plan, journal: seq<Row>, k: nat)
    requires Runnable(lease.flow) && ReliableJournal(lease.env)
    requires Pinned(lease.flow, pinned) ==> lease.flow.plan == plan
    requires k < |plan.nodes| && plan.nodes[k].idempotency == EffectfulOnce && NoReturnTo(plan.nodes, k)
    ensures var log := ExecuteBooking(lease.flow, lease.env, lease.initial, pinned, journal).log;
      var id := plan.nodes[k].stepId;
      && Entries(log, id) <= 1
      && (HasEvidence(journal, id) ==> Entries(log, id) == 0)
      && StartedFirst(log, id)
  {
    hide RunFlow, ProbeGate, FoldVerdict, SkewVerdict, Runnable, NoReturnTo, Entries, HasEvidence, PendingFrom, Pinned;
    var id := plan.nodes[k].stepId;
    if Pinned(lease.flow, pinned) {
      var pending := PendingFrom(lease.flow.Nodes(), journal, 0);
      if pending.Some? {
        RunnableUnique(lease.flow);
        GateQuiet(lease.flow, lease.env, lease.initial, journal, pending.value, k);
      } else {
        LeaseOnce(lease.flow, lease.env.fold, lease.initial, journal, k);
      }
    } else {
      NoEntries([], id);
      EmptyStarted(id);
    }
  }

  lemma {:induction false} RunnableUnique(flow: Flow)
    requires Runnable(flow)
    ensures UniqueIds(flow.Nodes())
  {}

  lemma {:induction false} OperationLength(leases: seq<Lease>, pinned: Option<string>, traces: seq<seq<Event>>)
    requires Operation(leases, pinned, traces)
    ensures |traces| == |leases|
  {}

  /** The operation before its last lease. */
  lemma {:induction false} OperationFront(
    leases: seq<Lease>, pinned: Option<string>, plan: Plan, traces: seq<seq<Event>>)
    requires Operation(leases, pinned, traces) && OnePlan(leases, pinned, plan) && |leases| > 0
    ensures var n := |leases| - 1;
      && Operation(leases[..n], pinned, traces[..n]) && OnePlan(leases[..n], pinned, plan)
      && Runnable(leases[n].flow) && LeaseCut(leases[n], pinned, History(traces[..n]), traces[n])
      && (Pinned(leases[n].flow, pinned) ==> leases[n].flow.plan == plan)
  {
    hide LeaseCut, Runnable, History, Pinned;
    var n := |leases| - 1;
    forall j | 0 <= j < n
      ensures Runnable(leases[..n][j].flow)
      ensures LeaseCut(leases[..n][j], pinned, History(traces[..n][..j]), traces[..n][j])
    {
      assert traces[..n][..j] == traces[..j];
      assert LeaseCut(leases[j], pinned, History(traces[..j]), traces[j]);
    }
    assert LeaseCut(leases[n], pinned, History(traces[..n]), traces[n]);
  }

  /** The history after every lease has at most one entry, and evidence of it. */
  lemma {:induction false} HistoryOnce(
    leases: seq<Lease>, pinned: Option<string>, plan: Plan, traces: seq<seq<Event>>, k: nat)
    requires Operation(leases, pinned, traces) && OnePlan(leases, pinned, plan)
    requires forall j :: 0 <= j < |leases| ==> ReliableJournal(leases[j].env)
    requires k < |plan.nodes| && plan.nodes[k].idempotency == EffectfulOnce && NoReturnTo(plan.nodes, k)
    ensures var id := plan.nodes[k].stepId;
      Entries(History(traces), id) <= 1 && StartedFirst(History(traces), id)
    decreases |leases|
  {
    hide ExecuteBooking, NoReturnTo, Entries, StartedFirst, HasEvidence, Kept, ReliableJournal, Runnable;
    hide Operation, OnePlan, Pinned;
    var id := plan.nodes[k].stepId;
    if |leases| == 0 {
      assert |traces| == 0 by { OperationLength(leases, pinned, traces); }
      EmptyStarted(id);
      NoEntries([], id);
    } else {
      var n := |leases| - 1;
      OperationLength(leases, pinned, traces);
      OperationFront(leases, pinned, plan, traces);
      HistoryOnce(leases[..n], pinned, plan, traces[..n], k);
      var before := History(traces[..n]);
      BookingLeaseOnce(leases[n], pinned, plan, Kept(before), k);
      var log := ExecuteBooking(leases[n].flow, leases[n].env, leases[n].initial, pinned, Kept(before)).log;
      EntriesPrefix(traces[n], log, id);
      StartedFirstPrefix(traces[n], log, id);
      StartedFirstConcat(before, traces[n], id);
      EntriesConcat(before, traces[n], id);
      if Entries(before, id) > 0 {
        EnteredHasEvidence(before, id);
      }
    }
  }

  /** Never a second submit: over any sequence of crash-cut leases of one plan, pinned or
      not, with a reliable journal, an effectful-once step that no recovery edge returns to
      is entered at most once. */
  lemma {:induction false} EffectfulOnceOverLeases(
    leases: seq<Lease>, pinned: Option<string>, plan: Plan, traces: seq<seq<Event>>, k: nat)
    requires Operation(leases, pinned, traces) && OnePlan(leases, pinned, plan)
    requires forall j :: 0 <= j < |leases| ==> ReliableJournal(leases[j].env)
    requires k < |plan.nodes| && plan.nodes[k].idempotency == EffectfulOnce && NoReturnTo(plan.nodes, k)
    ensures Entries(History(traces), plan.nodes[k].stepId) <= 1
  {
    HistoryOnce(leases, pinned, plan, traces, k);
  }
}
