/** When the failure boundary holds over a whole operation: exactly when submit and
    extract-confirmation share a segment. The Acuity booking flow gives each its own
    (src/adapters/acuity/flow-steps.ts:674-718), so a lease that resumes behind submit
    and cannot open its session reports a submitted booking as failed_pre_submit. */
module BoundaryHole {
  import opened Basics
  import opened JsonValues
  import opened FlowTypes
  import opened PlanShape
  import opened FlowFold
  import opened FlowLease
  import opened FlowSteps
  import opened FlowTermination
  import opened FlowNeeds
  import opened FlowOnce
  import opened FlowReturn
  import opened FlowResume
  import opened BookingGate
  import opened BookingOnce
  import opened BookingBoundary

  // ------------------------------------------------------ the law over operations

  ghost predicate Setting(leases: seq<Lease>, pinned: Option<string>, plan: Plan, traces: seq<seq<Event>>) {
    && |leases| > 0
    && Operation(leases, pinned, traces) && OnePlan(leases, pinned, plan)
    && forall j :: 0 <= j < |leases| ==> ReliableJournal(leases[j].env) && Honest(leases[j].env.fold)
  }

  /** What the last lease would report if nothing cut it short. */
  function LastReport(leases: seq<Lease>, pinned: Option<string>, traces: seq<seq<Event>>): Booking
    requires |leases| == |traces| > 0 && Runnable(leases[|leases| - 1].flow)
  {
    var n := |leases| - 1;
    ExecuteBooking(leases[n].flow, leases[n].env, leases[n].initial, pinned, Kept(History(traces[..n])))
  }

  predicate ReportsPreSubmit(b: Booking) {
    b.verdict.Failing? && b.verdict.failure.status == FailedPreSubmit
  }

  /** A report of failed_pre_submit means that no lease so far entered submit. */
  ghost predicate BoundaryKept(plan: Plan) {
    forall leases, pinned, traces :: Setting(leases, pinned, plan, traces) ==>
      ReportsPreSubmit(LastReport(leases, pinned, traces)) ==>
        Entries(History(traces[..|leases| - 1]) + LastReport(leases, pinned, traces).log, SUBMIT) == 0
  }

  lemma {:induction false} RecoveryFreeNoReturn(nodes: seq<Node>, k: nat)
    requires RecoveryFree(nodes)
    ensures NoReturnTo(nodes, k)
  {}

  lemma {:induction false} SharedSegmentKeeps(
    plan: Plan, leases: seq<Lease>, pinned: Option<string>, traces: seq<seq<Event>>)
    requires BookingPlan(plan.nodes) && !SegmentEnd(plan.nodes, |plan.nodes| - 2)
    requires Setting(leases, pinned, plan, traces) && ReportsPreSubmit(LastReport(leases, pinned, traces))
    ensures Entries(History(traces[..|leases| - 1]) + LastReport(leases, pinned, traces).log, SUBMIT) == 0
  {
    hide ExecuteBooking, Entries, Honest, Runnable, SegmentEnd, StartedFirst, HasEvidence, LeaseCut, Kept;
    hide UniqueIds, NoReturnTo, Operation, OnePlan, History, ReliableJournal, Pinned;
    var n := |leases| - 1;
    OperationLength(leases, pinned, traces);
    var before := History(traces[..n]);
    var k := |plan.nodes| - 2;
    OperationFront(leases, pinned, plan, traces);
    RecoveryFreeNoReturn(plan.nodes, k);
    HistoryOnce(leases[..n], pinned, plan, traces[..n], k);
    EntriesConcat(before, LastReport(leases, pinned, traces).log, SUBMIT);
    hide BookingPlan;
    LastKeeps(plan, leases[n], pinned, before);
  }

  /** The last lease reports failed_pre_submit only if nobody entered submit. */
  lemma {:induction false} LastKeeps(plan: Plan, last: Lease, pinned: Option<string>, before: seq<Event>)
    requires BookingPlan(plan.nodes) && !SegmentEnd(plan.nodes, |plan.nodes| - 2)
    requires Runnable(last.flow) && ReliableJournal(last.env) && Honest(last.env.fold)
    requires Pinned(last.flow, pinned) ==> last.flow.plan == plan
    requires StartedFirst(before, SUBMIT)
    ensures var b := ExecuteBooking(last.flow, last.env, last.initial, pinned, Kept(before));
      ReportsPreSubmit(b) ==> Entries(before, SUBMIT) == 0 && Entries(b.log, SUBMIT) == 0
  {
    hide ExecuteBooking, Entries, Honest, Runnable, SegmentEnd, StartedFirst, HasEvidence, Kept;
    if Pinned(last.flow, pinned) {
      if Entries(before, SUBMIT) > 0 {
        EnteredHasEvidence(before, SUBMIT);
        EvidenceReconciles(last.flow, last.env, last.initial, pinned, Kept(before));
      }
      PreSubmitMeansNotEntered(last.flow, last.env, last.initial, pinned, Kept(before));
    } else {
      SkewNeverPreSubmit(last, pinned, Kept(before));
    }
  }

  lemma {:induction false} SkewNeverPreSubmit(lease: Lease, pinned: Option<string>, journal: seq<Row>)
    requires Runnable(lease.flow) && !Pinned(lease.flow, pinned)
    ensures !ReportsPreSubmit(ExecuteBooking(lease.flow, lease.env, lease.initial, pinned, journal))
  {
    hide RunFlow, ProbeGate, Runnable, EffectStarted;
  }

  // ------------------------------------------------------------ the counterexample

  const HASH := "pinned"

  /** A flow of this plan: every step registered, nothing encoded. */
  function PlainFlow(plan: Plan, initialKeys: seq<string>): Flow {
    HostileFlow(plan, initialKeys, "", "").(planHash := HASH)
  }

  function PlainEnv(nodes: seq<Node>): BookingEnv
    requires |nodes| > 0
  {
    BookingEnv(HostileEnv(nodes, 0, 0), true, true, None, (stepId: string, input: State) => Died)
  }

  /** The browser cannot be started. */
  function BrokenEnv(nodes: seq<Node>): BookingEnv
    requires |nodes| > 0
  {
    PlainEnv(nodes).(fold := HostileEnv(nodes, 0, 0).(session := (n: nat, segment: string) => Some(Untagged)))
  }

  function Nulls(keys: seq<string>): State {
    map key | key in Elements(keys) :: Null
  }

  ghost predicate ValidBooking(plan: Plan, initialKeys: seq<string>) {
    && BookingPlan(plan.nodes)
    && UniqueIds(plan.nodes) && Contiguous(plan.nodes) && RecoveriesValid(plan.nodes)
    && NeedsMet(plan.nodes, initialKeys)
  }

  lemma {:induction false} PlainSetup(plan: Plan, initialKeys: seq<string>)
    requires ValidBooking(plan, initialKeys)
    ensures HostileSetup(PlainFlow(plan, initialKeys), PlainEnv(plan.nodes).fold, 0, 0)
    ensures ReliableJournal(PlainEnv(plan.nodes)) && Honest(PlainEnv(plan.nodes).fold)
    ensures ReliableJournal(BrokenEnv(plan.nodes)) && Honest(BrokenEnv(plan.nodes).fold)
  {}

  lemma {:induction false} EmptySpecDelta(flow: Flow, provided: set<string>, state: State)
    requires flow.spec == map[]
    ensures EncodeDelta(flow, provided, state) == Some(map[])
    ensures DecodeDelta(flow, map[]) == Some(map[])
  {}

  /** The first lease gets through submit; its acts up to the `completed` row. */
  lemma {:induction false} ThroughSubmit(plan: Plan, initialKeys: seq<string>) returns (trace: seq<Event>)
    requires ValidBooking(plan, initialKeys)
    ensures Runnable(PlainFlow(plan, initialKeys))
    ensures trace <= RunFlow(PlainFlow(plan, initialKeys), PlainEnv(plan.nodes).fold, Nulls(initialKeys), true,
            []).final.log
    ensures Entries(trace, SUBMIT) > 0
    ensures |trace| > 0 && var e := trace[|trace| - 1];
      && e.Append? && e.kept && e.row.status == Completed && e.row.stepId == SUBMIT
      && (SegmentEnd(plan.nodes, |plan.nodes| - 2) ==> e.row.stateDelta == Some(map[]))
  {
    PlainSetup(plan, initialKeys);
    var flow, env, initial := PlainFlow(plan, initialKeys), PlainEnv(plan.nodes).fold, Nulls(initialKeys);
    var nodes := plan.nodes;
    var k := |nodes| - 2;
    FreshSteady(flow, env, initial);
    hide Drive, RunNode, Entries, Steady, HostileSetup, Runnable, ValidBooking, Budgets, EncodeDelta, SegmentEnd;
    hide Conclude, RunFlow;
    var f := Walk(flow, env, Fresh(flow, initial), k, 0, 0, k);
    var g := f;
    if f.open.None? {
      DriveClosed(flow, env, f);
      EnterSteady(flow, f);
      g := Enter(f, nodes[k].segment);
    }
    trace := SubmitNode(flow, env, g, k);
    LeaseCases(flow, env, initial, true, []);
    ConcludeKeeps(env, Drive(flow, env, g));
  }

  lemma {:induction false} SubmitNode(flow: Flow, env: Env, g: Fold, k: nat) returns (trace: seq<Event>)
    requires HostileSetup(flow, env, 0, 0) && Steady(flow, g) && g.open.Some? && g.index == k
    requires k < |flow.Nodes()| && flow.Nodes()[k].stepId == SUBMIT && flow.spec == map[]
    ensures Runnable(flow)
    ensures trace <= Drive(flow, env, g).final.log
    ensures Entries(trace, SUBMIT) > 0
    ensures |trace| > 0 && var e := trace[|trace| - 1];
      && e.Append? && e.kept && e.row.status == Completed && e.row.stepId == SUBMIT
      && (SegmentEnd(flow.Nodes(), k) ==> e.row.stateDelta == Some(map[]))
  {
    hide Drive, RunNode, Entries, Steady, EncodeDelta, SegmentEnd, MoveTo, Reaches, Call, StartedEvent;
    hide ExecutionBound, NeedsMet, Contiguous;
    WalkAdvances(flow, env, g, 0, 0);
    DriveAdvances(flow, env, g);
    StepAdvance(flow, env, g);
    StepLog(flow, env, g);
    NodeEntriesExact(flow, env, g, SUBMIT);
    var s := RunNode(flow, env, g);
    EmptySpecDelta(flow, s.next.provided, s.next.state);
    trace := s.next.log;
    MoveKeeps(flow.Nodes(), s.next, k + 1);
    MovePlaced(flow.Nodes(), s.next, k + 1);
    DriveGrows(flow, env, MoveTo(flow.Nodes(), s.next, k + 1));
  }

  /** The second lease resumes behind submit and cannot open its session. */
  lemma {:induction false} BrokenResume(plan: Plan, initialKeys: seq<string>, journal: seq<Row>)
    requires ValidBooking(plan, initialKeys) && SegmentEnd(plan.nodes, |plan.nodes| - 2)
    requires |journal| > 0 && var row := journal[|journal| - 1];
      row.status == Completed && row.stepId == SUBMIT && row.stateDelta == Some(map[])
    ensures Runnable(PlainFlow(plan, initialKeys))
    ensures ReportsPreSubmit(ExecuteBooking(PlainFlow(plan, initialKeys), BrokenEnv(plan.nodes), Nulls(initialKeys),
            Some(HASH), journal))
  {
    PlainSetup(plan, initialKeys);
    var flow, env, initial := PlainFlow(plan, initialKeys), BrokenEnv(plan.nodes).fold, Nulls(initialKeys);
    SubmitNotPending(plan.nodes, journal, 0);
    BrokenRun(flow, env, initial, journal);
    hide RunFlow, Runnable, ValidBooking, HostileSetup, PendingFrom, ProbeGate, FoldVerdict, HostileEnv;
  }

  lemma {:induction false} BrokenRun(flow: Flow, env: Env, initial: State, journal: seq<Row>)
    requires Runnable(flow) && BookingPlan(flow.Nodes()) && flow.spec == map[] && env.read
    requires forall segment :: env.session(0, segment) == Some(Untagged)
    requires SegmentEnd(flow.Nodes(), |flow.Nodes()| - 2)
    requires |journal| > 0 && var row := journal[|journal| - 1];
      row.status == Completed && row.stepId == SUBMIT && row.stateDelta == Some(map[])
    ensures var v := FoldVerdict(RunFlow(flow, env, initial, true, journal));
      v.Failing? && v.failure.status == FailedPreSubmit
  {
    ResumedBehind(flow, env, initial, journal, |flow.Nodes()| - 2);
    RunnableParts(flow);
    hide Drive, RunFlow, Runnable, BookingPlan, SegmentEnd, ReplayGuard, StartingFold, Conclude, LastStarted;
    hide RecoveriesValid, UniqueIds, FoldVerdict, Visible;
    LeaseCases(flow, env, initial, true, journal);
    var f := StartingFold(flow, env, initial, journal);
    SessionBreaks(flow, env, f, Untagged);
    assert RunFlow(flow, env, initial, true, journal)
        == FailedWith(f.(sessions := f.sessions + 1), SessionFailed(flow.Nodes()[f.index].segment, Untagged));
    SessionVerdict(f.(sessions := f.sessions + 1), flow.Nodes()[f.index].segment);
  }

  lemma {:induction false} SessionVerdict(f: Fold, segment: string)
    requires LastStarted(f.log).None?
    ensures var v := FoldVerdict(FailedWith(f, SessionFailed(segment, Untagged)));
      v.Failing? && v.failure.status == FailedPreSubmit
  {}

  /** A driver that starts with a session it cannot open. */
  lemma {:induction false} SessionBreaks(flow: Flow, env: Env, f: Fold, error: StepError)
    requires Runnable(flow) && f.index < |flow.Nodes()| && f.open.None? && f.succeeded == []
    requires env.session(f.sessions, flow.Nodes()[f.index].segment) == Some(error)
    ensures Conclude(env, Drive(flow, env, f))
         == FailedWith(f.(sessions := f.sessions + 1), SessionFailed(flow.Nodes()[f.index].segment, error))
  {
    DriveClosed(flow, env, f);
    hide Drive, Runnable;
  }

  lemma {:induction false} SubmitNotPending(nodes: seq<Node>, journal: seq<Row>, i: nat)
    requires BookingPlan(nodes) && UniqueIds(nodes) && i <= |nodes|
    requires |journal| > 0 && journal[|journal| - 1].status == Completed && journal[|journal| - 1].stepId == SUBMIT
    ensures PendingFrom(nodes, journal, i).None?
    decreases |nodes| - i
  {
    assert HasRow(journal, SUBMIT, Completed);
    hide HasRow, UniqueIds, RecoveryFree;
    if i < |nodes| {
      SubmitNotPending(nodes, journal, i + 1);
    }
  }

  lemma {:induction false} ResumedBehind(flow: Flow, env: Env, initial: State, journal: seq<Row>, k: nat)
    requires Runnable(flow) && BookingPlan(flow.Nodes()) && k == |flow.Nodes()| - 2 && flow.spec == map[]
    requires SegmentEnd(flow.Nodes(), k) && env.read
    requires |journal| > 0 && var row := journal[|journal| - 1];
      row.status == Completed && row.stepId == SUBMIT && row.stateDelta == Some(map[])
    ensures var f := StartingFold(flow, env, initial, journal);
      && f.index == k + 1 && f.open.None? && f.succeeded == [] && f.sessions == 0 && LastStarted(f.log).None?
      && Visible(env, true, journal) == journal
      && ReplayGuard(flow.Nodes(), journal, k + 1).None?
  {
    hide SeedTokens, SeedAttempts, DecodeDelta, EncodeDelta, Skip, Budgets, HasEvidence, LastStarted, RecoveryFree;
    hide Contiguous, RecoveriesValid;
    IndexOfUnique(flow.Nodes(), k);
    EmptySpecDelta(flow, {}, map[]);
    HydrateMarks(flow, env, Fresh(flow, initial), journal);
    HydrateKeeps(flow, env, Fresh(flow, initial), journal);
    var g := Fresh(flow, initial).(tokens := SeedTokens(journal), attempts := SeedAttempts(journal));
    assert LastBoundary(flow.Nodes(), journal) == Some(journal[|journal| - 1]);
    hide IndexOf, LastBoundary, Runnable, SegmentEnd;
    var decoded: State := map[];
    SkipKeeps(flow, env, g.(state := g.state + decoded, provided := g.provided + decoded.Keys, index := k + 1), k + 1);
  }

  lemma {:induction false} KeptLast(log: seq<Event>)
    requires |log| > 0 && log[|log| - 1].Append? && log[|log| - 1].kept
    ensures |Kept(log)| > 0 && Kept(log)[|Kept(log)| - 1] == log[|log| - 1].row
  {}

  /** Submit ends a segment: two leases, a crash in between, and a booking that was
      submitted is reported as failed_pre_submit. */
  lemma {:induction false} SubmittedYetPreSubmit(plan: Plan, initialKeys: seq<string>)
    requires ValidBooking(plan, initialKeys) && SegmentEnd(plan.nodes, |plan.nodes| - 2)
    ensures !BoundaryKept(plan)
  {
    hide ExecuteBooking, RunFlow, Honest, Runnable, Entries, SegmentEnd, HostileSetup, PlainFlow, ValidBooking;
    hide Kept, StartedFirst, BrokenEnv, PlainEnv, OnePlan, ReliableJournal, Operation, BoundaryKept, Nulls;
    hide BookingPlan;
    assert |plan.nodes| > 0 by { NonEmptyBooking(plan, initialKeys); }
    PlainSetup(plan, initialKeys);
    var trace := ThroughSubmit(plan, initialKeys);
    var flow := PlainFlow(plan, initialKeys);
    var first := Lease(flow, PlainEnv(plan.nodes), Nulls(initialKeys));
    var second := Lease(flow, BrokenEnv(plan.nodes), Nulls(initialKeys));
    KeptLast(trace);
    FirstLease(plan, initialKeys, trace);
    BrokenResume(plan, initialKeys, Kept(trace));
    PlainHash(plan, initialKeys, [first, second]);
    assert LeaseCut(second, Some(HASH), trace, []);
    TwoLeases(first, second, HASH, trace, []);
    Refutes(plan, first, second, trace);
  }

  lemma {:induction false} NonEmptyBooking(plan: Plan, initialKeys: seq<string>)
    requires ValidBooking(plan, initialKeys)
    ensures |plan.nodes| >= 2
  {}

  lemma {:induction false} Refutes(plan: Plan, first: Lease, second: Lease, trace: seq<Event>)
    requires Operation([first, second], Some(HASH), [trace, []]) && OnePlan([first, second], Some(HASH), plan)
    requires ReliableJournal(first.env) && Honest(first.env.fold) && ReliableJournal(second.env)
    requires Honest(second.env.fold)
    requires Runnable(second.flow) && Entries(trace, SUBMIT) > 0
    requires ReportsPreSubmit(ExecuteBooking(second.flow, second.env, second.initial, Some(HASH), Kept(trace)))
    ensures !BoundaryKept(plan)
  {
    hide ExecuteBooking, Honest, Runnable, Entries, Kept, OnePlan, ReliableJournal, Operation;
    var leases, traces := [first, second], [trace, []];
    assert Setting(leases, Some(HASH), plan, traces);
    Histories(trace);
    var report := LastReport(leases, Some(HASH), traces);
    assert report == ExecuteBooking(second.flow, second.env, second.initial, Some(HASH), Kept(trace));
    EntriesConcat(trace, report.log, SUBMIT);
    assert Entries(History(traces[..|leases| - 1]) + report.log, SUBMIT) > 0;
  }

  lemma {:induction false} PlainHash(plan: Plan, initialKeys: seq<string>, leases: seq<Lease>)
    requires forall j :: 0 <= j < |leases| ==> leases[j].flow == PlainFlow(plan, initialKeys)
    ensures OnePlan(leases, Some(HASH), plan)
  {}

  lemma {:induction false} TwoLeases(first: Lease, second: Lease, pinned: string, t0: seq<Event>, t1: seq<Event>)
    requires Runnable(first.flow) && Runnable(second.flow)
    requires LeaseCut(first, Some(pinned), [], t0) && LeaseCut(second, Some(pinned), t0, t1)
    ensures Operation([first, second], Some(pinned), [t0, t1])
  {
    hide LeaseCut, Runnable;
    var leases, traces := [first, second], [t0, t1];
    assert traces[..0] == [] && traces[..1] == [t0] && [t0][..0] == [];
    assert History([t0]) == t0;
    forall j | 0 <= j < |leases|
      ensures Runnable(leases[j].flow) && LeaseCut(leases[j], Some(pinned), History(traces[..j]), traces[j])
    {
      if j == 0 {
        assert History(traces[..j]) == [];
      } else {
        assert History(traces[..j]) == t0;
      }
    }
  }

  lemma {:induction false} Histories(trace: seq<Event>)
    ensures var traces := [trace, []]; History(traces[..0]) == [] && History(traces[..1]) == trace
  {
    var traces: seq<seq<Event>> := [trace, []];
    assert traces[..1] == [trace] && [trace][..0] == [];
  }

  lemma {:induction false} FirstLease(plan: Plan, initialKeys: seq<string>, trace: seq<Event>)
    requires ValidBooking(plan, initialKeys) && Runnable(PlainFlow(plan, initialKeys))
    requires trace <= RunFlow(PlainFlow(plan, initialKeys), PlainEnv(plan.nodes).fold, Nulls(initialKeys), true,
             []).final.log
    ensures LeaseCut(Lease(PlainFlow(plan, initialKeys), PlainEnv(plan.nodes), Nulls(initialKeys)), Some(HASH), [],
            trace)
  {
    NothingPending(plan.nodes, 0);
    hide RunFlow, Runnable, ValidBooking;
  }

  /** The failure boundary holds over every operation of a booking plan exactly when
      submit and extract-confirmation share a segment. */
  lemma {:induction false} BoundaryExactly(plan: Plan, initialKeys: seq<string>)
    requires ValidBooking(plan, initialKeys)
    ensures BoundaryKept(plan) <==> plan.nodes[|plan.nodes| - 2].segment == plan.nodes[|plan.nodes| - 1].segment
  {
    if SegmentEnd(plan.nodes, |plan.nodes| - 2) {
      SubmittedYetPreSubmit(plan, initialKeys);
    } else {
      hide ExecuteBooking, ValidBooking, Runnable, OnePlan, ReliableJournal, Honest, LeaseCut, Entries;
      forall leases, pinned, traces
        | Setting(leases, pinned, plan, traces) && ReportsPreSubmit(LastReport(leases, pinned, traces))
        ensures Entries(History(traces[..|leases| - 1]) + LastReport(leases, pinned, traces).log, SUBMIT) == 0
      {
        SharedSegmentKeeps(plan, leases, pinned, traces);
      }
    }
  }
}
