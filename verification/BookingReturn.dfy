/** At most once over whole operations, exactly: an effectful-once step is entered at most
    once in every operation of one plan exactly when no recovery edge of the plan returns
    to it or over it (src/flow/plan.ts:164-182, src/server/flow-runner.ts:566-609). */
module BookingReturn {
  import opened Basics
  import opened JsonValues
  import opened FlowTypes
  import opened PlanShape
  import opened FlowFold
  import opened FlowLease
  import opened FlowOnce
  import opened FlowReturn
  import opened BookingGate
  import opened BookingOnce

  /** No operation of this plan, pinned or not, of whatever leases, cut wherever, enters
      node `k` twice. */
  ghost predicate OncePerOperation(plan: Plan, pinned: Option<string>, k: nat)
    requires k < |plan.nodes|
  {
    forall leases, traces :: OnePlanOperation(leases, pinned, plan, traces) ==>
        Entries(History(traces), plan.nodes[k].stepId) <= 1
  }

  ghost predicate OnePlanOperation(leases: seq<Lease>, pinned: Option<string>, plan: Plan, traces: seq<seq<Event>>) {
    && Operation(leases, pinned, traces) && OnePlan(leases, pinned, plan)
    && forall j :: 0 <= j < |leases| ==> ReliableJournal(leases[j].env)
  }

  function GetPin(pinned: Option<string>): string {
    if pinned.Some? then pinned.value else ""
  }

  /** One lease, nothing journaled yet, in a world that sends node `i` back once. */
  function ReturningLease(plan: Plan, initialKeys: seq<string>, pinned: Option<string>, i: nat, to: string): Lease
    requires i < |plan.nodes|
  {
    var flow := HostileFlow(plan, initialKeys, plan.nodes[i].stepId, to).(planHash := GetPin(pinned));
    var env := BookingEnv(HostileEnv(plan.nodes, i, i + 1), true, true, None, (stepId: string, input: State) => Died);
    Lease(flow, env, map key | key in Elements(initialKeys) :: Null)
  }

  /** It reaches the fold and enters the step twice. */
  lemma {:induction false} ReturningTwice(
    plan: Plan, initialKeys: seq<string>, pinned: Option<string>, i: nat, to: string, k: nat)
    requires UniqueIds(plan.nodes) && Contiguous(plan.nodes) && RecoveriesValid(plan.nodes)
    requires NeedsMet(plan.nodes, initialKeys)
    requires i < |plan.nodes| && Declares(plan.nodes[i], to) && IndexOf(plan.nodes, to).Some?
    requires IndexOf(plan.nodes, to).value <= k <= i
    ensures var lease := ReturningLease(plan, initialKeys, pinned, i, to);
      && Runnable(lease.flow) && ReliableJournal(lease.env) && lease.flow.plan == plan
      && Entries(ExecuteBooking(lease.flow, lease.env, lease.initial, pinned, []).log, plan.nodes[k].stepId) >= 2
  {
    hide Drive, NeedsMet, Contiguous, RecoveriesValid, UniqueIds, Conclude, Budgets, RunFlow, Entries;
    var lease := ReturningLease(plan, initialKeys, pinned, i, to);
    var flow, env, initial := lease.flow, lease.env.fold, lease.initial;
    ReturnRun(flow, env, initial, i, to, k);
    LeaseCases(flow, env, initial, true, []);
    ConcludeQuiet(env, Drive(flow, env, Fresh(flow, initial)), plan.nodes[k].stepId);
    NothingPending(plan.nodes, 0);
  }

  /** Exactly: both the gate and the fold keep the step at one entry, and nothing else
      does when an edge returns over it. */
  lemma {:induction false} OperationOnceExactly(plan: Plan, initialKeys: seq<string>, pinned: Option<string>, k: nat)
    requires k < |plan.nodes| && plan.nodes[k].idempotency == EffectfulOnce
    requires UniqueIds(plan.nodes) && Contiguous(plan.nodes) && RecoveriesValid(plan.nodes)
    requires NeedsMet(plan.nodes, initialKeys)
    ensures OncePerOperation(plan, pinned, k) <==> NoReturnTo(plan.nodes, k)
  {
    var nodes := plan.nodes;
    if NoReturnTo(nodes, k) {
      hide Operation, OnePlan, ReliableJournal, Entries;
      forall leases, traces | OnePlanOperation(leases, pinned, plan, traces)
        ensures Entries(History(traces), nodes[k].stepId) <= 1
      {
        EffectfulOnceOverLeases(leases, pinned, plan, traces, k);
      }
    } else {
      var i, to :| 0 <= i < |nodes| && Declares(nodes[i], to) && IndexOf(nodes, to).Some?
          && IndexOf(nodes, to).value <= k <= i;
      ReturningBreaks(plan, initialKeys, pinned, i, to, k);
    }
  }

  lemma {:induction false} ReturningBreaks(
    plan: Plan, initialKeys: seq<string>, pinned: Option<string>, i: nat, to: string, k: nat)
    requires UniqueIds(plan.nodes) && Contiguous(plan.nodes) && RecoveriesValid(plan.nodes)
    requires NeedsMet(plan.nodes, initialKeys)
    requires i < |plan.nodes| && Declares(plan.nodes[i], to) && IndexOf(plan.nodes, to).Some?
    requires IndexOf(plan.nodes, to).value <= k <= i
    ensures !OncePerOperation(plan, pinned, k)
  {
    hide ExecuteBooking, Entries, Runnable, ReliableJournal, UniqueIds, Contiguous, RecoveriesValid, NeedsMet;
    hide ReturningLease, OnePlanOperation, History, IndexOf, Declares;
    var lease := ReturningLease(plan, initialKeys, pinned, i, to);
    ReturningTwice(plan, initialKeys, pinned, i, to, k);
    var trace := ExecuteBooking(lease.flow, lease.env, lease.initial, pinned, []).log;
    LoneLease(lease, pinned, plan, trace);
  }

  /** A single whole lease is an operation. */
  lemma {:induction false} LoneLease(lease: Lease, pinned: Option<string>, plan: Plan, trace: seq<Event>)
    requires Runnable(lease.flow) && ReliableJournal(lease.env) && lease.flow.plan == plan
    requires trace == ExecuteBooking(lease.flow, lease.env, lease.initial, pinned, []).log
    ensures OnePlanOperation([lease], pinned, plan, [trace]) && History([trace]) == trace
  {
    hide ExecuteBooking, Runnable, ReliableJournal;
    var leases, traces := [lease], [trace];
    assert traces[..0] == [] && History([]) == [] && Kept([]) == [];
    assert LeaseCut(leases[0], pinned, History(traces[..0]), traces[0]);
    assert History(traces) == [] + trace == trace;
  }
}
