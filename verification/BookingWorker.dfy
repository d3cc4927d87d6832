/** The lease driver of a booking job (src/async/worker.ts:237-324): claim the job, make
    sure the slots are fresh, run the booking, and record how it ended. */
module BookingWorker {
  import opened Basics
  import opened JsonValues
  import opened FlowTypes
  import opened FlowFold
  import opened FlowLease
  import opened BookingGate
  import opened BookingRunner
  import Store = ReadyIndex

  /** The job status a verdict leads to. */
  function StatusOf(verdict: Verdict): Store.Status {
    match verdict
    case Booked(_) => Store.Succeeded
    case Requeued => Store.Queued
    case Failing(failure) =>
      if failure.status == FailedPreSubmit then Store.FailedPreSubmit else Store.ReconcileRequired
  }

  function StoreStatus(status: FailureStatus): Store.FailureStatus {
    if status == FailedPreSubmit then Store.BeforeSubmit else Store.NeedsReconcile
  }

  /** The record of a job that ran: one attempt more, and what its verdict says. */
  ghost predicate Recorded(was: Store.Job, job: Store.Job, verdict: Verdict, leasedUntil: int) {
    && job.kind == was.kind && job.createdAt == was.createdAt && job.attempts == was.attempts + 1
    && match verdict
       case Booked(_) => job.status == Store.Succeeded && !job.retryable && job.leasedUntil == Some(leasedUntil)
       case Requeued => job.status == Store.Queued && job.retryable == was.retryable && job.leasedUntil == None
       case Failing(failure) =>
         && job.status == (if failure.status == FailedPreSubmit then Store.FailedPreSubmit else Store.ReconcileRequired)
         && job.retryable == failure.retryable && job.leasedUntil == Some(leasedUntil)
  }

  /** A job that needs reconciliation is recorded as retryable only if a step, or a session
      that did not open, stated that failure itself. */
  lemma {:induction false} ReconcileNotRetryable(
    flow: Flow, env: BookingEnv, initial: State, pinned: Option<string>, journal: seq<Row>,
    was: Store.Job, job: Store.Job, leasedUntil: int)
    requires Runnable(flow)
    requires Recorded(was, job, ExecuteBooking(flow, env, initial, pinned, journal).verdict, leasedUntil)
    requires job.status == Store.ReconcileRequired && job.retryable
    ensures var r := RunFlow(flow, env.fold, initial, true, journal);
      r.FailedWith? && (r.fault.StepFailed? || r.fault.SessionFailed?) && r.fault.error.Execution?
  {
    hide RunFlow, Runnable, FaultToFailure, PendingFrom, EffectStarted, MergedDeltas, MaxAttempt, LastStarted;
    var r := RunFlow(flow, env.fold, initial, true, journal);
    if r.FailedWith? {
      FailureRule(r.fault, LastStarted(r.final.log));
    }
  }

  /** `slotsReady` is false when the slots were stale and their refresh timed out. */
  method ExecuteBookingJob(store: Store.RedisStore, id: string, flow: Flow, env: BookingEnv, initial: State,
                           pinned: Option<string>, journal: seq<Row>, slotsReady: bool, claimed: bool, now: int,
                               leaseMs: nat)
    returns (log: seq<Event>, ran: bool)
    requires store.Valid() && now >= store.clock && Runnable(flow)
    modifies store
    ensures store.Valid()
    ensures forall other :: other != id ==> Get(store.jobs, other) == Get(old(store.jobs), other)
    ensures ran <==> claimed && slotsReady && id in old(store.jobs) && Store.Claimable(old(store.jobs)[id], now)
    ensures ran ==> log == ExecuteBooking(flow, env, initial, pinned, journal).log
    ensures ran ==> id in store.jobs
    ensures ran ==> store.jobs[id].status == StatusOf(ExecuteBooking(flow, env, initial, pinned, journal).verdict)
    ensures ran ==> Recorded(old(store.jobs)[id], store.jobs[id],
                             ExecuteBooking(flow, env, initial, pinned, journal).verdict, now + leaseMs)
    ensures !ran ==> log == []
    ensures !ran && !(claimed && id in old(store.jobs) && Store.Claimable(old(store.jobs)[id], now)) ==>
              store.jobs == old(store.jobs)
    ensures !ran && id in old(store.jobs) && store.jobs != old(store.jobs) ==>
              id in store.jobs && store.jobs[id] ==
              Store.Claimed(old(store.jobs)[id], now + leaseMs).(status := Store.Queued, leasedUntil := None)
    ensures ran && store.jobs[id].status == Store.Queued <==>
              ran && !Pinned(flow, pinned) && !EffectStarted(flow.Nodes(), if env.skewRead then journal else [])
    ensures ran && store.jobs[id].status == Store.Queued ==> log == []
    ensures !ran && claimed && id in old(store.jobs) && Store.Claimable(old(store.jobs)[id], now) ==>
              id in store.jobs && store.jobs[id].status == Store.Queued
  {
    hide ExecuteBooking, Runnable, Pinned, EffectStarted;
    RequeuedDidNothing(flow, env, initial, pinned, journal);
    var owned := store.MarkJobRunning(id, now + leaseMs, claimed, now);
    if !owned {
      return [], false;
    }
    if !slotsReady {
      var _ := store.RequeueJob(id, now);
      return [], false;
    }
    var run := new BookingRun(flow, env, initial);
    var verdict := run.Execute(pinned, journal);
    log, ran := run.log, true;
    match verdict {
      case Booked(_) =>
        var _ := store.CompleteJob(id, now);
      case Requeued =>
        var _ := store.RequeueJob(id, now);
      case Failing(failure) =>
        var _ := store.FailJob(id, StoreStatus(failure.status), failure.retryable, now);
    }
  }

  /** A job goes back to the queue only from a lease that did nothing at all, and only
      if no effectful-once step of the plan is known to have started. */
  lemma {:induction false} RequeuedDidNothing(
    flow: Flow, env: BookingEnv, initial: State, pinned: Option<string>, journal: seq<Row>)
    requires Runnable(flow)
    ensures ExecuteBooking(flow, env, initial, pinned, journal).verdict.Requeued? <==>
              !Pinned(flow, pinned) && !EffectStarted(flow.Nodes(), if env.skewRead then journal else [])
    ensures ExecuteBooking(flow, env, initial, pinned, journal).verdict.Requeued? ==>
              ExecuteBooking(flow, env, initial, pinned, journal).log == []
  {
    hide RunFlow, EffectStarted, Pinned, FaultToFailure, MergedDeltas, MaxAttempt, Inputs, ProbeActs, Runnable;
  }
}
