/** The heartbeat pass over ordered candidates (src/server/handler.ts:1571-1756): stale
    candidates are enqueued until the job limit is spent. */
module HeartbeatRun {
  import opened Basics
  import opened HeartbeatOrder
  import opened HeartbeatFairness

  datatype JobStatus = Queued | Leased | Running | Succeeded | FailedPreSubmit | ReconcileRequired | Cancelled

  /** What the store answers about one candidate: whether its snapshot is fresh; the
      record an enqueue returns, whether it already existed and whether its failure is
      retryable; the status after a requeue, if the store can requeue it. */
  datatype Reply = Reply(upToDate: bool, deduped: bool, status: JobStatus, retryable: bool, requeue: Option<JobStatus>)

  datatype Action = WasQueued | WasDeduped | WasRequeued

  datatype Result =
    | Enqueued(action: Action, status: JobStatus)
    | SkippedFresh
    | SkippedLimit
    | SkippedRequeueFailed(status: JobStatus)
    | SkippedTerminal(action: Action, status: JobStatus)

  predicate RetryableFailure(r: Reply) {
    (r.status == FailedPreSubmit || r.status == ReconcileRequired) && r.retryable
  }

  predicate Runnable(status: JobStatus) {
    status == Queued || status == Leased || status == Running
  }

  /** The candidate spends a unit of the limit: a job was created or requeued for it. */
  predicate Submits(result: Result) {
    (result.Enqueued? || result.SkippedTerminal?) && result.action != WasDeduped
  }

  function SubmittedBy(results: seq<Result>): nat {
    if |results| == 0 then 0
    else SubmittedBy(results[..|results| - 1]) + if Submits(results[|results| - 1]) then 1 else 0
  }

  /** What the store's answer makes of a candidate for which the limit leaves room: a failed
      retryable job, or a succeeded job met again, is put back into the queue. */
  ghost predicate Settles(r: Reply, result: Result) {
    var failed := r.status in {FailedPreSubmit, ReconcileRequired};
    var again := (failed && r.retryable) || (r.deduped && r.status == Succeeded);
    && (result.Enqueued? || result.SkippedRequeueFailed? || result.SkippedTerminal?)
    && (result.SkippedRequeueFailed? <==> again && r.requeue.None?)
    && (result.SkippedRequeueFailed? ==> result.status == r.status)
    && (!result.SkippedRequeueFailed? ==>
          (&& result.action == (if again then WasRequeued else if r.deduped then WasDeduped else WasQueued)
           && result.status == (if again then r.requeue.value else r.status)
           && (result.Enqueued? <==> result.status in {Queued, Leased, Running})))
  }

  method Submit(r: Reply) returns (result: Result, spent: bool)
    ensures Settles(r, result) && (spent <==> Submits(result))
  {
    var status := r.status;
    var action := if r.deduped then WasDeduped else WasQueued;
    if RetryableFailure(r) {
      if r.requeue.None? {
        return SkippedRequeueFailed(status), false;
      }
      status, action := r.requeue.value, WasRequeued;
    }
    if action == WasDeduped && status == Succeeded {
      if r.requeue.None? {
        return SkippedRequeueFailed(status), false;
      }
      status, action := r.requeue.value, WasRequeued;
    }
    return if Runnable(status) then Enqueued(action, status) else SkippedTerminal(action, status), action != WasDeduped;
  }

  /** Candidate `k` was treated as the limit and its freshness demand. */
  ghost predicate Treated(replies: seq<Reply>, maxJobs: nat, results: seq<Result>, k: nat)
    requires k < |results| <= |replies|
  {
    && (results[k].SkippedFresh? <==> replies[k].upToDate)
    && (results[k].SkippedLimit? <==> !replies[k].upToDate && SubmittedBy(results[..k]) >= maxJobs)
    && (!replies[k].upToDate && SubmittedBy(results[..k]) < maxJobs ==> Settles(replies[k], results[k]))
  }

  /** One result per candidate, in order; the limit is never exceeded. */
  method RunAvailabilityHeartbeat(replies: seq<Reply>, maxJobs: nat) returns (results: seq<Result>, submitted: nat)
    ensures |results| == |replies| && submitted == SubmittedBy(results) <= maxJobs
    ensures forall k :: 0 <= k < |results| ==> Treated(replies, maxJobs, results, k)
  {
    results, submitted := [], 0;
    for i := 0 to |replies|
      invariant |results| == i && submitted == SubmittedBy(results) <= maxJobs
      invariant forall k :: 0 <= k < i ==> Treated(replies, maxJobs, results, k)
    {
      var result, spent;
      if replies[i].upToDate {
        result, spent := SkippedFresh, false;
      } else if submitted >= maxJobs {
        result, spent := SkippedLimit, false;
      } else {
        result, spent := Submit(replies[i]);
      }
      if spent {
        submitted := submitted + 1;
      }
      ghost var before := results;
      results := results + [result];
      assert results[..i] == before;
      forall k | 0 <= k < i + 1 ensures Treated(replies, maxJobs, results, k) {
        assert results[..k] == before[..k];
        if k < i {
          assert Treated(replies, maxJobs, before, k);
        }
      }
    }
  }

  lemma {:induction false} SubmittedAtMost(results: seq<Result>)
    ensures SubmittedBy(results) <= |results|
  {
    if |results| > 0 {
      SubmittedAtMost(results[..|results| - 1]);
    }
  }

  /** With room for at least as many jobs as there are demand groups, no group's first
      candidate is turned away for the limit. */
  lemma {:induction false} FirstCandidatesGetIn(groups: seq<Group>, picks: seq<nat>, g: nat,
                                                replies: seq<Reply>, maxJobs: nat,
                                                    results: seq<Result>) returns (k: nat)
    requires Greedy(groups, picks) && Exhausted(groups, picks) && g < |groups| <= maxJobs
    requires forall h :: 0 <= h < |groups| ==> |groups[h].candidates| > 0
    requires |replies| == |results| == |picks|
    requires forall j :: 0 <= j < |results| ==> Treated(replies, maxJobs, results, j)
    ensures k < |results| && Deal(groups, picks)[k] == groups[g].candidates[0] && !results[k].SkippedLimit?
  {
    hide Greedy, Exhausted, Deal;
    k := FirstRoundCovers(groups, picks, g);
    SubmittedAtMost(results[..k]);
    assert Treated(replies, maxJobs, results, k);
  }
}
