/** The Redis ready set over job records (src/async/redis-store.ts:113-325) against the
    plain scan of the in-memory store (src/async/store.ts:61-180). Store methods are
    atomic; a record may expire at any time. */
module ReadyIndex {
  import opened Basics

  datatype Status = Queued | Leased | Running | Succeeded | FailedPreSubmit | ReconcileRequired | Cancelled

  /** The two statuses with which a job can be failed. */
  datatype FailureStatus = BeforeSubmit | NeedsReconcile

  datatype Job = Job(kind: string, status: Status, createdAt: int, leasedUntil: Option<int>, attempts: nat,
      retryable: bool)

  type Jobs = map<string, Job>

  predicate IsReady(job: Job, now: int) {
    job.status == Queued
    || ((job.status == Leased || job.status == Running) && job.leasedUntil.Some? && job.leasedUntil.value <= now)
  }

  /** The plain filter over all records. */
  function Scan(jobs: Jobs, now: int): set<string> {
    set id | id in jobs && IsReady(jobs[id], now)
  }

  /** What the ready set leads to: members with a due score whose record is ready. */
  function Listed(jobs: Jobs, ready: map<string, int>, now: int): set<string> {
    set id | id in ready && ready[id] <= now && id in jobs && IsReady(jobs[id], now)
  }

  /** A queued job is in the set with the time it was queued, a leased or running one
      with the end of its lease, any other job is not in the set. The set may still name
      records that expired. */
  ghost predicate Indexed(jobs: Jobs, ready: map<string, int>, clock: int) {
    forall id :: id in jobs ==> IndexedJob(jobs[id], Get(ready, id), clock)
  }

  predicate IndexedJob(job: Job, score: Option<int>, clock: int) {
    match job.status
    case Queued => score.Some? && score.value <= clock
    case Leased => score.Some? && job.leasedUntil == score
    case Running => score.Some? && job.leasedUntil == score
    case _ => score.None?
  }

  /** The index agrees with the scan at `now` exactly when no queued job was queued after
      `now`; a caller that passes a current time always meets that. */
  lemma {:induction false} IndexExactly(jobs: Jobs, ready: map<string, int>, clock: int, now: int)
    requires Indexed(jobs, ready, clock)
    ensures Listed(jobs, ready, now) == Scan(jobs, now)
       <==> forall id :: id in jobs && jobs[id].status == Queued ==> id in ready && ready[id] <= now
    ensures now >= clock ==> Listed(jobs, ready, now) == Scan(jobs, now)
  {
    forall id | id in jobs ensures IndexedJob(jobs[id], Get(ready, id), clock) {}
    if Listed(jobs, ready, now) == Scan(jobs, now) {
      forall id | id in jobs && jobs[id].status == Queued ensures id in ready && ready[id] <= now {
        assert id in Scan(jobs, now);
        assert id in Listed(jobs, ready, now);
      }
    }
    if forall id :: id in jobs && jobs[id].status == Queued ==> id in ready && ready[id] <= now {
      forall id | id in Scan(jobs, now) ensures id in Listed(jobs, ready, now) {}
      assert Listed(jobs, ready, now) == Scan(jobs, now);
    }
  }

  /** Dropping names of records that do not exist changes nothing at any time, and what is
      ready stays ready by waiting. */
  lemma {:induction false} ReadyLasts(jobs: Jobs, before: map<string, int>, ready: map<string, int>, now: int)
    requires ready.Keys <= before.Keys
    requires forall id :: id in ready ==> ready[id] == before[id]
    requires forall id :: id in before && id in jobs ==> id in ready
    ensures forall later :: later >= now ==>
              Listed(jobs, before, now) <= Listed(jobs, ready, later) == Listed(jobs, before, later)
  {
    forall later | later >= now
      ensures Listed(jobs, before, now) <= Listed(jobs, ready, later) == Listed(jobs, before, later)
    {
      assert forall id :: id in Listed(jobs, ready, later) <==> id in Listed(jobs, before, later);
    }
  }

  // ---------------------------------------------------------------- sorted by score

  ghost predicate SortedBy(ids: seq<string>, score: map<string, int>) {
    && (forall id :: id in ids ==> id in score)
    && forall i, j :: 0 <= i < j < |ids| ==> score[ids[i]] <= score[ids[j]]
  }

  method InsertByScore(ids: seq<string>, id: string, score: map<string, int>) returns (r: seq<string>)
    requires SortedBy(ids, score) && Distinct(ids) && id in score && id !in ids
    ensures SortedBy(r, score) && Distinct(r) && Elements(r) == Elements(ids) + {id}
  {
    var i := 0;
    while i < |ids| && score[ids[i]] <= score[id]
      invariant 0 <= i <= |ids|
      invariant forall k :: 0 <= k < i ==> score[ids[k]] <= score[id]
    {
      i := i + 1;
    }
    r := ids[..i] + [id] + ids[i..];
    InsertKeeps(ids, i, id, score, r);
    forall x ensures x in r <==> x in ids || x == id {
      assert ids == ids[..i] + ids[i..];
    }
  }

  /** Element `k` after inserting `id` at `i`. */
  function InsertedAt(ids: seq<string>, i: nat, id: string, k: nat): string
    requires i <= |ids| && k <= |ids|
  {
    if k < i then ids[k] else if k == i then id else ids[k - 1]
  }

  lemma {:induction false} InsertKeeps(ids: seq<string>, i: nat, id: string, score: map<string, int>, r: seq<string>)
    requires SortedBy(ids, score) && Distinct(ids) && id in score && id !in ids && i <= |ids|
    requires forall k :: 0 <= k < i ==> score[ids[k]] <= score[id]
    requires i < |ids| ==> score[id] < score[ids[i]]
    requires |r| == |ids| + 1 && forall k :: 0 <= k < |r| ==> r[k] == InsertedAt(ids, i, id, k)
    ensures SortedBy(r, score) && Distinct(r)
  {
    forall k | 0 <= k < |r|
      ensures r[k] in score
      ensures k < i ==> r[k] in ids && score[r[k]] <= score[id]
      ensures k > i ==> r[k] in ids && score[id] < score[r[k]]
    {
      if k < i {
        assert r[k] == ids[k];
      } else if k > i {
        assert r[k] == ids[k - 1] && score[ids[i]] <= score[ids[k - 1]];
      }
    }
    forall j, k | 0 <= j < k < |r| ensures r[j] != r[k] && score[r[j]] <= score[r[k]] {
      var a, b := if j < i then j else j - 1, if k < i then k else k - 1;
      if j != i && k != i {
        assert r[j] == ids[a] && r[k] == ids[b];
      }
    }
    forall x | x in r ensures x in score {
      var k :| 0 <= k < |r| && r[k] == x;
      assert r[k] in score;
    }
  }

  /** `ZRANGEBYSCORE key -inf max`. */
  method ZRangeByScore(ready: map<string, int>, max: int) returns (ids: seq<string>)
    ensures SortedBy(ids, ready) && Distinct(ids)
    ensures Elements(ids) == set id | id in ready && ready[id] <= max
  {
    ids := [];
    var rest := ready.Keys;
    while rest != {}
      invariant rest <= ready.Keys && SortedBy(ids, ready) && Distinct(ids)
      invariant Elements(ids) == set id | id in ready && id !in rest && ready[id] <= max
      decreases rest
    {
      hide SortedBy, Distinct;
      var id :| id in rest;
      rest := rest - {id};
      if ready[id] <= max {
        assert id !in Elements(ids);
        ids := InsertByScore(ids, id, ready);
      }
    }
  }

  // ------------------------------------------------------------------- the Redis store

  class RedisStore {
    var jobs: Jobs
    var ready: map<string, int>
    var idempotency: map<string, string>
    ghost var clock: int

    ghost predicate Valid()
      reads this
    {
      Indexed(jobs, ready, clock)
    }

    constructor ()
      ensures Valid() && jobs == map[] && ready == map[]
    {
      jobs, ready, idempotency, clock := map[], map[], map[], 0;
    }

    /** `operationId` is the fresh random id; with an idempotency key that has not run out,
        a live record under that key is returned instead of a new one. */
    method Enqueue(kind: string, key: Option<string>, operationId: string, now: int) returns (id: string)
      requires Valid() && now >= clock && operationId !in jobs
      modifies this
      ensures Valid() && clock == now && id in jobs
      ensures if key.Some? && key.value in old(idempotency) && old(idempotency)[key.value] in old(jobs)
              then id == old(idempotency)[key.value] && jobs == old(jobs)
              else id == operationId && jobs == old(jobs)[id := Job(kind, Queued, now, None, 0, false)]
      ensures key.Some? ==> idempotency == old(idempotency)[key.value := id]
    {
      clock := now;
      if key.Some? {
        if key.value in idempotency && idempotency[key.value] in jobs {
          return idempotency[key.value];
        }
        idempotency := idempotency[key.value := operationId];
      }
      id := operationId;
      jobs := jobs[id := Job(kind, Queued, now, None, 0, false)];
      ready := ready[id := now];
    }

    /** At most `limit` ready jobs, the longest due first. Names that lead nowhere are
        dropped on the way, and no job that is or may become ready is ever dropped. */
    method ListReadyJobs(limit: nat, now: int) returns (listed: seq<string>)
      requires Valid()
      modifies this`ready
      ensures Valid()
      ensures Distinct(listed) && SortedBy(listed, old(ready)) && |listed| <= limit
      ensures Elements(listed) <= Listed(jobs, old(ready), now)
      ensures forall a, b :: a in listed && b in Listed(jobs, old(ready), now) && b !in listed ==>
              old(ready)[a] <= old(ready)[b]
      ensures |listed| < limit ==> Elements(listed) == Listed(jobs, old(ready), now)
      ensures |listed| < limit && now >= clock ==> Elements(listed) == Scan(jobs, now)
      ensures ready.Keys <= old(ready).Keys && forall id :: id in old(ready) && id in jobs ==> id in ready
      ensures forall later :: later >= now ==>
                Elements(listed) <= Listed(jobs, ready, later) == Listed(jobs, old(ready), later)
    {
      IndexExactly(jobs, ready, clock, now);
      var ids := ZRangeByScore(ready, now);
      assert ids[..0] == [] && Picked([], jobs, now) == [];
      hide Indexed, Distinct, SortedBy, Picked, Listed, Scan, IsReady;
      listed := [];
      var i := 0;
      while i < |ids| && |listed| < limit
        invariant i <= |ids| && |listed| <= limit && listed == Picked(ids[..i], jobs, now)
        invariant Valid() && ready.Keys <= old(ready).Keys
        invariant forall id :: id in old(ready) && id in jobs ==> id in ready
        invariant forall id :: id in ready ==> ready[id] == old(ready)[id]
      {
        var id := ids[i];
        assert ids[..i + 1][..i] == ids[..i];
        PickedNext(ids[..i], id, jobs, now);
        assert ids[..i + 1] == ids[..i] + [id];
        if id in jobs && IsReady(jobs[id], now) {
          listed := listed + [id];
        } else {
          if id in jobs {
            assert id in Elements(ids);
            DueIsReady(jobs, old(ready), clock, id, now);
          }
          ForgetKeeps(jobs, ready, clock, id);
          ready := ready - {id};
        }
        i := i + 1;
      }
      PickedIsListed(ids, i, old(ready), jobs, now);
      ReadyLasts(jobs, old(ready), ready, now);
    }

    method MarkJobRunning(id: string, leasedUntil: int, claimed: bool, now: int) returns (ok: bool)
      requires Valid() && now >= clock
      modifies this
      ensures Valid() && clock == now
      ensures ok <==> claimed && id in old(jobs) && Claimable(old(jobs)[id], now)
      ensures jobs == if ok then old(jobs)[id := Claimed(old(jobs)[id], leasedUntil)] else old(jobs)
    {
      ghost var before := clock;
      clock := now;
      IndexedLater(jobs, ready, before, now);
      if !claimed || id !in jobs {
        return false;
      }
      var found := jobs[id];
      if found.status != Queued && found.status != Leased && found.status != Running {
        ready := ready - {id};
        return false;
      }
      if found.status != Queued && found.leasedUntil.Some? && found.leasedUntil.value > now {
        return false;
      }
      jobs := jobs[id := found.(status := Running, attempts := found.attempts + 1, leasedUntil := Some(leasedUntil))];
      ready := ready[id := leasedUntil];
      return true;
    }

    method CompleteJob(id: string, now: int) returns (ok: bool)
      requires Valid() && now >= clock
      modifies this
      ensures Valid() && clock == now && (ok <==> id in old(jobs))
      ensures jobs == if ok then old(jobs)[id := old(jobs)[id].(status := Succeeded, retryable := false)] else old(jobs)
    {
      ghost var before := clock;
      clock := now;
      IndexedLater(jobs, ready, before, now);
      if id !in jobs {
        return false;
      }
      jobs := jobs[id := jobs[id].(status := Succeeded, retryable := false)];
      ready := ready - {id};
      return true;
    }

    method FailJob(id: string, status: FailureStatus, retryable: bool, now: int) returns (ok: bool)
      requires Valid() && now >= clock
      modifies this
      ensures Valid() && clock == now && (ok <==> id in old(jobs))
      ensures jobs == if ok then old(jobs)[id := old(jobs)[id].(status := AsStatus(status), retryable := retryable)]
              else old(jobs)
    {
      ghost var before := clock;
      clock := now;
      IndexedLater(jobs, ready, before, now);
      if id !in jobs {
        return false;
      }
      jobs := jobs[id := jobs[id].(status := AsStatus(status), retryable := retryable)];
      ready := ready - {id};
      return true;
    }

    method RequeueJob(id: string, now: int) returns (ok: bool)
      requires Valid() && now >= clock
      modifies this
      ensures Valid() && clock == now && (ok <==> id in old(jobs))
      ensures jobs == if ok then old(jobs)[id := old(jobs)[id].(status := Queued, leasedUntil := None)] else old(jobs)
    {
      ghost var before := clock;
      clock := now;
      IndexedLater(jobs, ready, before, now);
      if id !in jobs {
        return false;
      }
      jobs := jobs[id := jobs[id].(status := Queued, leasedUntil := None)];
      ready := ready[id := now];
      return true;
    }

    /** An idempotency key has a time to live of its own, which no write of the record
        renews: it may run out before the record does. */
    method ExpireKey(key: string)
      requires Valid()
      modifies this`idempotency
      ensures Valid() && idempotency == old(idempotency) - {key}
    {
      idempotency := idempotency - {key};
    }

    /** A record's time to live runs out; the ready set does not notice. */
    method Expire(id: string)
      requires Valid()
      modifies this`jobs
      ensures Valid() && jobs == old(jobs) - {id}
    {
      jobs := jobs - {id};
    }
  }

  function AsStatus(status: FailureStatus): Status {
    match status
    case BeforeSubmit => FailedPreSubmit
    case NeedsReconcile => ReconcileRequired
  }

  /** A job as its claimer writes it: leased, one attempt more. */
  function Claimed(job: Job, leasedUntil: int): Job {
    job.(status := Running, attempts := job.attempts + 1, leasedUntil := Some(leasedUntil))
  }

  /** A queued job, or one whose lease has run out. */
  predicate Claimable(job: Job, now: int) {
    job.status == Queued
    || ((job.status == Leased || job.status == Running) && (job.leasedUntil.None? || job.leasedUntil.value <= now))
  }

  /** What is listed as ready can be claimed, and the only claimable jobs that are not
      listed are those that run without a lease. */
  lemma {:induction false} ReadyIsClaimable(job: Job, now: int)
    ensures IsReady(job, now) <==> Claimable(job, now) && (job.status == Queued || job.leasedUntil.Some?)
  {}

  lemma {:induction false} IndexedLater(jobs: Jobs, ready: map<string, int>, clock: int, now: int)
    requires Indexed(jobs, ready, clock) && clock <= now
    ensures Indexed(jobs, ready, now)
  {
    forall id | id in jobs ensures IndexedJob(jobs[id], Get(ready, id), now) {
      assert IndexedJob(jobs[id], Get(ready, id), clock);
    }
  }

  /** What the index says is due is ready. */
  lemma {:induction false} DueIsReady(jobs: Jobs, ready: map<string, int>, clock: int, id: string, now: int)
    requires Indexed(jobs, ready, clock) && id in jobs && id in ready && ready[id] <= now
    ensures IsReady(jobs[id], now)
  {
    assert IndexedJob(jobs[id], Get(ready, id), clock);
  }

  lemma {:induction false} ForgetKeeps(jobs: Jobs, ready: map<string, int>, clock: int, id: string)
    requires Indexed(jobs, ready, clock) && id !in jobs
    ensures Indexed(jobs, ready - {id}, clock)
  {
    forall x | x in jobs ensures IndexedJob(jobs[x], Get(ready - {id}, x), clock) {
      assert IndexedJob(jobs[x], Get(ready, x), clock);
      assert Get(ready - {id}, x) == Get(ready, x);
    }
  }

  // ------------------------------------------------------------ picking from the range

  /** The named jobs that are ready, in order. */
  function Picked(ids: seq<string>, jobs: Jobs, now: int): seq<string> {
    if |ids| == 0 then []
    else
      var rest, id := Picked(ids[..|ids| - 1], jobs, now), ids[|ids| - 1];
      if id in jobs && IsReady(jobs[id], now) then rest + [id] else rest
  }

  lemma {:induction false} PickedNext(ids: seq<string>, id: string, jobs: Jobs, now: int)
    ensures Picked(ids + [id], jobs, now) == Picked(ids, jobs, now) + if id in jobs
            && IsReady(jobs[id], now) then [id] else []
  {
    assert (ids + [id])[..|ids|] == ids;
  }

  lemma {:induction false} PickedIn(ids: seq<string>, jobs: Jobs, now: int)
    ensures forall id :: id in Picked(ids, jobs, now) <==> id in ids && id in jobs && IsReady(jobs[id], now)
  {
    if |ids| > 0 {
      PickedIn(ids[..|ids| - 1], jobs, now);
      assert ids == ids[..|ids| - 1] + [ids[|ids| - 1]];
    }
  }

  lemma {:induction false} PickedKeeps(ids: seq<string>, i: nat, score: map<string, int>, jobs: Jobs, now: int)
    requires i <= |ids| && Distinct(ids) && SortedBy(ids, score)
    ensures Distinct(Picked(ids[..i], jobs, now)) && SortedBy(Picked(ids[..i], jobs, now), score)
  {
    if i > 0 {
      PickedKeeps(ids, i - 1, score, jobs, now);
      var front := ids[..i - 1];
      assert ids[..i][..i - 1] == front;
      PickedIn(front, jobs, now);
      var rest := Picked(front, jobs, now);
      forall k | 0 <= k < |rest| ensures rest[k] != ids[i - 1] && score[rest[k]] <= score[ids[i - 1]] {
        assert rest[k] in front;
        var j :| 0 <= j < |front| && front[j] == rest[k];
        assert ids[j] == rest[k];
      }
    }
  }

  lemma {:induction false} PickedAll(ids: seq<string>, jobs: Jobs, ready: map<string, int>, now: int)
    requires Elements(ids) == set id | id in ready && ready[id] <= now
    ensures Elements(Picked(ids, jobs, now)) == Listed(jobs, ready, now)
  {
    PickedIn(ids, jobs, now);
    forall id ensures id in Picked(ids, jobs, now) <==> id in Listed(jobs, ready, now) {
      assert id in ids <==> id in Elements(ids);
    }
  }

  lemma {:induction false} PickedFront(ids: seq<string>, i: nat, jobs: Jobs, now: int)
    requires i <= |ids|
    ensures Elements(Picked(ids[..i], jobs, now)) <= Elements(Picked(ids, jobs, now))
  {
    PickedIn(ids[..i], jobs, now);
    PickedIn(ids, jobs, now);
  }

  /** In a sorted list the front scores no higher than what is behind it. */
  lemma {:induction false} FrontFirst(ids: seq<string>, i: nat, score: map<string, int>, a: string, b: string)
    requires i <= |ids| && SortedBy(ids, score) && a in ids[..i] && b in ids && b !in ids[..i]
    ensures a in score && b in score && score[a] <= score[b]
  {
    assert forall k :: 0 <= k < i ==> ids[k] in ids[..i];
    var j :| 0 <= j < i && ids[..i][j] == a;
    var k :| 0 <= k < |ids| && ids[k] == b;
    assert ids[j] == a && i <= k;
  }

  /** What is picked from the front is due no later than what is picked behind it. */
  lemma {:induction false} PickedFirst(ids: seq<string>, i: nat, ready: map<string, int>, jobs: Jobs, now: int)
    requires i <= |ids| && SortedBy(ids, ready) && Elements(ids) == set id | id in ready && ready[id] <= now
    ensures var listed := Picked(ids[..i], jobs, now);
      forall a, b :: a in listed && b in Listed(jobs, ready, now) && b !in listed ==>
        a in ready && b in ready && ready[a] <= ready[b]
  {
    PickedAll(ids, jobs, ready, now);
    hide SortedBy, Picked, Listed;
    var listed := Picked(ids[..i], jobs, now);
    PickedIn(ids[..i], jobs, now);
    PickedIn(ids, jobs, now);
    forall a, b | a in listed && b in Listed(jobs, ready, now) && b !in listed
      ensures a in ready && b in ready && ready[a] <= ready[b]
    {
      assert b in Elements(Picked(ids, jobs, now));
      FrontFirst(ids, i, ready, a, b);
    }
  }

  /** What is picked from the front of the due names, and from all of them. */
  lemma {:induction false} PickedIsListed(ids: seq<string>, i: nat, ready: map<string, int>, jobs: Jobs, now: int)
    requires i <= |ids| && Distinct(ids) && SortedBy(ids, ready)
    requires Elements(ids) == set id | id in ready && ready[id] <= now
    ensures var listed := Picked(ids[..i], jobs, now);
      && Distinct(listed) && SortedBy(listed, ready)
      && Elements(listed) <= Listed(jobs, ready, now)
      && (i == |ids| ==> Elements(listed) == Listed(jobs, ready, now))
      && forall a, b :: a in listed && b in Listed(jobs, ready, now) && b !in listed ==>
           a in ready && b in ready && ready[a] <= ready[b]
  {
    PickedKeeps(ids, i, ready, jobs, now);
    PickedAll(ids, jobs, ready, now);
    PickedFirst(ids, i, ready, jobs, now);
    PickedFront(ids, i, jobs, now);
    hide Distinct, SortedBy, Picked, Listed;
    if i == |ids| {
      assert ids[..i] == ids;
    }
  }

  // ------------------------------------------------------------------ the plain store

  /** `listReadyJobs` of the in-memory store: filter, sort by creation, slice. */
  method ListByScan(jobs: Jobs, limit: nat, now: int) returns (listed: seq<string>)
    ensures |listed| <= limit && Distinct(listed) && Elements(listed) <= Scan(jobs, now)
    ensures |listed| < limit ==> Elements(listed) == Scan(jobs, now)
    ensures forall a, b :: a in Elements(listed) && b in Scan(jobs, now) - Elements(listed) ==>
            jobs[a].createdAt <= jobs[b].createdAt
    ensures SortedBy(listed, map id | id in jobs :: jobs[id].createdAt)
  {
    var score := map id | id in jobs && IsReady(jobs[id], now) :: jobs[id].createdAt;
    assert score.Keys == Scan(jobs, now);
    hide IsReady, Scan, SortedBy, Distinct;
    var top := Latest(score);
    var ids := ZRangeByScore(score, top);
    assert Elements(ids) == Scan(jobs, now);
    listed := if |ids| > limit then ids[..limit] else ids;
    FrontSorted(ids, |listed|, score);
    assert SortedBy(listed, map id | id in jobs :: jobs[id].createdAt) by {
      SortedWider(listed, score, map id | id in jobs :: jobs[id].createdAt);
    }
    forall a, b | a in Elements(listed) && b in Scan(jobs, now) - Elements(listed)
      ensures jobs[a].createdAt <= jobs[b].createdAt
    {
      assert b in Elements(ids);
      FrontFirst(ids, |listed|, score, a, b);
    }
  }

  /** No score is larger. */
  method Latest(score: map<string, int>) returns (top: int)
    ensures forall id :: id in score ==> score[id] <= top
  {
    top := 0;
    var rest := score.Keys;
    while rest != {}
      invariant rest <= score.Keys && forall id :: id in score && id !in rest ==> score[id] <= top
      decreases rest
    {
      var id :| id in rest;
      rest := rest - {id};
      top := if score[id] > top then score[id] else top;
    }
  }

  lemma {:induction false} FrontSorted(ids: seq<string>, n: nat, score: map<string, int>)
    requires n <= |ids| && SortedBy(ids, score) && Distinct(ids)
    ensures SortedBy(ids[..n], score) && Distinct(ids[..n]) && Elements(ids[..n]) <= Elements(ids)
  {}

  lemma {:induction false} SortedWider(ids: seq<string>, score: map<string, int>, wider: map<string, int>)
    requires SortedBy(ids, score) && forall id :: id in score ==> id in wider && wider[id] == score[id]
    ensures SortedBy(ids, wider)
  {}

  // ------------------------------------------------------------------ queue statistics

  datatype Record = Record(operationId: string, job: Job)

  /** How many of the first records fall under a kind and a status. */
  function CountOf(records: seq<Record>, kind: string, status: Status): nat {
    if |records| == 0 then 0
    else
      var last := records[|records| - 1].job;
      CountOf(records[..|records| - 1], kind, status) + if last.kind == kind && last.status == status then 1 else 0
  }

  function ReadyOf(records: seq<Record>, now: int): set<string> {
    set i | 0 <= i < |records| && IsReady(records[i].job, now) :: records[i].operationId
  }

  ghost predicate DistinctRecords(records: seq<Record>) {
    forall i, j :: 0 <= i < j < |records| ==> records[i].operationId != records[j].operationId
  }

  /** Milliseconds since creation; a clock that runs behind counts as none. */
  function Age(job: Job, now: int): int {
    if now - job.createdAt < 0 then 0 else now - job.createdAt
  }

  predicate InBucket(job: Job, kind: string, status: Status) {
    job.kind == kind && job.status == status
  }

  /** A failed job that may be tried again. */
  predicate RetryableFailure(job: Job) {
    job.retryable && job.status in {FailedPreSubmit, ReconcileRequired}
  }

  function BucketAges(records: seq<Record>, kind: string, status: Status, now: int): set<int> {
    set i | 0 <= i < |records| && InBucket(records[i].job, kind, status) :: Age(records[i].job, now)
  }

  function ReadyAges(records: seq<Record>, now: int): set<int> {
    set i | 0 <= i < |records| && IsReady(records[i].job, now) :: Age(records[i].job, now)
  }

  /** The largest element, if there is any. */
  predicate IsLargest(ages: set<int>, largest: Option<int>) {
    match largest
    case None => ages == {}
    case Some(x) => x in ages && forall y :: y in ages ==> y <= x
  }

  function RetryableOf(records: seq<Record>): nat {
    if |records| == 0 then 0
    else RetryableOf(records[..|records| - 1]) + if RetryableFailure(records[|records| - 1].job) then 1 else 0
  }

  datatype Bucket = Bucket(count: nat, oldestAgeMs: int)

  /** A bucket exists for the kinds and statuses that occur; it counts their jobs and has
      the age of the oldest. */
  ghost predicate Tallied(records: seq<Record>, kind: string, status: Status, bucket: Option<Bucket>, now: int) {
    && CountOf(records, kind, status) == (if bucket.Some? then bucket.value.count else 0)
    && IsLargest(BucketAges(records, kind, status, now), if bucket.Some? then Some(bucket.value.oldestAgeMs) else None)
  }

  function Older(a: Option<int>, b: int): int {
    if a.Some? && a.value > b then a.value else b
  }

  lemma {:induction false} LargestGrows(ages: set<int>, largest: Option<int>, x: int)
    requires IsLargest(ages, largest)
    ensures IsLargest(ages + {x}, Some(Older(largest, x)))
  {}

  lemma {:induction false} AgesNext(records: seq<Record>, i: nat, kind: string, status: Status, now: int)
    requires i < |records|
    ensures BucketAges(records[..i + 1], kind, status, now)
         == BucketAges(records[..i], kind, status, now) + if InBucket(records[i].job, kind, status)
             then {Age(records[i].job, now)} else {}
    ensures ReadyAges(records[..i + 1], now)
         == ReadyAges(records[..i], now) + if IsReady(records[i].job, now) then {Age(records[i].job, now)} else {}
  {
    hide Age, IsReady, InBucket;
    var front, longer := records[..i], records[..i + 1];
    assert longer == front + [records[i]];
    forall x
      ensures x in BucketAges(longer, kind, status, now) <==>
                (x in BucketAges(front, kind, status, now)
                 || (InBucket(records[i].job, kind, status) && x == Age(records[i].job, now)))
    {
      assert longer[i] == records[i] && forall k :: 0 <= k < i ==> longer[k] == front[k];
    }
    forall x ensures x in ReadyAges(longer, now)
                <==> x in ReadyAges(front, now) || (IsReady(records[i].job, now) && x == Age(records[i].job, now))
    {
      assert longer[i] == records[i] && forall k :: 0 <= k < i ==> longer[k] == front[k];
    }
  }

  lemma {:induction false} TalliedNext(
    records: seq<Record>, i: nat, kind: string, status: Status, bucket: Option<Bucket>, now: int)
    requires i < |records| && Tallied(records[..i], kind, status, bucket, now)
    ensures var job := records[i].job;
      Tallied(records[..i + 1], kind, status,
              if InBucket(job, kind, status) then Some(Tally(bucket, Age(job, now))) else bucket, now)
  {
    hide Age, BucketAges, ReadyAges, IsLargest;
    assert records[..i + 1][..i] == records[..i];
    AgesNext(records, i, kind, status, now);
    var job := records[i].job;
    if InBucket(job, kind, status) {
      LargestGrows(BucketAges(records[..i], kind, status, now), if bucket.Some? then Some(bucket.value.oldestAgeMs)
          else None, Age(job, now));
    } else {
      assert BucketAges(records[..i + 1], kind, status, now) == BucketAges(records[..i], kind, status, now);
    }
  }

  lemma {:induction false} AllTallied(records: seq<Record>, i: nat, buckets: map<(string, Status), Bucket>, now: int)
    requires i < |records| && forall kind, status ::
             Tallied(records[..i], kind, status, Get(buckets, (kind, status)), now)
    ensures var job := records[i].job; var key := (job.kind, job.status);
      forall kind, status ::
        Tallied(records[..i + 1], kind, status,
            Get(buckets[key := Tally(Get(buckets, key), Age(job, now))], (kind, status)), now)
  {
    hide Tallied, Age, Tally;
    var job := records[i].job;
    var key := (job.kind, job.status);
    var next := buckets[key := Tally(Get(buckets, key), Age(job, now))];
    forall kind, status ensures Tallied(records[..i + 1], kind, status, Get(next, (kind, status)), now) {
      TalliedNext(records, i, kind, status, Get(buckets, (kind, status)), now);
      if !InBucket(job, kind, status) {
        assert (kind, status) != key;
      }
    }
  }

  function Tally(bucket: Option<Bucket>, age: int): Bucket {
    if bucket.None? then Bucket(1, age) else Bucket(bucket.value.count + 1, Older(Some(bucket.value.oldestAgeMs), age))
  }

  /** The ready figure is the number of jobs the ready listing would return, with the age
      of the oldest of them; each bucket counts the jobs of its kind and status. */
  method QueueStats(records: seq<Record>, now: int)
      returns (total: nat, ready: nat, retryableFailed: nat, oldestReadyMs: Option<int>,
          buckets: map<(string, Status), Bucket>)
    requires DistinctRecords(records)
    ensures total == |records| && ready == |ReadyOf(records, now)| && retryableFailed == RetryableOf(records)
    ensures IsLargest(ReadyAges(records, now), oldestReadyMs)
    ensures forall kind, status :: Tallied(records, kind, status, Get(buckets, (kind, status)), now)
  {
    total, ready, retryableFailed, oldestReadyMs, buckets := |records|, 0, 0, None, map[];
    for i := 0 to |records|
      invariant ready == |ReadyOf(records[..i], now)| && retryableFailed == RetryableOf(records[..i])
      invariant IsLargest(ReadyAges(records[..i], now), oldestReadyMs)
      invariant forall kind, status :: Tallied(records[..i], kind, status, Get(buckets, (kind, status)), now)
    {
      hide Tallied, InBucket, DistinctRecords, IsLargest, ReadyAges, ReadyOf, IsReady;
      hide Tally, Older;
      var job := records[i].job;
      var age := now - job.createdAt;
      if age < 0 {
        age := 0;
      }
      ReadyNext(records, i, now);
      AgesNext(records, i, job.kind, job.status, now);
      assert records[..i + 1][..i] == records[..i];
      AllTallied(records, i, buckets, now);
      var key := (job.kind, job.status);
      buckets := buckets[key := Tally(Get(buckets, key), age)];
      if IsReady(job, now) {
        LargestGrows(ReadyAges(records[..i], now), oldestReadyMs, age);
        ready, oldestReadyMs := ready + 1, Some(Older(oldestReadyMs, age));
      } else {
        assert ReadyAges(records[..i + 1], now) == ReadyAges(records[..i], now);
      }
      if (job.status == FailedPreSubmit || job.status == ReconcileRequired) && job.retryable {
        retryableFailed := retryableFailed + 1;
      }
    }
    assert records[..|records|] == records;
  }

  lemma {:induction false} ReadyNext(records: seq<Record>, i: nat, now: int)
    requires DistinctRecords(records) && i < |records|
    ensures |ReadyOf(records[..i + 1], now)| == |ReadyOf(records[..i], now)| + if IsReady(records[i].job, now) then 1
            else 0
  {
    var front, longer := ReadyOf(records[..i], now), ReadyOf(records[..i + 1], now);
    var id := records[i].operationId;
    assert id !in front;
    forall x ensures x in longer <==> x in front || (x == id && IsReady(records[i].job, now)) {
      if x in front {
        var k :| 0 <= k < i && IsReady(records[..i][k].job, now) && records[..i][k].operationId == x;
        assert records[..i + 1][k] == records[k];
      }
      if x in longer {
        var k :| 0 <= k < i + 1 && IsReady(records[..i + 1][k].job, now) && records[..i + 1][k].operationId == x;
        if k < i {
          assert records[..i][k] == records[k];
        }
      }
      if IsReady(records[i].job, now) {
        assert records[..i + 1][i] == records[i];
      }
    }
    assert longer == if IsReady(records[i].job, now) then front + {id} else front;
  }

  /** When the records are those of a store, the figure is the size of the scan. */
  lemma {:induction false} StatsMatchScan(records: seq<Record>, jobs: Jobs, now: int)
    requires forall r :: r in records <==> r.operationId in jobs && jobs[r.operationId] == r.job
    ensures ReadyOf(records, now) == Scan(jobs, now)
  {
    forall id ensures id in ReadyOf(records, now) <==> id in Scan(jobs, now) {
      if id in ReadyOf(records, now) {
        var i :| 0 <= i < |records| && IsReady(records[i].job, now) && records[i].operationId == id;
        assert records[i] in records;
      }
      if id in Scan(jobs, now) {
        assert Record(id, jobs[id]) in records;
      }
    }
  }
}
