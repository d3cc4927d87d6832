/** `markJobRunning` of the Redis store at command granularity (src/async/redis-store.ts:
    235-280): claimers of one job interleave, other methods write its record without the
    claim lock. What makes a claim atomic is that no claimer outlives its lock. */
module ClaimLock {
  import opened Basics
  import opened ReadyIndex
  import opened TokenLock

  const LOCK_TTL_MS := 5000

  /** Where a claimer stands; `since` is when it took the lock. `Found` is what it read
      and will write over, with the number of foreign writes there had been. */
  datatype Phase =
    | Asking
    | Won(since: int)
    | Found(since: int, job: Job, rewrites: nat)
    | Unlocking(since: int, claimed: bool)
    | Done(claimed: bool)

  datatype Claimer = Claimer(token: string, leasedUntil: int, phase: Phase)

  /** The record, the writes to it by other methods so far, the lock, the claimers. */
  datatype World = World(now: int, job: Option<Job>, rewrites: nat, lock: Option<Lock>, claimers: seq<Claimer>)

  /** One event: time passes, a call arrives, one claimer does its next command, or some
      other method writes or loses the record. */
  datatype Action =
    | Tick(ms: nat)
    | Arrive(token: string, leasedUntil: int)
    | TryLock(a: nat, reply: Reply)
    | Read(a: nat, reply: Reply)
    | Write(a: nat, reply: Reply)
    | Unlock(a: nat, reply: Reply)
    | Rewrite(job: Option<Job>)

  const EMPTY := World(0, None, 0, None, [])

  function At(w: World, a: nat, phase: Phase): World
    requires a < |w.claimers|
  {
    w.(claimers := w.claimers[a := w.claimers[a].(phase := phase)])
  }

  predicate Ready(w: World, action: Action) {
    match action
    case Tick(_) => true
    case Arrive(_, _) => true
    case Rewrite(_) => true
    case TryLock(a, _) => a < |w.claimers| && w.claimers[a].phase.Asking?
    case Read(a, _) => a < |w.claimers| && w.claimers[a].phase.Won?
    case Write(a, _) => a < |w.claimers| && w.claimers[a].phase.Found?
    case Unlock(a, _) => a < |w.claimers| && w.claimers[a].phase.Unlocking?
  }

  function Step(w: World, action: Action): World
    requires Ready(w, action)
  {
    match action
    case Tick(ms) => w.(now := w.now + ms)
    case Arrive(token, leasedUntil) => w.(claimers := w.claimers + [Claimer(token, leasedUntil, Asking)])
    case Rewrite(job) => w.(job := job, rewrites := w.rewrites + 1)
    case TryLock(a, reply) =>
      var won := !Live(w.lock, w.now) && !reply.Refused?;
      var locked := if won then w.(lock := Some(Lock(w.claimers[a].token, a, w.now + LOCK_TTL_MS))) else w;
      At(locked, a, if won && reply.Answered? then Won(w.now) else Done(false))
    case Read(a, reply) =>
      var since := w.claimers[a].phase.since;
      if reply.Answered? && w.job.Some?
          && Claimable(w.job.value, w.now) then At(w, a, Found(since, w.job.value, w.rewrites))
      else At(w, a, Unlocking(since, false))
    case Write(a, reply) =>
      var phase := w.claimers[a].phase;
      var written := if reply.Refused? then w else w.(job := Some(Claimed(phase.job, w.claimers[a].leasedUntil)));
      At(written, a, Unlocking(phase.since, reply.Answered?))
    case Unlock(a, reply) =>
      var freed := if reply.Refused? then w else w.(lock := Freed(w.lock, w.now, w.claimers[a].token));
      At(freed, a, Done(w.claimers[a].phase.claimed))
  }

  /** The state after any run; events that are not enabled change nothing. */
  function After(actions: seq<Action>): World {
    if |actions| == 0 then EMPTY
    else
      var w, action := After(actions[..|actions| - 1]), actions[|actions| - 1];
      if Ready(w, action) then Step(w, action) else w
  }

  // ------------------------------------------------------------------- the invariant

  predicate Holds(p: Phase) {
    p.Won? || p.Found? || p.Unlocking?
  }

  predicate Timely(w: World, a: nat)
    requires a < |w.claimers|
  {
    Holds(w.claimers[a].phase) && w.now < w.claimers[a].phase.since + LOCK_TTL_MS
  }

  ghost predicate UniqueTokens(w: World) {
    forall i, j :: 0 <= i < j < |w.claimers| ==> w.claimers[i].token != w.claimers[j].token
  }

  /** A timely holder's lock is set and its own. */
  ghost predicate LockSound(w: World) {
    && (w.lock.Some? ==>
       w.lock.value.owner < |w.claimers| && w.claimers[w.lock.value.owner].token == w.lock.value.token)
    && forall a :: 0 <= a < |w.claimers| && Timely(w, a) ==>
         w.lock == Some(Lock(w.claimers[a].token, a, w.claimers[a].phase.since + LOCK_TTL_MS))
  }

  /** No claimer outlives its lock before it has written. */
  ghost predicate Prompt(w: World) {
    forall a :: 0 <= a < |w.claimers| && (w.claimers[a].phase.Won? || w.claimers[a].phase.Found?) ==> Timely(w, a)
  }

  /** Every claimer's read is claimable, and current unless some other method wrote. */
  ghost predicate Current(w: World) {
    forall a :: 0 <= a < |w.claimers| && w.claimers[a].phase.Found? ==>
      var p := w.claimers[a].phase;
      Claimable(p.job, w.now) && p.rewrites <= w.rewrites && (p.rewrites == w.rewrites ==> w.job == Some(p.job))
  }

  lemma {:induction false} StepTokens(w: World, action: Action)
    requires Ready(w, action) && UniqueTokens(Step(w, action))
    ensures UniqueTokens(w)
  {
    var next := Step(w, action);
    forall i, j | 0 <= i < j < |w.claimers| ensures w.claimers[i].token != w.claimers[j].token {
      assert next.claimers[i].token == w.claimers[i].token && next.claimers[j].token == w.claimers[j].token;
    }
  }

  lemma {:induction false} LockMoves(w: World, action: Action)
    requires Ready(w, action) && LockSound(w) && UniqueTokens(w)
    ensures LockSound(Step(w, action))
  {
    hide Claimable, Claimed;
    var next := Step(w, action);
    forall b | 0 <= b < |next.claimers| && Timely(next, b)
      ensures next.lock == Some(Lock(next.claimers[b].token, b, next.claimers[b].phase.since + LOCK_TTL_MS))
    {
      assert b < |w.claimers|;
      assert Timely(w, b) || (action.TryLock? && action.a == b);
    }
  }

  /** At most one claimer is at work within its lock. */
  lemma {:induction false} OneAtWork(w: World, a: nat, b: nat)
    requires LockSound(w) && a < |w.claimers| && b < |w.claimers| && Timely(w, a) && Timely(w, b)
    ensures a == b
  {}

  lemma {:induction false} ClaimableLasts(job: Job, now: int, later: int)
    requires Claimable(job, now) && now <= later
    ensures Claimable(job, later)
  {}

  lemma {:induction false} CurrentMoves(w: World, action: Action)
    requires Ready(w, action) && LockSound(w) && Prompt(w) && Current(w)
    ensures Current(Step(w, action))
  {
    hide LockSound, Claimed, Claimable;
    var next := Step(w, action);
    forall b | 0 <= b < |next.claimers| && next.claimers[b].phase.Found?
      ensures var p := next.claimers[b].phase;
        Claimable(p.job, next.now) && p.rewrites <= next.rewrites
            && (p.rewrites == next.rewrites ==> next.job == Some(p.job))
    {
      if b < |w.claimers| && w.claimers[b].phase.Found? {
        ClaimableLasts(w.claimers[b].phase.job, w.now, next.now);
        if action.Write? {
          OneAtWork(w, action.a, b);
        }
      }
    }
  }

  /** In every run with unique tokens in which nobody outlives its lock. */
  ghost predicate PromptRun(actions: seq<Action>) {
    UniqueTokens(After(actions)) && forall i :: 0 <= i <= |actions| ==> Prompt(After(actions[..i]))
  }

  lemma {:induction false} PromptFront(actions: seq<Action>)
    requires PromptRun(actions) && |actions| > 0
    ensures PromptRun(actions[..|actions| - 1])
  {
    hide Step, Ready, Prompt, UniqueTokens;
    var front := actions[..|actions| - 1];
    forall i | 0 <= i <= |front| ensures Prompt(After(front[..i])) {
      assert front[..i] == actions[..i];
    }
    if Ready(After(front), actions[|actions| - 1]) {
      StepTokens(After(front), actions[|actions| - 1]);
    }
  }

  lemma {:induction false} AlwaysSound(actions: seq<Action>)
    requires PromptRun(actions)
    ensures UniqueTokens(After(actions)) && LockSound(After(actions)) && Current(After(actions))
    ensures Prompt(After(actions))
  {
    hide Step, Ready, LockSound, UniqueTokens, Prompt, Current;
    assert actions[..|actions|] == actions;
    if |actions| == 0 {
      EmptySound();
    } else {
      var front, action := actions[..|actions| - 1], actions[|actions| - 1];
      PromptFront(actions);
      AlwaysSound(front);
      if Ready(After(front), action) {
        LockMoves(After(front), action);
        CurrentMoves(After(front), action);
      }
    }
  }

  lemma {:induction false} EmptySound()
    ensures UniqueTokens(EMPTY) && LockSound(EMPTY) && Current(EMPTY)
  {}

  // ------------------------------------------------------------------ main theorems

  /** A claim is atomic: when a claimer writes, the record is the one it read, unless
      another method wrote it meanwhile, and it may be claimed now. */
  lemma {:induction false} ClaimIsAtomic(actions: seq<Action>, a: nat)
    requires PromptRun(actions) && a < |After(actions).claimers| && After(actions).claimers[a].phase.Found?
    ensures var w := After(actions); var p := w.claimers[a].phase;
      Claimable(p.job, w.now) && (p.rewrites == w.rewrites ==> w.job == Some(p.job))
  {
    hide After, LockSound, UniqueTokens, Prompt;
    AlwaysSound(actions);
  }

  /** No other method writes. */
  ghost predicate ClaimsOnly(actions: seq<Action>) {
    forall i :: 0 <= i < |actions| ==> !actions[i].Rewrite?
  }

  /** Nobody is between its read and its write, or what it read is still there. */
  ghost predicate NoneStale(w: World) {
    forall b :: 0 <= b < |w.claimers| && w.claimers[b].phase.Found? ==> w.claimers[b].phase.rewrites == w.rewrites
  }

  lemma {:induction false} Unclaimable(job: Job, leasedUntil: int, now: int)
    requires now < leasedUntil
    ensures !Claimable(Claimed(job, leasedUntil), now)
  {}

  /** The claimer is told, or about to be told, that the job is its own. */
  predicate Owns(w: World, b: nat) {
    b < |w.claimers| && (w.claimers[b].phase.Unlocking? || w.claimers[b].phase.Done?) && w.claimers[b].phase.claimed
  }

  /** The lease holds for one more event. */
  lemma {:induction false} LeaseLasts(w: World, action: Action, lease: Job)
    requires Ready(w, action) && !action.Rewrite? && Current(w) && NoneStale(w)
    requires w.job == Some(lease) && !Claimable(lease, w.now)
    ensures Step(w, action).job == Some(lease) && NoneStale(Step(w, action))
    ensures forall b: nat :: Owns(Step(w, action), b) ==> Owns(w, b)
  {
    hide Claimable, Claimed;
  }

  lemma {:induction false} TimeGoesOn(actions: seq<Action>, more: seq<Action>)
    ensures After(actions).now <= After(actions + more).now
    decreases |more|
  {
    if |more| == 0 {
      assert actions + more == actions;
    } else {
      var front := more[..|more| - 1];
      assert (actions + more)[..|actions + more| - 1] == actions + front;
      TimeGoesOn(actions, front);
      hide Claimable, Claimed, Freed, Live;
    }
  }

  /** After a claim, no other claim succeeds while its lease lasts: the record stays as the
      claimer wrote it, and nobody else is told that the job is its own. */
  lemma {:induction false} LeaseExcludes(actions: seq<Action>, a: nat, reply: Reply, more: seq<Action>)
    requires !reply.Refused? && a < |After(actions).claimers| && After(actions).claimers[a].phase.Found?
    requires var run := actions + [Write(a, reply)] + more;
      PromptRun(run) && ClaimsOnly(more) && After(run).now < After(actions).claimers[a].leasedUntil
    ensures var c, run := After(actions).claimers[a], actions + [Write(a, reply)] + more;
      && After(run).job == Some(Claimed(c.phase.job, c.leasedUntil)) && NoneStale(After(run))
      && forall b: nat :: Owns(After(run), b) ==> Owns(After(actions + [Write(a, reply)]), b)
    decreases |more|
  {
    hide Step, Ready, LockSound, UniqueTokens, Prompt, Current, NoneStale, Owns, Claimed, Claimable;
    var wrote := actions + [Write(a, reply)];
    var run := wrote + more;
    PromptFront(run);
    if |more| == 0 {
      assert run == wrote && run[..|run| - 1] == actions;
      AlwaysSound(actions);
      AfterWrite(After(actions), a, reply);
    } else {
      var front, action := more[..|more| - 1], more[|more| - 1];
      assert run[..|run| - 1] == wrote + front;
      assert run == (wrote + front) + [action];
      TimeGoesOn(wrote + front, [action]);
      LeaseExcludes(actions, a, reply, front);
      AlwaysSound(wrote + front);
      var c := After(actions).claimers[a];
      Unclaimable(c.phase.job, c.leasedUntil, After(wrote + front).now);
      if Ready(After(wrote + front), action) {
        LeaseLasts(After(wrote + front), action, Claimed(c.phase.job, c.leasedUntil));
      }
    }
  }

  /** Right after a write nobody else is between its read and its write. */
  lemma {:induction false} AfterWrite(w: World, a: nat, reply: Reply)
    requires LockSound(w) && Prompt(w) && !reply.Refused?
    requires a < |w.claimers| && w.claimers[a].phase.Found?
    ensures var next := Step(w, Write(a, reply));
      Ready(w, Write(a, reply)) && next.job == Some(Claimed(w.claimers[a].phase.job, w.claimers[a].leasedUntil))
          && NoneStale(next)
  {
    hide LockSound, Claimed;
    forall b | 0 <= b < |w.claimers| && w.claimers[b].phase.Found? ensures b == a {
      OneAtWork(w, a, b);
    }
  }

  // ------------------------------------------------------------ what promptness is for

  lemma {:induction false} OneMore(actions: seq<Action>, action: Action)
    requires Ready(After(actions), action)
    ensures After(actions + [action]) == Step(After(actions), action)
  {
    assert (actions + [action])[..|actions|] == actions;
  }

  /** The next call, up to its write. */
  function NextClaim(actions: seq<Action>, n: nat, token: string, leasedUntil: int): seq<Action> {
    actions + [Arrive(token, leasedUntil)] + [TryLock(n, Answered)] + [Read(n, Answered)] + [Write(n, Answered)]
  }

  /** A claimer that finds the lock free and the job claimable gets the job, and leaves the
      lock free behind it. */
  lemma {:induction false} ClaimCompletes(actions: seq<Action>, token: string, leasedUntil: int)
    requires var w := After(actions); !Live(w.lock, w.now) && w.job.Some? && Claimable(w.job.value, w.now)
    ensures var w := After(actions); var n := |w.claimers|;
      After(NextClaim(actions, n, token, leasedUntil) + [Unlock(n, Answered)])
      == w.(job := Some(w.job.value.(status := Running, attempts := w.job.value.attempts + 1,
                                     leasedUntil := Some(leasedUntil))),
            lock := None, claimers := w.claimers + [Claimer(token, leasedUntil, Done(true))])
  {
    hide After, Claimable;
    var w := After(actions);
    var n := |w.claimers|;
    var arrived := actions + [Arrive(token, leasedUntil)];
    OneMore(actions, Arrive(token, leasedUntil));
    OneMore(arrived, TryLock(n, Answered));
    var locked := arrived + [TryLock(n, Answered)];
    var lock := Some(Lock(token, n, w.now + LOCK_TTL_MS));
    assert After(locked) == w.(lock := lock, claimers := w.claimers + [Claimer(token, leasedUntil, Won(w.now))]);
    OneMore(locked, Read(n, Answered));
    var read := locked + [Read(n, Answered)];
    var found := Claimer(token, leasedUntil, Found(w.now, w.job.value, w.rewrites));
    assert After(read) == w.(lock := lock, claimers := w.claimers + [found]);
    OneMore(read, Write(n, Answered));
    OneMore(read + [Write(n, Answered)], Unlock(n, Answered));
  }

  /** A claimer that finds the lock taken, or the job gone or not claimable, is turned away
      and writes nothing. */
  lemma {:induction false} ClaimRefused(actions: seq<Action>, a: nat, reply: Reply)
    ensures var w := After(actions);
      && (Ready(w, TryLock(a, reply)) && Live(w.lock, w.now) ==>
            After(actions + [TryLock(a, reply)]) == At(w, a, Done(false)))
      && (Ready(w, Read(a, reply)) && (w.job.None? || !Claimable(w.job.value, w.now)) ==>
            After(actions + [Read(a, reply)]) == At(w, a, Unlocking(w.claimers[a].phase.since, false)))
  {
    hide After, Claimable;
    if Ready(After(actions), TryLock(a, reply)) {
      OneMore(actions, TryLock(a, reply));
    }
    if Ready(After(actions), Read(a, reply)) {
      OneMore(actions, Read(a, reply));
    }
  }

  /** The claimer's write of the record is answered in this event. */
  ghost predicate Writes(actions: seq<Action>, i: nat, a: nat)
    requires i < |actions|
  {
    actions[i] == Write(a, Answered) && Ready(After(actions[..i]), actions[i])
  }

  lemma {:induction false} WritesFront(actions: seq<Action>, action: Action, a: nat)
    ensures (exists i :: 0 <= i < |actions + [action]| && Writes(actions + [action], i, a)) <==>
              (exists i :: 0 <= i < |actions| && Writes(actions, i, a))
              || (action == Write(a, Answered) && Ready(After(actions), action))
  {
    hide After, Ready;
    var longer := actions + [action];
    assert longer[..|actions|] == actions;
    forall i | 0 <= i < |actions| ensures Writes(longer, i, a) <==> Writes(actions, i, a) {
      assert longer[..i] == actions[..i];
    }
    assert Writes(longer, |actions|, a) <==> action == Write(a, Answered) && Ready(After(actions), action);
    if i :| 0 <= i < |actions| && Writes(actions, i, a) {
      assert Writes(longer, i, a);
    }
    if i :| 0 <= i < |longer| && Writes(longer, i, a) {
      assert i < |actions| ==> Writes(actions, i, a);
    }
  }

  /** A claimer is told that the job is its own exactly when its write was answered. */
  lemma {:induction false} OwnsExactly(actions: seq<Action>, a: nat)
    ensures Owns(After(actions), a) <==> exists i :: 0 <= i < |actions| && Writes(actions, i, a)
  {
    if |actions| > 0 {
      var front, action := actions[..|actions| - 1], actions[|actions| - 1];
      assert actions == front + [action];
      OwnsExactly(front, a);
      WritesFront(front, action, a);
      hide Writes, Claimable, Claimed, Freed, Live;
    }
  }

  /** A claimer within its time to live frees its lock, and is told what it had written. */
  lemma {:induction false} FreesOwn(actions: seq<Action>, a: nat, reply: Reply)
    requires PromptRun(actions) && Ready(After(actions), Unlock(a, reply)) && !reply.Refused?
    requires Timely(After(actions), a)
    ensures var w, after := After(actions), After(actions + [Unlock(a, reply)]);
      after.lock == None && after.job == w.job && after.claimers[a].phase == Done(w.claimers[a].phase.claimed)
  {
    hide After, PromptRun, Current, Prompt;
    AlwaysSound(actions);
    OneMore(actions, Unlock(a, reply));
  }

  /** In every run, a claimer whose lock ran out between its read and its write claims the
      job beside the next call: both are told that they own it. */
  lemma {:induction false} OutlivedClaim(actions: seq<Action>, a: nat, token: string, leasedUntil: int)
    requires var w := After(actions);
      && a < |w.claimers| && w.claimers[a].phase.Found? && !Live(w.lock, w.now)
      && w.job.Some? && Claimable(w.job.value, w.now)
    ensures var n := |After(actions).claimers|;
            var w := After(NextClaim(actions, n, token, leasedUntil) + [Write(a, Answered)]);
      && a < n < |w.claimers| && w.now == After(actions).now
      && w.claimers[a].phase.Unlocking? && w.claimers[a].phase.claimed
      && w.claimers[n].phase.Unlocking? && w.claimers[n].phase.claimed
  {
    hide After, Claimable, Claimed;
    var w := After(actions);
    var n := |w.claimers|;
    var arrived := actions + [Arrive(token, leasedUntil)];
    OneMore(actions, Arrive(token, leasedUntil));
    OneMore(arrived, TryLock(n, Answered));
    var locked := arrived + [TryLock(n, Answered)];
    var lock := Some(Lock(token, n, w.now + LOCK_TTL_MS));
    assert After(locked) == w.(lock := lock, claimers := w.claimers + [Claimer(token, leasedUntil, Won(w.now))]);
    OneMore(locked, Read(n, Answered));
    var read := locked + [Read(n, Answered)];
    var found := Claimer(token, leasedUntil, Found(w.now, w.job.value, w.rewrites));
    assert After(read) == w.(lock := lock, claimers := w.claimers + [found]);
    OneMore(read, Write(n, Answered));
    OneMore(read + [Write(n, Answered)], Write(a, Answered));
  }

  /** Such runs exist: a first claimer reads a queued job and pauses. */
  lemma {:induction false} ClaimRunsOut(job: Job, token: string, leasedUntil: int) returns (actions: seq<Action>)
    requires job.status == Queued
    ensures var w := After(actions);
      && |w.claimers| == 1 && w.claimers[0].phase.Found? && !Live(w.lock, w.now)
      && w.job == Some(job) && Claimable(job, w.now) && UniqueTokens(w)
  {
    hide After;
    assert After([]) == EMPTY by { StartsEmpty(); }
    OneMore([], Rewrite(Some(job)));
    var there := [] + [Rewrite(Some(job))];
    OneMore(there, Arrive(token, leasedUntil));
    var arrived := there + [Arrive(token, leasedUntil)];
    OneMore(arrived, TryLock(0, Answered));
    var locked := arrived + [TryLock(0, Answered)];
    assert After(locked)
      == World(0, Some(job), 1, Some(Lock(token, 0, LOCK_TTL_MS)), [Claimer(token, leasedUntil, Won(0))]);
    OneMore(locked, Read(0, Answered));
    OneMore(locked + [Read(0, Answered)], Tick(LOCK_TTL_MS));
    actions := locked + [Read(0, Answered)] + [Tick(LOCK_TTL_MS)];
  }

  lemma {:induction false} StartsEmpty()
    ensures After([]) == EMPTY
  {}
}
