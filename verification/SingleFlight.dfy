/** The token-lock single flight in front of a Redis cache, one cache key at command
    granularity (src/shared/bridge-read-cache.ts:83-199, src/shared/redis-l2.ts:111-206).
    `strict` is the second instance: there a failing Redis command fails the call. */
module SingleFlight {
  import opened Basics
  import opened JsonValues
  import opened TokenLock

  datatype ReadResult = Ok(value: Json) | Failed

  datatype Config = Config(
    lockTtlMs: nat,
    waitTimeoutMs: nat,
    ttlMs: nat,
    emptyTtlMs: nat,
    shouldCache: Json -> bool,
    giveUp: Option<ReadResult>,
    strict: bool)

  /** Where a caller stands; `since` is when it acquired the lock. */
  datatype Phase =
    | Asking
    | Missed
    | Reading(since: int)
    | Storing(since: int, value: Json)
    | Unlocking(since: int, result: ReadResult)
    | Polling(deadline: int)
    | Woken(deadline: int)
    | Alone
    | Returned(result: ReadResult, fromCache: bool)

  /** `found` is what the caller's own read as lock winner returned, `alone` what its own
      read without the lock did, `stored` how its write of the cache went. */
  datatype Caller = Caller(
    token: string, phase: Phase, found: Option<ReadResult>, alone: Option<ReadResult>, stored: Option<Reply>)

  function NewCaller(token: string, phase: Phase): Caller {
    Caller(token, phase, None, None, None)
  }

  datatype Entry = Entry(value: Json, expires: int)

  datatype World = World(now: int, cache: Option<Entry>, lock: Option<Lock>, callers: seq<Caller>)

  /** One event: time passes, a call arrives, or one caller does its next command.
      `result` is what a read returns. */
  datatype Action =
    | Tick(ms: nat)
    | Arrive(token: string)
    | Get(a: nat, reply: Reply)
    | TryLock(a: nat, reply: Reply)
    | Read(a: nat, result: ReadResult)
    | Store(a: nat, reply: Reply)
    | Unlock(a: nat, reply: Reply)
    | Check(a: nat)
    | Poll(a: nat, reply: Reply)

  const EMPTY := World(0, None, None, [])

  /** `GET`: an expired entry is not there. */
  function Cached(w: World): Option<Json> {
    if w.cache.Some? && w.now < w.cache.value.expires then Some(w.cache.value.value) else None
  }

  predicate Locked(w: World) {
    Live(w.lock, w.now)
  }

  function ValueTtl(c: Config, value: Json): nat {
    if value.Arr? && |value.items| == 0 then c.emptyTtlMs else c.ttlMs
  }

  function At(w: World, a: nat, phase: Phase): World
    requires a < |w.callers|
  {
    w.(callers := w.callers[a := w.callers[a].(phase := phase)])
  }

  /** A command that failed. */
  function Degraded(c: Config): Phase {
    if c.strict then Returned(Failed, false) else Alone
  }

  /** The end of waiting. */
  function WaitedOut(c: Config): Phase {
    if c.giveUp.Some? then Returned(c.giveUp.value, false) else Alone
  }

  predicate Ready(w: World, action: Action) {
    match action
    case Tick(_) => true
    case Arrive(_) => true
    case Get(a, _) => a < |w.callers| && w.callers[a].phase.Asking?
    case TryLock(a, _) => a < |w.callers| && w.callers[a].phase.Missed?
    case Read(a, _) => a < |w.callers| && (w.callers[a].phase.Reading? || w.callers[a].phase.Alone?)
    case Store(a, _) => a < |w.callers| && w.callers[a].phase.Storing?
    case Unlock(a, _) => a < |w.callers| && w.callers[a].phase.Unlocking?
    case Check(a) => a < |w.callers| && w.callers[a].phase.Polling?
    case Poll(a, _) => a < |w.callers| && w.callers[a].phase.Woken?
  }

  function Step(c: Config, w: World, action: Action): World
    requires Ready(w, action)
  {
    match action
    case Tick(ms) => w.(now := w.now + ms)
    case Arrive(token) => w.(callers := w.callers + [NewCaller(token, Asking)])
    case Get(a, reply) =>
      if !reply.Answered? then At(w, a, Degraded(c))
      else if Cached(w).Some? then At(w, a, Returned(Ok(Cached(w).value), true))
      else At(w, a, Missed)
    case TryLock(a, reply) =>
      var won := !Locked(w) && !reply.Refused?;
      var locked := if won then w.(lock := Some(Lock(w.callers[a].token, a, w.now + c.lockTtlMs))) else w;
      At(locked, a, if !reply.Answered? then Degraded(c) else if won then Reading(w.now)
          else Polling(w.now + c.waitTimeoutMs))
    case Read(a, result) =>
      if w.callers[a].phase.Alone? then
        w.(callers := w.callers[a := w.callers[a].(phase := Returned(result, false), alone := Some(result))])
      else
        var since := w.callers[a].phase.since;
        var next := if result.Ok? && c.shouldCache(result.value) then Storing(since, result.value)
          else Unlocking(since, result);
        w.(callers := w.callers[a := w.callers[a].(phase := next, found := Some(result))])
    case Store(a, reply) =>
      var since, value := w.callers[a].phase.since, w.callers[a].phase.value;
      var stored := if reply.Refused? then w else w.(cache := Some(Entry(value, w.now + ValueTtl(c, value))));
      var next := Unlocking(since, if !reply.Answered? && c.strict then Failed else Ok(value));
      stored.(callers := w.callers[a := w.callers[a].(phase := next, stored := Some(reply))])
    case Unlock(a, reply) =>
      var released := if reply.Refused? then w else w.(lock := Freed(w.lock, w.now, w.callers[a].token));
      At(released, a, Returned(w.callers[a].phase.result, false))
    case Check(a) =>
      var deadline := w.callers[a].phase.deadline;
      At(w, a, if w.now < deadline then Woken(deadline) else WaitedOut(c))
    case Poll(a, reply) =>
      if !reply.Answered? then At(w, a, if c.strict then Returned(Failed, false) else WaitedOut(c))
      else if Cached(w).Some? then At(w, a, Returned(Ok(Cached(w).value), true))
      else At(w, a, Polling(w.callers[a].phase.deadline))
  }

  // ------------------------------------------------------------------- the invariant

  predicate Holds(p: Phase) {
    p.Reading? || p.Storing? || p.Unlocking?
  }

  ghost predicate UniqueTokens(w: World) {
    forall i, j :: 0 <= i < j < |w.callers| ==> w.callers[i].token != w.callers[j].token
  }

  /** A caller that won and whose lock has not run out. */
  predicate Timely(c: Config, w: World, a: nat)
    requires a < |w.callers|
  {
    Holds(w.callers[a].phase) && w.now < w.callers[a].phase.since + c.lockTtlMs
  }

  /** Some lock winner read the value, and it was accepted for the cache. */
  ghost predicate WinnerRead(c: Config, w: World, value: Json) {
    c.shouldCache(value) && exists b :: 0 <= b < |w.callers| && w.callers[b].found == Some(Ok(value))
  }

  ghost predicate LockSound(c: Config, w: World) {
    && (w.lock.Some? ==> w.lock.value.owner < |w.callers| && w.callers[w.lock.value.owner].token == w.lock.value.token)
    && forall a :: 0 <= a < |w.callers| && Timely(c, w, a) ==>
         w.lock == Some(Lock(w.callers[a].token, a, w.callers[a].phase.since + c.lockTtlMs))
  }

  lemma {:induction false} StepTokens(c: Config, w: World, action: Action)
    requires Ready(w, action) && UniqueTokens(Step(c, w, action))
    ensures UniqueTokens(w)
  {
    var next := Step(c, w, action);
    forall i, j | 0 <= i < j < |w.callers| ensures w.callers[i].token != w.callers[j].token {
      assert next.callers[i].token == w.callers[i].token && next.callers[j].token == w.callers[j].token;
    }
  }

  /** Changing one caller that does not hold the lock, or only moving it within its
      hold, keeps the lock sound. */
  lemma {:induction false} SameHold(c: Config, w: World, a: nat, caller: Caller, cache: Option<Entry>)
    requires LockSound(c, w) && a < |w.callers| && caller.token == w.callers[a].token
    requires Holds(caller.phase) ==> Holds(w.callers[a].phase) && caller.phase.since == w.callers[a].phase.since
    ensures LockSound(c, w.(callers := w.callers[a := caller], cache := cache))
  {
    var next := w.(callers := w.callers[a := caller], cache := cache);
    forall b | 0 <= b < |next.callers| && Timely(c, next, b)
      ensures next.lock == Some(Lock(next.callers[b].token, b, next.callers[b].phase.since + c.lockTtlMs))
    {
      assert Timely(c, w, b);
    }
  }

  /** The lock changes hands only while nobody holds it within its time to live. */
  lemma {:induction false} AcquireSound(c: Config, w: World, a: nat, reply: Reply)
    requires Ready(w, TryLock(a, reply)) && LockSound(c, w) && !Locked(w) && !reply.Refused?
    ensures LockSound(c, Step(c, w, TryLock(a, reply)))
  {
    var next := Step(c, w, TryLock(a, reply));
    forall b | 0 <= b < |next.callers| && Timely(c, next, b)
      ensures next.lock == Some(Lock(next.callers[b].token, b, next.callers[b].phase.since + c.lockTtlMs))
    {
      assert b != a ==> Timely(c, w, b);
    }
  }

  lemma {:induction false} UnlockSound(c: Config, w: World, a: nat, reply: Reply)
    requires Ready(w, Unlock(a, reply)) && LockSound(c, w) && UniqueTokens(w)
    ensures LockSound(c, Step(c, w, Unlock(a, reply)))
  {
    var next := Step(c, w, Unlock(a, reply));
    UnlockOwn(c, w, a, reply);
    forall b | 0 <= b < |next.callers| && Timely(c, next, b)
      ensures next.lock == Some(Lock(next.callers[b].token, b, next.callers[b].phase.since + c.lockTtlMs))
    {
      assert Timely(c, w, b);
    }
  }

  lemma {:induction false} LockMoves(c: Config, w: World, action: Action)
    requires Ready(w, action) && LockSound(c, w) && UniqueTokens(w)
    ensures LockSound(c, Step(c, w, action))
  {
    hide LockSound, UniqueTokens, ValueTtl, Cached;
    var next := Step(c, w, action);
    match action {
      case TryLock(a, reply) =>
        if !reply.Refused? && !Locked(w) {
          AcquireSound(c, w, a, reply);
        } else {
          SameHold(c, w, a, next.callers[a], next.cache);
        }
      case Unlock(a, reply) => UnlockSound(c, w, a, reply);
      case Tick(ms) => LaterSound(c, w, ms);
      case Arrive(token) => ArriveSound(c, w, token);
      case Store(a, _) => SameHold(c, w, a, next.callers[a], next.cache);
      case Get(a, _) => SameHold(c, w, a, next.callers[a], next.cache);
      case Read(a, _) => SameHold(c, w, a, next.callers[a], next.cache);
      case Check(a) => SameHold(c, w, a, next.callers[a], next.cache);
      case Poll(a, _) => SameHold(c, w, a, next.callers[a], next.cache);
    }
  }

  lemma {:induction false} ArriveSound(c: Config, w: World, token: string)
    requires LockSound(c, w)
    ensures LockSound(c, w.(callers := w.callers + [NewCaller(token, Asking)]))
  {
    var next := w.(callers := w.callers + [NewCaller(token, Asking)]);
    forall b | 0 <= b < |next.callers| && Timely(c, next, b)
      ensures next.lock == Some(Lock(next.callers[b].token, b, next.callers[b].phase.since + c.lockTtlMs))
    {
      assert Timely(c, w, b);
    }
  }

  lemma {:induction false} LaterSound(c: Config, w: World, ms: nat)
    requires LockSound(c, w)
    ensures LockSound(c, w.(now := w.now + ms))
  {
    forall b | 0 <= b < |w.callers| && Timely(c, w.(now := w.now + ms), b) ensures Timely(c, w, b) {}
  }

  /** A compare-and-delete removes no lock but the caller's own, expired or not. */
  lemma {:induction false} UnlockOwn(c: Config, w: World, a: nat, reply: Reply)
    requires Ready(w, Unlock(a, reply)) && LockSound(c, w) && UniqueTokens(w)
    ensures var next := Step(c, w, Unlock(a, reply));
      next.lock != w.lock ==> w.lock.Some? && w.lock.value.owner == a && next.lock == None
  {}

  lemma {:induction false} ReadKept(c: Config, w: World, next: World, value: Json)
    requires WinnerRead(c, w, value) && |w.callers| <= |next.callers|
    requires forall b :: 0 <= b < |w.callers| && w.callers[b].found.Some? ==>
             next.callers[b].found == w.callers[b].found
    ensures WinnerRead(c, next, value)
  {}

  /** The answer of a lock winner: what it read, unless its accepted read could not be
      stored and failing commands fail the call. */
  ghost predicate WinnerAnswer(c: Config, caller: Caller, r: ReadResult) {
    && caller.found.Some?
    && (|| r == caller.found.value
        || (c.strict && r == Failed && caller.found.value.Ok? && c.shouldCache(caller.found.value.value)
            && caller.stored.Some? && !caller.stored.value.Answered?))
  }

  /** The answer of a caller that was not served from the cache: a winner's, that of its own
      read, or, without any read, a failed command or the end of waiting. */
  ghost predicate OwnAnswer(c: Config, caller: Caller, r: ReadResult) {
    if caller.found.Some? then WinnerAnswer(c, caller, r)
    else if caller.alone.Some? then r == caller.alone.value
    else (c.strict && r == Failed) || c.giveUp == Some(r)
  }

  /** What is known of one caller's values. */
  ghost predicate CallerSound(c: Config, w: World, caller: Caller) {
    var p := caller.phase;
    && (p.Unlocking? ==> WinnerAnswer(c, caller, p.result))
    && (p.Returned? && !p.fromCache ==> OwnAnswer(c, caller, p.result))
    && (caller.alone.Some? ==> p.Returned? && caller.found.None?)
    && (p.Storing? ==> c.shouldCache(p.value) && caller.found == Some(Ok(p.value)))
    && (p.Returned? && p.fromCache ==> p.result.Ok? && WinnerRead(c, w, p.result.value))
    && (caller.found.Some? ==> p.Storing? || p.Unlocking? || p.Returned?)
  }

  ghost predicate ValuesSound(c: Config, w: World) {
    && (w.cache.Some? ==> WinnerRead(c, w, w.cache.value.value))
    && forall a :: 0 <= a < |w.callers| ==> CallerSound(c, w, w.callers[a])
  }

  /** No step forgets what a winner read. */
  lemma {:induction false} FoundKept(c: Config, w: World, action: Action, b: nat)
    requires Ready(w, action) && ValuesSound(c, w) && b < |w.callers| && w.callers[b].found.Some?
    ensures b < |Step(c, w, action).callers| && Step(c, w, action).callers[b].found == w.callers[b].found
  {
    hide ValueTtl, Cached, WinnerRead;
    assert CallerSound(c, w, w.callers[b]);
  }

  lemma {:induction false} CallerMoves(c: Config, w: World, action: Action, a: nat)
    requires Ready(w, action) && ValuesSound(c, w) && a < |Step(c, w, action).callers|
    ensures CallerSound(c, w, Step(c, w, action).callers[a]) || (action.Read? && action.a == a)
    ensures action.Read? && action.a == a ==>
              (var p := Step(c, w, action).callers[a].phase; var found := Step(c, w, action).callers[a].found;
               && (p.Storing? ==> c.shouldCache(p.value) && found == Some(Ok(p.value)))
               && !(p.Returned? && p.fromCache) && (p.Storing? || p.Unlocking? || p.Returned?)
               && (p.Unlocking? ==> WinnerAnswer(c, Step(c, w, action).callers[a], p.result))
               && (p.Returned? ==> OwnAnswer(c, Step(c, w, action).callers[a], p.result))
               && (Step(c, w, action).callers[a].alone.Some? ==> p.Returned? && found.None?))
  {
    hide ValueTtl, WinnerRead;
    if a < |w.callers| {
      assert CallerSound(c, w, w.callers[a]);
    }
  }

  lemma {:induction false} CacheMoves(c: Config, w: World, action: Action)
    requires Ready(w, action) && ValuesSound(c, w) && Step(c, w, action).cache.Some?
    ensures WinnerRead(c, w, Step(c, w, action).cache.value.value)
  {
    hide ValueTtl, Cached;
    if action.Store? {
      assert CallerSound(c, w, w.callers[action.a]);
    }
  }

  lemma {:induction false} ValuesMove(c: Config, w: World, action: Action)
    requires Ready(w, action) && ValuesSound(c, w)
    ensures ValuesSound(c, Step(c, w, action))
  {
    var next := Step(c, w, action);
    forall b | 0 <= b < |w.callers| && w.callers[b].found.Some?
      ensures b < |next.callers| && next.callers[b].found == w.callers[b].found
    {
      FoundKept(c, w, action, b);
    }
    MoreCallers(c, w, action);
    hide Step, Ready, ValuesSound;
    forall a | 0 <= a < |next.callers| ensures CallerSound(c, next, next.callers[a]) {
      CallerMoves(c, w, action, a);
      CallerKept(c, w, next, next.callers[a]);
    }
    if next.cache.Some? {
      CacheMoves(c, w, action);
      ReadKept(c, w, next, next.cache.value.value);
    }
    assert ValuesSound(c, next) by { AllSound(c, next); }
  }

  lemma {:induction false} MoreCallers(c: Config, w: World, action: Action)
    requires Ready(w, action)
    ensures |w.callers| <= |Step(c, w, action).callers|
  {}

  lemma {:induction false} CallerKept(c: Config, w: World, next: World, caller: Caller)
    requires CallerSound(c, w, caller) && |w.callers| <= |next.callers|
    requires forall b :: 0 <= b < |w.callers| && w.callers[b].found.Some? ==>
             next.callers[b].found == w.callers[b].found
    ensures CallerSound(c, next, caller)
  {
    var p := caller.phase;
    if p.Returned? && p.fromCache {
      ReadKept(c, w, next, p.result.value);
    }
  }

  lemma {:induction false} AllSound(c: Config, w: World)
    requires w.cache.Some? ==> WinnerRead(c, w, w.cache.value.value)
    requires forall a :: 0 <= a < |w.callers| ==> CallerSound(c, w, w.callers[a])
    ensures ValuesSound(c, w)
  {}

  // -------------------------------------------------------------------- main theorems

  /** The state after any run; events that are not enabled change nothing. */
  function After(c: Config, actions: seq<Action>): World {
    if |actions| == 0 then EMPTY
    else
      var w, action := After(c, actions[..|actions| - 1]), actions[|actions| - 1];
      if Ready(w, action) then Step(c, w, action) else w
  }

  lemma {:induction false} AlwaysLocked(c: Config, actions: seq<Action>)
    requires UniqueTokens(After(c, actions))
    ensures LockSound(c, After(c, actions))
  {
    if |actions| > 0 {
      hide Step, Ready, LockSound, UniqueTokens;
      var w, action := After(c, actions[..|actions| - 1]), actions[|actions| - 1];
      if Ready(w, action) {
        StepTokens(c, w, action);
        AlwaysLocked(c, actions[..|actions| - 1]);
        LockMoves(c, w, action);
      } else {
        AlwaysLocked(c, actions[..|actions| - 1]);
      }
    }
  }

  lemma {:induction false} AlwaysValued(c: Config, actions: seq<Action>)
    ensures ValuesSound(c, After(c, actions))
  {
    if |actions| > 0 {
      hide Step, Ready, ValuesSound;
      AlwaysValued(c, actions[..|actions| - 1]);
      if Ready(After(c, actions[..|actions| - 1]), actions[|actions| - 1]) {
        ValuesMove(c, After(c, actions[..|actions| - 1]), actions[|actions| - 1]);
      }
    }
  }

  /** With unique tokens a compare-and-delete never removes another caller's lock, even
      when the caller's own lock ran out long ago. */
  lemma {:induction false} DeletesOnlyOwn(c: Config, actions: seq<Action>, a: nat, reply: Reply)
    requires UniqueTokens(After(c, actions)) && Ready(After(c, actions), Unlock(a, reply))
    ensures var w := After(c, actions); var next := Step(c, w, Unlock(a, reply));
      next.lock != w.lock ==> w.lock.Some? && w.lock.value.owner == a && next.lock == None
  {
    hide After;
    AlwaysLocked(c, actions);
    UnlockOwn(c, After(c, actions), a, reply);
  }

  /** With unique tokens at most one caller holds the lock within its time to live. */
  lemma {:induction false} OneTimelyWinner(c: Config, actions: seq<Action>, a: nat, b: nat)
    requires UniqueTokens(After(c, actions)) && a < |After(c, actions).callers| && b < |After(c, actions).callers|
    requires Timely(c, After(c, actions), a) && Timely(c, After(c, actions), b)
    ensures a == b
  {
    hide After;
    AlwaysLocked(c, actions);
  }

  /** If no winner outlives its lock, at most one caller reads as winner at a time. */
  lemma {:induction false} OneReader(c: Config, actions: seq<Action>, a: nat, b: nat)
    requires UniqueTokens(After(c, actions)) && a < |After(c, actions).callers| && b < |After(c, actions).callers|
    requires forall x :: 0 <= x < |After(c, actions).callers| && After(c, actions).callers[x].phase.Reading? ==>
               After(c, actions).now < After(c, actions).callers[x].phase.since + c.lockTtlMs
    requires After(c, actions).callers[a].phase.Reading? && After(c, actions).callers[b].phase.Reading?
    ensures a == b
  {
    hide After;
    OneTimelyWinner(c, actions, a, b);
  }

  /** Whatever the cache holds or a caller is served from it is a successful read of a
      lock winner that `shouldCache` accepted. */
  lemma {:induction false} OnlyAcceptedReads(c: Config, actions: seq<Action>)
    ensures var w := After(c, actions);
      && (w.cache.Some? ==> WinnerRead(c, w, w.cache.value.value))
      && forall a :: 0 <= a < |w.callers| && w.callers[a].phase.Returned? && w.callers[a].phase.fromCache ==>
           w.callers[a].phase.result.Ok? && WinnerRead(c, w, w.callers[a].phase.result.value)
  {
    hide After, WinnerRead;
    AlwaysValued(c, actions);
    var w := After(c, actions);
    forall a | 0 <= a < |w.callers| && w.callers[a].phase.Returned? && w.callers[a].phase.fromCache
      ensures w.callers[a].phase.result.Ok? && WinnerRead(c, w, w.callers[a].phase.result.value)
    {
      assert CallerSound(c, w, w.callers[a]);
    }
  }

  lemma {:induction false} OneMore(c: Config, actions: seq<Action>, action: Action)
    requires Ready(After(c, actions), action)
    ensures After(c, actions + [action]) == Step(c, After(c, actions), action)
  {
    assert (actions + [action])[..|actions|] == actions;
  }

  lemma {:induction false} StartsEmpty(c: Config)
    ensures After(c, []) == EMPTY
  {}

  /** The next call after `actions`, with this token, up to its attempt at the lock. */
  function Next(actions: seq<Action>, n: nat, token: string): seq<Action> {
    actions + [Arrive(token)] + [Get(n, Answered)] + [TryLock(n, Answered)]
  }

  /** While no live lock is set and nothing is cached, the next call wins the lock and
      reads, whoever else is reading. */
  lemma {:induction false} NextWins(c: Config, actions: seq<Action>, token: string)
    requires var w := After(c, actions); !Locked(w) && Cached(w).None?
    ensures var w := After(c, actions); var n := |w.callers|;
      After(c, Next(actions, n, token))
      == w.(lock := Some(Lock(token, n, w.now + c.lockTtlMs)),
          callers := w.callers + [NewCaller(token, Reading(w.now))])
  {
    hide After;
    var w := After(c, actions);
    var n := |w.callers|;
    OneMore(c, actions, Arrive(token));
    var arrived := actions + [Arrive(token)];
    assert After(c, arrived) == w.(callers := w.callers + [NewCaller(token, Asking)]);
    OneMore(c, arrived, Get(n, Answered));
    assert After(c, arrived + [Get(n, Answered)]) == w.(callers := w.callers + [NewCaller(token, Missed)]);
    OneMore(c, arrived + [Get(n, Answered)], TryLock(n, Answered));
  }

  /** The time to live matters: in every run a winner that still reads when its lock has
      run out will read beside the next call, even with unique tokens. */
  lemma {:induction false} OutlivedLock(c: Config, actions: seq<Action>, a: nat, token: string)
    requires var w := After(c, actions);
      && a < |w.callers| && w.callers[a].phase.Reading? && !Locked(w) && Cached(w).None?
      && UniqueTokens(w) && forall b :: 0 <= b < |w.callers| ==> w.callers[b].token != token
    ensures var n := |After(c, actions).callers|; var w := After(c, Next(actions, n, token));
      a < n < |w.callers| && UniqueTokens(w) && w.callers[a].phase.Reading? && w.callers[n].phase.Reading?
  {
    hide After, Next, Cached;
    NextWins(c, actions, token);
  }

  /** And so does the token: in every such run, if the next call has the same token, the
      late winner deletes its live lock. */
  lemma {:induction false} SharedTokenSteals(c: Config, actions: seq<Action>, a: nat)
    requires var w := After(c, actions);
      a < |w.callers| && w.callers[a].phase.Reading? && !Locked(w) && Cached(w).None? && c.lockTtlMs > 0
    ensures var before := After(c, actions); var n := |before.callers|;
      var w := After(c, Next(actions, n, before.callers[a].token) + [Read(a, Failed)]);
      && a < n < |w.callers| && Ready(w, Unlock(a, Answered)) && Timely(c, w, n) && w.lock.Some?
         && w.lock.value.owner == n
      && Step(c, w, Unlock(a, Answered)).lock == None
  {
    hide After, Next, Cached;
    var token := After(c, actions).callers[a].token;
    NextWins(c, actions, token);
    OneMore(c, Next(actions, |After(c, actions).callers|, token), Read(a, Failed));
  }

  /** Such runs exist for every configuration: a first caller reads until its lock has
      run out. */
  lemma {:induction false} LockRunsOut(c: Config, token: string) returns (actions: seq<Action>)
    ensures var w := After(c, actions);
      && |w.callers| == 1 && w.callers[0].token == token && w.callers[0].phase.Reading?
      && !Locked(w) && Cached(w).None? && UniqueTokens(w)
  {
    hide After;
    StartsEmpty(c);
    NextWins(c, [], token);
    var read := Next([], 0, token);
    OneMore(c, read, Tick(c.lockTtlMs));
    actions := read + [Tick(c.lockTtlMs)];
  }

  // ------------------------------------------------------------------------- answers

  /** Whoever is not served from the cache is answered with its own read; the exceptions are
      an accepted read that could not be stored where failing commands fail the call, a
      failed command there, and the end of waiting. */
  lemma {:induction false} OwnAnswers(c: Config, actions: seq<Action>, a: nat)
    requires var w := After(c, actions);
      a < |w.callers| && w.callers[a].phase.Returned? && !w.callers[a].phase.fromCache
    ensures OwnAnswer(c, After(c, actions).callers[a], After(c, actions).callers[a].phase.result)
  {
    hide After;
    AlwaysValued(c, actions);
    assert CallerSound(c, After(c, actions), After(c, actions).callers[a]);
  }

  /** A read is recorded as the caller's own; one without the lock is the answer at once. */
  lemma {:induction false} ReadRecorded(c: Config, actions: seq<Action>, a: nat, result: ReadResult)
    requires Ready(After(c, actions), Read(a, result))
    ensures var before, caller := After(c, actions).callers[a], After(c, actions + [Read(a, result)]).callers[a];
      && (before.phase.Reading? ==>
            caller.found == Some(result)
            && (if result.Ok? && c.shouldCache(result.value)
                then caller.phase == Storing(before.phase.since, result.value)
                else caller.phase == Unlocking(before.phase.since, result)))
      && (before.phase.Alone? ==> caller.alone == Some(result) && caller.phase == Returned(result, false))
  {
    hide After;
    OneMore(c, actions, Read(a, result));
  }

  // --------------------------------------------------------------------------- the cache

  /** No write of the cache takes effect. */
  ghost predicate NoWrites(more: seq<Action>) {
    forall i :: 0 <= i < |more| && more[i].Store? ==> more[i].reply.Refused?
  }

  lemma {:induction false} CacheStays(c: Config, actions: seq<Action>, more: seq<Action>)
    requires NoWrites(more)
    ensures After(c, actions + more).cache == After(c, actions).cache
    ensures After(c, actions + more).now >= After(c, actions).now
    decreases |more|
  {
    if |more| == 0 {
      assert actions + more == actions;
    } else {
      var front := more[..|more| - 1];
      assert (actions + more)[..|actions + more| - 1] == actions + front;
      CacheStays(c, actions, front);
      hide ValueTtl, Cached, Live, Freed;
    }
  }

  /** A stored value is served until its time to live has run out, and not beyond, unless
      another write comes first: an empty array's is its own. */
  lemma {:induction false} StoredUntil(c: Config, actions: seq<Action>, a: nat, reply: Reply, more: seq<Action>)
    requires Ready(After(c, actions), Store(a, reply)) && !reply.Refused? && NoWrites(more)
    ensures var w := After(c, actions); var value := w.callers[a].phase.value;
      var later := After(c, actions + [Store(a, reply)] + more);
      var ttl := if value == Arr([]) then c.emptyTtlMs else c.ttlMs;
      Cached(later) == if later.now < w.now + ttl then Some(value) else None
  {
    hide After;
    OneMore(c, actions, Store(a, reply));
    CacheStays(c, actions + [Store(a, reply)], more);
  }

  /** While a value is cached, the next call is served it at once. */
  lemma {:induction false} CacheServes(c: Config, actions: seq<Action>, token: string)
    requires Cached(After(c, actions)).Some?
    ensures var w := After(c, actions); var n := |w.callers|;
      var next := After(c, actions + [Arrive(token)] + [Get(n, Answered)]);
      n < |next.callers| && next.callers[n].phase == Returned(Ok(Cached(w).value), true)
  {
    hide After;
    OneMore(c, actions, Arrive(token));
    OneMore(c, actions + [Arrive(token)], Get(|After(c, actions).callers|, Answered));
  }

  // --------------------------------------------------------------------------- waiting

  predicate Waits(p: Phase) {
    p.Polling? || p.Woken?
  }

  /** Every poll of the caller is answered. */
  ghost predicate PollsAnswered(more: seq<Action>, a: nat) {
    forall i :: 0 <= i < |more| && more[i].Poll? && more[i].a == a ==> more[i].reply.Answered?
  }

  /** Who loses the lock waits for the full waiting time. */
  lemma {:induction false} LosesAndWaits(c: Config, actions: seq<Action>, a: nat)
    requires Ready(After(c, actions), TryLock(a, Answered)) && Live(After(c, actions).lock, After(c, actions).now)
    ensures After(c, actions + [TryLock(a, Answered)]).callers[a].phase
         == Polling(After(c, actions).now + c.waitTimeoutMs)
  {
    hide After;
    OneMore(c, actions, TryLock(a, Answered));
  }

  /** Until its deadline a waiter waits or is served from the cache, while its polls are
      answered; it does not read and does not give up. */
  lemma {:induction false} WaitsOut(c: Config, actions: seq<Action>, a: nat, more: seq<Action>)
    requires a < |After(c, actions).callers| && Waits(After(c, actions).callers[a].phase) && PollsAnswered(more, a)
    requires After(c, actions + more).now < After(c, actions).callers[a].phase.deadline
    ensures a < |After(c, actions + more).callers|
    ensures var d, p := After(c, actions).callers[a].phase.deadline, After(c, actions + more).callers[a].phase;
      (Waits(p) && p.deadline == d) || (p.Returned? && p.fromCache && p.result.Ok?)
    decreases |more|
  {
    if |more| == 0 {
      assert actions + more == actions;
    } else {
      var front := more[..|more| - 1];
      assert (actions + more)[..|actions + more| - 1] == actions + front;
      hide ValueTtl, Live, Freed;
      WaitsOut(c, actions, a, front);
    }
  }

  /** A waiter that polls while the value is cached is served it. */
  lemma {:induction false} WaiterServed(c: Config, actions: seq<Action>, a: nat)
    requires Ready(After(c, actions), Poll(a, Answered)) && Cached(After(c, actions)).Some?
    ensures var next := After(c, actions + [Poll(a, Answered)]);
      next.callers[a].phase == Returned(Ok(Cached(After(c, actions)).value), true)
  {
    hide After;
    OneMore(c, actions, Poll(a, Answered));
  }

  /** At its deadline it reads by itself, or gives the result that stands for giving up. */
  lemma {:induction false} WaitingEnds(c: Config, actions: seq<Action>, a: nat)
    requires Ready(After(c, actions), Check(a)) && After(c, actions).now >= After(c, actions).callers[a].phase.deadline
    ensures After(c, actions + [Check(a)]).callers[a].phase
         == if c.giveUp.None? then Alone else Returned(c.giveUp.value, false)
  {
    hide After;
    OneMore(c, actions, Check(a));
  }

  // ---------------------------------------------------------------------- failed commands

  /** A command that fails before the caller has read ends a strict call as failed; otherwise
      the caller reads by itself, or a waiter stops waiting. A failed unlock changes nothing. */
  lemma {:induction false} CommandFails(c: Config, actions: seq<Action>, a: nat, reply: Reply)
    requires !reply.Answered? && a < |After(c, actions).callers|
    ensures var w := After(c, actions); var gone := if c.strict then Returned(Failed, false) else Alone;
      var waited := if !c.strict && c.giveUp.Some? then Returned(c.giveUp.value, false) else gone;
      && (Ready(w, Get(a, reply)) ==> After(c, actions + [Get(a, reply)]).callers[a].phase == gone)
      && (Ready(w, TryLock(a, reply)) ==> After(c, actions + [TryLock(a, reply)]).callers[a].phase == gone)
      && (Ready(w, Poll(a, reply)) ==> After(c, actions + [Poll(a, reply)]).callers[a].phase == waited)
      && (Ready(w, Unlock(a, reply)) ==> After(c, actions + [Unlock(a, reply)]).callers[a].phase
                                         == Returned(w.callers[a].phase.result, false))
  {
    hide After, Freed, Live;
    var w := After(c, actions);
    if Ready(w, Get(a, reply)) {
      OneMore(c, actions, Get(a, reply));
    } else if Ready(w, TryLock(a, reply)) {
      OneMore(c, actions, TryLock(a, reply));
    } else if Ready(w, Poll(a, reply)) {
      OneMore(c, actions, Poll(a, reply));
    } else if Ready(w, Unlock(a, reply)) {
      OneMore(c, actions, Unlock(a, reply));
    }
  }

  // ----------------------------------------------------------------------- the own lock

  /** A winner within its time to live frees its lock, so that the next call can win. */
  lemma {:induction false} FreesOwn(c: Config, actions: seq<Action>, a: nat, reply: Reply)
    requires UniqueTokens(After(c, actions)) && Ready(After(c, actions), Unlock(a, reply)) && !reply.Refused?
    requires Timely(c, After(c, actions), a)
    ensures After(c, actions + [Unlock(a, reply)]).lock == None
  {
    hide After;
    AlwaysLocked(c, actions);
    OneMore(c, actions, Unlock(a, reply));
  }
}
