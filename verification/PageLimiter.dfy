/** The page concurrency limiter (src/shared/browser-service.ts:92-168) as a state
    machine over its three events: a request, a timeout, a call of a release closure. */
module PageLimiter {
  import opened Basics

  /** What became of a request: its promise, and the `released` flag of its closure. */
  datatype Fate = Waiting | Granted(released: bool) | TimedOut

  datatype Entry = Entry(id: nat, maxConcurrent: int)

  /** `fates[id]` belongs to the id-th request; `order` lists grants as they happen. */
  datatype Limiter = Limiter(active: int, queue: seq<Entry>, fates: seq<Fate>, order: seq<nat>)

  datatype Action = Acquire(maxConcurrent: real) | Expire(id: nat) | Release(id: nat)

  const IDLE := Limiter(0, [], [], [])

  function AtLeastOne(n: int): int {
    if n < 1 then 1 else n
  }

  function Grant(s: Limiter, id: nat): Limiter
    requires id < |s.fates|
  {
    s.(active := s.active + 1, fates := s.fates[id := Granted(false)], order := s.order + [id])
  }

  /** Grant from the head of the queue while the head's maximum allows. */
  function Drain(s: Limiter): Limiter
    requires forall e :: e in s.queue ==> e.id < |s.fates|
    decreases |s.queue|
  {
    if |s.queue| == 0 || s.active >= AtLeastOne(s.queue[0].maxConcurrent) then s
    else Drain(Grant(s.(queue := s.queue[1..]), s.queue[0].id))
  }

  function Without(queue: seq<Entry>, id: nat): seq<Entry> {
    if |queue| == 0 then []
    else if queue[0].id == id then queue[1..]
    else [queue[0]] + Without(queue[1..], id)
  }

  ghost predicate Known(s: Limiter) {
    forall e :: e in s.queue ==> e.id < |s.fates|
  }

  function Step(s: Limiter, action: Action): Limiter
    requires Known(s)
  {
    match action
    case Acquire(maxConcurrent) =>
      var max, id := AtLeastOne(maxConcurrent.Floor), |s.fates|;
      var asked := s.(fates := s.fates + [Waiting]);
      if s.active < max then Grant(asked, id) else asked.(queue := s.queue + [Entry(id, max)])
    case Expire(id) =>
      // A grant clears the timer, so it fires only for a request that still waits.
      if id < |s.fates| && s.fates[id] == Waiting
      then s.(queue := Without(s.queue, id), fates := s.fates[id := TimedOut])
      else s
    case Release(id) =>
      if id < |s.fates| && s.fates[id] == Granted(false)
      then Drain(s.(fates := s.fates[id := Granted(true)], active := if s.active - 1 < 0 then 0 else s.active - 1))
      else s
  }

  // ------------------------------------------------------------- what every step keeps

  /** The grants whose closure has not been called. */
  function Outstanding(fates: seq<Fate>): nat {
    if |fates| == 0 then 0
    else Outstanding(fates[..|fates| - 1]) + if fates[|fates| - 1] == Granted(false) then 1 else 0
  }

  ghost predicate Increasing(queue: seq<Entry>) {
    forall i, j :: 0 <= i < j < |queue| ==> queue[i].id < queue[j].id
  }

  /** The queue holds exactly the waiting requests, in the order they were made. */
  ghost predicate Lined(queue: seq<Entry>, fates: seq<Fate>) {
    && Increasing(queue)
    && (forall e :: e in queue ==> e.id < |fates| && fates[e.id] == Waiting)
    && (forall id: nat :: id < |fates| && fates[id] == Waiting ==> Queued(queue, id))
  }

  ghost predicate Queued(queue: seq<Entry>, id: nat) {
    exists k :: 0 <= k < |queue| && queue[k].id == id
  }

  /** The granted requests, each once. */
  ghost predicate Logged(order: seq<nat>, fates: seq<Fate>) {
    Distinct(order) && forall id: nat :: id in order <==> id < |fates| && fates[id].Granted?
  }

  /** `active` counts the grants not yet released. */
  ghost predicate Consistent(s: Limiter) {
    s.active == Outstanding(s.fates) && Lined(s.queue, s.fates) && Logged(s.order, s.fates)
  }

  lemma {:induction false} OutstandingSet(fates: seq<Fate>, id: nat, f: Fate)
    requires id < |fates|
    ensures Outstanding(fates[id := f])
         == Outstanding(fates) - (if fates[id] == Granted(false) then 1 else 0) + (if f == Granted(false) then 1 else 0)
  {
    var n := |fates| - 1;
    if id < n {
      OutstandingSet(fates[..n], id, f);
      assert fates[id := f][..n] == fates[..n][id := f];
    } else {
      assert fates[id := f][..n] == fates[..n];
    }
  }

  lemma {:induction false} OutstandingPush(fates: seq<Fate>, f: Fate)
    ensures Outstanding(fates + [f]) == Outstanding(fates) + if f == Granted(false) then 1 else 0
  {
    assert (fates + [f])[..|fates|] == fates;
  }

  /** A new request that is not queued leaves the line as it is. */
  lemma {:induction false} LinedSettles(queue: seq<Entry>, fates: seq<Fate>, f: Fate)
    requires Lined(queue, fates) && f != Waiting
    ensures Lined(queue, fates + [f])
  {}

  lemma {:induction false} LinedGrows(queue: seq<Entry>, fates: seq<Fate>, max: int)
    requires Lined(queue, fates)
    ensures Lined(queue + [Entry(|fates|, max)], fates + [Waiting])
  {
    var id := |fates|;
    var longer, after := queue + [Entry(id, max)], fates + [Waiting];
    forall x: nat | x < |after| && after[x] == Waiting ensures Queued(longer, x) {
      if x == id {
        assert longer[|queue|].id == id;
      } else {
        var k :| 0 <= k < |queue| && queue[k].id == x;
        assert longer[k].id == x;
      }
    }
  }

  lemma {:induction false} LoggedGrows(order: seq<nat>, fates: seq<Fate>, id: nat)
    requires Logged(order, fates) && id < |fates| && !fates[id].Granted?
    ensures Logged(order + [id], fates[id := Granted(false)])
  {}

  lemma {:induction false} LoggedPush(order: seq<nat>, fates: seq<Fate>)
    requires Logged(order, fates)
    ensures Logged(order, fates + [Waiting])
  {}

  lemma {:induction false} AcquireConsistent(s: Limiter, maxConcurrent: real)
    requires Consistent(s)
    ensures Consistent(Step(s, Acquire(maxConcurrent)))
  {
    hide Lined, Logged, Outstanding;
    var id, max := |s.fates|, AtLeastOne(maxConcurrent.Floor);
    OutstandingPush(s.fates, Waiting);
    LoggedPush(s.order, s.fates);
    LinedGrows(s.queue, s.fates, max);
    LinedSettles(s.queue, s.fates, Granted(false));
    OutstandingSet(s.fates + [Waiting], id, Granted(false));
    LoggedGrows(s.order, s.fates + [Waiting], id);
    assert (s.fates + [Waiting])[id := Granted(false)] == s.fates + [Granted(false)];
  }

  lemma {:induction false} WithoutKeeps(queue: seq<Entry>, id: nat)
    requires Increasing(queue)
    ensures Increasing(Without(queue, id))
    ensures forall e :: e in Without(queue, id) <==> e in queue && e.id != id
  {
    if |queue| > 0 && queue[0].id != id {
      WithoutKeeps(queue[1..], id);
    }
  }

  /** The request leaves the line and waits no longer. */
  lemma {:induction false} LinedLeaves(queue: seq<Entry>, fates: seq<Fate>, id: nat, f: Fate)
    requires Lined(queue, fates) && id < |fates| && f != Waiting
    ensures Lined(Without(queue, id), fates[id := f])
  {
    hide Without;
    WithoutKeeps(queue, id);
    var r, after := Without(queue, id), fates[id := f];
    forall x: nat | x < |after| && after[x] == Waiting ensures Queued(r, x) {
      var k :| 0 <= k < |queue| && queue[k].id == x;
      assert queue[k] in r;
    }
  }

  lemma {:induction false} ExpireConsistent(s: Limiter, id: nat)
    requires Consistent(s)
    ensures Consistent(Step(s, Expire(id)))
  {
    if id < |s.fates| && s.fates[id] == Waiting {
      LinedLeaves(s.queue, s.fates, id, TimedOut);
      OutstandingSet(s.fates, id, TimedOut);
      assert Logged(s.order, s.fates[id := TimedOut]);
      hide Lined, Logged, Outstanding;
    }
  }

  /** Granting the head of the queue. */
  function GrantHead(s: Limiter): Limiter
    requires Known(s) && |s.queue| > 0
  {
    Grant(s.(queue := s.queue[1..]), s.queue[0].id)
  }

  lemma {:induction false} GrantHeadConsistent(s: Limiter)
    requires Consistent(s) && |s.queue| > 0
    ensures Consistent(GrantHead(s))
  {
    var id := s.queue[0].id;
    assert s.queue[0] in s.queue && s.fates[id] == Waiting;
    OutstandingSet(s.fates, id, Granted(false));
    LinedLeaves(s.queue, s.fates, id, Granted(false));
    LoggedGrows(s.order, s.fates, id);
    hide Lined, Logged, Outstanding;
  }

  lemma {:induction false} DrainConsistent(s: Limiter)
    requires Consistent(s)
    ensures Consistent(Drain(s))
    decreases |s.queue|
  {
    hide Consistent;
    ConsistentKnown(s);
    if !(|s.queue| == 0 || s.active >= AtLeastOne(s.queue[0].maxConcurrent)) {
      GrantHeadConsistent(s);
      ConsistentKnown(GrantHead(s));
      DrainConsistent(GrantHead(s));
    }
  }

  lemma {:induction false} ConsistentKnown(s: Limiter)
    requires Consistent(s)
    ensures Known(s)
  {}

  lemma {:induction false} OutstandingPositive(fates: seq<Fate>, id: nat)
    requires id < |fates| && fates[id] == Granted(false)
    ensures Outstanding(fates) > 0
  {
    if id < |fates| - 1 {
      OutstandingPositive(fates[..|fates| - 1], id);
    }
  }

  lemma {:induction false} ReleaseConsistent(s: Limiter, id: nat)
    requires Consistent(s)
    ensures Consistent(Step(s, Release(id)))
  {
    if id < |s.fates| && s.fates[id] == Granted(false) {
      OutstandingSet(s.fates, id, Granted(true));
      var t := s.(fates := s.fates[id := Granted(true)], active := s.active - 1);
      assert Lined(t.queue, t.fates) && Logged(t.order, t.fates) && Outstanding(s.fates) > 0 by {
        OutstandingPositive(s.fates, id);
      }
      assert Consistent(t);
      hide Consistent;
      DrainConsistent(t);
    }
  }

  lemma {:induction false} StepConsistent(s: Limiter, action: Action)
    requires Consistent(s)
    ensures Known(s) && Consistent(Step(s, action))
  {
    hide Consistent;
    ConsistentKnown(s);
    match action
    case Acquire(m) => AcquireConsistent(s, m);
    case Expire(id) => ExpireConsistent(s, id);
    case Release(id) => ReleaseConsistent(s, id);
  }

  /** The state after a sequence of events. In every reachable state the queue is
      exactly the waiting requests in order, and `active` is exactly the number of
      unreleased grants. */
  ghost function After(actions: seq<Action>): (s: Limiter)
    ensures Known(s) && Consistent(s)
  {
    if |actions| == 0 then IDLE
    else
      var r := After(actions[..|actions| - 1]);
      StepConsistent(r, actions[|actions| - 1]);
      ConsistentKnown(Step(r, actions[|actions| - 1]));
      Step(r, actions[|actions| - 1])
  }

  // ------------------------------------------------------------ settled at most once

  /** A fate changes at most from waiting to granted or timed out, and then a grant
      from unreleased to released. */
  predicate Later(f: Fate, g: Fate) {
    match f
    case Waiting => true
    case Granted(released) => g.Granted? && (released ==> g.released)
    case TimedOut => g == TimedOut
  }

  lemma {:induction false} DrainSettles(s: Limiter, id: nat)
    requires Consistent(s) && id < |s.fates|
    ensures Known(s) && |Drain(s).fates| == |s.fates|
    ensures Later(s.fates[id], Drain(s).fates[id]) && (s.fates[id] != Waiting ==> Drain(s).fates[id] == s.fates[id])
    decreases |s.queue|
  {
    ConsistentKnown(s);
    if !(|s.queue| == 0 || s.active >= AtLeastOne(s.queue[0].maxConcurrent)) {
      assert s.queue[0] in s.queue;
      GrantHeadConsistent(s);
      hide Lined, Logged, Outstanding;
      ConsistentKnown(GrantHead(s));
      DrainSettles(GrantHead(s), id);
    }
  }

  /** A request is settled at most once, and only one way. */
  lemma {:induction false} SettledOnce(s: Limiter, action: Action, id: nat)
    requires Consistent(s) && id < |s.fates|
    ensures Known(s) && id < |Step(s, action).fates| && Later(s.fates[id], Step(s, action).fates[id])
  {
    ConsistentKnown(s);
    if action.Release? && action.id < |s.fates| && s.fates[action.id] == Granted(false) {
      var t := s.(fates := s.fates[action.id := Granted(true)], active := s.active - 1);
      ReleasedConsistent(s, action.id);
      hide Consistent;
      DrainSettles(t, id);
    }
  }

  lemma {:induction false} ReleasedConsistent(s: Limiter, id: nat)
    requires Consistent(s) && id < |s.fates| && s.fates[id] == Granted(false)
    ensures s.active > 0 && Consistent(s.(fates := s.fates[id := Granted(true)], active := s.active - 1))
  {
    OutstandingPositive(s.fates, id);
    OutstandingSet(s.fates, id, Granted(true));
    hide Outstanding;
  }

  /** Calling a release closure twice changes nothing the second time. */
  lemma {:induction false} DoubleRelease(s: Limiter, id: nat)
    requires Consistent(s)
    ensures var t := Step(s, Release(id)); Known(t) && Step(t, Release(id)) == t
  {
    StepConsistent(s, Release(id));
    ConsistentKnown(Step(s, Release(id)));
    if id < |s.fates| && s.fates[id] == Granted(false) {
      var t := s.(fates := s.fates[id := Granted(true)], active := s.active - 1);
      ReleasedConsistent(s, id);
      hide Consistent;
      DrainSettles(t, id);
    }
  }

  // --------------------------------------------------------- what a step lets through

  /** A request is let through at once exactly when nothing is active, or one more page
      stays within its maximum; otherwise it waits behind all others. */
  lemma {:induction false} AdmittedExactly(s: Limiter, maxConcurrent: real)
    requires Consistent(s)
    ensures Known(s)
    ensures var t, id := Step(s, Acquire(maxConcurrent)), |s.fates|;
      && |t.fates| == id + 1
      && if Outstanding(s.fates) == 0 || (Outstanding(s.fates) + 1) as real <= maxConcurrent
         then t.fates[id] == Granted(false) && t.order == s.order + [id] && t.queue == s.queue
         else
           && t.fates[id] == Waiting && t.order == s.order && |t.queue| == |s.queue| + 1
           && t.queue[..|s.queue|] == s.queue && t.queue[|s.queue|].id == id
           && (maxConcurrent >= 1.0 ==> t.queue[|s.queue|].maxConcurrent == maxConcurrent.Floor)
           && (maxConcurrent < 1.0 ==> t.queue[|s.queue|].maxConcurrent == 1)
  {
    ConsistentKnown(s);
    hide Lined, Logged, Outstanding;
  }

  /** Entry `i` of the line may be served after the `i` in front of it. */
  ghost predicate Fits(s: Limiter, i: nat)
    requires i < |s.queue|
  {
    s.active + i < s.queue[i].maxConcurrent || s.active + i < 1
  }

  ghost predicate Served(s: Limiter, t: Limiter, k: nat)
    requires Known(s)
  {
    && k <= |s.queue| && t.queue == s.queue[k..] && |t.order| == |s.order| + k && |t.fates| == |s.fates|
    && t.active == s.active + k && t.order[..|s.order|] == s.order
    && (forall i :: 0 <= i < k ==> Fits(s, i) && t.order[|s.order| + i] == s.queue[i].id)
    && (k < |s.queue| ==> !Fits(s, k))
    && forall id :: 0 <= id < |s.fates| && (forall i :: 0 <= i < k ==> s.queue[i].id != id) ==>
         t.fates[id] == s.fates[id]
  }

  /** Draining serves the line from its head as long as the next one fits, and no longer. */
  lemma {:induction false} DrainServes(s: Limiter) returns (k: nat)
    requires Known(s)
    ensures Served(s, Drain(s), k)
    decreases |s.queue|
  {
    if |s.queue| == 0 || s.active >= AtLeastOne(s.queue[0].maxConcurrent) {
      k := 0;
    } else {
      assert s.queue[0] in s.queue;
      var g := GrantHead(s);
      var n := DrainServes(g);
      k := n + 1;
      ServedNext(s, Drain(g), n);
    }
  }

  lemma {:induction false} ServedNext(s: Limiter, t: Limiter, n: nat)
    requires Known(s) && |s.queue| > 0 && Fits(s, 0) && Known(GrantHead(s)) && Served(GrantHead(s), t, n)
    ensures Served(s, t, n + 1)
  {
    var g := GrantHead(s);
    assert forall i :: 0 <= i < |g.queue| ==> g.queue[i] == s.queue[i + 1] && (Fits(g, i) <==> Fits(s, i + 1));
    assert g.queue[n..] == s.queue[n + 1..];
    assert t.order[..|g.order|] == g.order;
    assert t.order[..|s.order|] == g.order[..|s.order|] == s.order;
    assert t.order[|s.order|] == g.order[|s.order|] == s.queue[0].id;
    hide Fits;
    forall i | 0 <= i < n + 1 ensures Fits(s, i) && t.order[|s.order| + i] == s.queue[i].id {
      if i > 0 {
        assert Fits(g, i - 1);
        assert t.order[|g.order| + (i - 1)] == g.queue[i - 1].id;
      }
    }
    forall id | 0 <= id < |s.fates| && (forall i :: 0 <= i < n + 1 ==> s.queue[i].id != id)
      ensures t.fates[id] == s.fates[id]
    {
      assert s.queue[0].id != id;
      assert forall i :: 0 <= i < n ==> g.queue[i].id == s.queue[i + 1].id != id;
    }
  }

  /** The first call of a release closure frees one slot and serves the line from its head
      as long as the next one fits, and no longer. */
  lemma {:induction false} ReleaseServes(s: Limiter, id: nat) returns (freed: Limiter, k: nat)
    requires Consistent(s) && id < |s.fates| && s.fates[id] == Granted(false)
    ensures freed == s.(fates := s.fates[id := Granted(true)], active := s.active - 1)
    ensures Known(s) && Known(freed) && Served(freed, Step(s, Release(id)), k)
  {
    ConsistentKnown(s);
    ReleasedConsistent(s, id);
    hide Consistent, Served;
    freed := s.(fates := s.fates[id := Granted(true)], active := s.active - 1);
    k := DrainServes(freed);
  }

  // ------------------------------------------------------------------ the maximum

  ghost predicate Asks(action: Action, m: int) {
    action.Acquire? ==> AtLeastOne(action.maxConcurrent.Floor) == m
  }

  ghost predicate AsksAtMost(action: Action, m: int) {
    action.Acquire? ==> AtLeastOne(action.maxConcurrent.Floor) <= m
  }

  ghost predicate Capped(s: Limiter, m: int) {
    1 <= m && s.active <= m && forall e :: e in s.queue ==> e.maxConcurrent <= m
  }

  lemma {:induction false} DrainCapped(s: Limiter, m: int)
    requires Known(s) && Capped(s, m)
    ensures Capped(Drain(s), m)
    decreases |s.queue|
  {
    if !(|s.queue| == 0 || s.active >= AtLeastOne(s.queue[0].maxConcurrent)) {
      assert s.queue[0] in s.queue;
      DrainCapped(GrantHead(s), m);
    }
  }

  lemma {:induction false} WithoutSubset(queue: seq<Entry>, id: nat)
    ensures forall e :: e in Without(queue, id) ==> e in queue
  {
    if |queue| > 0 && queue[0].id != id {
      WithoutSubset(queue[1..], id);
    }
  }

  /** However the requested maxima vary, no more pages are active than the largest. */
  lemma {:induction false} NeverOverMaximum(actions: seq<Action>, m: int)
    requires m >= 1 && forall k :: 0 <= k < |actions| ==> AsksAtMost(actions[k], m)
    ensures Capped(After(actions), m)
  {
    hide Consistent;
    if |actions| > 0 {
      var n := |actions| - 1;
      NeverOverMaximum(actions[..n], m);
      var r, action := After(actions[..n]), actions[n];
      match action {
        case Acquire(_) =>
        case Expire(id) => WithoutSubset(r.queue, id);
        case Release(id) =>
          if id < |r.fates| && r.fates[id] == Granted(false) {
            DrainCapped(r.(fates := r.fates[id := Granted(true)], active := if r.active - 1 < 0 then 0
                else r.active - 1), m);
          }
      }
    }
  }

  // ------------------------------------------------- one fixed maximum: full and fair

  /** Nobody waits while a slot is free, grants are in request order, and whoever still
      waits asked after everyone who was granted. */
  ghost predicate InTurn(s: Limiter, m: int) {
    && (forall e :: e in s.queue ==> e.maxConcurrent == m)
    && (forall i, j :: 0 <= i < j < |s.order| ==> s.order[i] < s.order[j])
    && (forall i, e :: 0 <= i < |s.order| && e in s.queue ==> s.order[i] < e.id)
  }

  ghost predicate Full(s: Limiter, m: int) {
    s.active <= m && (|s.queue| > 0 ==> s.active == m)
  }

  lemma {:induction false} GrantHeadInTurn(s: Limiter, m: int)
    requires Consistent(s) && InTurn(s, m) && |s.queue| > 0
    ensures Known(s) && InTurn(GrantHead(s), m)
  {
    ConsistentKnown(s);
    var t := GrantHead(s);
    assert s.queue[0] in s.queue;
    forall i, e | 0 <= i < |t.order| && e in t.queue ensures t.order[i] < e.id {
      var k :| 0 <= k < |t.queue| && t.queue[k] == e;
      assert s.queue[k + 1] == e;
    }
  }

  lemma {:induction false} DrainInTurn(s: Limiter, m: int)
    requires Consistent(s) && InTurn(s, m) && m >= 1 && s.active <= m
    ensures Known(s) && InTurn(Drain(s), m) && Full(Drain(s), m)
    decreases |s.queue|
  {
    ConsistentKnown(s);
    if |s.queue| > 0 {
      assert s.queue[0] in s.queue;
      if s.active < m {
        GrantHeadConsistent(s);
        GrantHeadInTurn(s, m);
        hide Consistent, InTurn;
        DrainInTurn(GrantHead(s), m);
      }
    }
  }

  lemma {:induction false} AcquireInTurn(s: Limiter, maxConcurrent: real, m: int)
    requires Consistent(s) && InTurn(s, m) && Full(s, m) && AtLeastOne(maxConcurrent.Floor) == m
    ensures Known(s) && InTurn(Step(s, Acquire(maxConcurrent)), m) && Full(Step(s, Acquire(maxConcurrent)), m)
  {
    ConsistentKnown(s);
    forall i | 0 <= i < |s.order| ensures s.order[i] < |s.fates| {
      assert s.order[i] in s.order;
    }
    hide Lined, Logged, Outstanding;
  }

  lemma {:induction false} WithoutShorter(queue: seq<Entry>, id: nat)
    ensures |Without(queue, id)| <= |queue|
  {
    if |queue| > 0 {
      WithoutShorter(queue[1..], id);
    }
  }

  lemma {:induction false} ExpireInTurn(s: Limiter, id: nat, m: int)
    requires Known(s) && InTurn(s, m) && Full(s, m)
    ensures InTurn(Step(s, Expire(id)), m) && Full(Step(s, Expire(id)), m)
  {
    WithoutSubset(s.queue, id);
    WithoutShorter(s.queue, id);
    hide Without;
  }

  lemma {:induction false} ReleaseInTurn(s: Limiter, id: nat, m: int)
    requires Consistent(s) && InTurn(s, m) && Full(s, m) && m >= 1
    ensures Known(s) && InTurn(Step(s, Release(id)), m) && Full(Step(s, Release(id)), m)
  {
    hide Lined, Logged, Outstanding;
    ConsistentKnown(s);
    if id < |s.fates| && s.fates[id] == Granted(false) {
      var t := s.(fates := s.fates[id := Granted(true)], active := s.active - 1);
      ReleasedConsistent(s, id);
      assert InTurn(t, m);
      hide Consistent, InTurn;
      DrainInTurn(t, m);
    }
  }

  /** With one fixed maximum: never more active than it, no free slot while someone
      waits, and strictly first come first served among those who do not give up. */
  lemma {:induction false} FullAndFair(actions: seq<Action>, m: int)
    requires m >= 1 && forall k :: 0 <= k < |actions| ==> Asks(actions[k], m)
    ensures InTurn(After(actions), m) && Full(After(actions), m)
  {
    hide Consistent, Known;
    if |actions| == 0 {
      assert After(actions) == IDLE;
    } else {
      hide Step, InTurn, Full;
      var n := |actions| - 1;
      FullAndFair(actions[..n], m);
      assert Asks(actions[n], m);
      match actions[n] {
        case Acquire(max) => AcquireInTurn(After(actions[..n]), max, m);
        case Expire(id) => ExpireInTurn(After(actions[..n]), id, m);
        case Release(id) => ReleaseInTurn(After(actions[..n]), id, m);
      }
    }
  }

  /** The state after one more event. */
  lemma {:induction false} OneMore(actions: seq<Action>, action: Action)
    ensures Known(After(actions)) && After(actions + [action]) == Step(After(actions), action)
  {
    assert (actions + [action])[..|actions|] == actions;
  }

  lemma {:induction false} StartsIdle()
    ensures After([]) == IDLE
  {}

  // --------------------------------------------------- mixed maxima: neither in general

  /** `k` requests with the maximum `m`. */
  function Fill(m: nat, k: nat): seq<Action> {
    seq(k, _ => Acquire(m as real))
  }

  function FilledTo(k: nat): Limiter {
    Limiter(k, [], seq(k, _ => Granted(false)), seq(k, i => i))
  }

  /** As long as slots are free requests are granted as they come. */
  lemma {:induction false} Filled(m: nat, k: nat)
    requires k <= m
    ensures After(Fill(m, k)) == FilledTo(k)
  {
    hide After, Consistent;
    if k == 0 {
      assert Fill(m, 0) == [];
      StartsIdle();
    } else {
      Filled(m, k - 1);
      assert Fill(m, k) == Fill(m, k - 1) + [Acquire(m as real)];
      OneMore(Fill(m, k - 1), Acquire(m as real));
      assert FilledTo(k).fates == FilledTo(k - 1).fates + [Granted(false)];
      assert FilledTo(k).order == FilledTo(k - 1).order + [k - 1];
    }
  }

  /** Fill the slots of the smaller maximum, ask with it once more, then with the larger. */
  function Overtaking(m: nat, larger: nat): seq<Action> {
    Fill(m, m) + [Acquire(m as real)] + [Acquire(larger as real)]
  }

  /** Fill the slots of the larger maximum, ask with the smaller, then with the larger;
      one slot is released and the request at the head gives up. */
  function Stalling(m: nat, larger: nat): seq<Action> {
    Fill(larger, larger) + [Acquire(m as real)] + [Acquire(larger as real)] + [Release(0)] + [Expire(larger)]
  }

  /** The request with the larger maximum is granted past the waiting one. */
  lemma {:induction false} MixedMaximaOvertake(m: nat, larger: nat)
    requires 1 <= m < larger
    ensures var s := After(Overtaking(m, larger)); s.queue == [Entry(m, m)] && s.order == seq(m, i => i) + [m + 1]
  {
    hide After, Consistent;
    Filled(m, m);
    OneMore(Fill(m, m), Acquire(m as real));
    OneMore(Fill(m, m) + [Acquire(m as real)], Acquire(larger as real));
  }

  /** When the head of the queue times out nothing drains the queue: a grantable request
      goes on waiting beside a free slot. */
  lemma {:induction false} MixedMaximaStall(m: nat, larger: nat)
    requires 1 <= m < larger
    ensures var s := After(Stalling(m, larger)); s.active == larger - 1 && s.queue == [Entry(larger + 1, larger)]
  {
    hide After, Consistent;
    Filled(larger, larger);
    var one := Fill(larger, larger) + [Acquire(m as real)];
    OneMore(Fill(larger, larger), Acquire(m as real));
    OneMore(one, Acquire(larger as real));
    var two := one + [Acquire(larger as real)];
    var full := FilledTo(larger);
    var queue := [Entry(larger, m), Entry(larger + 1, larger)];
    assert After(two) == Limiter(larger, queue, full.fates + [Waiting] + [Waiting], full.order);
    OneMore(two, Release(0));
    assert After(two + [Release(0)]).active == larger - 1;
    OneMore(two + [Release(0)], Expire(larger));
  }

  /** Every request's effective maximum is one of these. */
  ghost predicate AsksWithin(actions: seq<Action>, maxima: set<int>) {
    forall k :: 0 <= k < |actions| && actions[k].Acquire? ==> AtLeastOne(actions[k].maxConcurrent.Floor) in maxima
  }

  /** Grants are in request order, and nobody still waiting asked before one of them. */
  ghost predicate InOrder(s: Limiter) {
    && (forall i, j :: 0 <= i < j < |s.order| ==> s.order[i] < s.order[j])
    && (forall i, e :: 0 <= i < |s.order| && e in s.queue ==> s.order[i] < e.id)
  }

  /** The head of the queue does not wait while its maximum allows a grant. */
  ghost predicate NoIdleSlot(s: Limiter) {
    |s.queue| > 0 ==> s.active >= s.queue[0].maxConcurrent
  }

  lemma {:induction false} WithinAppend(actions: seq<Action>, more: seq<Action>, maxima: set<int>)
    ensures AsksWithin(actions + more, maxima) <==> AsksWithin(actions, maxima) && AsksWithin(more, maxima)
  {
    var all := actions + more;
    if AsksWithin(all, maxima) {
      forall k | 0 <= k < |actions| && actions[k].Acquire?
        ensures AtLeastOne(actions[k].maxConcurrent.Floor) in maxima
      {
        assert all[k] == actions[k];
      }
      forall k | 0 <= k < |more| && more[k].Acquire? ensures AtLeastOne(more[k].maxConcurrent.Floor) in maxima {
        assert all[|actions| + k] == more[k];
      }
    }
  }

  lemma {:induction false} BothWithin(m: nat, larger: nat, maxima: set<int>)
    requires 1 <= m < larger && m in maxima && larger in maxima
    ensures AsksWithin(Overtaking(m, larger), maxima) && AsksWithin(Stalling(m, larger), maxima)
  {
    var small, large := [Acquire(m as real)], [Acquire(larger as real)];
    assert AsksWithin(small, maxima) && AsksWithin(large, maxima);
    assert AsksWithin([Release(0)], maxima) && AsksWithin([Expire(larger)], maxima);
    assert AsksWithin(Fill(m, m), maxima) && AsksWithin(Fill(larger, larger), maxima);
    hide AsksWithin;
    WithinAppend(Fill(m, m), small, maxima);
    WithinAppend(Fill(m, m) + small, large, maxima);
    WithinAppend(Fill(larger, larger), small, maxima);
    WithinAppend(Fill(larger, larger) + small, large, maxima);
    WithinAppend(Fill(larger, larger) + small + large, [Release(0)], maxima);
    WithinAppend(Fill(larger, larger) + small + large + [Release(0)], [Expire(larger)], maxima);
  }

  lemma {:induction false} OneMaximumFair(actions: seq<Action>, maxima: set<int>, m: int)
    requires m >= 1 && (forall x :: x in maxima ==> x == m) && AsksWithin(actions, maxima)
    ensures InOrder(After(actions)) && NoIdleSlot(After(actions))
  {
    hide Consistent, After;
    FullAndFair(actions, m);
  }

  lemma {:induction false} MixedUnfair(m: nat, larger: nat)
    requires 1 <= m < larger
    ensures !InOrder(After(Overtaking(m, larger))) && !NoIdleSlot(After(Stalling(m, larger)))
  {
    hide Consistent, After, Overtaking, Stalling;
    MixedMaximaOvertake(m, larger);
    MixedMaximaStall(m, larger);
    var s := After(Overtaking(m, larger));
    assert s.order[m] == m + 1 && s.queue[0].id == m;
  }

  /** What the limiter's callers must agree on: requests are granted in order in every
      run exactly when all of them use one maximum, and no grantable request waits in any
      run under the same condition. */
  lemma {:induction false} FairExactly(maxima: set<int>)
    requires forall m :: m in maxima ==> m >= 1
    ensures (forall actions :: AsksWithin(actions, maxima) ==> InOrder(After(actions))) <==> |maxima| <= 1
    ensures (forall actions :: AsksWithin(actions, maxima) ==> NoIdleSlot(After(actions))) <==> |maxima| <= 1
  {
    hide Consistent, After, AsksWithin, InOrder, NoIdleSlot, Overtaking, Stalling;
    if |maxima| <= 1 {
      var m := Only(maxima);
      forall actions | AsksWithin(actions, maxima) ensures InOrder(After(actions)) && NoIdleSlot(After(actions)) {
        OneMaximumFair(actions, maxima, m);
      }
    } else {
      var m, larger := TwoOf(maxima);
      BothWithin(m, larger, maxima);
      MixedUnfair(m, larger);
    }
  }

  lemma {:induction false} Only(maxima: set<int>) returns (m: int)
    requires |maxima| <= 1 && forall x :: x in maxima ==> x >= 1
    ensures m >= 1 && forall x :: x in maxima ==> x == m
  {
    m := 1;
    if x :| x in maxima {
      m := x;
      assert |maxima - {x}| == 0;
      assert forall y :: y in maxima ==> y in maxima - {x} || y == x;
    }
  }

  lemma {:induction false} Member<T>(s: set<T>) returns (x: T)
    requires |s| > 0
    ensures x in s
  {
    x :| x in s;
  }

  lemma {:induction false} TwoOf(maxima: set<int>) returns (m: int, larger: int)
    requires |maxima| > 1
    ensures m in maxima && larger in maxima && m < larger
  {
    var x := Member(maxima);
    assert |maxima - {x}| > 0;
    var y := Member(maxima - {x});
    m, larger := if x < y then x else y, if x < y then y else x;
  }

  // ----------------------------------------------------------------- the limiter itself

  lemma {:induction false} WithoutStep(queue: seq<Entry>, id: nat, i: nat)
    requires i < |queue|
    ensures Without(queue[i..], id) == if queue[i].id == id then queue[i + 1..]
            else [queue[i]] + Without(queue[i + 1..], id)
  {
    assert queue[i..][1..] == queue[i + 1..];
  }

  lemma {:induction false} Shift(queue: seq<Entry>, rest: seq<Entry>, i: nat)
    requires i < |queue|
    ensures queue[..i] + ([queue[i]] + rest) == queue[..i + 1] + rest
  {}

  /** `indexOf` and `splice`. */
  method Splice(queue: seq<Entry>, id: nat) returns (r: seq<Entry>)
    ensures r == Without(queue, id)
  {
    assert queue[0..] == queue && Without([], id) == [];
    hide Without;
    for i := 0 to |queue|
      invariant Without(queue, id) == queue[..i] + Without(queue[i..], id)
    {
      WithoutStep(queue, id, i);
      if queue[i].id == id {
        return queue[..i] + queue[i + 1..];
      }
      Shift(queue, Without(queue[i + 1..], id), i);
    }
    return queue;
  }

  /** The closure state of `createPageConcurrencyLimiter`, with the promises it settles. */
  class ConcurrencyLimiter {
    var active: int
    var queue: seq<Entry>
    var fates: seq<Fate>
    ghost var order: seq<nat>

    ghost function Value(): Limiter
      reads this
    {
      Limiter(active, queue, fates, order)
    }

    constructor ()
      ensures Value() == IDLE && Consistent(Value())
    {
      active, queue, fates, order := 0, [], [], [];
    }

    method GrantTo(id: nat)
      requires id < |fates|
      modifies this
      ensures Value() == Grant(old(Value()), id)
    {
      active := active + 1;
      fates := fates[id := Granted(false)];
      order := order + [id];
    }

    method DrainQueue()
      requires Known(Value())
      modifies this
      ensures Value() == Drain(old(Value()))
    {
      while |queue| > 0 && active < AtLeastOne(queue[0].maxConcurrent)
        invariant Known(Value()) && Drain(Value()) == Drain(old(Value()))
        decreases |queue|
      {
        var next := queue[0];
        queue := queue[1..];
        GrantTo(next.id);
      }
    }

    method Request(maxConcurrent: real) returns (id: nat)
      requires Consistent(Value())
      modifies this
      ensures id == |old(fates)| && Known(old(Value())) && Value() == Step(old(Value()), Acquire(maxConcurrent))
      ensures Consistent(Value())
    {
      ConsistentKnown(Value());
      StepConsistent(Value(), Acquire(maxConcurrent));
      hide Consistent;
      var max := AtLeastOne(maxConcurrent.Floor);
      id := |fates|;
      fates := fates + [Waiting];
      if active < max {
        GrantTo(id);
      } else {
        queue := queue + [Entry(id, max)];
      }
    }

    /** The timer of a request that still waits. */
    method Timeout(id: nat)
      requires Consistent(Value())
      modifies this
      ensures Known(old(Value())) && Value() == Step(old(Value()), Expire(id))
      ensures Consistent(Value())
    {
      ConsistentKnown(Value());
      StepConsistent(Value(), Expire(id));
      hide Consistent;
      if id < |fates| && fates[id] == Waiting {
        queue := Splice(queue, id);
        fates := fates[id := TimedOut];
      }
    }

    /** A call of the closure handed out with a grant. */
    method CallRelease(id: nat)
      requires Consistent(Value())
      modifies this
      ensures Known(old(Value())) && Value() == Step(old(Value()), Release(id))
      ensures Consistent(Value())
    {
      ConsistentKnown(Value());
      StepConsistent(Value(), Release(id));
      hide Consistent;
      if id < |fates| && fates[id] == Granted(false) {
        fates := fates[id := Granted(true)];
        active := if active - 1 < 0 then 0 else active - 1;
        DrainQueue();
      }
    }
  }
}
