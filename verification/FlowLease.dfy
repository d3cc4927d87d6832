/** The specification of one lease of `runFlow`: resume hydration, the flat driver,
    compensation (src/flow/run.ts:394-489), and sequences of leases over one journal. */
module FlowLease {
  import opened Basics
  import opened JsonValues
  import opened FlowTypes
  import opened PlanShape
  import opened FlowFold

  // ---------------------------------------------------------------- hydration

  /** Journaled idempotency tokens: the last one of each step. */
  function SeedTokens(rows: seq<Row>): map<string, string> {
    if |rows| == 0 then map[]
    else
      var rest, row := SeedTokens(rows[..|rows| - 1]), rows[|rows| - 1];
      if row.token.Some? then rest[row.stepId := row.token.value] else rest
  }

  /** Journaled attempt counters: the largest of each step. */
  function SeedAttempts(rows: seq<Row>): map<string, nat> {
    if |rows| == 0 then map[]
    else
      var rest, row := SeedAttempts(rows[..|rows| - 1]), rows[|rows| - 1];
      if row.attempt > GetOr(rest, row.stepId, 0) then rest[row.stepId := row.attempt] else rest
  }

  /** A completed row that carries state and belongs to a segment's last node. */
  predicate IsBoundary(nodes: seq<Node>, row: Row) {
    && row.status == Completed
    && row.stateDelta.Some?
    && IndexOf(nodes, row.stepId).Some?
    && SegmentEnd(nodes, IndexOf(nodes, row.stepId).value)
  }

  function LastBoundary(nodes: seq<Node>, rows: seq<Row>): (r: Option<Row>)
    ensures r.Some? ==> IsBoundary(nodes, r.value) && r.value in rows
  {
    if |rows| == 0 then None
    else if IsBoundary(nodes, rows[|rows| - 1]) then Some(rows[|rows| - 1])
    else LastBoundary(nodes, rows[..|rows| - 1])
  }

  /** The `skipped_resume` rows of the first `n` nodes. */
  function Skip(flow: Flow, env: Env, f: Fold, n: nat): Fold
    requires n <= |flow.Nodes()|
  {
    if n == 0 then f
    else
      var g := Skip(flow, env, f, n - 1);
      var id := flow.Nodes()[n - 1].stepId;
      Checkpoint(env, g, BareRow(id, GetOr(g.attempts, id, 1), SkippedResume))
  }

  /** Enter the plan after the restored boundary. */
  function Restore(flow: Flow, env: Env, f: Fold, decoded: State, start: nat): Fold
    requires start <= |flow.Nodes()|
  {
    Skip(flow, env, f.(state := f.state + decoded, provided := f.provided + decoded.Keys, index := start), start)
  }

  function Hydrate(flow: Flow, env: Env, f: Fold, rows: seq<Row>): Fold {
    var g := f.(tokens := SeedTokens(rows), attempts := SeedAttempts(rows));
    var boundary := LastBoundary(flow.Nodes(), rows);
    if boundary.None? then g
    else
      var decoded := DecodeDelta(flow, boundary.value.stateDelta.value);
      if decoded.None? then g
      else Restore(flow, env, g, decoded.value, IndexOf(flow.Nodes(), boundary.value.stepId).value + 1)
  }

  /** Journaled evidence that a step has been entered. */
  predicate HasEvidence(rows: seq<Row>, stepId: string) {
    exists row :: row in rows && row.stepId == stepId && (row.status == Started || row.status == Completed)
  }

  /** The first effectful-once node at or after `start` that has evidence. */
  function ReplayGuard(nodes: seq<Node>, rows: seq<Row>, start: nat): (r: Option<string>)
    requires start <= |nodes|
    ensures r.None? <==> forall i :: start <= i < |nodes| && nodes[i].idempotency == EffectfulOnce ==>
                           !HasEvidence(rows, nodes[i].stepId)
    ensures r.Some? ==> HasEvidence(rows, r.value)
    decreases |nodes| - start
  {
    if start == |nodes| then None
    else if nodes[start].idempotency == EffectfulOnce && HasEvidence(rows, nodes[start].stepId)
    then Some(nodes[start].stepId)
    else ReplayGuard(nodes, rows, start + 1)
  }

  // ------------------------------------------------------------- one lease

  function Fresh(flow: Flow, initial: State): Fold {
    Fold(0, None, initial, {}, Budgets(flow.Nodes()), map[], map[], [], 0, false, 1.0, 0, 0, [])
  }

  /** Run one compensation handler and journal it. */
  function UndoEntry(env: Env, f: Fold, entry: Success): Fold {
    Checkpoint(env, f.(log := f.log + [Undone(entry.stepId, entry.output)]),
               BareRow(entry.stepId, GetOr(f.attempts, entry.stepId, 1), Compensated))
  }

  /** Undo succeeded steps, the latest first. */
  function Compensate(env: Env, f: Fold, n: nat): Fold
    requires n <= |f.succeeded|
    ensures Compensate(env, f, n).succeeded == f.succeeded
    decreases n
  {
    if n == 0 then f
    else
      var entry := f.succeeded[n - 1];
      Compensate(env, if entry.undo then UndoEntry(env, f, entry) else f, n - 1)
  }

  datatype LeaseResult = Succeeded(final: Fold) | FailedWith(final: Fold, fault: Fault)

  function Conclude(env: Env, o: Outcome): LeaseResult {
    match o
    case Finished(f) => Succeeded(f)
    case Broke(f, fault) =>
      FailedWith(if fault == Defect then f else Compensate(env, f, |f.succeeded|), fault)
  }

  /** The journal rows a lease sees. */
  function Visible(env: Env, resume: bool, journal: seq<Row>): seq<Row> {
    if resume && env.read then journal else []
  }

  function StartingFold(flow: Flow, env: Env, initial: State, rows: seq<Row>): Fold {
    if |rows| == 0 then Fresh(flow, initial) else Hydrate(flow, env, Fresh(flow, initial), rows)
  }

  lemma {:induction false} StartWithinPlan(flow: Flow, env: Env, initial: State, rows: seq<Row>)
    ensures StartingFold(flow, env, initial, rows).index <= |flow.Nodes()|
  {
    if |rows| != 0 {
      HydrateKeeps(flow, env, Fresh(flow, initial), rows);
    }
  }

  function RunFlow(flow: Flow, env: Env, initial: State, resume: bool, journal: seq<Row>): LeaseResult
    requires Runnable(flow)
  {
    var rows := Visible(env, resume, journal);
    var f := StartingFold(flow, env, initial, rows);
    StartWithinPlan(flow, env, initial, rows);
    var refused := if |rows| == 0 then None else ReplayGuard(flow.Nodes(), rows, f.index);
    if refused.Some? then FailedWith(f, Replay(refused.value))
    else Conclude(env, Drive(flow, env, f))
  }

  lemma {:induction false} SkipKeeps(flow: Flow, env: Env, f: Fold, n: nat)
    requires n <= |flow.Nodes()|
    ensures var g := Skip(flow, env, f, n);
      g == f.(log := g.log, appends := g.appends) && f.log <= g.log
  {
    if n > 0 {
      SkipKeeps(flow, env, f, n - 1);
    }
  }

  /** Compensation adds to the log and changes nothing else. */
  lemma {:induction false} CompensateKeeps(env: Env, f: Fold, n: nat)
    requires n <= |f.succeeded|
    ensures var g := Compensate(env, f, n);
      g == f.(log := g.log, appends := g.appends) && f.log <= g.log
    decreases n
  {
    if n > 0 {
      var entry := f.succeeded[n - 1];
      var g := if !entry.undo then f
               else Checkpoint(env, f.(log := f.log + [Undone(entry.stepId, entry.output)]),
                               BareRow(entry.stepId, GetOr(f.attempts, entry.stepId, 1), Compensated));
      assert f.log <= g.log;
      CompensateKeeps(env, g, n - 1);
    }
  }

  lemma {:induction false} ConcludeKeeps(env: Env, o: Outcome)
    ensures var r := Conclude(env, o);
      && r.final == o.final.(log := r.final.log, appends := r.final.appends) && o.final.log <= r.final.log
      && r.Succeeded? == o.Finished? && (o.Broke? ==> r.fault == o.fault)
      && (o.Finished? ==> r.final == o.final)
  {
    if o.Broke? {
      CompensateKeeps(env, o.final, |o.final.succeeded|);
    }
  }

  /** A lease either refuses, or drives the fold it starts with. */
  lemma {:induction false} LeaseCases(flow: Flow, env: Env, initial: State, resume: bool, journal: seq<Row>)
    requires Runnable(flow)
    ensures var r := RunFlow(flow, env, initial, resume, journal);
      var rows := Visible(env, resume, journal);
      var f := StartingFold(flow, env, initial, rows);
      && f.index <= |flow.Nodes()|
      && (if |rows| > 0 && ReplayGuard(flow.Nodes(), rows, f.index).Some?
          then r == FailedWith(f, Replay(ReplayGuard(flow.Nodes(), rows, f.index).value))
          else r == Conclude(env, Drive(flow, env, f)))
  {
    hide Drive, Hydrate, ReplayGuard, Conclude;
    StartWithinPlan(flow, env, initial, Visible(env, resume, journal));
  }

  /** Hydration changes what it restores and nothing else. */
  lemma {:induction false} HydrateKeeps(flow: Flow, env: Env, f: Fold, rows: seq<Row>)
    requires f.index == 0
    ensures var g := Hydrate(flow, env, f, rows);
      && g.index <= |flow.Nodes()|
      && g == f.(index := g.index, state := g.state, provided := g.provided, tokens := g.tokens,
                 attempts := g.attempts, log := g.log, appends := g.appends)
  {
    hide IndexOf, LastBoundary, DecodeDelta, SeedTokens, SeedAttempts;
    var g := f.(tokens := SeedTokens(rows), attempts := SeedAttempts(rows));
    var boundary := LastBoundary(flow.Nodes(), rows);
    if boundary.Some? {
      var decoded := DecodeDelta(flow, boundary.value.stateDelta.value);
      if decoded.Some? {
        var start := IndexOf(flow.Nodes(), boundary.value.stepId).value + 1;
        SkipKeeps(flow, env,
            g.(state := g.state + decoded.value, provided := g.provided + decoded.value.Keys, index := start), start);
      }
    }
  }

  /** The row completes a segment's last node and carries state. */
  ghost predicate EndsSegment(nodes: seq<Node>, row: Row) {
    && row.status == Completed && row.stateDelta.Some?
    && exists i :: 0 <= i < |nodes| && nodes[i].stepId == row.stepId
         && (i + 1 == |nodes| || nodes[i + 1].segment != nodes[i].segment)
  }

  lemma {:induction false} BoundaryEnds(nodes: seq<Node>, row: Row)
    requires UniqueIds(nodes)
    ensures EndsSegment(nodes, row) <==> IsBoundary(nodes, row)
  {
    hide IndexOf;
    if EndsSegment(nodes, row) {
      var i :| 0 <= i < |nodes| && nodes[i].stepId == row.stepId
        && (i + 1 == |nodes| || nodes[i + 1].segment != nodes[i].segment);
      IndexOfUnique(nodes, i);
    }
  }

  /** The row at `q` is the last boundary row. */
  ghost predicate LastAt(nodes: seq<Node>, rows: seq<Row>, q: nat) {
    q < |rows| && EndsSegment(nodes, rows[q]) && forall j :: q < j < |rows| ==> !EndsSegment(nodes, rows[j])
  }

  lemma {:induction false} LastBoundaryAt(nodes: seq<Node>, rows: seq<Row>, q: nat)
    requires UniqueIds(nodes)
    ensures LastAt(nodes, rows, q) ==> LastBoundary(nodes, rows) == Some(rows[q])
    ensures (forall j :: 0 <= j < |rows| ==> !EndsSegment(nodes, rows[j])) ==> LastBoundary(nodes, rows).None?
  {
    hide IsBoundary, EndsSegment;
    if |rows| > 0 {
      BoundaryEnds(nodes, rows[|rows| - 1]);
      LastBoundaryAt(nodes, rows[..|rows| - 1], if q + 1 < |rows| then q else 0);
    }
  }

  /** The token a step starts with is that of its last row that has one. */
  lemma {:induction false} SeedTokensLast(rows: seq<Row>, q: nat)
    requires q < |rows| && rows[q].token.Some?
    requires forall j :: q < j < |rows| && rows[j].stepId == rows[q].stepId ==> rows[j].token.None?
    ensures Get(SeedTokens(rows), rows[q].stepId) == rows[q].token
  {
    if q + 1 < |rows| {
      SeedTokensLast(rows[..|rows| - 1], q);
    }
  }

  lemma {:induction false} SeedTokensNone(rows: seq<Row>, stepId: string)
    requires forall row :: row in rows && row.stepId == stepId ==> row.token.None?
    ensures stepId !in SeedTokens(rows)
  {
    if |rows| > 0 {
      SeedTokensNone(rows[..|rows| - 1], stepId);
    }
  }

  /** The attempt a step goes on from is the largest of its rows. */
  lemma {:induction false} SeedAttemptsLargest(rows: seq<Row>, stepId: string)
    ensures var n := GetOr(SeedAttempts(rows), stepId, 0);
      && (forall row :: row in rows && row.stepId == stepId ==> row.attempt <= n)
      && (n > 0 ==> exists row :: row in rows && row.stepId == stepId && row.attempt == n)
  {
    if |rows| > 0 {
      var front, last := rows[..|rows| - 1], rows[|rows| - 1];
      SeedAttemptsLargest(front, stepId);
      assert rows == front + [last] && last in rows;
    }
  }

  /** A lease starts behind the last boundary it sees, with what that decodes to over its
      initial state. */
  lemma {:induction false} StartsBehind(flow: Flow, env: Env, initial: State, rows: seq<Row>, q: nat, i: nat)
    requires UniqueIds(flow.Nodes()) && 0 < i <= |flow.Nodes()| && LastAt(flow.Nodes(), rows, q)
    requires rows[q].stepId == flow.Nodes()[i - 1].stepId && DecodeDelta(flow, rows[q].stateDelta.value).Some?
    ensures var f, d := StartingFold(flow, env, initial, rows), DecodeDelta(flow, rows[q].stateDelta.value).value;
      f.index == i && f.state == initial + d && f.provided == d.Keys && f.open.None?
  {
    hide SeedTokens, SeedAttempts, Skip, Budgets, DecodeDelta, LastBoundary;
    IndexOfUnique(flow.Nodes(), i - 1);
    LastBoundaryAt(flow.Nodes(), rows, q);
    hide LastAt, IndexOf, SegmentEnd;
    var d := DecodeDelta(flow, rows[q].stateDelta.value).value;
    var g := Fresh(flow, initial).(tokens := SeedTokens(rows), attempts := SeedAttempts(rows));
    SkipKeeps(flow, env, g.(state := g.state + d, provided := g.provided + d.Keys, index := i), i);
  }

  /** It starts at the head if it sees no boundary, or one that does not decode. */
  lemma {:induction false} StartsAtHead(flow: Flow, env: Env, initial: State, rows: seq<Row>, q: nat)
    requires UniqueIds(flow.Nodes())
    requires || (forall j :: 0 <= j < |rows| ==> !EndsSegment(flow.Nodes(), rows[j]))
             || (LastAt(flow.Nodes(), rows, q) && DecodeDelta(flow, rows[q].stateDelta.value).None?)
    ensures var f := StartingFold(flow, env, initial, rows);
      f.index == 0 && f.state == initial && f.provided == {} && f.open.None? && f.log == []
  {
    LastBoundaryAt(flow.Nodes(), rows, q);
    hide SeedTokens, SeedAttempts, Skip, Budgets, DecodeDelta, LastBoundary, LastAt, IsBoundary, EndsSegment;
  }

  /** Tokens and attempts go on from the journal. */
  lemma {:induction false} StartsSeeded(flow: Flow, env: Env, initial: State, rows: seq<Row>)
    ensures var f := StartingFold(flow, env, initial, rows);
      && f.tokens == SeedTokens(rows) && f.attempts == SeedAttempts(rows)
      && f.budgets == Budgets(flow.Nodes()) && f.executions == 0 && f.succeeded == []
  {
    hide IndexOf, LastBoundary, DecodeDelta, SeedTokens, SeedAttempts, Budgets;
    if |rows| > 0 {
      var g := Fresh(flow, initial).(tokens := SeedTokens(rows), attempts := SeedAttempts(rows));
      var boundary := LastBoundary(flow.Nodes(), rows);
      if boundary.Some? && DecodeDelta(flow, boundary.value.stateDelta.value).Some? {
        var d := DecodeDelta(flow, boundary.value.stateDelta.value).value;
        var b := IndexOf(flow.Nodes(), boundary.value.stepId).value + 1;
        SkipKeeps(flow, env, g.(state := g.state + d, provided := g.provided + d.Keys, index := b), b);
      }
    } else {
      assert SeedTokens([]) == map[] && SeedAttempts([]) == map[] by { SeedsNothing(); }
    }
  }

  lemma {:induction false} SeedsNothing()
    ensures SeedTokens([]) == map[] && SeedAttempts([]) == map[]
  {}

  /** A lease that sees one row, of a boundary, starts behind it with what it decodes to. */
  lemma {:induction false} OneRowResumes(flow: Flow, env: Env, initial: State, row: Row, i: nat)
    requires UniqueIds(flow.Nodes()) && 0 < i <= |flow.Nodes()| && SegmentEnd(flow.Nodes(), i - 1)
    requires row.status == Completed && row.stepId == flow.Nodes()[i - 1].stepId
    requires row.stateDelta.Some? && DecodeDelta(flow, row.stateDelta.value).Some?
    ensures var f, d := StartingFold(flow, env, initial, [row]), DecodeDelta(flow, row.stateDelta.value).value;
      && f == Hydrate(flow, env, Fresh(flow, initial), [row])
      && f.index == i && f.state == initial + d && f.provided == d.Keys && f.open.None?
    ensures ReplayGuard(flow.Nodes(), [row], i).None?
  {
    IndexOfUnique(flow.Nodes(), i - 1);
    assert EndsSegment(flow.Nodes(), row);
    assert LastAt(flow.Nodes(), [row], 0);
    hide Hydrate, DecodeDelta, IndexOf, SegmentEnd, LastAt;
    StartsBehind(flow, env, initial, [row], 0, i);
  }

  // ------------------------------------------------- crashes and lease sequences

  /** The rows that reached the journal. */
  function Kept(log: seq<Event>): seq<Row> {
    if |log| == 0 then []
    else
      var rest, e := Kept(log[..|log| - 1]), log[|log| - 1];
      if e.Append? && e.kept then rest + [e.row] else rest
  }
}
