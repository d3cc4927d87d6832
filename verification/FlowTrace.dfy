/** The shape of the rows one lease writes (src/flow/run.ts:290-372, 436-438, 469-482):
    skips, a walk over the plan, an aborted attempt at most, then the compensations. */
module FlowTrace {
  import opened Basics
  import opened JsonValues
  import opened FlowTypes
  import opened PlanShape
  import opened FlowFold
  import opened FlowLease
  import opened FlowSteps
  import opened FlowTermination
  import opened FlowReturn

  /** The rows handed to the journal, in order. */
  function Rows(log: seq<Event>): seq<Row> {
    if |log| == 0 then []
    else
      var e := log[|log| - 1];
      Rows(log[..|log| - 1]) + (if e.Append? then [e.row] else [])
  }

  lemma {:induction false} RowsOne(log: seq<Event>, e: Event)
    ensures Rows(log + [e]) == Rows(log) + (if e.Append? then [e.row] else [])
  {
    assert (log + [e])[..|log|] == log;
  }

  // ------------------------------------------------------------- the reference shape

  /** One `skipped_resume` row per node before `n`, in plan order. */
  ghost predicate Skips(nodes: seq<Node>, rows: seq<Row>, n: nat)
    requires n <= |nodes|
  {
    |rows| == n && forall i :: 0 <= i < n ==> rows[i].stepId == nodes[i].stepId && rows[i].status == SkippedResume
  }

  /** An attempt at node `i` that was answered: `started`, then its closing row. */
  ghost predicate AttemptAt(nodes: seq<Node>, i: nat, started: Row, closing: Row)
    requires i < |nodes|
  {
    && started.status == Started && started.stepId == nodes[i].stepId == closing.stepId
    && started.attempt == closing.attempt
  }

  /** A closing row that sends the walk from node `i` to node `to`: completion goes to
      the next node, a reroute to the target it records, over a declared edge. */
  ghost predicate Leads(nodes: seq<Node>, i: nat, closing: Row, to: nat)
    requires i < |nodes|
  {
    || (closing.status == Completed && to == i + 1)
    || (closing.status == Rerouted && to < |nodes| && closing.reroute.Some?
        && closing.reroute.value.to == nodes[to].stepId && Declares(nodes[i], nodes[to].stepId))
  }

  /** `rows` is a walk over the plan from node `from` to node `to`. */
  ghost predicate Path(nodes: seq<Node>, rows: seq<Row>, from: nat, to: nat) {
    if |rows| == 0 then from == to
    else
      && |rows| >= 2
      && var i := IndexOf(nodes, rows[|rows| - 2].stepId);
      && i.Some?
      && AttemptAt(nodes, i.value, rows[|rows| - 2], rows[|rows| - 1])
      && Leads(nodes, i.value, rows[|rows| - 1], to)
      && Path(nodes, rows[..|rows| - 2], from, i.value)
  }

  /** The completed steps of a walk, in order. */
  function CompletedIds(rows: seq<Row>): seq<string> {
    if |rows| == 0 then []
    else
      var row := rows[|rows| - 1];
      CompletedIds(rows[..|rows| - 1]) + (if row.status == Completed then [row.stepId] else [])
  }

  /** How often a walk was rerouted over the edge with this key. */
  function ReroutesOver(rows: seq<Row>, key: string): nat {
    if |rows| == 0 then 0
    else
      var row := rows[|rows| - 1];
      ReroutesOver(rows[..|rows| - 1], key)
        + (if row.status == Rerouted && row.reroute.Some? && EdgeKey(row.stepId, row.reroute.value.to) == key then 1
            else 0)
  }

  /** The compensations of completed steps, the latest first. */
  function Undos(ids: seq<string>, compensable: set<string>, attempts: map<string, nat>): seq<Row> {
    if |ids| == 0 then []
    else
      var id := ids[|ids| - 1];
      (if id in compensable then [BareRow(id, GetOr(attempts, id, 1), Compensated)] else [])
        + Undos(ids[..|ids| - 1], compensable, attempts)
  }

  /** The rows of the attempt a fault aborts. */
  ghost predicate Aborted(nodes: seq<Node>, rows: seq<Row>, i: nat, fault: Fault) {
    match fault
    case Defect => i < |nodes| && |rows| == 1 && rows[0].status == Started && rows[0].stepId == nodes[i].stepId
    case StepFailed(_, _) => i < |nodes| && |rows| == 2 && AttemptAt(nodes, i, rows[0], rows[1])
      && rows[1].status == Failed
    case Diverged(_, _) => i < |nodes| && |rows| == 2 && AttemptAt(nodes, i, rows[0], rows[1])
      && rows[1].status == Failed
    case _ => |rows| == 0
  }

  // ------------------------------------------------------------------ the invariant

  function Ids(succeeded: seq<Success>): seq<string> {
    seq(|succeeded|, i requires 0 <= i < |succeeded| => succeeded[i].stepId)
  }

  /** Succeeded steps are to be undone when they have a handler. */
  ghost predicate Flagged(flow: Flow, succeeded: seq<Success>) {
    forall i :: 0 <= i < |succeeded| ==> succeeded[i].undo == (succeeded[i].stepId in flow.compensable)
  }

  /** Since `start`, the rows are `base` followed by `path`, a walk to the current node. */
  ghost predicate Traced(flow: Flow, start: Fold, f: Fold, base: seq<Row>, path: seq<Row>) {
    && Rows(f.log) == base + path
    && Path(flow.Nodes(), path, start.index, f.index)
    && Ids(f.succeeded) == CompletedIds(path)
    && Flagged(flow, f.succeeded)
    && Conserved(start.budgets, f.budgets, path)
  }

  lemma {:induction false} PathGrows(
    nodes: seq<Node>, path: seq<Row>, from: nat, i: nat, started: Row, closing: Row, to: nat)
    requires UniqueIds(nodes) && i < |nodes|
    requires Path(nodes, path, from, i) && AttemptAt(nodes, i, started, closing) && Leads(nodes, i, closing, to)
    ensures Path(nodes, path + [started, closing], from, to)
    ensures CompletedIds(path + [started, closing])
         == CompletedIds(path) + (if closing.status == Completed then [closing.stepId] else [])
  {
    IndexOfUnique(nodes, i);
    hide Leads;
    var rows := path + [started, closing];
    assert rows[..|rows| - 2] == path;
    assert rows[..|rows| - 1] == path + [started];
    assert (path + [started])[..|path|] == path;
  }

  lemma {:induction false} ReroutesGrow(path: seq<Row>, started: Row, closing: Row, key: string)
    requires started.status == Started
    ensures ReroutesOver(path + [started, closing], key) == ReroutesOver(path, key)
      + (if closing.status == Rerouted && closing.reroute.Some?
          && EdgeKey(closing.stepId, closing.reroute.value.to) == key then 1 else 0)
  {
    var rows := path + [started, closing];
    assert rows[..|rows| - 1] == path + [started];
    assert (path + [started])[..|path|] == path;
  }

  /** The rows of one node. */
  lemma {:induction false} NodeRows(flow: Flow, env: Env, f: Fold)
    requires Runnable(flow) && f.index < |flow.Nodes()|
    ensures var node, s := flow.Nodes()[f.index], RunNode(flow, env, f);
      var started := StartedEvent(env, f, node).row;
      if !Reaches(flow, f, node) then Rows(s.next.log) == Rows(f.log) && s.Faulted?
      else if Answer(env, f, node).Died? then
        Rows(s.next.log) == Rows(f.log) + [started] && s.Faulted? && s.fault == Defect
      else
        && |s.next.log| == |f.log| + 3 && s.next.log[|f.log| + 2].Append?
        && var closing := s.next.log[|f.log| + 2].row;
           && Rows(s.next.log) == Rows(f.log) + [started, closing]
           && AttemptAt(flow.Nodes(), f.index, started, closing)
           && closing.status == (if s.Advanced? then Completed else if s.ReroutedTo? then Rerouted else Failed)
  {
    hide RunNode, Reaches, ExecutionBound, Contiguous, RecoveriesValid, UniqueIds, Inputs, Rows;
    StepLog(flow, env, f);
    var node, s := flow.Nodes()[f.index], RunNode(flow, env, f);
    if Reaches(flow, f, node) {
      var started, call := StartedEvent(env, f, node), Call(f, node);
      CallRows(f.log, started, call);
      if !Answer(env, f, node).Died? {
        var e := s.next.log[|f.log| + 2];
        assert s.next.log == f.log + [started, call] + [e];
        RowsOne(f.log + [started, call], e);
        assert Rows(f.log) + [started.row] + [e.row] == Rows(f.log) + [started.row, e.row];
      }
    }
  }

  lemma {:induction false} CallRows(log: seq<Event>, started: Event, call: Event)
    requires started.Append? && call.Entered?
    ensures Rows(log + [started, call]) == Rows(log) + [started.row]
  {
    RowsOne(log, started);
    RowsOne(log + [started], call);
    assert log + [started] + [call] == log + [started, call];
  }

  lemma {:induction false} AdvanceTraced(
    flow: Flow, env: Env, start: Fold, f: Fold, base: seq<Row>, path: seq<Row>)
    returns (longer: seq<Row>)
    requires Runnable(flow) && f.index < |flow.Nodes()| && Traced(flow, start, f, base, path)
    requires RunNode(flow, env, f).Advanced?
    ensures Traced(flow, start, MoveTo(flow.Nodes(), RunNode(flow, env, f).next, f.index + 1), base, longer)
  {
    hide RunNode, Reaches, Contiguous, EncodeDelta, SegmentEnd, Rows, Path, CompletedIds, ReroutesOver, MoveTo;
    hide Answer, StartedEvent, UniqueIds, RecoveriesValid, Ids, Flagged, Conserved, IndexOf, Inputs;
    hide ExecutionBound;
    NodeRows(flow, env, f);
    StepAdvance(flow, env, f);
    RunnableIds(flow);
    StartedIs(env, f, flow.Nodes()[f.index]);
    var nodes, s := flow.Nodes(), RunNode(flow, env, f);
    var started, closing := StartedEvent(env, f, nodes[f.index]).row, s.next.log[|f.log| + 2].row;
    longer := path + [started, closing];
    MoveRows(nodes, s.next, f.index + 1);
    assert base + path + [started, closing] == base + longer;
    PathGrows(nodes, path, start.index, f.index, started, closing, f.index + 1);
    SucceededGrows(flow, f.succeeded, s.next.succeeded[|f.succeeded|]);
    SameBudgets(start.budgets, s.next.budgets, path, started, closing);
  }

  ghost predicate Conserved(initial: map<string, int>, left: map<string, int>, path: seq<Row>) {
    initial.Keys == left.Keys && forall key :: key in initial ==> initial[key] == left[key] + ReroutesOver(path, key)
  }

  lemma {:induction false} SameBudgets(
    initial: map<string, int>, left: map<string, int>, path: seq<Row>, started: Row, closing: Row)
    requires Conserved(initial, left, path) && started.status == Started && closing.status != Rerouted
    ensures Conserved(initial, left, path + [started, closing])
  {
    hide ReroutesOver, EdgeKey;
    forall key | key in initial
      ensures initial[key] == left[key] + ReroutesOver(path + [started, closing], key)
    {
      ReroutesGrow(path, started, closing, key);
    }
  }

  lemma {:induction false} SpentBudget(
    initial: map<string, int>, left: map<string, int>, path: seq<Row>, started: Row, closing: Row, key: string)
    requires Conserved(initial, left, path) && started.status == Started && key in left
    requires closing.status == Rerouted && closing.reroute.Some?
    requires EdgeKey(closing.stepId, closing.reroute.value.to) == key
    ensures Conserved(initial, left[key := left[key] - 1], path + [started, closing])
  {
    hide ReroutesOver, EdgeKey;
    var after := left[key := left[key] - 1];
    forall k | k in initial
      ensures initial[k] == after[k] + ReroutesOver(path + [started, closing], k)
    {
      ReroutesGrow(path, started, closing, k);
    }
  }

  lemma {:induction false} StartedIs(env: Env, f: Fold, node: Node)
    ensures StartedEvent(env, f, node).Append?
    ensures StartedEvent(env, f, node).row.status == Started && StartedEvent(env, f, node).row.stepId == node.stepId
  {}

  lemma {:induction false} RunnableIds(flow: Flow)
    requires Runnable(flow)
    ensures UniqueIds(flow.Nodes()) && RecoveriesValid(flow.Nodes())
  {}

  lemma {:induction false} SucceededGrows(flow: Flow, before: seq<Success>, last: Success)
    requires Flagged(flow, before) && last.undo == (last.stepId in flow.compensable)
    ensures Ids(before + [last]) == Ids(before) + [last.stepId] && Flagged(flow, before + [last])
  {}

  lemma {:induction false} MoveRows(nodes: seq<Node>, f: Fold, index: nat)
    ensures var g := MoveTo(nodes, f, index);
      && Rows(g.log) == Rows(f.log) && g.index == index && g.succeeded == f.succeeded && g.budgets == f.budgets
      && (g.open.Some? ==> index < |nodes| && g.open == Some(nodes[index].segment))
      && g.executions == f.executions
  {
    hide Rows;
    if f.open.Some? {
      RowsOne(f.log, Closed(f.open.value));
    }
  }

  lemma {:induction false} RerouteTraced(
    flow: Flow, env: Env, start: Fold, f: Fold, base: seq<Row>, path: seq<Row>)
    returns (longer: seq<Row>)
    requires Runnable(flow) && f.index < |flow.Nodes()| && Traced(flow, start, f, base, path)
    requires RunNode(flow, env, f).ReroutedTo?
    ensures Traced(flow, start, MoveTo(flow.Nodes(), RunNode(flow, env, f).next, RunNode(flow, env, f).to), base,
            longer)
  {
    hide RunNode, Reaches, Contiguous, Rows, Path, CompletedIds, ReroutesOver, MoveTo, Answer, StartedEvent;
    hide EdgeKey, UniqueIds, RecoveriesValid, Ids, Conserved, IndexOf, Declares, Flagged, Inputs, ExecutionBound;
    hide Commit;
    NodeRows(flow, env, f);
    StepReroute(flow, env, f);
    RunnableIds(flow);
    StartedIs(env, f, flow.Nodes()[f.index]);
    var nodes, s := flow.Nodes(), RunNode(flow, env, f);
    var started, closing := StartedEvent(env, f, nodes[f.index]).row, s.next.log[|f.log| + 2].row;
    longer := path + [started, closing];
    MoveRows(nodes, s.next, s.to);
    assert base + path + [started, closing] == base + longer;
    PathGrows(nodes, path, start.index, f.index, started, closing, s.to);
    assert CompletedIds(path) + [] == CompletedIds(path);
    SpentBudget(start.budgets, f.budgets, path, started, closing, EdgeKey(nodes[f.index].stepId, nodes[s.to].stepId));
  }

  // -------------------------------------------------------------------- the driver

  /** What the driver leaves behind: a walk, and the aborted attempt of its fault. */
  ghost predicate Shape(
    flow: Flow, start: Fold, o: Outcome, base: seq<Row>, path: seq<Row>, aborted: seq<Row>, stop: nat)
  {
    && Rows(o.final.log) == base + path + aborted
    && Path(flow.Nodes(), path, start.index, stop)
    && Ids(o.final.succeeded) == CompletedIds(path)
    && Flagged(flow, o.final.succeeded)
    && Conserved(start.budgets, o.final.budgets, path)
    && (o.Finished? ==> aborted == [] && stop == |flow.Nodes()|)
    && (o.Broke? ==> Aborted(flow.Nodes(), aborted, stop, o.fault))
  }

  ghost function Fuel(flow: Flow, f: Fold): nat {
    if ExecutionBound(flow.Nodes()) >= f.executions then ExecutionBound(flow.Nodes()) - f.executions + 1 else 0
  }

  lemma {:induction false} DriveShape(flow: Flow, env: Env, start: Fold, f: Fold, base: seq<Row>, path: seq<Row>)
      returns (whole: seq<Row>, aborted: seq<Row>, stop: nat)
    requires Runnable(flow) && Traced(flow, start, f, base, path) && f.index <= |flow.Nodes()|
    requires f.open.Some? ==> f.index < |flow.Nodes()| && f.open == Some(flow.Nodes()[f.index].segment)
    ensures Shape(flow, start, Drive(flow, env, f), base, whole, aborted, stop)
    decreases Fuel(flow, f), 1
  {
    hide RunNode, Drive, Runnable, Rows, Path, CompletedIds, ReroutesOver;
    var nodes := flow.Nodes();
    if f.index >= |nodes| {
      DriveDone(flow, env, f);
      whole, aborted, stop := path, [], |nodes|;
      assert base + path + [] == base + path;
    } else if f.open.None? {
      DriveClosed(flow, env, f);
      if env.session(f.sessions, nodes[f.index].segment).None? {
        RowsOne(f.log, Opened(nodes[f.index].segment));
        whole, aborted, stop := NodeShape(flow, env, start, Enter(f, nodes[f.index].segment), base, path);
      } else {
        whole, aborted, stop := path, [], f.index;
        assert base + path + [] == base + path;
      }
    } else {
      whole, aborted, stop := NodeShape(flow, env, start, f, base, path);
    }
  }

  lemma {:induction false} NodeShape(flow: Flow, env: Env, start: Fold, f: Fold, base: seq<Row>, path: seq<Row>)
      returns (whole: seq<Row>, aborted: seq<Row>, stop: nat)
    requires Runnable(flow) && Traced(flow, start, f, base, path)
    requires f.index < |flow.Nodes()| && f.open == Some(flow.Nodes()[f.index].segment)
    ensures Shape(flow, start, Drive(flow, env, f), base, whole, aborted, stop)
    decreases Fuel(flow, f), 0
  {
    RunnableIds(flow);
    hide RunNode, Drive, Runnable, Traced, Shape, MoveTo;
    var nodes, s := flow.Nodes(), RunNode(flow, env, f);
    if s.Advanced? {
      DriveAdvances(flow, env, f);
      var longer := AdvanceTraced(flow, env, start, f, base, path);
      MoveRows(nodes, s.next, f.index + 1);
      whole, aborted, stop := DriveShape(flow, env, start, MoveTo(nodes, s.next, f.index + 1), base, longer);
    } else if s.ReroutedTo? {
      DriveReroutes(flow, env, f);
      var longer := RerouteTraced(flow, env, start, f, base, path);
      MoveRows(nodes, s.next, s.to);
      whole, aborted, stop := DriveShape(flow, env, start, MoveTo(nodes, s.next, s.to), base, longer);
    } else {
      DriveFaults(flow, env, f);
      aborted := FaultShape(flow, env, start, f, base, path);
      whole, stop := path, f.index;
    }
  }

  lemma {:induction false} FaultShape(
    flow: Flow, env: Env, start: Fold, f: Fold, base: seq<Row>, path: seq<Row>)
    returns (aborted: seq<Row>)
    requires Runnable(flow) && Traced(flow, start, f, base, path)
    requires f.index < |flow.Nodes()| && RunNode(flow, env, f).Faulted?
    ensures Shape(flow, start, Broke(Leave(RunNode(flow, env, f).next), RunNode(flow, env, f).fault), base, path,
            aborted, f.index)
  {
    hide RunNode, Contiguous, UniqueIds, RecoveriesValid, Rows, Path, CompletedIds, ReroutesOver, Conserved, Ids;
    hide Leave, Flagged, Aborted;
    aborted := FaultRows(flow, env, f);
    LeaveRows(RunNode(flow, env, f).next);
    assert (base + path) + aborted == base + path + aborted;
  }

  /** The rows of a node that faults. */
  lemma {:induction false} FaultRows(flow: Flow, env: Env, f: Fold) returns (aborted: seq<Row>)
    requires Runnable(flow) && f.index < |flow.Nodes()| && RunNode(flow, env, f).Faulted?
    ensures var s := RunNode(flow, env, f);
      && Rows(s.next.log) == Rows(f.log) + aborted
      && s.next.succeeded == f.succeeded && s.next.budgets == f.budgets
      && Aborted(flow.Nodes(), aborted, f.index, s.fault)
  {
    hide RunNode, Reaches, Contiguous, UniqueIds, RecoveriesValid, Rows, StartedEvent, FirstMissing;
    hide ExecutionBound, Answer, Inputs, IndexOf, AttemptAt;
    NodeRows(flow, env, f);
    var nodes, s := flow.Nodes(), RunNode(flow, env, f);
    var node := nodes[f.index];
    StartedIs(env, f, node);
    var started := StartedEvent(env, f, node).row;
    if Reaches(flow, f, node) {
      StepFault(flow, env, f);
    } else {
      StepStopped(flow, env, f);
    }
    if !Reaches(flow, f, node) {
      aborted := [];
    } else if Answer(env, f, node).Died? {
      aborted := [started];
    } else {
      aborted := [started, s.next.log[|f.log| + 2].row];
    }
  }

  lemma {:induction false} LeaveRows(f: Fold)
    ensures Rows(Leave(f).log) == Rows(f.log) && Leave(f).succeeded == f.succeeded && Leave(f).budgets == f.budgets
  {
    hide Rows;
    if f.open.Some? {
      RowsOne(f.log, Closed(f.open.value));
    }
  }

  // --------------------------------------------------------------------- the lease

  lemma {:induction false} SkipRows(flow: Flow, env: Env, f: Fold, n: nat) returns (skips: seq<Row>)
    requires n <= |flow.Nodes()|
    ensures Rows(Skip(flow, env, f, n).log) == Rows(f.log) + skips && Skips(flow.Nodes(), skips, n)
  {
    hide Rows;
    skips := [];
    if n > 0 {
      var front := SkipRows(flow, env, f, n - 1);
      var g := Skip(flow, env, f, n - 1);
      hide Skip;
      var row := BareRow(flow.Nodes()[n - 1].stepId, GetOr(g.attempts, flow.Nodes()[n - 1].stepId, 1), SkippedResume);
      RowsOne(g.log, Append(row, env.append(g.appends)));
      skips := front + [row];
      assert Rows(f.log) + front + [row] == Rows(f.log) + skips;
    }
  }

  lemma {:induction false} StartRows(flow: Flow, env: Env, initial: State, rows: seq<Row>) returns (skips: seq<Row>)
    ensures var f := StartingFold(flow, env, initial, rows);
      && f.index <= |flow.Nodes()|
      && Rows(f.log) == skips && Skips(flow.Nodes(), skips, f.index)
      && f.open.None? && f.succeeded == [] && f.budgets == Budgets(flow.Nodes())
  {
    assert Rows([]) == [] && Skips(flow.Nodes(), [], 0);
    hide IndexOf, SeedTokens, SeedAttempts, LastBoundary, DecodeDelta, Skip, Budgets, Rows, Skips;
    HydrateKeeps(flow, env, Fresh(flow, initial), rows);
    skips := [];
    if |rows| > 0 {
      var g := Fresh(flow, initial).(tokens := SeedTokens(rows), attempts := SeedAttempts(rows));
      var boundary := LastBoundary(flow.Nodes(), rows);
      if boundary.Some? {
        var decoded := DecodeDelta(flow, boundary.value.stateDelta.value);
        if decoded.Some? {
          var start := IndexOf(flow.Nodes(), boundary.value.stepId).value + 1;
          var h := g.(state := g.state + decoded.value, provided := g.provided + decoded.value.Keys, index := start);
          SkipKeeps(flow, env, h, start);
          skips := SkipRows(flow, env, h, start);
          assert Rows(h.log) + skips == skips;
        }
      }
    }
  }

  lemma {:induction false} UndoRow(env: Env, f: Fold, entry: Success)
    ensures var g := UndoEntry(env, f, entry);
      && g.succeeded == f.succeeded && g.attempts == f.attempts
      && Rows(g.log) == Rows(f.log) + [BareRow(entry.stepId, GetOr(f.attempts, entry.stepId, 1), Compensated)]
  {
    hide Rows;
    RowsOne(f.log, Undone(entry.stepId, entry.output));
    RowsOne(f.log + [Undone(entry.stepId, entry.output)],
            Append(BareRow(entry.stepId, GetOr(f.attempts, entry.stepId, 1), Compensated), env.append(f.appends)));
  }

  lemma {:induction false} UndosOne(ids: seq<string>, compensable: set<string>, attempts: map<string, nat>)
    requires |ids| > 0
    ensures var id := ids[|ids| - 1]; var rest := Undos(ids[..|ids| - 1], compensable, attempts);
      Undos(ids, compensable, attempts)
        == if id in compensable then [BareRow(id, GetOr(attempts, id, 1), Compensated)] + rest else rest
  {}

  lemma {:induction false} CompensateRows(flow: Flow, env: Env, f: Fold, n: nat)
    requires n <= |f.succeeded|
    requires Flagged(flow, f.succeeded)
    ensures Rows(Compensate(env, f, n).log) == Rows(f.log) + Undos(Ids(f.succeeded[..n]), flow.compensable, f.attempts)
    decreases n
  {
    hide Rows, UndoEntry, Undos;
    var ids := Ids(f.succeeded[..n]);
    if n == 0 {
      assert Undos(ids, flow.compensable, f.attempts) == [] by { NoUndos(flow.compensable, f.attempts); }
    } else {
      var entry := f.succeeded[n - 1];
      var g := if entry.undo then UndoEntry(env, f, entry) else f;
      UndoRow(env, f, entry);
      assert ids[..n - 1] == Ids(f.succeeded[..n - 1]);
      UndosOne(ids, flow.compensable, f.attempts);
      CompensateRows(flow, env, g, n - 1);
    }
  }

  lemma {:induction false} NoUndos(compensable: set<string>, attempts: map<string, nat>)
    ensures Undos([], compensable, attempts) == []
  {}

  /** Journal trace shape. The rows of a lease that nothing cut short are: one skip per
      node before the start, a walk over the plan from there in which each node follows
      its predecessor or the recorded reroute, the rows of the attempt the fault
      aborted, and the compensations of exactly the completed steps that have a
      handler, in reverse. Every edge's budget is what is left plus what was walked. */
  lemma {:induction false} LeaseTrace(flow: Flow, env: Env, initial: State, resume: bool, journal: seq<Row>)
      returns (skips: seq<Row>, path: seq<Row>, aborted: seq<Row>, stop: nat)
    requires Runnable(flow)
    ensures var r := RunFlow(flow, env, initial, resume, journal);
      var start := StartingFold(flow, env, initial, Visible(env, resume, journal));
      var undos := if r.Succeeded? || r.fault == Defect then []
                   else Undos(CompletedIds(path), flow.compensable, r.final.attempts);
      && start.index <= |flow.Nodes()|
      && Skips(flow.Nodes(), skips, start.index)
      && Path(flow.Nodes(), path, start.index, stop)
      && (if r.Succeeded? then aborted == [] && stop == |flow.Nodes()|
         else Aborted(flow.Nodes(), aborted, stop, r.fault))
      && Rows(r.final.log) == skips + path + aborted + undos
    ensures Conserved(Budgets(flow.Nodes()), RunFlow(flow, env, initial, resume, journal).final.budgets, path)
  {
    hide RunFlow, Drive, StartingFold, ReplayGuard, Conclude, Budgets, Runnable, Rows, CompletedIds, Undos, Skips;
    hide Visible, ReroutesOver;
    var rows := Visible(env, resume, journal);
    var start := StartingFold(flow, env, initial, rows);
    skips := StartRows(flow, env, initial, rows);
    LeaseCases(flow, env, initial, resume, journal);
    StartTraced(flow, start, skips);
    if |rows| > 0 && ReplayGuard(flow.Nodes(), rows, start.index).Some? {
      path, aborted, stop := [], [], start.index;
      assert skips + [] + [] == skips;
      NothingUndone(flow, start.attempts, skips);
    } else {
      path, aborted, stop := DriveShape(flow, env, start, start, skips, []);
      ConcludeShape(flow, env, start, Drive(flow, env, start), skips, path, aborted, stop);
    }
  }

  lemma {:induction false} NothingUndone(flow: Flow, attempts: map<string, nat>, skips: seq<Row>)
    ensures Undos(CompletedIds([]), flow.compensable, attempts) == []
    ensures skips + Undos(CompletedIds([]), flow.compensable, attempts) == skips
  {}

  lemma {:induction false} StartTraced(flow: Flow, start: Fold, skips: seq<Row>)
    requires Rows(start.log) == skips && start.succeeded == []
    ensures Traced(flow, start, start, skips, [])
  {
    assert skips + [] == skips;
  }

  /** Compensation appends its rows and leaves the rest of the shape alone. */
  lemma {:induction false} ConcludeShape(
    flow: Flow, env: Env, start: Fold, o: Outcome, base: seq<Row>, path: seq<Row>, aborted: seq<Row>, stop: nat)
    requires Shape(flow, start, o, base, path, aborted, stop)
    ensures var r := Conclude(env, o);
      && Path(flow.Nodes(), path, start.index, stop) && Conserved(start.budgets, r.final.budgets, path)
      && (if r.Succeeded? then aborted == [] && stop == |flow.Nodes()|
         else Aborted(flow.Nodes(), aborted, stop, r.fault))
      && Rows(r.final.log) == base + path + aborted
           + (if r.Succeeded? || r.fault == Defect then []
               else Undos(CompletedIds(path), flow.compensable, r.final.attempts))
  {
    hide Rows, Undos, Path, Compensate, CompletedIds, Conserved, Aborted;
    assert base + path + aborted + [] == base + path + aborted;
    ConcludeKeeps(env, o);
    if o.Broke? && o.fault != Defect {
      CompensateRows(flow, env, o.final, |o.final.succeeded|);
      assert o.final.succeeded[..|o.final.succeeded|] == o.final.succeeded;
    }
  }
}
