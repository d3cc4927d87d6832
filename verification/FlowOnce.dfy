/** Within one lease an effectful-once step is entered at most once, and not at all
    when the journal already has evidence of it (src/flow/run.ts:405-454). */
module FlowOnce {
  import opened Basics
  import opened JsonValues
  import opened FlowTypes
  import opened PlanShape
  import opened FlowFold
  import opened FlowLease
  import opened FlowSteps

  /** How often a step's `run` was entered. */
  function Entries(log: seq<Event>, stepId: string): nat {
    if |log| == 0 then 0
    else
      var e := log[|log| - 1];
      Entries(log[..|log| - 1], stepId) + (if e.Entered? && e.stepId == stepId then 1 else 0)
  }

  lemma {:induction false} EntriesConcat(a: seq<Event>, b: seq<Event>, stepId: string)
    ensures Entries(a + b, stepId) == Entries(a, stepId) + Entries(b, stepId)
  {
    if |b| == 0 {
      assert a + b == a;
    } else {
      assert (a + b)[..|a + b| - 1] == a + b[..|b| - 1];
      EntriesConcat(a, b[..|b| - 1], stepId);
    }
  }

  lemma {:induction false} EntriesPrefix(a: seq<Event>, b: seq<Event>, stepId: string)
    requires a <= b
    ensures Entries(a, stepId) <= Entries(b, stepId)
  {
    assert b == a + b[|a|..];
    EntriesConcat(a, b[|a|..], stepId);
  }

  /** No recovery edge leads from `k` or a later node back to `k` or an earlier one. */
  ghost predicate NoReturnTo(nodes: seq<Node>, k: nat) {
    forall i, to :: 0 <= i < |nodes| && Declares(nodes[i], to) && IndexOf(nodes, to).Some? ==>
      !(IndexOf(nodes, to).value <= k <= i)
  }

  /** Each entry of the step comes right after its kept `started` row. */
  ghost predicate StartedFirst(log: seq<Event>, stepId: string) {
    forall p :: 0 <= p < |log| && log[p].Entered? && log[p].stepId == stepId ==>
      p > 0 && KeptStart(log[p - 1], stepId)
  }

  predicate KeptStart(e: Event, stepId: string) {
    e.Append? && e.kept && e.row.stepId == stepId && e.row.status == Started
  }

  lemma {:induction false} StartedFirstConcat(a: seq<Event>, b: seq<Event>, stepId: string)
    requires StartedFirst(a, stepId) && StartedFirst(b, stepId)
    ensures StartedFirst(a + b, stepId)
  {}

  ghost predicate Reliable(env: Env) {
    env.read && forall n :: env.append(n)
  }

  /** Events of a driver step that are not a call of the step. */
  lemma {:induction false} Quiet(log: seq<Event>, e: Event, stepId: string)
    requires !e.Entered? || e.stepId != stepId
    ensures Entries(log + [e], stepId) == Entries(log, stepId)
    ensures StartedFirst(log, stepId) ==> StartedFirst(log + [e], stepId)
  {
    assert (log + [e])[..|log|] == log;
  }

  /** The acts of one node count one entry at most, of that node. */
  lemma {:induction false} NodeEntries(flow: Flow, env: Env, f: Fold, stepId: string)
    requires Runnable(flow) && f.index < |flow.Nodes()|
    ensures var s := RunNode(flow, env, f);
      && Entries(s.next.log, stepId) <= Entries(f.log, stepId)
         + (if flow.Nodes()[f.index].stepId == stepId then 1 else 0)
      && (!s.Faulted? && flow.Nodes()[f.index].stepId == stepId ==>
         Entries(s.next.log, stepId) == Entries(f.log, stepId) + 1)
      && (Reliable(env) && StartedFirst(f.log, stepId) ==> StartedFirst(s.next.log, stepId))
  {
    StepLog(flow, env, f);
    if !RunNode(flow, env, f).Faulted? {
      StepCalled(flow, env, f);
    }
    hide RunNode, Reaches, ExecutionBound, Contiguous, RecoveriesValid, UniqueIds, Inputs, Entries, StartedFirst;
    var node, s := flow.Nodes()[f.index], RunNode(flow, env, f);
    if Reaches(flow, f, node) {
      var started, call := StartedEvent(env, f, node), Call(f, node);
      CallEntries(f.log, started, call, stepId);
      if !Answer(env, f, node).Died? {
        var e := s.next.log[|f.log| + 2];
        assert s.next.log == f.log + [started, call] + [e];
        Quiet(f.log + [started, call], e, stepId);
      }
    }
  }

  lemma {:induction false} CallEntries(log: seq<Event>, started: Event, call: Event, stepId: string)
    requires !started.Entered? && call.Entered?
    ensures Entries(log + [started, call], stepId) == Entries(log, stepId) + (if call.stepId == stepId then 1 else 0)
    ensures StartedFirst(log, stepId) && (call.stepId == stepId ==> KeptStart(started, stepId)) ==>
      StartedFirst(log + [started, call], stepId)
  {
    Quiet(log, started, stepId);
    var called := log + [started, call];
    assert called[..|called| - 1] == log + [started];
  }

  lemma {:induction false} StepCalled(flow: Flow, env: Env, f: Fold)
    requires Runnable(flow) && f.index < |flow.Nodes()| && !RunNode(flow, env, f).Faulted?
    ensures Reaches(flow, f, flow.Nodes()[f.index])
  {
    if RunNode(flow, env, f).Advanced? {
      StepAdvance(flow, env, f);
    } else {
      StepReroute(flow, env, f);
    }
  }

  lemma {:induction false} MoveQuiet(nodes: seq<Node>, f: Fold, index: nat, stepId: string)
    ensures Entries(MoveTo(nodes, f, index).log, stepId) == Entries(f.log, stepId)
    ensures StartedFirst(f.log, stepId) ==> StartedFirst(MoveTo(nodes, f, index).log, stepId)
  {
    if f.open.Some? {
      Quiet(f.log, Closed(f.open.value), stepId);
    }
  }

  lemma {:induction false} LeaveQuiet(f: Fold, stepId: string)
    ensures Entries(Leave(f).log, stepId) == Entries(f.log, stepId)
    ensures StartedFirst(f.log, stepId) ==> StartedFirst(Leave(f).log, stepId)
  {
    if f.open.Some? {
      Quiet(f.log, Closed(f.open.value), stepId);
    }
  }

  /** From a fold at `index`, the driver enters node `k` at most once more, and never
      when `index` is beyond `k`. */
  lemma {:induction false} DriveOnce(flow: Flow, env: Env, f: Fold, k: nat)
    requires Runnable(flow) && k < |flow.Nodes()| && NoReturnTo(flow.Nodes(), k)
    requires Reliable(env) && StartedFirst(f.log, flow.Nodes()[k].stepId)
    requires f.open.Some? ==> f.index < |flow.Nodes()| && f.open == Some(flow.Nodes()[f.index].segment)
    ensures var o := Drive(flow, env, f); var id := flow.Nodes()[k].stepId;
      && Entries(o.final.log, id) <= Entries(f.log, id) + (if f.index <= k then 1 else 0)
      && StartedFirst(o.final.log, id)
    decreases ExecutionsLeft(flow.Nodes(), f), f.open.None?
  {
    hide RunNode, Drive, ExecutionBound, Reaches, Call, ClosingRow, Contiguous, RecoveriesValid, Entries;
    hide StartedFirst, MoveTo, NoReturnTo, UniqueIds;
    var nodes := flow.Nodes();
    var id := nodes[k].stepId;
    if f.index >= |nodes| {
      DriveDone(flow, env, f);
    } else if f.open.None? {
      DriveClosed(flow, env, f);
      if env.session(f.sessions, nodes[f.index].segment).None? {
        Quiet(f.log, Opened(nodes[f.index].segment), id);
        DriveOnce(flow, env, Enter(f, nodes[f.index].segment), k);
      }
    } else {
      DriveOpen(flow, env, f);
      NodeEntries(flow, env, f, id);
      SameNode(nodes, f.index, k);
      var s := RunNode(flow, env, f);
      match s {
        case Faulted(h, fault) =>
          LeaveQuiet(h, id);
        case Advanced(h) =>
          MoveQuiet(nodes, h, f.index + 1, id);
          MoveKeeps(nodes, h, f.index + 1);
          MovePlaced(nodes, h, f.index + 1);
          DriveOnce(flow, env, MoveTo(nodes, h, f.index + 1), k);
        case ReroutedTo(h, to) =>
          MoveQuiet(nodes, h, to, id);
          MoveKeeps(nodes, h, to);
          MovePlaced(nodes, h, to);
          RerouteStays(flow, env, f, k);
          DriveOnce(flow, env, MoveTo(nodes, h, to), k);
      }
    }
  }

  lemma {:induction false} SameNode(nodes: seq<Node>, i: nat, k: nat)
    requires UniqueIds(nodes) && i < |nodes| && k < |nodes|
    ensures nodes[i].stepId == nodes[k].stepId <==> i == k
  {}

  lemma {:induction false} MovePlaced(nodes: seq<Node>, f: Fold, index: nat)
    ensures var g := MoveTo(nodes, f, index);
      g.open.Some? ==> index < |nodes| && g.open == Some(nodes[index].segment)
  {}

  lemma {:induction false} RerouteStays(flow: Flow, env: Env, f: Fold, k: nat)
    requires Runnable(flow) && f.index < |flow.Nodes()| && RunNode(flow, env, f).ReroutedTo?
    requires NoReturnTo(flow.Nodes(), k)
    ensures f.index >= k ==> RunNode(flow, env, f).to > k
  {
    StepReroute(flow, env, f);
    hide RunNode, Reaches;
  }

  lemma {:induction false} SkipQuiet(flow: Flow, env: Env, f: Fold, n: nat, stepId: string)
    requires n <= |flow.Nodes()|
    ensures Entries(Skip(flow, env, f, n).log, stepId) == Entries(f.log, stepId)
    ensures StartedFirst(f.log, stepId) ==> StartedFirst(Skip(flow, env, f, n).log, stepId)
  {
    if n > 0 {
      SkipQuiet(flow, env, f, n - 1, stepId);
      var g := Skip(flow, env, f, n - 1);
      var id := flow.Nodes()[n - 1].stepId;
      hide Skip;
      Quiet(g.log, Append(BareRow(id, GetOr(g.attempts, id, 1), SkippedResume), env.append(g.appends)), stepId);
    }
  }

  lemma {:induction false} HydrateQuiet(flow: Flow, env: Env, f: Fold, rows: seq<Row>, stepId: string)
    requires f.log == []
    ensures Entries(Hydrate(flow, env, f, rows).log, stepId) == 0
    ensures StartedFirst(Hydrate(flow, env, f, rows).log, stepId)
  {
    hide IndexOf, SeedTokens, SeedAttempts, LastBoundary, DecodeDelta, Skip;
    var g := f.(tokens := SeedTokens(rows), attempts := SeedAttempts(rows));
    var boundary := LastBoundary(flow.Nodes(), rows);
    if boundary.Some? {
      var decoded := DecodeDelta(flow, boundary.value.stateDelta.value);
      if decoded.Some? {
        var start := IndexOf(flow.Nodes(), boundary.value.stepId).value + 1;
        SkipQuiet(flow, env,
            g.(state := g.state + decoded.value, provided := g.provided + decoded.value.Keys, index := start), start,
                stepId);
      }
    }
  }

  lemma {:induction false} CompensateQuiet(env: Env, f: Fold, n: nat, stepId: string)
    requires n <= |f.succeeded|
    ensures Entries(Compensate(env, f, n).log, stepId) == Entries(f.log, stepId)
    ensures StartedFirst(f.log, stepId) ==> StartedFirst(Compensate(env, f, n).log, stepId)
    decreases n
  {
    if n > 0 {
      var entry := f.succeeded[n - 1];
      if !entry.undo {
        CompensateQuiet(env, f, n - 1, stepId);
      } else {
        var undone := Undone(entry.stepId, entry.output);
        var row := BareRow(entry.stepId, GetOr(f.attempts, entry.stepId, 1), Compensated);
        var g := Checkpoint(env, f.(log := f.log + [undone]), row);
        Quiet(f.log, undone, stepId);
        Quiet(f.log + [undone], Append(row, env.append(f.appends)), stepId);
        CompensateQuiet(env, g, n - 1, stepId);
      }
    }
  }

  lemma {:induction false} EmptyStarted(stepId: string)
    ensures StartedFirst([], stepId)
  {}

  lemma {:induction false} ConcludeQuiet(env: Env, o: Outcome, stepId: string)
    ensures Entries(Conclude(env, o).final.log, stepId) == Entries(o.final.log, stepId)
    ensures StartedFirst(o.final.log, stepId) ==> StartedFirst(Conclude(env, o).final.log, stepId)
  {
    if o.Broke? {
      CompensateQuiet(env, o.final, |o.final.succeeded|, stepId);
    }
  }

  /** One lease of the fold over a journal it can read and write. */
  lemma {:induction false} LeaseOnce(flow: Flow, env: Env, initial: State, journal: seq<Row>, k: nat)
    requires Runnable(flow) && k < |flow.Nodes()| && NoReturnTo(flow.Nodes(), k)
    requires flow.Nodes()[k].idempotency == EffectfulOnce
    requires Reliable(env)
    ensures var log := RunFlow(flow, env, initial, true, journal).final.log; var id := flow.Nodes()[k].stepId;
      && Entries(log, id) <= 1
      && (HasEvidence(journal, id) ==> Entries(log, id) == 0)
      && StartedFirst(log, id)
  {
    hide RunFlow, Drive, Hydrate, ReplayGuard, Conclude, Budgets, NoReturnTo, StartedFirst, Contiguous, RecoveriesValid;
    var id := flow.Nodes()[k].stepId;
    var f := StartingFold(flow, env, initial, journal);
    LeaseCases(flow, env, initial, true, journal);
    HydrateQuiet(flow, env, Fresh(flow, initial), journal, id);
    HydrateKeeps(flow, env, Fresh(flow, initial), journal);
    EmptyStarted(id);
    DriveOnce(flow, env, f, k);
    ConcludeQuiet(env, Drive(flow, env, f), id);
  }
}
