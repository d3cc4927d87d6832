/** Sessions (src/flow/run.ts:375-392, 456-467): one scope per segment entry, whatever
    steps, choosers and session layers do. */
module FlowSessions {
  import opened Basics
  import opened JsonValues
  import opened FlowTypes
  import opened PlanShape
  import opened FlowFold
  import opened FlowLease
  import opened FlowSteps
  import opened FlowOnce

  /** The session that is open after these acts. */
  function OpenIn(log: seq<Event>): Option<string> {
    if |log| == 0 then None
    else
      match log[|log| - 1]
      case Opened(segment) => Some(segment)
      case Closed(_) => None
      case _ => OpenIn(log[..|log| - 1])
  }

  /** Sessions do not nest, only the open one is closed, a step is entered inside a
      session of its own segment, and compensation runs outside any session. */
  ghost predicate ProperAct(nodes: seq<Node>, open: Option<string>, e: Event) {
    match e
    case Opened(_) => open.None?
    case Closed(segment) => open == Some(segment)
    case Entered(stepId, _, _) => exists i ::
      0 <= i < |nodes| && nodes[i].stepId == stepId && open == Some(nodes[i].segment)
    case Undone(_, _) => open.None?
    case Append(_, _) => true
  }

  ghost predicate Proper(nodes: seq<Node>, log: seq<Event>) {
    forall p :: 0 <= p < |log| ==> ProperAct(nodes, OpenIn(log[..p]), log[p])
  }

  ghost predicate InSession(nodes: seq<Node>, f: Fold) {
    Proper(nodes, f.log) && OpenIn(f.log) == f.open
  }

  lemma {:induction false} ProperGrows(nodes: seq<Node>, log: seq<Event>, e: Event)
    requires Proper(nodes, log) && ProperAct(nodes, OpenIn(log), e)
    ensures Proper(nodes, log + [e])
    ensures OpenIn(log + [e]) == if e.Opened? then Some(e.segment) else if e.Closed? then None else OpenIn(log)
  {
    hide ProperAct;
    var longer := log + [e];
    assert longer[..|log|] == log;
    forall p | 0 <= p < |longer| ensures ProperAct(nodes, OpenIn(longer[..p]), longer[p]) {
      if p < |log| {
        assert longer[..p] == log[..p];
        assert ProperAct(nodes, OpenIn(log[..p]), log[p]);
      }
    }
  }

  /** A node runs inside the session that is open and leaves it open. */
  lemma {:induction false} NodeInSession(flow: Flow, env: Env, f: Fold)
    requires f.index < |flow.Nodes()| && RecoveriesValid(flow.Nodes()) && InSession(flow.Nodes(), f)
    requires f.open == Some(flow.Nodes()[f.index].segment)
    ensures InSession(flow.Nodes(), RunNode(flow, env, f).next)
  {
    hide RunNode, Reaches, Proper, OpenIn, ExecutionBound, RecoveriesValid;
    StepLog(flow, env, f);
    var nodes, node, s := flow.Nodes(), flow.Nodes()[f.index], RunNode(flow, env, f);
    if Reaches(flow, f, node) {
      var started, call := StartedEvent(env, f, node), Call(f, node);
      ProperGrows(nodes, f.log, started);
      ProperGrows(nodes, f.log + [started], call);
      assert f.log + [started] + [call] == f.log + [started, call];
      if !Answer(env, f, node).Died? {
        var e := s.next.log[|f.log| + 2];
        ProperGrows(nodes, f.log + [started, call], e);
        assert f.log + [started, call] + [e] == s.next.log;
      }
    }
  }

  lemma {:induction false} MoveInSession(nodes: seq<Node>, f: Fold, index: nat)
    requires InSession(nodes, f)
    ensures InSession(nodes, MoveTo(nodes, f, index))
  {
    hide Proper, OpenIn;
    if f.open.Some? {
      ProperGrows(nodes, f.log, Closed(f.open.value));
    }
  }

  lemma {:induction false} LeaveInSession(nodes: seq<Node>, f: Fold)
    requires InSession(nodes, f)
    ensures InSession(nodes, Leave(f)) && Leave(f).open.None?
  {
    hide Proper, OpenIn;
    if f.open.Some? {
      ProperGrows(nodes, f.log, Closed(f.open.value));
    }
  }

  lemma {:induction false} DriveInSession(flow: Flow, env: Env, f: Fold)
    requires Runnable(flow) && InSession(flow.Nodes(), f)
    requires f.open.Some? ==> f.index < |flow.Nodes()| && f.open == Some(flow.Nodes()[f.index].segment)
    ensures var o := Drive(flow, env, f); InSession(flow.Nodes(), o.final) && o.final.open.None?
    decreases ExecutionsLeft(flow.Nodes(), f), f.open.None?
  {
    hide RunNode, Drive, ExecutionBound, Contiguous, UniqueIds, RecoveriesValid, MoveTo, Leave, Proper, OpenIn;
    var nodes := flow.Nodes();
    if f.index >= |nodes| {
      DriveDone(flow, env, f);
    } else if f.open.None? {
      var segment := nodes[f.index].segment;
      DriveClosed(flow, env, f);
      if env.session(f.sessions, segment).None? {
        ProperGrows(nodes, f.log, Opened(segment));
        DriveInSession(flow, env, Enter(f, segment));
      }
    } else {
      DriveOpen(flow, env, f);
      NodeInSession(flow, env, f);
      var s := RunNode(flow, env, f);
      match s {
        case Faulted(h, fault) => LeaveInSession(nodes, h);
        case Advanced(h) =>
          MoveInSession(nodes, h, h.index + 1);
          MovePlaced(nodes, h, h.index + 1);
          MoveKeeps(nodes, h, h.index + 1);
          DriveInSession(flow, env, MoveTo(nodes, h, h.index + 1));
        case ReroutedTo(h, to) =>
          MoveInSession(nodes, h, to);
          MovePlaced(nodes, h, to);
          MoveKeeps(nodes, h, to);
          DriveInSession(flow, env, MoveTo(nodes, h, to));
      }
    }
  }

  lemma {:induction false} SkipInSession(flow: Flow, env: Env, f: Fold, n: nat)
    requires n <= |flow.Nodes()| && InSession(flow.Nodes(), f)
    ensures InSession(flow.Nodes(), Skip(flow, env, f, n))
  {
    hide Proper, OpenIn;
    if n > 0 {
      SkipInSession(flow, env, f, n - 1);
      var g := Skip(flow, env, f, n - 1);
      var id := flow.Nodes()[n - 1].stepId;
      ProperGrows(flow.Nodes(), g.log,
          Append(BareRow(id, GetOr(g.attempts, id, 1), SkippedResume), env.append(g.appends)));
    }
  }

  lemma {:induction false} StartInSession(flow: Flow, env: Env, initial: State, rows: seq<Row>)
    ensures var f := StartingFold(flow, env, initial, rows); InSession(flow.Nodes(), f) && f.open.None?
  {
    hide Proper, OpenIn, Budgets, IndexOf, LastBoundary, DecodeDelta, SeedTokens, SeedAttempts;
    var head := Fresh(flow, initial);
    assert InSession(flow.Nodes(), head) by { NothingOpen(flow.Nodes()); }
    if |rows| > 0 {
      var g := head.(tokens := SeedTokens(rows), attempts := SeedAttempts(rows));
      var boundary := LastBoundary(flow.Nodes(), rows);
      if boundary.Some? && DecodeDelta(flow, boundary.value.stateDelta.value).Some? {
        var decoded := DecodeDelta(flow, boundary.value.stateDelta.value).value;
        var start := IndexOf(flow.Nodes(), boundary.value.stepId).value + 1;
        SkipInSession(flow, env,
            g.(state := g.state + decoded, provided := g.provided + decoded.Keys, index := start), start);
        SkipKeeps(flow, env, g.(state := g.state + decoded, provided := g.provided + decoded.Keys, index := start),
            start);
      }
    }
  }

  lemma {:induction false} NothingOpen(nodes: seq<Node>)
    ensures Proper(nodes, []) && OpenIn([]) == None
  {}

  lemma {:induction false} CompensateInSession(flow: Flow, env: Env, f: Fold, n: nat)
    requires n <= |f.succeeded| && InSession(flow.Nodes(), f) && f.open.None?
    ensures InSession(flow.Nodes(), Compensate(env, f, n)) && Compensate(env, f, n).open.None?
    decreases n
  {
    hide Proper, OpenIn;
    if n > 0 {
      var entry := f.succeeded[n - 1];
      if entry.undo {
        var undone := f.(log := f.log + [Undone(entry.stepId, entry.output)]);
        ProperGrows(flow.Nodes(), f.log, Undone(entry.stepId, entry.output));
        ProperGrows(flow.Nodes(), undone.log,
            Append(BareRow(entry.stepId, GetOr(f.attempts, entry.stepId, 1), Compensated), env.append(f.appends)));
        CompensateInSession(flow, env, UndoEntry(env, f, entry), n - 1);
      } else {
        CompensateInSession(flow, env, f, n - 1);
      }
    }
  }

  /** In every lease, however it ends, sessions are opened and closed in turn, every step
      is entered inside a session of its own segment, compensation runs after the last
      session is closed, and no session stays open. */
  lemma {:induction false} LeaseSessions(flow: Flow, env: Env, initial: State, resume: bool, journal: seq<Row>)
    requires Runnable(flow)
    ensures var log := RunFlow(flow, env, initial, resume, journal).final.log;
      Proper(flow.Nodes(), log) && OpenIn(log).None?
  {
    hide RunFlow, Drive, StartingFold, ReplayGuard, Compensate, Runnable, Proper, OpenIn;
    var rows := Visible(env, resume, journal);
    var f := StartingFold(flow, env, initial, rows);
    LeaseCases(flow, env, initial, resume, journal);
    StartInSession(flow, env, initial, rows);
    var o := Drive(flow, env, f);
    DriveInSession(flow, env, f);
    if o.Broke? && o.fault != Defect {
      CompensateInSession(flow, env, o.final, |o.final.succeeded|);
    }
  }
}
