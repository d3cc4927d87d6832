/** Walks within the recovery budgets, and what they say about runs: whoever misses a need
    came by a walk that the budgets paid for, from the head of the plan or from a boundary
    that earlier leases reached in the same way (src/flow/run.ts:283-289, 342-353, 422-440). */
module StarvedWalks {
  import opened Basics
  import opened JsonValues
  import opened FlowTypes
  import opened PlanShape
  import opened FlowFold
  import opened FlowLease
  import opened FlowSteps
  import opened FlowTermination
  import opened FlowNeeds
  import opened FlowOnce
  import opened FlowReturn
  import opened FlowStarve

  /** The walk leaves its k-th node by a recovery edge. */
  predicate Detours(nodes: seq<Node>, key: string, path: seq<nat>, k: nat) {
    k + 1 < |path| && path[k + 1] < |nodes| && !Onward(nodes, key, path[k], path[k + 1])
  }

  /** How often the walk, from its k-th node on, takes an edge of this budget key. */
  function Uses(nodes: seq<Node>, key: string, path: seq<nat>, k: nat, budget: string): nat
    decreases |path| - k
  {
    if k + 1 >= |path| then 0
    else
      var edge := path[k] < |nodes| && Detours(nodes, key, path, k)
                  && EdgeKey(nodes[path[k]].stepId, nodes[path[k + 1]].stepId) == budget;
      Uses(nodes, key, path, k + 1, budget) + if edge then 1 else 0
  }

  /** The budgets pay for the rest of the walk. Edges whose key texts collide share one. */
  ghost predicate Affordable(nodes: seq<Node>, key: string, path: seq<nat>, k: nat, budgets: map<string, int>) {
    forall b :: Uses(nodes, key, path, k, b) <= GetOr(budgets, b, 0)
  }

  /** A walk within fresh budgets leads from one node to another. */
  ghost predicate EvadesFrom(nodes: seq<Node>, key: string, start: nat, i: nat) {
    exists path :: AffordableWalk(nodes, key, start, i, path)
  }

  ghost predicate AffordableWalk(nodes: seq<Node>, key: string, start: nat, i: nat, path: seq<nat>) {
    && Hops(nodes, key, path) && path[0] == start && path[|path| - 1] == i
    && Affordable(nodes, key, path, 0, Budgets(nodes))
  }

  /** Some node can be reached from the head, within the budgets, while one of its needs is
      neither an initial key nor provided. */
  ghost predicate StarvesInBudget(nodes: seq<Node>, initialKeys: seq<string>) {
    exists i: nat, need ::
      i < |nodes| && need in nodes[i].needs && need !in initialKeys && EvadesFrom(nodes, need, 0, i)
  }

  // ------------------------------------------------------------------- crossing leases

  /** A lease that starts at `start` can journal the boundary in front of node `b` without
      the key. The lease that resumes there has fresh budgets. */
  ghost predicate Crosses(nodes: seq<Node>, key: string, start: nat, b: nat) {
    && 0 < b < |nodes| && SegmentEnd(nodes, b - 1)
    && key !in nodes[b - 1].supplies && EvadesFrom(nodes, key, start, b - 1)
  }

  /** After so many leases an operation can stand at node `b` without the key. */
  ghost predicate Restarts(nodes: seq<Node>, key: string, b: nat, leases: nat)
    decreases leases
  {
    b == 0 || (leases > 0 && exists start: nat ::
        Restarts(nodes, key, start, leases - 1) && Crosses(nodes, key, start, b))
  }

  ghost predicate StartsAt(nodes: seq<Node>, key: string, b: nat) {
    exists leases: nat :: Restarts(nodes, key, b, leases)
  }

  /** Some node can be reached by a lease, or by several that resume each other, while one
      of its needs is neither an initial key nor provided. */
  ghost predicate StarvesOverLeases(nodes: seq<Node>, initialKeys: seq<string>) {
    exists start: nat, i: nat, need ::
      && i < |nodes| && need in nodes[i].needs && need !in initialKeys
      && StartsAt(nodes, need, start) && EvadesFrom(nodes, need, start, i)
  }

  lemma {:induction false} HeadStarts(nodes: seq<Node>, key: string)
    ensures StartsAt(nodes, key, 0)
  {
    assert Restarts(nodes, key, 0, 0);
  }

  lemma {:induction false} CrossStarts(nodes: seq<Node>, key: string, start: nat, b: nat)
    requires StartsAt(nodes, key, start) && Crosses(nodes, key, start, b)
    ensures StartsAt(nodes, key, b)
  {
    hide Crosses;
    var leases: nat :| Restarts(nodes, key, start, leases);
    assert Restarts(nodes, key, b, leases + 1);
  }

  /** One more hop costs at most one unit of its edge. */
  lemma {:induction false} UsesAppend(nodes: seq<Node>, key: string, path: seq<nat>, q: nat, k: nat, budget: string)
    requires |path| > 0 && k < |path|
    ensures var p := path[|path| - 1];
      var edge := p < |nodes| && q < |nodes| && !Onward(nodes, key, p, q)
        && EdgeKey(nodes[p].stepId, nodes[q].stepId) == budget;
      Uses(nodes, key, path + [q], k, budget) == Uses(nodes, key, path, k, budget) + if edge then 1 else 0
    decreases |path| - k
  {
    hide EdgeKey, Onward;
    var longer := path + [q];
    if k + 1 < |path| {
      UsesAppend(nodes, key, path, q, k + 1, budget);
      assert Detours(nodes, key, longer, k) <==> Detours(nodes, key, path, k);
    } else {
      assert Uses(nodes, key, longer, k + 1, budget) == 0;
    }
  }

  // ------------------------------------------------------------ a fold came by a walk

  /** What the walk used is gone from the budgets. */
  ghost predicate CameBy(nodes: seq<Node>, key: string, start: nat, path: seq<nat>, f: Fold) {
    && Hops(nodes, key, path) && path[0] == start && path[|path| - 1] == f.index
    && NonNegative(f.budgets)
    && forall b :: Uses(nodes, key, path, 0, b) + GetOr(f.budgets, b, 0) <= GetOr(Budgets(nodes), b, 0)
  }

  /** A lease that started at `start` either provided the key or came by a walk. */
  ghost predicate Tracked(flow: Flow, key: string, start: nat, f: Fold) {
    && f.index <= |flow.Nodes()|
    && Elements(flow.initialKeys) + f.provided <= f.state.Keys && f.provided <= flow.spec.Keys
    && (f.index < |flow.Nodes()| && key !in f.provided ==> exists path :: CameBy(flow.Nodes(), key, start, path, f))
  }

  lemma {:induction false} CameByAffords(nodes: seq<Node>, key: string, start: nat, path: seq<nat>, f: Fold)
    requires CameBy(nodes, key, start, path, f)
    ensures EvadesFrom(nodes, key, start, f.index)
  {
    hide Hops, Uses, Budgets;
    forall b ensures Uses(nodes, key, path, 0, b) <= GetOr(Budgets(nodes), b, 0) {
      assert Uses(nodes, key, path, 0, b) + GetOr(f.budgets, b, 0) <= GetOr(Budgets(nodes), b, 0);
    }
    assert AffordableWalk(nodes, key, start, f.index, path);
  }

  /** A hop of the driver is a hop of the walk. */
  lemma {:induction false} CameOn(
    nodes: seq<Node>, key: string, start: nat, path: seq<nat>, f: Fold, g: Fold, spent: string)
    requires CameBy(nodes, key, start, path, f) && f.index < |nodes| && Hop(nodes, key, f.index, g.index)
    requires || Onward(nodes, key, f.index, g.index)
             || (g.index < |nodes| && spent == EdgeKey(nodes[f.index].stepId, nodes[g.index].stepId))
    requires || g.budgets == f.budgets
             || (spent in f.budgets && f.budgets[spent] > 0 && g.budgets == f.budgets[spent := f.budgets[spent] - 1])
    requires Onward(nodes, key, f.index, g.index) || g.budgets != f.budgets
    ensures CameBy(nodes, key, start, path + [g.index], g)
  {
    hide Hop, Uses, Budgets, EdgeKey;
    var longer := path + [g.index];
    forall k | 0 <= k < |longer| - 1 ensures Hop(nodes, key, longer[k], longer[k + 1]) {
      if k < |path| - 1 {
        assert Hop(nodes, key, path[k], path[k + 1]);
      }
    }
    forall b ensures Uses(nodes, key, longer, 0, b) + GetOr(g.budgets, b, 0) <= GetOr(Budgets(nodes), b, 0) {
      UsesAppend(nodes, key, path, g.index, 0, b);
      assert Uses(nodes, key, path, 0, b) + GetOr(f.budgets, b, 0) <= GetOr(Budgets(nodes), b, 0);
    }
  }

  lemma {:induction false} TrackedSame(flow: Flow, key: string, start: nat, f: Fold, g: Fold)
    requires Tracked(flow, key, start, f)
    requires g.index == f.index && g.state == f.state && g.budgets == f.budgets && g.provided == f.provided
    ensures Tracked(flow, key, start, g)
  {
    hide Hops, Uses, Budgets;
    if f.index < |flow.Nodes()| && key !in f.provided {
      var path :| CameBy(flow.Nodes(), key, start, path, f);
      assert CameBy(flow.Nodes(), key, start, path, g);
    }
  }

  lemma {:induction false} TrackedOn(flow: Flow, key: string, start: nat, f: Fold, g: Fold, spent: string)
    requires Tracked(flow, key, start, f) && f.index < |flow.Nodes()| && g.index <= |flow.Nodes()|
    requires Elements(flow.initialKeys) + g.provided <= g.state.Keys && g.provided <= flow.spec.Keys
    requires f.provided <= g.provided && (key !in g.provided ==> Hop(flow.Nodes(), key, f.index, g.index))
    requires || (key !in g.provided ==> Onward(flow.Nodes(), key, f.index, g.index))
             || (g.index < |flow.Nodes()|
                && spent == EdgeKey(flow.Nodes()[f.index].stepId, flow.Nodes()[g.index].stepId))
    requires || g.budgets == f.budgets
             || (spent in f.budgets && f.budgets[spent] > 0 && g.budgets == f.budgets[spent := f.budgets[spent] - 1])
    requires (key !in g.provided ==> Onward(flow.Nodes(), key, f.index, g.index)) || g.budgets != f.budgets
    ensures Tracked(flow, key, start, g)
  {
    hide CameBy, Hop, EdgeKey, Onward;
    if key !in g.provided {
      var path :| CameBy(flow.Nodes(), key, start, path, f);
      CameOn(flow.Nodes(), key, start, path, f, g, spent);
    }
  }

  lemma {:induction false} AdvanceTracked(flow: Flow, key: string, start: nat, env: Env, f: Fold)
    requires Runnable(flow) && InVocabulary(flow) && SuppliesAll(env, flow.Nodes()) && Tracked(flow, key, start, f)
    requires f.index < |flow.Nodes()| && RunNode(flow, env, f).Advanced?
    ensures Tracked(flow, key, start, MoveTo(flow.Nodes(), RunNode(flow, env, f).next, f.index + 1))
    ensures var g := RunNode(flow, env, f).next;
      && g.provided == f.provided + Elements(flow.Nodes()[f.index].supplies) && g.provided <= flow.spec.Keys
  {
    hide RunNode, ExecutionBound, Reaches, Contiguous, UniqueIds, RecoveriesValid, MoveTo, Inputs, CameBy, SuppliesAll;
    hide EncodeDelta, SegmentEnd;
    var nodes, h := flow.Nodes(), RunNode(flow, env, f).next;
    var node := nodes[f.index];
    StepAdvance(flow, env, f);
    var g := MoveTo(nodes, h, f.index + 1);
    MoveKeeps(nodes, h, f.index + 1);
    OutcomeSupplies(env, nodes, f.index, f.executions + 1, Inputs(node.needs, f.state), Get(f.tokens, node.stepId));
    ProvidedGrows(nodes, f.index + 1, |nodes|);
    assert Elements(node.supplies) <= flow.spec.Keys by { SuppliedBefore(nodes, f.index); }
    assert key !in g.provided ==> Onward(nodes, key, f.index, g.index);
    TrackedOn(flow, key, start, f, g, "");
  }

  lemma {:induction false} SuppliedBefore(nodes: seq<Node>, i: nat)
    requires i < |nodes|
    ensures Elements(nodes[i].supplies) <= ProvidedBefore(nodes, i + 1)
  {}

  lemma {:induction false} RerouteTracked(flow: Flow, key: string, start: nat, env: Env, f: Fold)
    requires Runnable(flow) && Tracked(flow, key, start, f)
    requires f.index < |flow.Nodes()| && RunNode(flow, env, f).ReroutedTo?
    ensures Tracked(flow, key, start, MoveTo(flow.Nodes(), RunNode(flow, env, f).next, RunNode(flow, env, f).to))
  {
    hide RunNode, ExecutionBound, Reaches, Contiguous, UniqueIds, RecoveriesValid, MoveTo, EdgeKey, Declares;
    hide IndexOf, CameBy;
    var nodes, s := flow.Nodes(), RunNode(flow, env, f);
    StepReroute(flow, env, f);
    var g := MoveTo(nodes, s.next, s.to);
    MoveKeeps(nodes, s.next, s.to);
    assert Edge(nodes, f.index, g.index);
    TrackedOn(flow, key, start, f, g, EdgeKey(nodes[f.index].stepId, nodes[g.index].stepId));
  }

  // -------------------------------------------------------------- rows and boundaries

  /** A boundary row without the key stands where an operation can start without it. */
  ghost predicate RowStarts(flow: Flow, key: string, row: Row) {
    IsBoundary(flow.Nodes(), row) ==>
      var b := IndexOf(flow.Nodes(), row.stepId).value + 1;
      && row.stateDelta.value.Keys <= flow.spec.Keys
      && (key !in row.stateDelta.value && b < |flow.Nodes()| ==> StartsAt(flow.Nodes(), key, b))
  }

  ghost predicate RowsStart(flow: Flow, key: string, rows: seq<Row>) {
    forall row :: row in rows ==> RowStarts(flow, key, row)
  }

  ghost predicate LogStarts(flow: Flow, key: string, log: seq<Event>) {
    forall e :: e in log && e.Append? ==> RowStarts(flow, key, e.row)
  }

  lemma {:induction false} PlainStarts(flow: Flow, key: string, row: Row)
    requires row.status != Completed || row.stateDelta.None?
    ensures RowStarts(flow, key, row)
  {}

  lemma {:induction false} ConcatStarts(flow: Flow, key: string, a: seq<Event>, b: seq<Event>)
    requires LogStarts(flow, key, a) && LogStarts(flow, key, b)
    ensures LogStarts(flow, key, a + b)
  {
    hide RowStarts;
  }

  /** The row that a completed node journals. */
  lemma {:induction false} AdvanceStarts(flow: Flow, key: string, start: nat, env: Env, f: Fold)
    requires Runnable(flow) && InVocabulary(flow) && SuppliesAll(env, flow.Nodes()) && Tracked(flow, key, start, f)
    requires f.index < |flow.Nodes()| && RunNode(flow, env, f).Advanced? && StartsAt(flow.Nodes(), key, start)
    ensures |RunNode(flow, env, f).next.log| == |f.log| + 3 && RunNode(flow, env, f).next.log[|f.log| + 2].Append?
    ensures RowStarts(flow, key, RunNode(flow, env, f).next.log[|f.log| + 2].row)
  {
    hide RunNode, ExecutionBound, Reaches, Contiguous, RecoveriesValid, MoveTo, Inputs, CameBy, SuppliesAll, StartsAt;
    hide Call, StartedEvent, SegmentEnd, EvadesFrom, InVocabulary, IndexOf;
    var nodes, s := flow.Nodes(), RunNode(flow, env, f);
    StepLog(flow, env, f);
    StepAdvance(flow, env, f);
    AdvanceTracked(flow, key, start, env, f);
    IndexOfUnique(nodes, f.index);
    var row := s.next.log[|f.log| + 2].row;
    assert row.stepId == nodes[f.index].stepId;
    if IsBoundary(nodes, row) && key !in row.stateDelta.value && f.index + 1 < |nodes| {
      assert key !in f.provided && key !in nodes[f.index].supplies;
      var path :| CameBy(nodes, key, start, path, f);
      CameByAffords(nodes, key, start, path, f);
      CrossStarts(nodes, key, start, f.index + 1);
    }
  }

  lemma {:induction false} NodeLogStarts(flow: Flow, key: string, start: nat, env: Env, f: Fold)
    requires Runnable(flow) && InVocabulary(flow) && SuppliesAll(env, flow.Nodes()) && Tracked(flow, key, start, f)
    requires f.index < |flow.Nodes()| && StartsAt(flow.Nodes(), key, start) && LogStarts(flow, key, f.log)
    ensures LogStarts(flow, key, RunNode(flow, env, f).next.log)
  {
    hide RunNode, Reaches, ExecutionBound, RowStarts, Contiguous, RecoveriesValid, UniqueIds, Tracked, StartsAt;
    hide SuppliesAll;
    StepLog(flow, env, f);
    var node, s := flow.Nodes()[f.index], RunNode(flow, env, f);
    var started := StartedEvent(env, f, node);
    PlainStarts(flow, key, started.row);
    if s.Advanced? {
      AdvanceStarts(flow, key, start, env, f);
    }
    if Reaches(flow, f, node) && !Answer(env, f, node).Died? {
      var e := s.next.log[|f.log| + 2];
      if !s.Advanced? {
        PlainStarts(flow, key, e.row);
      }
      assert LogStarts(flow, key, [started, Call(f, node), e]);
      ConcatStarts(flow, key, f.log, [started, Call(f, node), e]);
    } else if Reaches(flow, f, node) {
      assert LogStarts(flow, key, [started, Call(f, node)]);
      ConcatStarts(flow, key, f.log, [started, Call(f, node)]);
    }
  }

  lemma {:induction false} FaultMisses(flow: Flow, env: Env, f: Fold, need: string)
    requires f.index < |flow.Nodes()| && RecoveriesValid(flow.Nodes()) && RunNode(flow, env, f).Faulted?
    ensures var s := RunNode(flow, env, f);
      s.fault.MissingNeed? && s.fault.need == need ==> need in flow.Nodes()[f.index].needs && need !in f.state
  {
    hide RunNode, ExecutionBound;
    if Reaches(flow, f, flow.Nodes()[f.index]) {
      StepFault(flow, env, f);
    } else {
      StepStopped(flow, env, f);
      FirstIsMissing(flow.Nodes()[f.index].needs, f.state);
    }
  }

  lemma {:induction false} FirstIsMissing(needs: seq<string>, state: State)
    ensures var m := FirstMissing(needs, state); m.Some? ==> m.value in needs && m.value !in state
  {
    if |needs| > 0 && needs[0] in state {
      FirstIsMissing(needs[1..], state);
    }
  }

  /** The node that misses the need is at the end of a walk. */
  ghost predicate MissedBy(flow: Flow, need: string, start: nat, o: Outcome) {
    o.Broke? && o.fault.MissingNeed? && o.fault.need == need ==>
      && need !in flow.initialKeys
      && exists i: nat ::
           i < |flow.Nodes()| && need in flow.Nodes()[i].needs && EvadesFrom(flow.Nodes(), need, start, i)
  }

  lemma {:induction false} FaultMissed(flow: Flow, env: Env, f: Fold, need: string, start: nat)
    requires Runnable(flow) && Tracked(flow, need, start, f)
    requires f.index < |flow.Nodes()| && RunNode(flow, env, f).Faulted?
    ensures MissedBy(flow, need, start, Broke(Leave(RunNode(flow, env, f).next), RunNode(flow, env, f).fault))
  {
    hide RunNode, CameBy, EvadesFrom, UniqueIds, Contiguous;
    FaultMisses(flow, env, f, need);
    var fault := RunNode(flow, env, f).fault;
    if fault.MissingNeed? && fault.need == need {
      var path :| CameBy(flow.Nodes(), need, start, path, f);
      CameByAffords(flow.Nodes(), need, start, path, f);
    }
  }

  lemma {:induction false} DriveTracked(flow: Flow, env: Env, f: Fold, key: string, start: nat)
    requires Runnable(flow) && InVocabulary(flow) && SuppliesAll(env, flow.Nodes()) && Tracked(flow, key, start, f)
    requires StartsAt(flow.Nodes(), key, start) && LogStarts(flow, key, f.log)
    requires f.open.Some? ==> f.index < |flow.Nodes()| && f.open == Some(flow.Nodes()[f.index].segment)
    ensures var o := Drive(flow, env, f); LogStarts(flow, key, o.final.log) && MissedBy(flow, key, start, o)
    decreases ExecutionsLeft(flow.Nodes(), f), f.open.None?
  {
    hide RunNode, Drive, ExecutionBound, Reaches, Contiguous, UniqueIds, RecoveriesValid, MoveTo, Leave, SuppliesAll;
    hide Tracked, LogStarts, StartsAt, InVocabulary, EvadesFrom;
    var nodes := flow.Nodes();
    if f.index >= |nodes| {
      DriveDone(flow, env, f);
    } else if f.open.None? {
      DriveClosed(flow, env, f);
      if env.session(f.sessions, nodes[f.index].segment).None? {
        var g := Enter(f, nodes[f.index].segment);
        TrackedSame(flow, key, start, f, g);
        EnterStarts(flow, key, f, nodes[f.index].segment);
        DriveTracked(flow, env, g, key, start);
      }
    } else {
      DriveOpen(flow, env, f);
      NodeLogStarts(flow, key, start, env, f);
      match RunNode(flow, env, f) {
        case Faulted(h, fault) =>
          FaultMissed(flow, env, f, key, start);
          LeaveStarts(flow, key, h);
        case Advanced(h) =>
          AdvanceTracked(flow, key, start, env, f);
          MoveStarts(flow, key, h, f.index + 1);
          DriveTracked(flow, env, MoveTo(nodes, h, f.index + 1), key, start);
        case ReroutedTo(h, to) =>
          RerouteTracked(flow, key, start, env, f);
          MoveStarts(flow, key, h, to);
          DriveTracked(flow, env, MoveTo(nodes, h, to), key, start);
      }
    }
  }

  lemma {:induction false} EnterStarts(flow: Flow, key: string, f: Fold, segment: string)
    requires LogStarts(flow, key, f.log)
    ensures LogStarts(flow, key, Enter(f, segment).log)
  {
    hide RowStarts;
  }

  lemma {:induction false} LeaveStarts(flow: Flow, key: string, f: Fold)
    requires LogStarts(flow, key, f.log)
    ensures LogStarts(flow, key, Leave(f).log)
  {
    hide RowStarts;
  }

  lemma {:induction false} MoveStarts(flow: Flow, key: string, f: Fold, index: nat)
    requires LogStarts(flow, key, f.log)
    ensures var g := MoveTo(flow.Nodes(), f, index);
      && LogStarts(flow, key, g.log) && g.executions == f.executions
      && (g.open.Some? ==> g.index < |flow.Nodes()| && g.open == Some(flow.Nodes()[g.index].segment))
  {
    hide RowStarts;
  }

  // ------------------------------------------------------------------- whole leases

  lemma {:induction false} SkipStarts(flow: Flow, key: string, env: Env, f: Fold, n: nat)
    requires n <= |flow.Nodes()| && LogStarts(flow, key, f.log)
    ensures LogStarts(flow, key, Skip(flow, env, f, n).log)
  {
    hide RowStarts;
    if n > 0 {
      SkipStarts(flow, key, env, f, n - 1);
      var g := Skip(flow, env, f, n - 1);
      var id := flow.Nodes()[n - 1].stepId;
      var row := BareRow(id, GetOr(g.attempts, id, 1), SkippedResume);
      PlainStarts(flow, key, row);
      ConcatStarts(flow, key, g.log, [Append(row, env.append(g.appends))]);
    }
  }

  lemma {:induction false} CompensateStarts(flow: Flow, key: string, env: Env, f: Fold, n: nat)
    requires n <= |f.succeeded| && LogStarts(flow, key, f.log)
    ensures LogStarts(flow, key, Compensate(env, f, n).log)
    decreases n
  {
    if n > 0 {
      var entry := f.succeeded[n - 1];
      hide IsBoundary, StartsAt;
      CompensateStarts(flow, key, env, if entry.undo then UndoEntry(env, f, entry) else f, n - 1);
    }
  }

  /** A new budget and the trivial walk. */
  lemma {:induction false} BeginTracked(flow: Flow, key: string, f: Fold)
    requires Runnable(flow) && f.index <= |flow.Nodes()| && f.budgets == Budgets(flow.Nodes())
    requires Elements(flow.initialKeys) + f.provided <= f.state.Keys && f.provided <= flow.spec.Keys
    ensures Tracked(flow, key, f.index, f)
  {
    var nodes := flow.Nodes();
    AllPositive(nodes);
    BudgetsTotal(nodes);
    hide Budgets, Total, Contiguous, RecoveriesValid, UniqueIds;
    assert CameBy(nodes, key, f.index, [f.index], f);
  }

  /** Where a lease starts, an operation can start without the key, or the key is there. */
  lemma {:induction false} StartTracked(
    flow: Flow, key: string, env: Env, initial: State, rows: seq<Row>)
    returns (start: nat)
    requires Runnable(flow) && Elements(flow.initialKeys) <= initial.Keys && RowsStart(flow, key, rows)
    ensures var f := StartingFold(flow, env, initial, rows);
      Tracked(flow, key, start, f) && StartsAt(flow.Nodes(), key, start) && LogStarts(flow, key, f.log)
  {
    hide IndexOf, SeedTokens, SeedAttempts, LastBoundary, DecodeDelta, Skip, Budgets, Contiguous, RecoveriesValid;
    hide UniqueIds;
    hide SegmentEnd, StartsAt, Tracked;
    var nodes := flow.Nodes();
    start := 0;
    HeadStarts(nodes, key);
    var first := Fresh(flow, initial);
    var g := first.(tokens := SeedTokens(rows), attempts := SeedAttempts(rows));
    var boundary := LastBoundary(nodes, rows);
    if boundary.Some? && DecodeDelta(flow, boundary.value.stateDelta.value).Some? {
      var decoded := DecodeDelta(flow, boundary.value.stateDelta.value).value;
      var b := IndexOf(nodes, boundary.value.stepId).value + 1;
      assert RowStarts(flow, key, boundary.value);
      DecodeKeys(flow, boundary.value.stateDelta.value);
      var h := g.(state := g.state + decoded, provided := g.provided + decoded.Keys, index := b);
      SkipKeeps(flow, env, h, b);
      SkipStarts(flow, key, env, h, b);
      var f := Restore(flow, env, g, decoded, b);
      BeginTracked(flow, key, f);
      if b < |nodes| && key !in decoded {
        start := b;
      } else {
        KeyTracked(flow, key, b, f);
      }
    } else {
      BeginTracked(flow, key, first);
      BeginTracked(flow, key, g);
    }
  }

  lemma {:induction false} KeyTracked(flow: Flow, key: string, start: nat, f: Fold)
    requires Tracked(flow, key, start, f) && (key in f.provided || f.index == |flow.Nodes()|)
    ensures Tracked(flow, key, 0, f)
  {}

  /** One lease, whatever rows it sees, if they stand where operations can start. */
  lemma {:induction false} LeaseStarts(
    flow: Flow, env: Env, initial: State, resume: bool, journal: seq<Row>, key: string)
    returns (start: nat)
    requires Runnable(flow) && InVocabulary(flow) && SuppliesAll(env, flow.Nodes())
    requires Elements(flow.initialKeys) <= initial.Keys
    requires RowsStart(flow, key, journal)
    ensures StartsAt(flow.Nodes(), key, start) && (!resume || journal == [] ==> start == 0)
    ensures var r := RunFlow(flow, env, initial, resume, journal);
      && LogStarts(flow, key, r.final.log)
      && (r.FailedWith? ==> MissedBy(flow, key, start, Broke(r.final, r.fault)))
  {
    hide RunFlow, Drive, Hydrate, ReplayGuard, Budgets, SuppliesAll, StartsAt, Tracked, LogStarts, InVocabulary;
    hide EvadesFrom;
    hide Runnable, Conclude;
    var rows := Visible(env, resume, journal);
    var f := StartingFold(flow, env, initial, rows);
    LeaseCases(flow, env, initial, resume, journal);
    StartBounded(flow, env, initial, rows);
    if |rows| == 0 {
      start := 0;
      FreshTracked(flow, initial, key);
    } else {
      assert RowsStart(flow, key, rows);
      start := StartTracked(flow, key, env, initial, rows);
    }
    DriveTracked(flow, env, f, key, start);
    ConcludeStarts(flow, key, env, Drive(flow, env, f));
  }

  lemma {:induction false} FreshTracked(flow: Flow, initial: State, key: string)
    requires Runnable(flow) && Elements(flow.initialKeys) <= initial.Keys
    ensures Tracked(flow, key, 0, Fresh(flow, initial)) && StartsAt(flow.Nodes(), key, 0) && LogStarts(flow, key, [])
  {
    HeadStarts(flow.Nodes(), key);
    hide Runnable, StartsAt;
    BeginTracked(flow, key, Fresh(flow, initial));
  }

  lemma {:induction false} ConcludeStarts(flow: Flow, key: string, env: Env, o: Outcome)
    requires LogStarts(flow, key, o.final.log)
    ensures LogStarts(flow, key, Conclude(env, o).final.log)
    ensures var r := Conclude(env, o); r.FailedWith? ==> o.Broke? && r.fault == o.fault
  {
    hide LogStarts;
    if o.Broke? {
      CompensateStarts(flow, key, env, o.final, |o.final.succeeded|);
    }
  }

  predicate MissesNeed(r: LeaseResult) {
    r.FailedWith? && r.fault.MissingNeed?
  }

  /** A fresh run that misses a need came by a walk within the budgets. */
  lemma {:induction false} LeaseMisses(flow: Flow, env: Env, initial: State)
    requires Runnable(flow) && InVocabulary(flow) && SuppliesAll(env, flow.Nodes())
    requires Elements(flow.initialKeys) <= initial.Keys
    requires MissesNeed(RunFlow(flow, env, initial, true, []))
    ensures StarvesInBudget(flow.Nodes(), flow.initialKeys)
  {
    hide RunFlow, EvadesFrom, Runnable, SuppliesAll, InVocabulary;
    var need := RunFlow(flow, env, initial, true, []).fault.need;
    var start := LeaseStarts(flow, env, initial, true, [], need);
  }

  /** Leases of one operation that supply what they declare. */
  ghost predicate Supplying(flow: Flow, attempts: seq<Attempt>)
    requires Runnable(flow)
  {
    && SawOnlyWritten(flow, attempts)
    && forall i :: 0 <= i < |attempts| ==>
         SuppliesAll(attempts[i].env, flow.Nodes()) && Elements(flow.initialKeys) <= attempts[i].initial.Keys
  }

  lemma {:induction false} LeasesStart(flow: Flow, attempts: seq<Attempt>, j: nat, key: string)
    requires Runnable(flow) && InVocabulary(flow) && Supplying(flow, attempts) && j < |attempts|
    ensures RowsStart(flow, key, attempts[j].seen)
    decreases j
  {
    hide RowStarts, RunFlow, Runnable, InVocabulary, SuppliesAll;
    forall row | row in attempts[j].seen ensures RowStarts(flow, key, row) {
      var i :| 0 <= i < j && Wrote(flow, attempts[i], row);
      LeasesStart(flow, attempts, i, key);
      var a := attempts[i];
      var _ := LeaseStarts(flow, a.env, a.initial, a.resume, a.seen, key);
    }
  }

  /** A lease that misses a need, after whatever leases, came by a chain of walks each of
      which fresh budgets paid for. */
  lemma {:induction false} OperationMisses(flow: Flow, attempts: seq<Attempt>, j: nat)
    requires Runnable(flow) && InVocabulary(flow) && Supplying(flow, attempts) && j < |attempts|
    requires var a := attempts[j]; MissesNeed(RunFlow(flow, a.env, a.initial, a.resume, a.seen))
    ensures StarvesOverLeases(flow.Nodes(), flow.initialKeys)
  {
    hide RunFlow, EvadesFrom, Runnable, SuppliesAll, InVocabulary, StartsAt, SawOnlyWritten;
    var a := attempts[j];
    var need := RunFlow(flow, a.env, a.initial, a.resume, a.seen).fault.need;
    LeasesStart(flow, attempts, j, need);
    var start := LeaseStarts(flow, a.env, a.initial, a.resume, a.seen, need);
  }
}
