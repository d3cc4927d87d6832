/** Crash and resume preserve meaning: without recovery edges, with deterministic steps
    and codecs that are true where it matters, every lease that succeeds produces the
    output of the uninterrupted run, whatever happened before it (src/flow/run.ts:191-232,
    357-366, 405-454). `ResumeLoss` proves that no less will do. */
module FlowResume {
  import opened Basics
  import opened JsonValues
  import opened FlowTypes
  import opened PlanShape
  import opened FlowFold
  import opened FlowLease
  import opened FlowSteps
  import opened FlowTermination
  import opened FlowNeeds

  /** What a deterministic step returns for its input. */
  type Law = (string, State) -> State

  ghost predicate RecoveryFree(nodes: seq<Node>) {
    forall i :: 0 <= i < |nodes| ==> nodes[i].recoveries == []
  }

  /** A step that returns, returns what the law says; it may still fail or diverge. */
  ghost predicate Obeys(env: Env, law: Law) {
    forall k, stepId, input, token :: env.run(k, stepId, input, token).Returned? ==>
      env.run(k, stepId, input, token).outcome.state == law(stepId, input)
  }

  ghost predicate ExactSupplies(nodes: seq<Node>, law: Law) {
    forall i, input :: 0 <= i < |nodes| ==> law(nodes[i].stepId, input).Keys == Elements(nodes[i].supplies)
  }

  /** Decoding undoes encoding (and redaction) on every value. */
  ghost predicate RoundTrips(flow: Flow) {
    forall k, v :: k in flow.spec && flow.spec[k].encode(Some(v)).Some? ==>
      flow.spec[k].decode(flow.spec[k].encode(Some(v)).value) == Some(v)
  }

  /** What is encoded is decoded to itself, if it is decoded at all. */
  ghost predicate True(codec: Codec) {
    forall v :: codec.encode(Some(v)).Some? && codec.decode(codec.encode(Some(v)).value).Some? ==>
      codec.decode(codec.encode(Some(v)).value) == Some(v)
  }

  /** Some value can be written to the journal and read back, as whatever. */
  ghost predicate Usable(codec: Codec) {
    exists v :: codec.encode(Some(v)).Some? && codec.decode(codec.encode(Some(v)).value).Some?
  }

  /** A boundary in front of node `i` can be restored: each key provided so far has a
      usable codec. */
  ghost predicate Restorable(flow: Flow, i: nat)
    requires i <= |flow.Nodes()|
  {
    forall k :: k in ProvidedBefore(flow.Nodes(), i) && k in flow.spec ==> Usable(flow.spec[k])
  }

  /** The value of a key in front of node `i` can reach the output: it stays until the
      end, or a node reads it first that has an effect on the output itself. */
  predicate IsLive(nodes: seq<Node>, i: nat, key: string)
    requires i <= |nodes|
    decreases |nodes| - i, 1
  {
    || i == |nodes|
    || (key !in nodes[i].supplies && IsLive(nodes, i + 1, key))
    || (key in nodes[i].needs && HasEffect(nodes, i))
  }

  predicate HasEffect(nodes: seq<Node>, i: nat)
    requires i < |nodes|
    decreases |nodes| - i, 0
  {
    exists key :: key in nodes[i].supplies && IsLive(nodes, i + 1, key)
  }

  /** Every key that is provided and live at a boundary that can be restored has a true
      codec. */
  ghost predicate TrueWhereLive(flow: Flow) {
    var nodes := flow.Nodes();
    forall i :: 0 < i <= |nodes| && SegmentEnd(nodes, i - 1) && Restorable(flow, i) ==>
      forall k :: k in ProvidedBefore(nodes, i) && k in flow.spec && IsLive(nodes, i, k) ==> True(flow.spec[k])
  }

  lemma {:induction false} RoundTripsTrue(flow: Flow)
    requires RoundTrips(flow)
    ensures TrueWhereLive(flow)
  {
    hide SegmentEnd, ProvidedBefore, IsLive, Restorable;
    forall k | k in flow.spec ensures True(flow.spec[k]) {}
  }

  /** The state before node `i` of a run that nothing interrupts. */
  function Ideal(nodes: seq<Node>, law: Law, initial: State, i: nat): State
    requires i <= |nodes|
  {
    if i == 0 then initial
    else
      var before := Ideal(nodes, law, initial, i - 1);
      before + law(nodes[i - 1].stepId, Inputs(nodes[i - 1].needs, before))
  }

  /** Only provided keys ever differ from the initial state. */
  lemma {:induction false} IdealKeys(nodes: seq<Node>, law: Law, initial: State, i: nat)
    requires i <= |nodes| && ExactSupplies(nodes, law)
    ensures var s := Ideal(nodes, law, initial, i);
      && s.Keys == initial.Keys + ProvidedBefore(nodes, i)
      && forall k :: k in s && k !in ProvidedBefore(nodes, i) ==> s[k] == initial[k]
  {
    if i > 0 {
      IdealKeys(nodes, law, initial, i - 1);
    }
  }

  /** The setting of the theorem: one flow, one law, one initial state. */
  datatype Course = Course(flow: Flow, law: Law, initial: State)

  ghost predicate LawfulSteps(c: Course) {
    && Runnable(c.flow)
    && RecoveryFree(c.flow.Nodes())
    && NeedsMet(c.flow.Nodes(), c.flow.initialKeys)
    && InVocabulary(c.flow)
    && ExactSupplies(c.flow.Nodes(), c.law)
    && Elements(c.flow.initialKeys) <= c.initial.Keys
  }

  ghost predicate Lawful(c: Course) {
    LawfulSteps(c) && TrueWhereLive(c.flow)
  }

  function Destination(c: Course): State {
    Ideal(c.flow.Nodes(), c.law, c.initial, |c.flow.Nodes()|)
  }

  /** The state has the keys of the uninterrupted run in front of node `i`, and its
      values where they matter. */
  ghost predicate Agrees(c: Course, i: nat, s: State)
    requires i <= |c.flow.Nodes()|
  {
    var ideal := Ideal(c.flow.Nodes(), c.law, c.initial, i);
    s.Keys == ideal.Keys && forall k :: k in s && IsLive(c.flow.Nodes(), i, k) ==> s[k] == ideal[k]
  }

  ghost predicate OnCourse(c: Course, f: Fold) {
    && f.index <= |c.flow.Nodes()|
    && Agrees(c, f.index, f.state)
    && f.provided == ProvidedBefore(c.flow.Nodes(), f.index)
  }

  /** The delta is the encoding of a state that agrees. */
  ghost predicate DeltaFaithful(c: Course, i: nat, delta: State)
    requires i <= |c.flow.Nodes()|
  {
    exists s :: Agrees(c, i, s) && EncodeDelta(c.flow, ProvidedBefore(c.flow.Nodes(), i), s) == Some(delta)
  }

  ghost predicate RowFaithful(c: Course, row: Row) {
    IsBoundary(c.flow.Nodes(), row) ==>
      DeltaFaithful(c, IndexOf(c.flow.Nodes(), row.stepId).value + 1, row.stateDelta.value)
  }

  ghost predicate RowsFaithful(c: Course, rows: seq<Row>) {
    forall row :: row in rows ==> RowFaithful(c, row)
  }

  ghost predicate LogFaithful(c: Course, log: seq<Event>) {
    forall e :: e in log && e.Append? ==> RowFaithful(c, e.row)
  }

  lemma {:induction false} PlainFaithful(c: Course, row: Row)
    requires row.status != Completed || row.stateDelta.None?
    ensures RowFaithful(c, row)
  {}

  lemma {:induction false} ConcatFaithful(c: Course, a: seq<Event>, b: seq<Event>)
    requires LogFaithful(c, a) && LogFaithful(c, b)
    ensures LogFaithful(c, a + b)
  {
    hide RowFaithful;
  }

  /** Without recovery edges no node reroutes. */
  lemma {:induction false} NoReroute(c: Course, env: Env, f: Fold)
    requires Lawful(c) && f.index < |c.flow.Nodes()|
    ensures !RunNode(c.flow, env, f).ReroutedTo?
  {
    if RunNode(c.flow, env, f).ReroutedTo? {
      StepReroute(c.flow, env, f);
      assert false;
    }
  }

  /** One node later, states that agreed agree: what the node reads makes a difference
      only where it was live. */
  lemma {:induction false} StepAgrees(c: Course, i: nat, s: State)
    requires ExactSupplies(c.flow.Nodes(), c.law) && i < |c.flow.Nodes()| && Agrees(c, i, s)
    ensures var node := c.flow.Nodes()[i]; Agrees(c, i + 1, s + c.law(node.stepId, Inputs(node.needs, s)))
  {
    var nodes := c.flow.Nodes();
    var node, ideal := nodes[i], Ideal(nodes, c.law, c.initial, i);
    var added := c.law(node.stepId, Inputs(node.needs, s));
    if HasEffect(nodes, i) {
      assert Inputs(node.needs, s) == Inputs(node.needs, ideal);
    }
    hide HasEffect;
    forall k | k in s + added && IsLive(nodes, i + 1, k)
      ensures (s + added)[k] == Ideal(nodes, c.law, c.initial, i + 1)[k]
    {
      if k in node.supplies {
        assert HasEffect(nodes, i) by { Effective(nodes, i, k); }
      } else {
        assert IsLive(nodes, i, k);
      }
    }
  }

  lemma {:induction false} Effective(nodes: seq<Node>, i: nat, key: string)
    requires i < |nodes| && key in nodes[i].supplies && IsLive(nodes, i + 1, key)
    ensures HasEffect(nodes, i)
  {}

  /** Advancing on course computes the next state as the uninterrupted run does. */
  lemma {:induction false} AdvanceState(c: Course, env: Env, f: Fold)
    requires Lawful(c) && Obeys(env, c.law) && OnCourse(c, f)
    requires f.index < |c.flow.Nodes()| && RunNode(c.flow, env, f).Advanced?
    ensures var g := RunNode(c.flow, env, f).next;
      && Agrees(c, f.index + 1, g.state)
      && g.provided == ProvidedBefore(c.flow.Nodes(), f.index + 1)
  {
    hide RunNode, Reaches, EncodeDelta, SegmentEnd, ExecutionBound, Contiguous, UniqueIds, IndexOf, TrueWhereLive;
    hide ExactSupplies, NeedsMet, InVocabulary, RecoveryFree, Inputs, Agrees;
    StepAdvance(c.flow, env, f);
    StepAgrees(c, f.index, f.state);
  }

  lemma {:induction false} AdvanceOnCourse(c: Course, env: Env, f: Fold)
    requires Lawful(c) && Obeys(env, c.law) && OnCourse(c, f)
    requires f.index < |c.flow.Nodes()| && RunNode(c.flow, env, f).Advanced?
    ensures OnCourse(c, MoveTo(c.flow.Nodes(), RunNode(c.flow, env, f).next, f.index + 1))
  {
    AdvanceState(c, env, f);
    MoveKeeps(c.flow.Nodes(), RunNode(c.flow, env, f).next, f.index + 1);
    hide RunNode, MoveTo, Agrees, ProvidedBefore, Obeys, Lawful;
  }

  /** The row an advance journals is faithful. */
  lemma {:induction false} AdvanceRowFaithful(c: Course, env: Env, f: Fold)
    requires Lawful(c) && Obeys(env, c.law) && OnCourse(c, f)
    requires f.index < |c.flow.Nodes()| && RunNode(c.flow, env, f).Advanced?
    ensures |RunNode(c.flow, env, f).next.log| == |f.log| + 3 && RunNode(c.flow, env, f).next.log[|f.log| + 2].Append?
    ensures RowFaithful(c, RunNode(c.flow, env, f).next.log[|f.log| + 2].row)
  {
    hide RunNode, Reaches, EncodeDelta, SegmentEnd, ExecutionBound, Contiguous, IndexOf, TrueWhereLive;
    hide ExactSupplies, NeedsMet, InVocabulary, Agrees, ProvidedBefore, Obeys, StartedEvent, Call, RecoveryFree;
    StepAdvance(c.flow, env, f);
    StepLog(c.flow, env, f);
    AdvanceState(c, env, f);
    IndexOfUnique(c.flow.Nodes(), f.index);
  }

  lemma {:induction false} NodeLogFaithful(c: Course, env: Env, f: Fold)
    requires Lawful(c) && Obeys(env, c.law) && OnCourse(c, f) && LogFaithful(c, f.log)
    requires f.index < |c.flow.Nodes()|
    ensures LogFaithful(c, RunNode(c.flow, env, f).next.log)
  {
    LawfulRunnable(c);
    hide RunNode, Reaches, ExecutionBound, RowFaithful, Lawful, Obeys, OnCourse, Runnable, Inputs;
    StepLog(c.flow, env, f);
    var node, s := c.flow.Nodes()[f.index], RunNode(c.flow, env, f);
    var started := StartedEvent(env, f, node);
    PlainFaithful(c, started.row);
    if s.Advanced? {
      AdvanceRowFaithful(c, env, f);
    }
    if Reaches(c.flow, f, node) && !Answer(env, f, node).Died? {
      var e := s.next.log[|f.log| + 2];
      if !s.Advanced? {
        PlainFaithful(c, e.row);
      }
      ThreeFaithful(c, f.log, started, Call(f, node), e);
    } else if Reaches(c.flow, f, node) {
      assert LogFaithful(c, [started, Call(f, node)]);
      ConcatFaithful(c, f.log, [started, Call(f, node)]);
    }
  }

  lemma {:induction false} ThreeFaithful(c: Course, log: seq<Event>, started: Event, call: Event, last: Event)
    requires LogFaithful(c, log) && started.Append? && RowFaithful(c, started.row)
    requires call.Entered? && last.Append? && RowFaithful(c, last.row)
    ensures LogFaithful(c, log + [started, call, last])
  {
    hide RowFaithful;
    assert LogFaithful(c, [started, call, last]);
    ConcatFaithful(c, log, [started, call, last]);
  }

  lemma {:induction false} LawfulRunnable(c: Course)
    requires Lawful(c)
    ensures Runnable(c.flow) && RecoveriesValid(c.flow.Nodes())
  {}

  /** A driver on course arrives at the destination, if it arrives. */
  lemma {:induction false} DriveOnCourse(c: Course, env: Env, f: Fold)
    requires Lawful(c) && Obeys(env, c.law) && OnCourse(c, f) && LogFaithful(c, f.log)
    requires f.open.Some? ==> f.index < |c.flow.Nodes()| && f.open == Some(c.flow.Nodes()[f.index].segment)
    ensures Runnable(c.flow)
    ensures var o := Drive(c.flow, env, f);
      LogFaithful(c, o.final.log) && (o.Finished? ==> o.final.state == Destination(c))
    decreases ExecutionsLeft(c.flow.Nodes(), f), 1
  {
    LawfulRunnable(c);
    hide RunNode, Drive, ExecutionBound, Lawful, Obeys, LogFaithful, OnCourse, Runnable, Destination;
    var nodes := c.flow.Nodes();
    if f.index >= |nodes| {
      DriveDone(c.flow, env, f);
      Arrived(c, f);
    } else if f.open.None? {
      DriveClosed(c.flow, env, f);
      if env.session(f.sessions, nodes[f.index].segment).None? {
        EnterOnCourse(c, f, nodes[f.index].segment);
        NodeOnCourse(c, env, Enter(f, nodes[f.index].segment));
      }
    } else {
      NodeOnCourse(c, env, f);
    }
  }

  lemma {:induction false} NodeOnCourse(c: Course, env: Env, f: Fold)
    requires Lawful(c) && Obeys(env, c.law) && OnCourse(c, f) && LogFaithful(c, f.log)
    requires f.index < |c.flow.Nodes()| && f.open == Some(c.flow.Nodes()[f.index].segment)
    ensures Runnable(c.flow)
    ensures var o := Drive(c.flow, env, f);
      LogFaithful(c, o.final.log) && (o.Finished? ==> o.final.state == Destination(c))
    decreases ExecutionsLeft(c.flow.Nodes(), f), 0
  {
    LawfulRunnable(c);
    hide RunNode, Drive, ExecutionBound, Lawful, Obeys, LogFaithful, OnCourse, Runnable, Destination, Leave;
    hide Continue, MoveTo, RowFaithful;
    NodeLogFaithful(c, env, f);
    NoReroute(c, env, f);
    var s := RunNode(c.flow, env, f);
    if s.Advanced? {
      DriveAdvances(c.flow, env, f);
      AdvanceOnCourse(c, env, f);
      MoveFaithful(c, s.next, f.index + 1);
      DriveOnCourse(c, env, MoveTo(c.flow.Nodes(), s.next, f.index + 1));
    } else {
      DriveFaults(c.flow, env, f);
      LeaveFaithful(c, s.next);
    }
  }

  /** At the end every key is live. */
  lemma {:induction false} Arrived(c: Course, f: Fold)
    requires OnCourse(c, f) && f.index >= |c.flow.Nodes()|
    ensures f.state == Destination(c)
  {
    assert forall k :: k in f.state ==> IsLive(c.flow.Nodes(), f.index, k);
  }

  lemma {:induction false} EnterOnCourse(c: Course, f: Fold, segment: string)
    requires OnCourse(c, f)
    ensures OnCourse(c, Enter(f, segment))
    ensures LogFaithful(c, f.log) ==> LogFaithful(c, Enter(f, segment).log)
  {}

  lemma {:induction false} MoveFaithful(c: Course, f: Fold, index: nat)
    requires LogFaithful(c, f.log)
    ensures var g := MoveTo(c.flow.Nodes(), f, index);
      && LogFaithful(c, g.log) && g.executions == f.executions
      && (g.open.Some? ==> g.index < |c.flow.Nodes()| && g.open == Some(c.flow.Nodes()[g.index].segment))
  {
    hide RowFaithful;
  }

  lemma {:induction false} MovePlacedAt(nodes: seq<Node>, f: Fold, index: nat)
    ensures var g := MoveTo(nodes, f, index);
      g.index == index && (g.open.Some? ==> index < |nodes| && g.open == Some(nodes[index].segment))
  {}

  lemma {:induction false} LeaveFaithful(c: Course, f: Fold)
    requires LogFaithful(c, f.log)
    ensures LogFaithful(c, Leave(f).log)
  {
    hide RowFaithful;
  }

  /** What is decoded has the provided keys, and the state's own values where they matter. */
  lemma {:induction false} DeltaRestores(c: Course, i: nat, s: State, delta: State)
    requires Lawful(c) && 0 < i <= |c.flow.Nodes()| && SegmentEnd(c.flow.Nodes(), i - 1)
    requires ProvidedBefore(c.flow.Nodes(), i) <= s.Keys && ProvidedBefore(c.flow.Nodes(), i) <= c.flow.spec.Keys
    requires EncodeDelta(c.flow, ProvidedBefore(c.flow.Nodes(), i), s) == Some(delta)
    requires DecodeDelta(c.flow, delta).Some?
    ensures var decoded := DecodeDelta(c.flow, delta).value; var keys := ProvidedBefore(c.flow.Nodes(), i);
      && decoded.Keys == keys
      && forall k :: k in keys && IsLive(c.flow.Nodes(), i, k) ==> decoded[k] == s[k]
  {
    hide IsLive, Runnable, NeedsMet, InVocabulary, ExactSupplies, RecoveryFree, ProvidedBefore, SegmentEnd;
    var nodes, keys := c.flow.Nodes(), ProvidedBefore(c.flow.Nodes(), i);
    var decoded := DecodeDelta(c.flow, delta).value;
    assert delta.Keys == keys && decoded.Keys == keys;
    forall k | k in keys
      ensures Usable(c.flow.spec[k])
      ensures c.flow.spec[k].decode(c.flow.spec[k].encode(Some(s[k])).value) == Some(decoded[k])
      ensures c.flow.spec[k].encode(Some(s[k])).Some?
    {
      assert k in delta && Get(s, k) == Some(s[k]);
      var codec := c.flow.spec[k];
      assert codec.encode(Some(s[k])).Some? && codec.decode(codec.encode(Some(s[k])).value).Some?;
    }
    hide EncodeDelta, DecodeDelta, Usable;
    assert Restorable(c.flow, i);
    forall k | k in keys && IsLive(nodes, i, k) ensures decoded[k] == s[k] {
      assert True(c.flow.spec[k]);
    }
  }

  /** Laid over the initial state, it agrees. */
  lemma {:induction false} RestoreAgrees(c: Course, i: nat, s: State, decoded: State)
    requires ExactSupplies(c.flow.Nodes(), c.law) && i <= |c.flow.Nodes()| && Agrees(c, i, s)
    requires decoded.Keys == ProvidedBefore(c.flow.Nodes(), i) <= s.Keys
    requires forall k :: k in decoded && IsLive(c.flow.Nodes(), i, k) ==> decoded[k] == s[k]
    ensures Agrees(c, i, c.initial + decoded)
  {
    hide IsLive, ProvidedBefore;
    IdealKeys(c.flow.Nodes(), c.law, c.initial, i);
    hide Ideal;
  }

  lemma {:induction false} SkipFaithful(c: Course, env: Env, f: Fold, n: nat)
    requires n <= |c.flow.Nodes()| && LogFaithful(c, f.log)
    ensures LogFaithful(c, Skip(c.flow, env, f, n).log)
  {
    hide RowFaithful;
    if n > 0 {
      SkipFaithful(c, env, f, n - 1);
      var g := Skip(c.flow, env, f, n - 1);
      var id := c.flow.Nodes()[n - 1].stepId;
      var row := BareRow(id, GetOr(g.attempts, id, 1), SkippedResume);
      PlainFaithful(c, row);
      ConcatFaithful(c, g.log, [Append(row, env.append(g.appends))]);
    }
  }

  lemma {:induction false} HydrateOnCourse(c: Course, env: Env, rows: seq<Row>)
    requires Lawful(c) && RowsFaithful(c, rows)
    ensures var f := Hydrate(c.flow, env, Fresh(c.flow, c.initial), rows);
      OnCourse(c, f) && LogFaithful(c, f.log)
  {
    hide Lawful, IndexOf, SeedTokens, SeedAttempts, LastBoundary, DecodeDelta, EncodeDelta, Ideal, Restore;
    hide Budgets, ProvidedBefore, DeltaFaithful, OnCourse, SegmentEnd;
    var nodes := c.flow.Nodes();
    var boundary := LastBoundary(nodes, rows);
    var g := Fresh(c.flow, c.initial).(tokens := SeedTokens(rows), attempts := SeedAttempts(rows));
    assert OnCourse(c, g) by { StartOnCourse(c, g); }
    if boundary.Some? && DecodeDelta(c.flow, boundary.value.stateDelta.value).Some? {
      assert RowFaithful(c, boundary.value);
      RestoreFaithful(c, env, g, IndexOf(nodes, boundary.value.stepId).value + 1, boundary.value.stateDelta.value);
    }
  }

  lemma {:induction false} StartOnCourse(c: Course, g: Fold)
    requires g.index == 0 && g.state == c.initial && g.provided == {}
    ensures OnCourse(c, g)
  {}

  lemma {:induction false} RestoreFaithful(c: Course, env: Env, g: Fold, start: nat, delta: State)
    requires Lawful(c) && 0 < start <= |c.flow.Nodes()| && SegmentEnd(c.flow.Nodes(), start - 1)
    requires g.log == [] && g.state == c.initial && g.provided == {}
    requires DeltaFaithful(c, start, delta) && DecodeDelta(c.flow, delta).Some?
    ensures var d := DecodeDelta(c.flow, delta).value;
      OnCourse(c, Restore(c.flow, env, g, d, start)) && LogFaithful(c, Restore(c.flow, env, g, d, start).log)
  {
    hide DecodeDelta, EncodeDelta, Skip, RowFaithful, Runnable, RecoveryFree, NeedsMet, TrueWhereLive, SegmentEnd;
    hide IsLive, Ideal;
    var nodes := c.flow.Nodes();
    var s :| Agrees(c, start, s) && EncodeDelta(c.flow, ProvidedBefore(nodes, start), s) == Some(delta);
    IdealKeys(nodes, c.law, c.initial, start);
    ProvidedGrows(nodes, start, |nodes|);
    hide ProvidedBefore, ExactSupplies;
    DeltaRestores(c, start, s, delta);
    var decoded := DecodeDelta(c.flow, delta).value;
    RestoreAgrees(c, start, s, decoded);
    var h := g.(state := g.state + decoded, provided := g.provided + decoded.Keys, index := start);
    SkipKeeps(c.flow, env, h, start);
    SkipFaithful(c, env, h, start);
  }

  lemma {:induction false} CompensateFaithful(c: Course, env: Env, f: Fold, n: nat)
    requires n <= |f.succeeded| && LogFaithful(c, f.log)
    ensures LogFaithful(c, Compensate(env, f, n).log)
    decreases n
  {
    hide RowFaithful;
    if n > 0 {
      var entry := f.succeeded[n - 1];
      var row := BareRow(entry.stepId, GetOr(f.attempts, entry.stepId, 1), Compensated);
      PlainFaithful(c, row);
      var undone := f.(log := f.log + [Undone(entry.stepId, entry.output)]);
      ConcatFaithful(c, f.log, [Undone(entry.stepId, entry.output)]);
      ConcatFaithful(c, undone.log, [Append(row, env.append(f.appends))]);
      CompensateFaithful(c, env, if !entry.undo then f else Checkpoint(env, undone, row), n - 1);
    }
  }

  /** One lease: it writes faithful rows again, and its output, if any, is the
      destination. */
  lemma {:induction false} LeaseOnCourse(c: Course, env: Env, resume: bool, journal: seq<Row>)
    requires Lawful(c) && Obeys(env, c.law) && RowsFaithful(c, journal)
    ensures Runnable(c.flow)
    ensures var r := RunFlow(c.flow, env, c.initial, resume, journal);
      && LogFaithful(c, r.final.log)
      && (r.Succeeded? ==> r.final.state == Destination(c))
  {
    LawfulRunnable(c);
    var rows := Visible(env, resume, journal);
    if |rows| > 0 {
      HydrateOnCourse(c, env, rows);
      HydrateKeeps(c.flow, env, Fresh(c.flow, c.initial), rows);
    } else {
      assert OnCourse(c, Fresh(c.flow, c.initial));
    }
    hide RunFlow, Drive, Hydrate, ReplayGuard, Conclude, Budgets, Lawful, Obeys, RowFaithful, Runnable, OnCourse;
    var f := StartingFold(c.flow, env, c.initial, rows);
    LeaseCases(c.flow, env, c.initial, resume, journal);
    DriveOnCourse(c, env, f);
    ConcludeFaithful(c, env, Drive(c.flow, env, f));
  }

  lemma {:induction false} ConcludeFaithful(c: Course, env: Env, o: Outcome)
    requires LogFaithful(c, o.final.log)
    ensures LogFaithful(c, Conclude(env, o).final.log)
    ensures Conclude(env, o).Succeeded? ==> o.Finished? && Conclude(env, o).final == o.final
  {
    hide RowFaithful;
    if o.Broke? {
      CompensateFaithful(c, env, o.final, |o.final.succeeded|);
    }
  }

  ghost predicate SameCourse(c: Course, attempts: seq<Attempt>) {
    forall i :: 0 <= i < |attempts| ==> attempts[i].initial == c.initial && Obeys(attempts[i].env, c.law)
  }

  lemma {:induction false} LeasesFaithful(c: Course, attempts: seq<Attempt>, j: nat)
    requires Lawful(c) && Runnable(c.flow) && SawOnlyWritten(c.flow, attempts) && SameCourse(c, attempts)
    requires j < |attempts|
    ensures RowsFaithful(c, attempts[j].seen)
    decreases j
  {
    hide RowFaithful, RunFlow, Runnable, Lawful, Obeys;
    forall row | row in attempts[j].seen
      ensures RowFaithful(c, row)
    {
      var i :| 0 <= i < j && Wrote(c.flow, attempts[i], row);
      LeasesFaithful(c, attempts, i);
      LeaseOnCourse(c, attempts[i].env, attempts[i].resume, attempts[i].seen);
    }
  }

  /** All calls return on track and all sessions open. */
  ghost predicate Calm(env: Env) {
    && (forall k, stepId, input, token ::
          env.run(k, stepId, input, token).Returned? && env.run(k, stepId, input, token).outcome.observed.None?)
    && forall k, segment :: env.session(k, segment).None?
  }

  lemma {:induction false} CalmAdvances(c: Course, env: Env, f: Fold)
    requires Lawful(c) && Calm(env) && OnCourse(c, f) && f.index < |c.flow.Nodes()|
    requires Elements(StepIds(c.flow.Nodes())) <= c.flow.registered
    requires Bounded(c.flow.Nodes(), f, ExecutionBound(c.flow.Nodes()))
    ensures RunNode(c.flow, env, f).Advanced?
    ensures MoveTo(c.flow.Nodes(), RunNode(c.flow, env, f).next, f.index + 1).index == f.index + 1
    ensures Bounded(c.flow.Nodes(), MoveTo(c.flow.Nodes(), RunNode(c.flow, env, f).next, f.index + 1),
            ExecutionBound(c.flow.Nodes()))
  {
    var nodes, node := c.flow.Nodes(), c.flow.Nodes()[f.index];
    assert Reaches(c.flow, f, node) by { CalmReaches(c, f); }
    OnTrack(c.flow, env, f);
    StepAdvance(c.flow, env, f);
    hide RunNode, Reaches, ExecutionBound, MoveTo, Lawful, Calm, OnCourse, Bounded, EncodeDelta, SegmentEnd;
    var h := RunNode(c.flow, env, f).next;
    MoveKeeps(nodes, h, f.index + 1);
    AdvanceBounded(nodes, f, MoveTo(nodes, h, f.index + 1), ExecutionBound(nodes));
  }

  lemma {:induction false} CalmReaches(c: Course, f: Fold)
    requires Lawful(c) && OnCourse(c, f) && f.index < |c.flow.Nodes()|
    requires Elements(StepIds(c.flow.Nodes())) <= c.flow.registered
    requires Bounded(c.flow.Nodes(), f, ExecutionBound(c.flow.Nodes()))
    ensures Reaches(c.flow, f, c.flow.Nodes()[f.index])
  {
    hide ExecutionBound, Runnable, Ideal, ProvidedBefore, Bounded, ExactSupplies, RoundTrips;
    var nodes, node := c.flow.Nodes(), c.flow.Nodes()[f.index];
    IdealKeys(nodes, c.law, c.initial, f.index);
    NothingMissing(node.needs, f.state);
    CallBounded(nodes, f, ExecutionBound(nodes));
    assert StepIds(nodes)[f.index] == node.stepId;
  }

  lemma {:induction false} OnTrack(flow: Flow, env: Env, f: Fold)
    requires Runnable(flow) && Calm(env) && f.index < |flow.Nodes()| && Reaches(flow, f, flow.Nodes()[f.index])
    ensures RunNode(flow, env, f).Advanced?
  {
    NodeRuns(flow, env, f);
    hide RunNode, Reaches, MinConfidence, Commit, GiveUp, Divert;
  }

  lemma {:induction false} CalmDriveFinishes(c: Course, env: Env, f: Fold)
    requires Lawful(c) && Obeys(env, c.law) && Calm(env) && OnCourse(c, f)
    requires Elements(StepIds(c.flow.Nodes())) <= c.flow.registered
    requires Bounded(c.flow.Nodes(), f, ExecutionBound(c.flow.Nodes()))
    requires f.open.Some? ==> f.index < |c.flow.Nodes()| && f.open == Some(c.flow.Nodes()[f.index].segment)
    ensures Runnable(c.flow)
    ensures Drive(c.flow, env, f).Finished?
    decreases |c.flow.Nodes()| - f.index, 1
  {
    LawfulRunnable(c);
    hide RunNode, Drive, ExecutionBound, Lawful, Obeys, OnCourse, Bounded, Runnable;
    var nodes := c.flow.Nodes();
    if f.index >= |nodes| {
      DriveDone(c.flow, env, f);
    } else if f.open.None? {
      DriveClosed(c.flow, env, f);
      EnterOnCourse(c, f, nodes[f.index].segment);
      EnterBounded(nodes, f);
      CalmNode(c, env, Enter(f, nodes[f.index].segment));
    } else {
      CalmNode(c, env, f);
    }
  }

  lemma {:induction false} CalmNode(c: Course, env: Env, f: Fold)
    requires Lawful(c) && Obeys(env, c.law) && Calm(env) && OnCourse(c, f)
    requires Elements(StepIds(c.flow.Nodes())) <= c.flow.registered
    requires Bounded(c.flow.Nodes(), f, ExecutionBound(c.flow.Nodes()))
    requires f.index < |c.flow.Nodes()| && f.open == Some(c.flow.Nodes()[f.index].segment)
    ensures Runnable(c.flow)
    ensures Drive(c.flow, env, f).Finished?
    decreases |c.flow.Nodes()| - f.index, 0
  {
    LawfulRunnable(c);
    hide RunNode, Drive, ExecutionBound, Lawful, Obeys, OnCourse, Bounded, Runnable, Continue, MoveTo, LogFaithful;
    hide RowFaithful;
    CalmAdvances(c, env, f);
    DriveAdvances(c.flow, env, f);
    AdvanceOnCourse(c, env, f);
    var g := MoveTo(c.flow.Nodes(), RunNode(c.flow, env, f).next, f.index + 1);
    MovePlacedAt(c.flow.Nodes(), RunNode(c.flow, env, f).next, f.index + 1);
    CalmDriveFinishes(c, env, g);
  }

  lemma {:induction false} EnterBounded(nodes: seq<Node>, f: Fold)
    requires f.index < |nodes| && Bounded(nodes, f, ExecutionBound(nodes))
    ensures Bounded(nodes, Enter(f, nodes[f.index].segment), ExecutionBound(nodes))
  {
    hide ExecutionBound, Total;
  }

  /** A calm lease succeeds, or it refuses to replay an effectful-once step. */
  lemma {:induction false} CalmLease(c: Course, env: Env, resume: bool, journal: seq<Row>)
    requires Lawful(c) && Obeys(env, c.law) && Calm(env) && RowsFaithful(c, journal)
    requires Elements(StepIds(c.flow.Nodes())) <= c.flow.registered
    ensures Runnable(c.flow)
    ensures var r := RunFlow(c.flow, env, c.initial, resume, journal);
      && (r.Succeeded? || r.fault.Replay?)
      && (Visible(env, resume, journal) == [] ==> r.Succeeded?)
  {
    LawfulRunnable(c);
    var rows := Visible(env, resume, journal);
    if |rows| > 0 {
      HydrateOnCourse(c, env, rows);
      HydrateKeeps(c.flow, env, Fresh(c.flow, c.initial), rows);
    } else {
      assert OnCourse(c, Fresh(c.flow, c.initial));
    }
    StartBounded(c.flow, env, c.initial, rows);
    hide RunFlow, Drive, Hydrate, ReplayGuard, Budgets, Lawful, Obeys, Calm, RowFaithful, Runnable, OnCourse, Bounded;
    var f := StartingFold(c.flow, env, c.initial, rows);
    LeaseCases(c.flow, env, c.initial, resume, journal);
    if !(|rows| > 0 && ReplayGuard(c.flow.Nodes(), rows, f.index).Some?) {
      CalmDriveFinishes(c, env, f);
    }
  }

  /** Resume equals not having crashed: take any leases of one operation, each seeing
      any of the rows that earlier leases tried to write. Whichever of them succeeds
      has the output of an undisturbed run; and an undisturbed one among them succeeds
      or refuses with EFFECTFUL_ONCE_REPLAY. */
  lemma {:induction false} ResumePreservesMeaning(c: Course, calm: Env, attempts: seq<Attempt>, j: nat)
    requires Lawful(c) && Runnable(c.flow) && SawOnlyWritten(c.flow, attempts) && SameCourse(c, attempts)
    requires Elements(StepIds(c.flow.Nodes())) <= c.flow.registered
    requires Obeys(calm, c.law) && Calm(calm) && j < |attempts|
    ensures var undisturbed := RunFlow(c.flow, calm, c.initial, false, []);
      var a := attempts[j]; var r := RunFlow(c.flow, a.env, a.initial, a.resume, a.seen);
      && undisturbed.Succeeded?
      && (r.Succeeded? ==> r.final.state == undisturbed.final.state)
      && (Calm(a.env) ==> r.Succeeded? || r.fault.Replay?)
  {
    hide RunFlow, Runnable, Lawful, Obeys, Calm, RowFaithful;
    LeasesFaithful(c, attempts, j);
    var a := attempts[j];
    assert RowsFaithful(c, []);
    LeaseOnCourse(c, a.env, a.resume, a.seen);
    LeaseOnCourse(c, calm, false, []);
    CalmLease(c, calm, false, []);
    if Calm(a.env) {
      CalmLease(c, a.env, a.resume, a.seen);
    }
  }
}
