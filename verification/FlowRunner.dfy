/** `runFlow` as it is written: mutable variables, nested drivers, loops
    (src/flow/run.ts). Every method is proved against the flat specification of
    `FlowFold` and `FlowLease`. */
module FlowRunner {
  import opened Basics
  import opened JsonValues
  import opened FlowTypes
  import opened PlanShape
  import opened FlowFold
  import opened FlowLease

  datatype Segment = Segment(name: string, start: nat, end: nat)

  /** `segments` partitions the nodes into maximal runs of one segment name. */
  ghost predicate Partition(nodes: seq<Node>, upTo: nat, segments: seq<Segment>)
    requires upTo <= |nodes|
  {
    && (|segments| == 0 <==> upTo == 0)
    && (|segments| > 0 ==> segments[0].start == 0 && segments[|segments| - 1].end == upTo - 1)
    && (forall s :: 0 <= s < |segments| ==> segments[s].start <= segments[s].end < upTo)
    && (forall s :: 0 <= s < |segments| - 1 ==>
          segments[s + 1].start == segments[s].end + 1 && segments[s].name != segments[s + 1].name)
    && (forall s :: 0 <= s < |segments| ==> Uniform(nodes, segments[s]))
  }

  /** Every node of the run carries its name. */
  ghost predicate Uniform(nodes: seq<Node>, segment: Segment) {
    segment.end < |nodes| && forall i :: segment.start <= i <= segment.end ==> nodes[i].segment == segment.name
  }

  lemma {:induction false} PartitionGrows(nodes: seq<Node>, i: nat, segments: seq<Segment>, longer: seq<Segment>)
    requires i < |nodes| && Partition(nodes, i, segments) && |segments| > 0
    requires segments[|segments| - 1].name == nodes[i].segment
    requires longer == segments[..|segments| - 1] + [segments[|segments| - 1].(end := i)]
    ensures Partition(nodes, i + 1, longer)
  {
    var last := |segments| - 1;
    forall s | 0 <= s < last ensures longer[s] == segments[s] {}
    assert longer[last].start == segments[last].start && longer[last].name == segments[last].name;
    assert Uniform(nodes, longer[last]) by { assert Uniform(nodes, segments[last]); }
    hide Uniform;
    if last > 0 {
      assert segments[last - 1 + 1].start == segments[last - 1].end + 1;
    }
  }

  lemma {:induction false} PartitionOpens(nodes: seq<Node>, i: nat, segments: seq<Segment>)
    requires i < |nodes| && Partition(nodes, i, segments)
    requires |segments| > 0 ==> segments[|segments| - 1].name != nodes[i].segment
    ensures Partition(nodes, i + 1, segments + [Segment(nodes[i].segment, i, i)])
  {
    var longer := segments + [Segment(nodes[i].segment, i, i)];
    assert Uniform(nodes, Segment(nodes[i].segment, i, i));
    hide Uniform;
    forall s | 0 <= s < |longer| - 1
      ensures longer[s] == segments[s]
      ensures longer[s + 1].start == longer[s].end + 1 && longer[s].name != longer[s + 1].name
    {
      if s + 1 < |segments| {
        assert segments[s + 1].start == segments[s].end + 1;
      }
    }
  }

  /** The contiguous segment runs in plan order. */
  method PartitionSegments(nodes: seq<Node>) returns (segments: seq<Segment>)
    ensures Partition(nodes, |nodes|, segments)
  {
    segments := [];
    for i := 0 to |nodes|
      invariant Partition(nodes, i, segments)
    {
      if |segments| > 0 && segments[|segments| - 1].name == nodes[i].segment {
        var longer := segments[..|segments| - 1] + [segments[|segments| - 1].(end := i)];
        PartitionGrows(nodes, i, segments, longer);
        segments := longer;
      } else {
        PartitionOpens(nodes, i, segments);
        segments := segments + [Segment(nodes[i].segment, i, i)];
      }
    }
  }

  lemma {:induction false} SegmentsOrdered(nodes: seq<Node>, segments: seq<Segment>, s: nat, t: nat)
    requires Partition(nodes, |nodes|, segments) && s < t < |segments|
    ensures segments[s].end < segments[t].start
    decreases t - s
  {
    if s + 1 < t {
      SegmentsOrdered(nodes, segments, s, t - 1);
    }
  }

  /** On a contiguous plan no two segments share a name, so the session layer is
      asked for each name by one segment only. */
  lemma {:induction false} SegmentNamesDistinct(nodes: seq<Node>, segments: seq<Segment>, s: nat, t: nat)
    requires Partition(nodes, |nodes|, segments) && Contiguous(nodes) && s < t < |segments|
    ensures segments[s].name != segments[t].name
  {
    SegmentsOrdered(nodes, segments, s, t);
    var a, b, c := segments[s].end, segments[s].end + 1, segments[t].start;
    assert segments[s + 1].start == b;
    assert nodes[b].segment == segments[s + 1].name != nodes[a].segment;
    assert nodes[a].segment == segments[s].name && nodes[c].segment == segments[t].name;
  }

  /** A node belongs to a segment's range exactly when it carries its name. */
  lemma {:induction false} RangeIsName(nodes: seq<Node>, segments: seq<Segment>, s: nat, i: nat)
    requires Partition(nodes, |nodes|, segments) && Contiguous(nodes) && s < |segments| && i < |nodes|
    ensures segments[s].start <= i <= segments[s].end <==> nodes[i].segment == segments[s].name
  {
    var t := SegmentOf(nodes, segments, i);
    if s < t {
      SegmentNamesDistinct(nodes, segments, s, t);
      SegmentsOrdered(nodes, segments, s, t);
    } else if t < s {
      SegmentNamesDistinct(nodes, segments, t, s);
      SegmentsOrdered(nodes, segments, t, s);
    }
  }

  /** Every node lies in some segment. */
  lemma {:induction false} SegmentOf(nodes: seq<Node>, segments: seq<Segment>, i: nat) returns (t: nat)
    requires Partition(nodes, |nodes|, segments) && i < |nodes|
    ensures t < |segments| && segments[t].start <= i <= segments[t].end
    ensures nodes[i].segment == segments[t].name
  {
    t := 0;
    while segments[t].end < i
      invariant t < |segments| && segments[t].start <= i
      decreases |segments| - t
    {
      assert t + 1 < |segments| ==> segments[t + 1].start == segments[t].end + 1;
      t := t + 1;
    }
  }

  /** The re-entry budgets and their sum, edge by edge. */
  method ComputeBudgets(nodes: seq<Node>) returns (budgets: map<string, int>, sum: int)
    ensures budgets == Budgets(nodes) && sum == BudgetSum(nodes)
  {
    budgets, sum := map[], 0;
    for i := 0 to |nodes|
      invariant budgets == Budgets(nodes[..i]) && sum == BudgetSum(nodes[..i])
    {
      var node := nodes[i];
      assert nodes[..i + 1][..i] == nodes[..i];
      for j := 0 to |node.recoveries|
        invariant budgets == EdgeBudgets(node.stepId, node.recoveries[..j], Budgets(nodes[..i]))
        invariant sum == BudgetSum(nodes[..i]) + EdgeSum(node.recoveries[..j])
      {
        var edge := node.recoveries[j];
        assert node.recoveries[..j + 1][..j] == node.recoveries[..j];
        budgets := budgets[EdgeKey(node.stepId, edge.to) := edge.maxReentries];
        sum := sum + edge.maxReentries;
      }
      assert node.recoveries[..|node.recoveries|] == node.recoveries;
    }
    assert nodes[..|nodes|] == nodes;
  }

  datatype NodeResult = Advance | RerouteTo(to: nat) | Fail(fault: Fault)

  function AsStep(result: NodeResult, f: Fold): Step {
    match result
    case Advance => Advanced(f)
    case RerouteTo(to) => ReroutedTo(f, to)
    case Fail(fault) => Faulted(f, fault)
  }

  class FlowRun {
    const flow: Flow
    const env: Env
    const initial: State
    const nodes: seq<Node>
    const segments: seq<Segment>
    const executionBound: int

    var index: nat
    var open: Option<string>
    var state: State
    var provided: set<string>
    var budgets: map<string, int>
    var attempts: map<string, nat>
    var tokens: map<string, string>
    var succeeded: seq<Success>
    var executions: nat
    var rerouted: bool
    var floor: real
    var appends: nat
    var sessions: nat
    var log: seq<Event>

    ghost predicate Valid() {
      && Runnable(flow)
      && nodes == flow.Nodes()
      && Partition(nodes, |nodes|, segments)
      && executionBound == ExecutionBound(nodes)
    }

    /** The value of all mutable variables. */
    function Snapshot(): Fold
      reads this
    {
      Fold(index, open, state, provided, budgets, attempts, tokens, succeeded, executions,
           rerouted, floor, appends, sessions, log)
    }

    constructor (flow: Flow, env: Env, initial: State)
      requires Runnable(flow)
      ensures Valid() && this.flow == flow && this.env == env && this.initial == initial
      ensures Snapshot() == Fresh(flow, initial)
    {
      var segments := PartitionSegments(flow.Nodes());
      var budgets, sum := ComputeBudgets(flow.Nodes());
      this.flow, this.env, this.initial := flow, env, initial;
      nodes, this.segments := flow.Nodes(), segments;
      executionBound := |flow.Nodes()| * (1 + sum);
      index, open := 0, None;
      state, provided := initial, {};
      this.budgets, attempts, tokens := budgets, map[], map[];
      succeeded, executions, rerouted, floor := [], 0, false, 1.0;
      appends, sessions, log := 0, 0, [];
    }

    method WriteCheckpoint(row: Row)
      modifies this`log, this`appends
      ensures Snapshot() == Checkpoint(env, old(Snapshot()), row)
    {
      log := log + [Append(row, env.append(appends))];
      appends := appends + 1;
    }

    /** Encode every provided key that has a schema; one failure drops the delta. */
    method EncodeProvidedState() returns (delta: Option<State>)
      ensures delta == EncodeDelta(flow, provided, state)
    {
      var entries: State := map[];
      var rest := provided;
      while rest != {}
        invariant rest <= provided
        invariant forall k :: k in provided - rest && k in flow.spec ==> flow.spec[k].encode(Get(state, k)).Some?
        invariant entries == map k | k in provided - rest && k in flow.spec :: flow.spec[k].encode(Get(state, k)).value
        decreases rest
      {
        var key :| key in rest;
        rest := rest - {key};
        if key in flow.spec {
          var encoded := flow.spec[key].encode(Get(state, key));
          if encoded.None? {
            return None;
          }
          entries := entries[key := encoded.value];
        }
      }
      assert provided - rest == provided;
      return Some(entries);
    }

    method DecodeStateDelta(delta: State) returns (decoded: Option<State>)
      ensures decoded == DecodeDelta(flow, delta)
    {
      var entries: State := map[];
      var rest := delta.Keys;
      while rest != {}
        invariant rest <= delta.Keys
        invariant forall k :: k in delta.Keys - rest && k in flow.spec ==> flow.spec[k].decode(delta[k]).Some?
        invariant entries == map k | k in delta.Keys - rest && k in flow.spec :: flow.spec[k].decode(delta[k]).value
        decreases rest
      {
        var key :| key in rest;
        rest := rest - {key};
        if key in flow.spec {
          var value := flow.spec[key].decode(delta[key]);
          if value.None? {
            return None;
          }
          entries := entries[key := value.value];
        }
      }
      assert delta.Keys - rest == delta.Keys;
      return Some(entries);
    }

    method CheckNeeds(node: Node) returns (missing: Option<string>)
      ensures missing == FirstMissing(node.needs, state)
    {
      for i := 0 to |node.needs|
        invariant FirstMissing(node.needs, state) == FirstMissing(node.needs[i..], state)
      {
        if node.needs[i] !in state {
          return Some(node.needs[i]);
        }
      }
      return None;
    }

    method LowerFloor(confidences: seq<real>)
      modifies this`floor
      ensures Snapshot() == old(Snapshot()).(floor := MinConfidence(old(floor), confidences))
    {
      for i := 0 to |confidences|
        invariant Snapshot() == old(Snapshot()).(floor := MinConfidence(old(floor), confidences[..i]))
      {
        assert confidences[..i + 1][..i] == confidences[..i];
        if confidences[i] < floor {
          floor := confidences[i];
        }
      }
      assert confidences[..|confidences|] == confidences;
    }

    method RunOne(i: nat) returns (result: NodeResult)
      requires Valid() && i == index < |nodes|
      modifies this
      ensures AsStep(result, Snapshot()) == RunNode(flow, env, old(Snapshot()))
    {
      hide Contiguous, UniqueIds, RecoveriesValid, Partition;
      hide Settle, Start, Inputs, FirstMissing, ExecutionBound;
      var node := nodes[i];
      if node.stepId !in flow.registered {
        return Fail(UnknownStep(node.stepId));
      }
      executions := executions + 1;
      if executions > executionBound {
        return Fail(BoundExceeded(node.stepId));
      }
      var attempt := GetOr(attempts, node.stepId, 0) + 1;
      attempts := attempts[node.stepId := attempt];
      var missing := CheckNeeds(node);
      if missing.Some? {
        return Fail(MissingNeed(node.stepId, missing.value));
      }
      var input := Inputs(node.needs, state);
      var token := Get(tokens, node.stepId);
      StartOne(node, attempt, input, token);
      var answer := env.run(executions, node.stepId, input, token);
      result := SettleOne(i, attempt, answer);
    }

    method StartOne(node: Node, attempt: nat, input: State, token: Option<string>)
      requires input == Inputs(node.needs, state) && token == Get(tokens, node.stepId)
      modifies this`log, this`appends
      ensures Snapshot() == Start(env, old(Snapshot()), node, attempt)
    {
      WriteCheckpoint(StartedRow(node.stepId, attempt, token));
      log := log + [Entered(node.stepId, input, token)];
    }

    method AbsorbOne(stepId: string, o: StepOutcome)
      modifies this`floor, this`tokens
      ensures Snapshot() == Absorb(old(Snapshot()), stepId, o)
    {
      LowerFloor(o.confidences);
      if o.token.Some? {
        tokens := tokens[stepId := o.token.value];
      }
    }

    method DivertOne(i: nat, attempt: nat, landing: Option<Landing>, to: string)
      requires Valid() && i == index < |nodes|
      modifies this`budgets, this`rerouted, this`log, this`appends
      ensures Snapshot() == Divert(flow, env, old(Snapshot()), attempt, landing, to)
    {
      var stepId := nodes[i].stepId;
      var key := EdgeKey(stepId, to);
      var remaining := GetOr(budgets, key, 0) - 1;
      budgets := budgets[key := remaining];
      rerouted := true;
      WriteCheckpoint(BareRow(stepId, attempt, Rerouted).(landing := landing, reroute := Some(Reroute(to, remaining))));
    }

    method GiveUpOne(i: nat, attempt: nat, landing: Option<Landing>, code: string)
      requires Valid() && i == index < |nodes|
      modifies this`log, this`appends
      ensures Snapshot() == GiveUp(flow, env, old(Snapshot()), attempt, landing, code)
    {
      WriteCheckpoint(BareRow(nodes[i].stepId, attempt, Failed).(landing := landing, error := Some(code)));
    }

    method SettleOne(i: nat, attempt: nat, answer: RunResult) returns (result: NodeResult)
      requires Valid() && i == index < |nodes|
      modifies this
      ensures AsStep(result, Snapshot()) == Settle(flow, env, old(Snapshot()), attempt, answer)
    {
      hide GiveUp, Absorb, Divert, Commit;
      var node := nodes[i];
      match answer {
        case Died =>
          return Fail(Defect);
        case Threw(error) =>
          GiveUpOne(i, attempt, None, ErrorCode(error));
          return Fail(StepFailed(node.stepId, error));
        case Returned(o) =>
          AbsorbOne(node.stepId, o);
          match Classify(flow, Snapshot(), node, o.observed) {
            case Divergent(landing) =>
              GiveUpOne(i, attempt, o.observed, "FLOW_DIVERGED");
              return Fail(Diverged(node.stepId, landing));
            case Recoverable(to) =>
              TargetKnown(flow, i, to);
              DivertOne(i, attempt, o.observed, to);
              return RerouteTo(IndexOf(nodes, to).value);
            case OnTrack =>
              CommitOne(i, attempt, o);
              return Advance;
          }
      }
    }

    method CommitOne(i: nat, attempt: nat, o: StepOutcome)
      requires Valid() && i == index < |nodes|
      modifies this
      ensures Snapshot() == Commit(flow, env, old(Snapshot()), attempt, o)
    {
      hide Contiguous, UniqueIds, RecoveriesValid, Partition, SegmentEnd, EncodeDelta, Elements;
      var node := nodes[i];
      state := state + o.state;
      provided := provided + Elements(node.supplies);
      var delta: Option<State> := None;
      if SegmentEnd(nodes, i) {
        delta := EncodeProvidedState();
      }
      WriteCheckpoint(BareRow(node.stepId, attempt, Completed).(landing := o.observed, token := o.token,
          stateDelta := delta));
      succeeded := succeeded + [Success(node.stepId, o.state, node.stepId in flow.compensable)];
    }

    /** Run the node at `i` inside the open session, and say where the flat driver goes. */
    method RunInSession(i: nat) returns (result: NodeResult)
      requires Valid() && i == index < |nodes| && open == Some(nodes[i].segment)
      modifies this
      ensures index == i && open == old(open)
      ensures result.RerouteTo? ==> result.to < |nodes|
      ensures !result.Fail? ==> old(executions) < executions <= executionBound
      ensures Drive(flow, env, old(Snapshot())) == Continue(flow, env, AsStep(result, Snapshot()))
    {
      hide RunNode, Drive, Continue;
      ghost var f := Snapshot();
      DriveOpen(flow, env, f);
      ghost var s := RunNode(flow, env, f);
      result := RunOne(i);
      assert AsStep(result, Snapshot()) == s;
      assert Snapshot() == s.next;
    }

    /** One session region: nodes run until the segment ends or a reroute leaves it. */
    method RunSegment(s: nat, start: nat) returns (result: NodeResult)
      requires Valid() && s < |segments| && segments[s].start <= start <= segments[s].end
      requires start == index && open == Some(segments[s].name)
      modifies this
      ensures open == old(open)
      ensures result.Fail? ==> Drive(flow, env, old(Snapshot())) == Broke(Leave(Snapshot()), result.fault)
      ensures result.Advance? ==>
        Drive(flow, env, old(Snapshot())) == Drive(flow, env, MoveTo(nodes, Snapshot(), segments[s].end + 1))
      ensures result.RerouteTo? ==>
        && result.to < |nodes| && nodes[result.to].segment != segments[s].name
        && Drive(flow, env, old(Snapshot())) == Drive(flow, env, MoveTo(nodes, Snapshot(), result.to))
      ensures !result.Fail? ==> old(executions) < executions <= executionBound
    {
      hide Drive, RunNode, Contiguous, UniqueIds, RecoveriesValid;
      var segment := segments[s];
      var i := start;
      ghost var goal := Drive(flow, env, Snapshot());
      while i <= segment.end
        invariant segment.start <= i <= segment.end + 1
        invariant open == old(open)
        invariant i <= segment.end ==> i == index
        invariant goal == Drive(flow, env, MoveTo(nodes, Snapshot(), i))
        invariant (i == start && executions == old(executions)) || old(executions) < executions <= executionBound
        decreases executionBound - executions
      {
        result := RunInSession(i);
        if result.Fail? {
          return;
        }
        if result.RerouteTo? {
          RangeIsName(nodes, segments, s, result.to);
          if segment.start <= result.to <= segment.end {
            i := result.to;
            index := i;
            continue;
          }
          return;
        }
        i := i + 1;
        if i <= segment.end {
          index := i;
        }
      }
      return Advance;
    }

    /** The end of a session's scope. */
    method CloseSession()
      requires open.Some?
      modifies this`open, this`log
      ensures Snapshot() == Leave(old(Snapshot()))
    {
      log := log + [Closed(open.value)];
      open := None;
    }

    method OpenSession(segment: string) returns (error: Option<StepError>)
      requires open.None?
      modifies this`open, this`sessions, this`log
      ensures error == env.session(old(sessions), segment)
      ensures Snapshot() == if error.Some? then old(Snapshot()).(sessions := old(sessions) + 1)
                            else Enter(old(Snapshot()), segment)
    {
      error := env.session(sessions, segment);
      sessions := sessions + 1;
      if error.None? {
        open := Some(segment);
        log := log + [Opened(segment)];
      }
    }

    method FindSegment(i: nat) returns (s: nat)
      requires Valid() && i < |nodes|
      ensures s < |segments| && segments[s].start <= i <= segments[s].end
      ensures segments[s].name == nodes[i].segment
    {
      ghost var t := SegmentOf(nodes, segments, i);
      s := 0;
      while !(segments[s].start <= i <= segments[s].end)
        invariant s <= t
        decreases |segments| - s
      {
        s := s + 1;
      }
    }

    /** The outer driver: one session per segment entry, until the plan is exhausted. */
    method Execute() returns (fault: Option<Fault>)
      requires Valid() && open.None?
      modifies this
      ensures fault.None? ==> Drive(flow, env, old(Snapshot())) == Finished(Snapshot())
      ensures fault.Some? ==> Drive(flow, env, old(Snapshot())) == Broke(Snapshot(), fault.value)
    {
      hide RunNode, Drive, Contiguous, UniqueIds, RecoveriesValid, Partition, ExecutionBound;
      ghost var goal := Drive(flow, env, Snapshot());
      while index < |nodes|
        invariant open.None?
        invariant goal == Drive(flow, env, Snapshot())
        decreases executionBound - executions
      {
        var s := FindSegment(index);
        DriveClosed(flow, env, Snapshot());
        var error := OpenSession(segments[s].name);
        if error.Some? {
          return Some(SessionFailed(segments[s].name, error.value));
        }
        ghost var inside := Snapshot();
        var result := RunSegment(s, index);
        CloseSession();
        if result.Fail? {
          return Some(result.fault);
        }
        index := if result.RerouteTo? then result.to else segments[s].end + 1;
        assert index < |nodes| ==> nodes[index].segment != segments[s].name by {
          if result.Advance? && index < |nodes| {
            RangeIsName(nodes, segments, s, index);
          }
        }
      }
      DriveDone(flow, env, Snapshot());
      return None;
    }

    /** Undo the succeeded steps in reverse order of success. */
    method CompensateAll()
      modifies this`log, this`appends
      ensures Snapshot() == Compensate(env, old(Snapshot()), |old(succeeded)|)
    {
      hide Contiguous, UniqueIds, RecoveriesValid, Partition;
      var i := |succeeded|;
      while i > 0
        invariant 0 <= i <= |succeeded| && succeeded == old(succeeded)
        invariant Compensate(env, Snapshot(), i) == Compensate(env, old(Snapshot()), |succeeded|)
      {
        i := i - 1;
        var entry := succeeded[i];
        if entry.undo {
          log := log + [Undone(entry.stepId, entry.output)];
          WriteCheckpoint(BareRow(entry.stepId, GetOr(attempts, entry.stepId, 1), Compensated));
        }
      }
    }

    /** Token and attempt seeding from the journal. */
    method Seed(rows: seq<Row>)
      requires tokens == map[] && attempts == map[]
      modifies this`tokens, this`attempts
      ensures Snapshot() == old(Snapshot()).(tokens := SeedTokens(rows), attempts := SeedAttempts(rows))
    {
      for i := 0 to |rows|
        invariant tokens == SeedTokens(rows[..i]) && attempts == SeedAttempts(rows[..i])
      {
        var row := rows[i];
        assert rows[..i + 1][..i] == rows[..i];
        if row.token.Some? {
          tokens := tokens[row.stepId := row.token.value];
        }
        if row.attempt > GetOr(attempts, row.stepId, 0) {
          attempts := attempts[row.stepId := row.attempt];
        }
      }
      assert rows[..|rows|] == rows;
    }

    method FindBoundary(rows: seq<Row>) returns (boundary: Option<Row>)
      requires Valid()
      ensures boundary == LastBoundary(nodes, rows)
    {
      boundary := None;
      for i := 0 to |rows|
        invariant boundary == LastBoundary(nodes, rows[..i])
      {
        assert rows[..i + 1][..i] == rows[..i];
        if IsBoundary(nodes, rows[i]) {
          boundary := Some(rows[i]);
        }
      }
      assert rows[..|rows|] == rows;
    }

    method WriteSkips(n: nat)
      requires Valid() && n <= |nodes|
      modifies this`log, this`appends
      ensures Snapshot() == Skip(flow, env, old(Snapshot()), n)
    {
      hide Contiguous, UniqueIds, RecoveriesValid, Partition, ExecutionBound;
      for i := 0 to n
        invariant Snapshot() == Skip(flow, env, old(Snapshot()), i)
      {
        WriteCheckpoint(BareRow(nodes[i].stepId, GetOr(attempts, nodes[i].stepId, 1), SkippedResume));
      }
    }

    method RestoreFrom(decoded: State, start: nat)
      requires Valid() && start <= |nodes|
      modifies this
      ensures Snapshot() == Restore(flow, env, old(Snapshot()), decoded, start)
    {
      hide Contiguous, UniqueIds, RecoveriesValid, Partition;
      hide Skip;
      state := state + decoded;
      provided := provided + decoded.Keys;
      index := start;
      WriteSkips(start);
    }

    /** Replay at segment boundaries: restore the last journaled boundary, if any. */
    method HydrateFrom(rows: seq<Row>)
      requires Valid() && tokens == map[] && attempts == map[]
      modifies this
      ensures Snapshot() == Hydrate(flow, env, old(Snapshot()), rows)
    {
      hide Restore, SeedTokens, SeedAttempts, IndexOf, LastBoundary, DecodeDelta;
      Seed(rows);
      var boundary := FindBoundary(rows);
      if boundary.Some? {
        var decoded := DecodeStateDelta(boundary.value.stateDelta.value);
        if decoded.Some? {
          RestoreFrom(decoded.value, IndexOf(nodes, boundary.value.stepId).value + 1);
        }
      }
    }

    method FindReplay(rows: seq<Row>, start: nat) returns (refused: Option<string>)
      requires Valid() && start <= |nodes|
      ensures refused == ReplayGuard(nodes, rows, start)
    {
      hide HasEvidence, Contiguous, UniqueIds, RecoveriesValid, Partition, ExecutionBound;
      for i := start to |nodes|
        invariant ReplayGuard(nodes, rows, start) == ReplayGuard(nodes, rows, i)
      {
        if nodes[i].idempotency == EffectfulOnce && HasEvidence(rows, nodes[i].stepId) {
          return Some(nodes[i].stepId);
        }
      }
      return None;
    }

    /** `runFlow` on a fresh object. */
    method Run(resume: bool, journal: seq<Row>) returns (fault: Option<Fault>)
      requires Valid() && Snapshot() == Fresh(flow, initial)
      modifies this
      ensures fault.None? ==> RunFlow(flow, env, initial, resume, journal) == Succeeded(Snapshot())
      ensures fault.Some? ==> RunFlow(flow, env, initial, resume, journal) == FailedWith(Snapshot(), fault.value)
    {
      hide Contiguous, UniqueIds, RecoveriesValid, Partition;
      hide Hydrate, Drive, ReplayGuard, Compensate;
      HydrateKeeps(flow, env, Snapshot(), journal);
      var rows := if resume && env.read then journal else [];
      if |rows| > 0 {
        HydrateFrom(rows);
        var refused := FindReplay(rows, index);
        if refused.Some? {
          return Some(Replay(refused.value));
        }
      }
      fault := Execute();
      if fault.Some? && fault != Some(Defect) {
        CompensateAll();
      }
    }
  }
}
