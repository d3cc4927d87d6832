/** The specification of `runFlow` (src/flow/run.ts): one flat machine on values.
    Each iteration runs the node at `index` and moves to the next index or to a
    recovery target. `FlowRunner` proves that the nested drivers compute it. */
module FlowFold {
  import opened Basics
  import opened JsonValues
  import opened FlowTypes
  import opened PlanShape

  // ---------------------------------------------------------------- environment

  /** Everything the engine does not decide itself. `run` answers the k-th call of a
      step, so quantifying over environments quantifies over all step behaviours;
      `append` and `read` say which journal writes and reads succeed. */
  datatype Env = Env(
    run: (nat, string, State, Option<string>) -> RunResult,
    session: (nat, string) -> Option<StepError>,
    append: nat -> bool,
    read: bool)

  /** The externally visible acts of one lease, in order. A crash between any two
      acts leaves a prefix of this sequence. */
  datatype Event =
    | Append(row: Row, kept: bool)
    | Entered(stepId: string, input: State, token: Option<string>)
    | Opened(segment: string)
    | Closed(segment: string)
    | Undone(stepId: string, output: State)

  datatype Fault =
    | MissingNeed(stepId: string, need: string)
    | UnknownStep(stepId: string)
    | BoundExceeded(stepId: string)
    | Replay(stepId: string)
    | Diverged(stepId: string, landing: Landing)
    | StepFailed(stepId: string, error: StepError)
    | SessionFailed(segment: string, error: StepError)
    | Defect

  datatype Success = Success(stepId: string, output: State, undo: bool)

  /** The mutable variables of one `runFlow` call. */
  datatype Fold = Fold(
    index: nat,
    open: Option<string>,
    state: State,
    provided: set<string>,
    budgets: map<string, int>,
    attempts: map<string, nat>,
    tokens: map<string, string>,
    succeeded: seq<Success>,
    executions: nat,
    rerouted: bool,
    floor: real,
    appends: nat,
    sessions: nat,
    log: seq<Event>)

  datatype Step = Advanced(next: Fold) | ReroutedTo(next: Fold, to: nat) | Faulted(next: Fold, fault: Fault)

  datatype Outcome = Finished(final: Fold) | Broke(final: Fold, fault: Fault)

  // -------------------------------------------------------- segments and budgets

  /** Node `i` is the last node of its segment. */
  predicate SegmentEnd(nodes: seq<Node>, i: nat)
    requires i < |nodes|
  {
    i + 1 == |nodes| || nodes[i + 1].segment != nodes[i].segment
  }

  /** Budgets are keyed by the concatenated text of source and target. */
  function EdgeKey(from: string, to: string): string {
    from + "=>" + to
  }

  function EdgeBudgets(stepId: string, edges: seq<RecoveryEdge>, m: map<string, int>): map<string, int> {
    if |edges| == 0 then m
    else EdgeBudgets(stepId, edges[..|edges| - 1], m)
         [EdgeKey(stepId, edges[|edges| - 1].to) := edges[|edges| - 1].maxReentries]
  }

  function Budgets(nodes: seq<Node>): map<string, int> {
    if |nodes| == 0 then map[]
    else
      var last := nodes[|nodes| - 1];
      EdgeBudgets(last.stepId, last.recoveries, Budgets(nodes[..|nodes| - 1]))
  }

  function EdgeSum(edges: seq<RecoveryEdge>): int {
    if |edges| == 0 then 0 else EdgeSum(edges[..|edges| - 1]) + edges[|edges| - 1].maxReentries
  }

  function BudgetSum(nodes: seq<Node>): int {
    if |nodes| == 0 then 0 else BudgetSum(nodes[..|nodes| - 1]) + EdgeSum(nodes[|nodes| - 1].recoveries)
  }

  function ExecutionBound(nodes: seq<Node>): int {
    |nodes| * (1 + BudgetSum(nodes))
  }

  // ---------------------------------------------------------------- one node

  /** A journal append: a failed write is logged and ignored. */
  function Checkpoint(env: Env, f: Fold, row: Row): Fold {
    f.(log := f.log + [Append(row, env.append(f.appends))], appends := f.appends + 1)
  }

  function FirstMissing(needs: seq<string>, state: State): Option<string> {
    if |needs| == 0 then None
    else if needs[0] !in state then Some(needs[0])
    else FirstMissing(needs[1..], state)
  }

  function Inputs(needs: seq<string>, state: State): State {
    map k | k in needs && k in state :: state[k]
  }

  function MinConfidence(floor: real, confidences: seq<real>): real {
    if |confidences| == 0 then floor
    else
      var rest := MinConfidence(floor, confidences[..|confidences| - 1]);
      if confidences[|confidences| - 1] < rest then confidences[|confidences| - 1] else rest
  }

  /** An empty known token is threaded into the step but not journaled. */
  function StartedRow(stepId: string, attempt: nat, token: Option<string>): Row {
    BareRow(stepId, attempt, Started).(token := if token == Some("") then None else token)
  }

  function ErrorCode(error: StepError): string {
    match error
    case Execution(_) => "UNKNOWN"
    case Middleware(tag, _, _) => tag
    case Tagged(tag, _) => tag
    case Untagged => "UNKNOWN"
  }

  datatype Classified = OnTrack | Recoverable(to: string) | Divergent(landing: Landing)

  predicate Declares(node: Node, target: string) {
    exists e :: e in node.recoveries && e.to == target
  }

  function Classify(flow: Flow, f: Fold, node: Node, observed: Option<Landing>): Classified {
    if observed.None? then OnTrack
    else
      var landing := observed.value;
      if landing.observed != UNKNOWN_STATION && landing.observed in node.expects then OnTrack
      else if landing.observed != UNKNOWN_STATION && node.stepId in flow.choosers then
        var target := flow.choosers[node.stepId](f.state, landing.observed);
        if target.Some? && Declares(node, target.value)
           && GetOr(f.budgets, EdgeKey(node.stepId, target.value), 0) > 0
        then Recoverable(target.value)
        else Divergent(landing)
      else Divergent(landing)
  }

  /** The cumulative encoded state: every provided key that has a schema, or nothing
      at all when one encoder fails. */
  function EncodeDelta(flow: Flow, provided: set<string>, state: State): Option<State> {
    if forall k :: k in provided && k in flow.spec ==> flow.spec[k].encode(Get(state, k)).Some?
    then Some(map k | k in provided && k in flow.spec :: flow.spec[k].encode(Get(state, k)).value)
    else None
  }

  function DecodeDelta(flow: Flow, delta: State): Option<State> {
    if forall k :: k in delta && k in flow.spec ==> flow.spec[k].decode(delta[k]).Some?
    then Some(map k | k in delta && k in flow.spec :: flow.spec[k].decode(delta[k]).value)
    else None
  }

  function Commit(flow: Flow, env: Env, f: Fold, attempt: nat, o: StepOutcome): Fold
    requires f.index < |flow.Nodes()|
  {
    var node := flow.Nodes()[f.index];
    var state := f.state + o.state;
    var provided := f.provided + Elements(node.supplies);
    var delta := if SegmentEnd(flow.Nodes(), f.index) then EncodeDelta(flow, provided, state) else None;
    var row := BareRow(node.stepId, attempt, Completed).(landing := o.observed, token := o.token, stateDelta := delta);
    var g := Checkpoint(env, f.(state := state, provided := provided), row);
    g.(succeeded := g.succeeded + [Success(node.stepId, o.state, node.stepId in flow.compensable)])
  }

  lemma {:induction false} TargetKnown(flow: Flow, i: nat, to: string)
    requires i < |flow.Nodes()| && RecoveriesValid(flow.Nodes()) && Declares(flow.Nodes()[i], to)
    ensures IndexOf(flow.Nodes(), to).Some?
  {
    var e :| e in flow.Nodes()[i].recoveries && e.to == to;
    assert EdgeValid(flow.Nodes(), e);
    var j :| 0 <= j < |StepIds(flow.Nodes())| && StepIds(flow.Nodes())[j] == to;
    assert flow.Nodes()[j].stepId == to;
  }

  function GiveUp(flow: Flow, env: Env, f: Fold, attempt: nat, landing: Option<Landing>, code: string): Fold
    requires f.index < |flow.Nodes()|
  {
    var row := BareRow(flow.Nodes()[f.index].stepId, attempt, Failed).(landing := landing, error := Some(code));
    Checkpoint(env, f, row)
  }

  function Divert(flow: Flow, env: Env, f: Fold, attempt: nat, landing: Option<Landing>, to: string): Fold
    requires f.index < |flow.Nodes()|
  {
    var stepId := flow.Nodes()[f.index].stepId;
    var key := EdgeKey(stepId, to);
    var remaining := GetOr(f.budgets, key, 0) - 1;
    var row := BareRow(stepId, attempt, Rerouted).(landing := landing, reroute := Some(Reroute(to, remaining)));
    Checkpoint(env, f.(budgets := f.budgets[key := remaining], rerouted := true), row)
  }

  /** The bookkeeping of an answered call that precedes classification. */
  function Absorb(f: Fold, stepId: string, o: StepOutcome): Fold {
    f.(floor := MinConfidence(f.floor, o.confidences),
       tokens := if o.token.Some? then f.tokens[stepId := o.token.value] else f.tokens)
  }

  function Settle(flow: Flow, env: Env, f: Fold, attempt: nat, result: RunResult): (s: Step)
    requires f.index < |flow.Nodes()|
    requires RecoveriesValid(flow.Nodes())
    ensures s.next.executions == f.executions && s.next.index == f.index && s.next.open == f.open
    ensures s.ReroutedTo? ==> s.to < |flow.Nodes()|
  {
    var node := flow.Nodes()[f.index];
    match result
    case Died => Faulted(f, Defect)
    case Threw(error) =>
      Faulted(GiveUp(flow, env, f, attempt, None, ErrorCode(error)), StepFailed(node.stepId, error))
    case Returned(o) =>
      var g := Absorb(f, node.stepId, o);
      match Classify(flow, g, node, o.observed)
      case Divergent(landing) =>
        Faulted(GiveUp(flow, env, g, attempt, o.observed, "FLOW_DIVERGED"), Diverged(node.stepId, landing))
      case Recoverable(to) =>
        assert IndexOf(flow.Nodes(), to).Some? by { TargetKnown(flow, f.index, to); }
        ReroutedTo(Divert(flow, env, g, attempt, o.observed, to), IndexOf(flow.Nodes(), to).value)
      case OnTrack => Advanced(Commit(flow, env, g, attempt, o))
  }

  /** Journal `started`, then call the step. */
  function Start(env: Env, f: Fold, node: Node, attempt: nat): Fold {
    var token := Get(f.tokens, node.stepId);
    var g := Checkpoint(env, f, StartedRow(node.stepId, attempt, token));
    g.(log := g.log + [Entered(node.stepId, Inputs(node.needs, f.state), token)])
  }

  function RunNode(flow: Flow, env: Env, f: Fold): (s: Step)
    requires f.index < |flow.Nodes()|
    requires RecoveriesValid(flow.Nodes())
    ensures s.next.index == f.index && s.next.open == f.open
    ensures s.ReroutedTo? ==> s.to < |flow.Nodes()|
    ensures !s.Faulted? ==> s.next.executions == f.executions + 1 <= ExecutionBound(flow.Nodes())
  {
    var node := flow.Nodes()[f.index];
    if node.stepId !in flow.registered then Faulted(f, UnknownStep(node.stepId))
    else if f.executions + 1 > ExecutionBound(flow.Nodes()) then
      Faulted(f.(executions := f.executions + 1), BoundExceeded(node.stepId))
    else
      var attempt := GetOr(f.attempts, node.stepId, 0) + 1;
      var g := f.(executions := f.executions + 1, attempts := f.attempts[node.stepId := attempt]);
      var missing := FirstMissing(node.needs, g.state);
      if missing.Some? then Faulted(g, MissingNeed(node.stepId, missing.value))
      else
        var answer := env.run(g.executions, node.stepId, Inputs(node.needs, g.state), Get(g.tokens, node.stepId));
        Settle(flow, env, Start(env, g, node, attempt), attempt, answer)
  }

  // ------------------------------------------------------------- the flat driver

  /** The session stays open exactly while the next node is in the open segment. */
  function MoveTo(nodes: seq<Node>, f: Fold, index: nat): Fold {
    var g := f.(index := index);
    if f.open.Some? && !(index < |nodes| && nodes[index].segment == f.open.value)
    then g.(open := None, log := g.log + [Closed(f.open.value)])
    else g
  }

  function Leave(f: Fold): Fold {
    if f.open.Some? then f.(open := None, log := f.log + [Closed(f.open.value)]) else f
  }

  function Enter(f: Fold, segment: string): Fold {
    f.(open := Some(segment), sessions := f.sessions + 1, log := f.log + [Opened(segment)])
  }

  ghost predicate Runnable(flow: Flow) {
    && UniqueIds(flow.Nodes())
    && Contiguous(flow.Nodes())
    && RecoveriesValid(flow.Nodes())
  }

  /** How many more nodes the bound allows, counting the one that trips it. */
  function ExecutionsLeft(nodes: seq<Node>, f: Fold): int {
    if ExecutionBound(nodes) >= f.executions then ExecutionBound(nodes) - f.executions + 1 else 0
  }

  function Drive(flow: Flow, env: Env, f: Fold): Outcome
    requires Runnable(flow)
    decreases ExecutionsLeft(flow.Nodes(), f)
  {
    var nodes := flow.Nodes();
    if f.index >= |nodes| then Finished(f)
    else
      var segment := nodes[f.index].segment;
      if f.open != Some(segment) && env.session(f.sessions, segment).Some? then
        Broke(f.(sessions := f.sessions + 1), SessionFailed(segment, env.session(f.sessions, segment).value))
      else
        var g := if f.open == Some(segment) then f else Enter(f, segment);
        var s := RunNode(flow, env, g);
        match s
        case Faulted(h, fault) => Broke(Leave(h), fault)
        case Advanced(h) => Drive(flow, env, MoveTo(nodes, h, h.index + 1))
        case ReroutedTo(h, to) => Drive(flow, env, MoveTo(nodes, h, to))
  }

  /** Where the driver goes after a node. */
  function Continue(flow: Flow, env: Env, s: Step): Outcome
    requires Runnable(flow)
  {
    match s
    case Faulted(h, fault) => Broke(Leave(h), fault)
    case Advanced(h) => Drive(flow, env, MoveTo(flow.Nodes(), h, h.index + 1))
    case ReroutedTo(h, to) => Drive(flow, env, MoveTo(flow.Nodes(), h, to))
  }

  lemma {:induction false} DriveOpen(flow: Flow, env: Env, f: Fold)
    requires Runnable(flow) && f.index < |flow.Nodes()| && f.open == Some(flow.Nodes()[f.index].segment)
    ensures Drive(flow, env, f) == Continue(flow, env, RunNode(flow, env, f))
  {
    hide RunNode;
  }

  lemma {:induction false} DriveAdvances(flow: Flow, env: Env, f: Fold)
    requires Runnable(flow) && f.index < |flow.Nodes()| && f.open == Some(flow.Nodes()[f.index].segment)
    requires RunNode(flow, env, f).Advanced?
    ensures Drive(flow, env, f) == Drive(flow, env, MoveTo(flow.Nodes(), RunNode(flow, env, f).next, f.index + 1))
  {
    hide RunNode, Drive, MoveTo, Leave, Contiguous, UniqueIds;
    DriveOpen(flow, env, f);
    var s := RunNode(flow, env, f);
    assert s.next.index + 1 == f.index + 1;
    assert Continue(flow, env, s) == Drive(flow, env, MoveTo(flow.Nodes(), s.next, s.next.index + 1));
  }

  lemma {:induction false} DriveReroutes(flow: Flow, env: Env, f: Fold)
    requires Runnable(flow) && f.index < |flow.Nodes()| && f.open == Some(flow.Nodes()[f.index].segment)
    requires RunNode(flow, env, f).ReroutedTo?
    ensures Drive(flow, env, f)
            == Drive(flow, env, MoveTo(flow.Nodes(), RunNode(flow, env, f).next, RunNode(flow, env, f).to))
  {
    hide RunNode, Drive, MoveTo, Leave, Contiguous, UniqueIds;
    DriveOpen(flow, env, f);
    var s := RunNode(flow, env, f);
    assert Continue(flow, env, s) == Drive(flow, env, MoveTo(flow.Nodes(), s.next, s.to));
  }

  lemma {:induction false} DriveFaults(flow: Flow, env: Env, f: Fold)
    requires Runnable(flow) && f.index < |flow.Nodes()| && f.open == Some(flow.Nodes()[f.index].segment)
    requires RunNode(flow, env, f).Faulted?
    ensures Drive(flow, env, f) == Broke(Leave(RunNode(flow, env, f).next), RunNode(flow, env, f).fault)
  {
    hide RunNode, Drive, MoveTo, Leave, Runnable;
    DriveOpen(flow, env, f);
  }

  lemma {:induction false} DriveClosed(flow: Flow, env: Env, f: Fold)
    requires Runnable(flow) && f.index < |flow.Nodes()| && f.open.None?
    ensures var segment := flow.Nodes()[f.index].segment;
      Drive(flow, env, f) ==
        match env.session(f.sessions, segment)
        case Some(e) => Broke(f.(sessions := f.sessions + 1), SessionFailed(segment, e))
        case None => Drive(flow, env, Enter(f, segment))
  {
    hide RunNode, MoveTo, Leave;
    var segment := flow.Nodes()[f.index].segment;
    if env.session(f.sessions, segment).None? {
      DriveOpen(flow, env, Enter(f, segment));
      hide Drive;
    }
  }

  lemma {:induction false} DriveDone(flow: Flow, env: Env, f: Fold)
    requires Runnable(flow) && f.index >= |flow.Nodes()|
    ensures Drive(flow, env, f) == Finished(f)
  {
    hide RunNode;
  }
}
