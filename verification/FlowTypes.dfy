/** The vocabulary of the flow engine: plans, flows, landings, journal rows
    (src/flow/plan.ts, src/flow/step.ts, src/flow/station.ts, src/flow/journal.ts). */
module FlowTypes {
  import opened Basics
  import opened JsonValues

  datatype Idempotency = Read | ReplayableWrite | EffectfulOnce

  datatype RecoveryEdge = RecoveryEdge(to: string, maxReentries: int)

  datatype Node = Node(
    stepId: string,
    needs: seq<string>,
    supplies: seq<string>,
    dependsOn: seq<string>,
    recoveries: seq<RecoveryEdge>,
    expects: seq<string>,
    idempotency: Idempotency,
    segment: string,
    tags: seq<string>)

  datatype Plan = Plan(flowId: string, backend: string, version: string, nodes: seq<Node>)

  /** The station name that stands for "the detector recognised nothing". */
  const UNKNOWN_STATION := "unknown"

  datatype Landing = Landing(expected: seq<string>, observed: string)

  /** What a step returns: provided state, landing, fuzzy confidences, token. */
  datatype StepOutcome = StepOutcome(
    state: map<string, Json>,
    observed: Option<Landing>,
    confidences: seq<real>,
    token: Option<string>)

  /** The error values a step or a session layer may fail with, told apart as far as
      the booking wrapper tells them apart. */
  datatype StepError =
    | Execution(failure: Failure)
    | Middleware(tag: string, code: string, message: string)
    | Tagged(tag: string, text: Option<string>)
    | Untagged

  datatype FailureStatus = FailedPreSubmit | ReconcileRequired

  datatype Failure = Failure(status: FailureStatus, code: string, retryable: bool)

  /** One call of a step, its retry schedule included. `Died` is a defect: it is
      neither journaled as failed nor compensated. */
  datatype RunResult = Returned(outcome: StepOutcome) | Threw(error: StepError) | Died

  /** A schema of the state vocabulary: `encode` is the schema's encoder followed by
      redaction, on a value that may be `undefined`; both directions may fail. */
  datatype Codec = Codec(encode: Option<Json> -> Option<Json>, decode: Json -> Option<Json>)

  type State = map<string, Json>

  /** A recovery chooser: which declared edge an observed landing takes, if any. */
  type Chooser = (State, string) -> Option<string>

  datatype Flow = Flow(
    plan: Plan,
    planHash: string,
    registered: set<string>,
    compensable: set<string>,
    choosers: map<string, Chooser>,
    spec: map<string, Codec>,
    initialKeys: seq<string>)
  {
    function Nodes(): seq<Node> { plan.nodes }
  }

  datatype Status = Started | Completed | Failed | Compensated | SkippedResume | Rerouted

  datatype Reroute = Reroute(to: string, remaining: int)

  /** A journal row without the columns that are constant over an operation
      (operationId, flowId, flowVersion, planHash), without `seq`, which is its
      position, and without the clock. */
  datatype Row = Row(
    stepId: string,
    attempt: nat,
    status: Status,
    landing: Option<Landing>,
    stateDelta: Option<State>,
    token: Option<string>,
    reroute: Option<Reroute>,
    error: Option<string>)

  function BareRow(stepId: string, attempt: nat, status: Status): Row {
    Row(stepId, attempt, status, None, None, None, None, None)
  }

  function StepIds(nodes: seq<Node>): seq<string> {
    seq(|nodes|, i requires 0 <= i < |nodes| => nodes[i].stepId)
  }

  /** `indexOf.get(stepId)` of the map built from the plan's nodes: the last wins. */
  function IndexOf(nodes: seq<Node>, stepId: string): (r: Option<nat>)
    ensures r.Some? ==> r.value < |nodes| && nodes[r.value].stepId == stepId
    ensures r.None? <==> forall i :: 0 <= i < |nodes| ==> nodes[i].stepId != stepId
  {
    if |nodes| == 0 then None
    else if nodes[|nodes| - 1].stepId == stepId then Some(|nodes| - 1)
    else IndexOf(nodes[..|nodes| - 1], stepId)
  }

  ghost predicate UniqueIds(nodes: seq<Node>) {
    forall i, j :: 0 <= i < j < |nodes| ==> nodes[i].stepId != nodes[j].stepId
  }

  lemma {:induction false} IndexOfUnique(nodes: seq<Node>, i: nat)
    requires UniqueIds(nodes) && i < |nodes|
    ensures IndexOf(nodes, nodes[i].stepId) == Some(i)
  {
    var r := IndexOf(nodes, nodes[i].stepId);
    assert r.Some?;
    assert nodes[r.value].stepId == nodes[i].stepId;
  }
}
