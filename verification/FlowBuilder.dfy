/** The front door for flow authoring (src/flow/flow.ts): forward edges derived from
    needs and provides, declaration checks, construction of the flow. */
module FlowBuilder {
  import opened Basics
  import opened JsonValues
  import opened FlowTypes
  import opened PlanShape
  import opened DependencyGraph
  import opened KahnOrder
  import opened PlanValidator
  import opened PlanHash
  import opened FlowFold

  datatype StepMeta = StepMeta(
    id: string,
    needs: seq<string>,
    supplies: seq<string>,
    expects: seq<string>,
    idempotency: Idempotency,
    segment: string,
    tags: seq<string>,
    compensates: bool)

  /** A recovery edge as the author writes it: the budget may be left out. */
  datatype EdgeSpec = EdgeSpec(to: string, maxReentries: Option<int>)

  datatype Declaration = Declaration(from: string, on: Chooser, edges: seq<RecoveryEdge>)

  datatype Builder = Builder(
    spec: map<string, Codec>,
    initialKeys: seq<string>,
    steps: seq<StepMeta>,
    recoveries: seq<Declaration>)
  {
    function Add(step: StepMeta): Builder {
      this.(steps := steps + [step])
    }

    function Recover(from: string, on: Chooser, edges: seq<EdgeSpec>): Builder {
      var budgeted := seq(|edges|, i requires 0 <= i < |edges| =>
                        RecoveryEdge(edges[i].to, if edges[i].maxReentries.Some? then edges[i].maxReentries.value
                            else 1));
      this.(recoveries := recoveries + [Declaration(from, on, budgeted)])
    }
  }

  datatype Identity = Identity(flowId: string, backend: string, version: string)

  datatype DeclarationFault =
    | UnknownSource(from: string)
    | DuplicateDeclaration(from: string)
    | NoEdges(from: string)

  datatype BuildResult =
    | Built(flow: Flow)
    | Invalid(declarations: seq<DeclarationFault>, violations: seq<Violation>)

  // ------------------------------------------------------------------ derived nodes

  /** Some key that `prior` provides is needed by `step`. */
  predicate Feeds(prior: StepMeta, step: StepMeta) {
    exists key :: key in prior.supplies && key in step.needs
  }

  /** Of the first `n` steps, those that feed the step, in order. */
  function Feeders(steps: seq<StepMeta>, n: nat, step: StepMeta): (r: seq<string>)
    requires n <= |steps|
    ensures forall dep :: dep in r <==> exists j :: 0 <= j < n && steps[j].id == dep && Feeds(steps[j], step)
  {
    if n == 0 then []
    else
      var rest := Feeders(steps, n - 1, step);
      if Feeds(steps[n - 1], step) then rest + [steps[n - 1].id] else rest
  }

  /** The edges of the first declaration for the step. */
  function EdgesFor(recoveries: seq<Declaration>, from: string): seq<RecoveryEdge> {
    if |recoveries| == 0 then []
    else if recoveries[0].from == from then recoveries[0].edges
    else EdgesFor(recoveries[1..], from)
  }

  function DeriveNode(b: Builder, i: nat): Node
    requires i < |b.steps|
  {
    var step := b.steps[i];
    Node(step.id, step.needs, step.supplies, Feeders(b.steps, i, step), EdgesFor(b.recoveries, step.id),
         step.expects, step.idempotency, step.segment, step.tags)
  }

  function DeriveNodes(b: Builder): seq<Node> {
    seq(|b.steps|, i requires 0 <= i < |b.steps| => DeriveNode(b, i))
  }

  function DerivePlan(b: Builder, id: Identity): Plan {
    Plan(id.flowId, id.backend, id.version, DeriveNodes(b))
  }

  // -------------------------------------------------------------------- step by step

  /** Adding a step leaves the earlier nodes as they are. */
  lemma {:induction false} AddExtends(b: Builder, step: StepMeta)
    ensures var nodes := DeriveNodes(b.Add(step));
      |nodes| == |b.steps| + 1 && nodes[..|b.steps|] == DeriveNodes(b)
  {
    var longer := b.Add(step);
    forall i | 0 <= i < |b.steps| ensures DeriveNode(longer, i) == DeriveNode(b, i) {
      FeedersSame(b.steps, longer.steps, i, b.steps[i]);
    }
  }

  lemma {:induction false} FeedersSame(steps: seq<StepMeta>, longer: seq<StepMeta>, n: nat, step: StepMeta)
    requires n <= |steps| <= |longer| && steps == longer[..|steps|]
    ensures Feeders(steps, n, step) == Feeders(longer, n, step)
  {
    if n > 0 {
      FeedersSame(steps, longer, n - 1, step);
    }
  }

  /** The builder's type lets a step be added only if its needs are among the initial keys
      and what was provided so far; under exactly that condition the needs stay met. */
  lemma {:induction false} AddMeetsExactly(b: Builder, step: StepMeta)
    ensures NeedsMet(DeriveNodes(b.Add(step)), b.initialKeys) <==>
              && NeedsMet(DeriveNodes(b), b.initialKeys)
              && forall need :: need in step.needs ==>
                   need in Elements(b.initialKeys) + ProvidedBefore(DeriveNodes(b), |b.steps|)
  {
    AddExtends(b, step);
    var nodes, longer := DeriveNodes(b), DeriveNodes(b.Add(step));
    assert longer[|b.steps|].needs == step.needs;
    hide DeriveNodes;
    assert longer == longer[..|nodes|] + [longer[|nodes|]];
    NeedsExtend(nodes, longer[|nodes|], b.initialKeys);
  }

  lemma {:induction false} NeedsExtend(nodes: seq<Node>, last: Node, initialKeys: seq<string>)
    ensures NeedsMet(nodes + [last], initialKeys) <==>
              && NeedsMet(nodes, initialKeys)
              && forall need :: need in last.needs ==> need in Elements(initialKeys) + ProvidedBefore(nodes, |nodes|)
  {
    var longer := nodes + [last];
    forall i | 0 <= i <= |nodes| ensures ProvidedBefore(longer, i) == ProvidedBefore(nodes, i) {
      ProvidedSame(nodes, longer, i);
    }
    hide ProvidedBefore, Elements;
    if NeedsMet(longer, initialKeys) {
      forall i, need | 0 <= i < |nodes| && need in nodes[i].needs
        ensures need in Elements(initialKeys) + ProvidedBefore(nodes, i)
      {
        assert need in longer[i].needs;
      }
      forall need | need in last.needs ensures need in Elements(initialKeys) + ProvidedBefore(nodes, |nodes|) {
        assert need in longer[|nodes|].needs;
      }
    }
  }

  lemma {:induction false} ProvidedSame(nodes: seq<Node>, longer: seq<Node>, i: nat)
    requires i <= |nodes| <= |longer| && longer[..|nodes|] == nodes
    ensures ProvidedBefore(longer, i) == ProvidedBefore(nodes, i)
    ensures i < |nodes| ==> longer[i] == nodes[i]
  {
    if i > 0 {
      ProvidedSame(nodes, longer, i - 1);
    }
  }

  /** The first declaration of a step's edges counts, later ones leave the nodes as they
      are; a budget that is left out is 1. */
  lemma {:induction false} RecoverFirst(b: Builder, from: string, on: Chooser, edges: seq<EdgeSpec>, i: nat)
    requires i < |b.steps|
    ensures var node, after := DeriveNodes(b)[i], DeriveNodes(b.Recover(from, on, edges))[i];
      && after == node.(recoveries := after.recoveries)
      && (if node.stepId == from && !DeclaredFor(b.recoveries, from) then
            && |after.recoveries| == |edges|
            && forall e :: 0 <= e < |edges| ==>
                 after.recoveries[e] == RecoveryEdge(edges[e].to, if edges[e].maxReentries.Some?
                     then edges[e].maxReentries.value else 1)
          else after.recoveries == node.recoveries)
  {
    var longer := b.Recover(from, on, edges);
    EdgesAppend(b.recoveries, longer.recoveries[|b.recoveries|], b.steps[i].id);
  }

  predicate DeclaredFor(recoveries: seq<Declaration>, from: string) {
    exists i :: 0 <= i < |recoveries| && recoveries[i].from == from
  }

  lemma {:induction false} EdgesAppend(recoveries: seq<Declaration>, last: Declaration, from: string)
    ensures EdgesFor(recoveries + [last], from)
         == if !DeclaredFor(recoveries, from) && last.from == from then last.edges else EdgesFor(recoveries, from)
  {
    if |recoveries| > 0 {
      assert (recoveries + [last])[1..] == recoveries[1..] + [last];
      if recoveries[0].from != from {
        EdgesAppend(recoveries[1..], last, from);
        assert DeclaredFor(recoveries, from) <==> DeclaredFor(recoveries[1..], from) by {
          assert forall i :: 0 < i < |recoveries| ==> recoveries[i] == recoveries[1..][i - 1];
        }
      }
    }
  }

  // -------------------------------------------------------------------- derived edges

  /** A node depends exactly on the prior nodes that provide something it needs. */
  lemma {:induction false} DerivedEdges(b: Builder, i: nat, dep: string)
    requires i < |b.steps|
    ensures dep in DeriveNodes(b)[i].dependsOn <==>
            exists j, key :: 0 <= j < i && DeriveNodes(b)[j].stepId == dep
              && key in DeriveNodes(b)[j].supplies && key in DeriveNodes(b)[i].needs
  {
    var nodes := DeriveNodes(b);
    if dep in nodes[i].dependsOn {
      var j :| 0 <= j < i && b.steps[j].id == dep && Feeds(b.steps[j], b.steps[i]);
      var key :| key in b.steps[j].supplies && key in b.steps[i].needs;
      assert nodes[j].stepId == dep && key in nodes[j].supplies && key in nodes[i].needs;
    }
    if j, key :| 0 <= j < i && nodes[j].stepId == dep && key in nodes[j].supplies && key in nodes[i].needs {
      assert Feeds(b.steps[j], b.steps[i]);
    }
  }

  /** They are listed once each, in plan order. */
  lemma {:induction false} DerivedInOrder(b: Builder, i: nat, k: nat, l: nat)
    requires UniqueIds(DeriveNodes(b)) && i < |b.steps| && k < l < |DeriveNodes(b)[i].dependsOn|
    ensures var nodes := DeriveNodes(b); var deps := nodes[i].dependsOn;
      && IndexOf(nodes, deps[k]).Some? && IndexOf(nodes, deps[l]).Some?
      && IndexOf(nodes, deps[k]).value < IndexOf(nodes, deps[l]).value < i
  {
    hide Feeds, Feeders, IndexOf;
    var nodes := DeriveNodes(b);
    var j, h := FeedersInOrder(b.steps, i, b.steps[i], k, l);
    assert nodes[j].stepId == b.steps[j].id && nodes[h].stepId == b.steps[h].id;
    IndexOfUnique(nodes, j);
    IndexOfUnique(nodes, h);
  }

  lemma {:induction false} FeedersInOrder(steps: seq<StepMeta>, n: nat, step: StepMeta, k: nat, l: nat)
    returns (j: nat, h: nat)
    requires n <= |steps| && k < l < |Feeders(steps, n, step)|
    ensures j < h < n && steps[j].id == Feeders(steps, n, step)[k] && steps[h].id == Feeders(steps, n, step)[l]
  {
    hide Feeds;
    var rest := Feeders(steps, n - 1, step);
    if l < |rest| {
      j, h := FeedersInOrder(steps, n - 1, step, k, l);
    } else {
      h := n - 1;
      assert rest[k] in rest;
      j :| 0 <= j < n - 1 && steps[j].id == rest[k] && Feeds(steps[j], step);
    }
  }

  /** Derived edges point to earlier steps. */
  lemma {:induction false} DerivedEarlier(b: Builder, i: nat, dep: string)
    requires i < |b.steps| && dep in DeriveNodes(b)[i].dependsOn
    ensures dep in StepIds(DeriveNodes(b))[..i]
  {
    hide Feeds;
    var ids := StepIds(DeriveNodes(b));
    var j :| 0 <= j < i && b.steps[j].id == dep && Feeds(b.steps[j], b.steps[i]);
    assert ids[..i][j] == dep;
  }

  /** With unique ids the builder's own order schedules the derived edges. */
  lemma {:induction false} DerivedSchedule(b: Builder)
    requires UniqueIds(DeriveNodes(b))
    ensures DepsKnown(DeriveNodes(b)) && Schedule(DeriveNodes(b), StepIds(DeriveNodes(b)))
  {
    var nodes := DeriveNodes(b);
    var ids := StepIds(nodes);
    assert |nodes| == |b.steps|;
    hide DeriveNodes;
    forall i, dep | 0 <= i < |nodes| && dep in nodes[i].dependsOn ensures dep in ids {
      DerivedEarlier(b, i, dep);
    }
    forall k, dep | 0 <= k < |ids| && DependsOn(nodes, ids[k], dep) ensures dep in ids[..k] {
      var i :| 0 <= i < |nodes| && nodes[i].stepId == ids[k] && dep in nodes[i].dependsOn;
      assert nodes[k].stepId == ids[k];
      assert i == k;
      DerivedEarlier(b, k, dep);
    }
  }

  /** A derived plan with unique step ids never trips the cycle check. */
  lemma {:induction false} DerivedAcyclic(b: Builder)
    requires UniqueIds(DeriveNodes(b))
    ensures DepsKnown(DeriveNodes(b)) && Acyclic(DeriveNodes(b))
  {
    hide UniqueIds, Schedule, DepsKnown, DeriveNodes;
    DerivedSchedule(b);
    var nodes := DeriveNodes(b);
    forall i | 0 <= i < |nodes| ensures !OnCycle(nodes, nodes[i].stepId) {
      assert StepIds(nodes)[i] == nodes[i].stepId;
      ScheduledNotOnCycle(nodes, StepIds(nodes), nodes[i].stepId);
    }
  }

  /** Needs that are met come from the initial keys or along a forward edge. */
  lemma {:induction false} NeedsFollowEdges(b: Builder, i: nat, need: string)
    requires NeedsMet(DeriveNodes(b), b.initialKeys) && i < |b.steps| && need in b.steps[i].needs
    requires need !in b.initialKeys
    ensures exists j :: 0 <= j < i && need in DeriveNodes(b)[j].supplies
              && DeriveNodes(b)[j].stepId in DeriveNodes(b)[i].dependsOn
  {
    var nodes := DeriveNodes(b);
    assert need in nodes[i].needs;
    assert need in ProvidedBefore(nodes, i);
    var j := ProviderOf(nodes, i, need);
    assert Feeds(b.steps[j], b.steps[i]);
  }

  lemma {:induction false} ProviderOf(nodes: seq<Node>, i: nat, key: string) returns (j: nat)
    requires i <= |nodes| && key in ProvidedBefore(nodes, i)
    ensures j < i && key in nodes[j].supplies
  {
    j := i - 1;
    if key !in nodes[i - 1].supplies {
      j := ProviderOf(nodes, i - 1, key);
    }
  }

  // ------------------------------------------------------------------------- build

  ghost predicate DeclarationSound(b: Builder, k: nat)
    requires k < |b.recoveries|
  {
    && (exists i :: 0 <= i < |b.steps| && b.steps[i].id == b.recoveries[k].from)
    && (forall j :: 0 <= j < k ==> b.recoveries[j].from != b.recoveries[k].from)
    && |b.recoveries[k].edges| > 0
  }

  /** Every declaration is for a known step, has edges, and is the only one of its step. */
  ghost predicate Declared(b: Builder) {
    forall k :: 0 <= k < |b.recoveries| ==> DeclarationSound(b, k)
  }

  /** What is wrong with the k-th declaration. */
  ghost predicate FaultyAt(b: Builder, k: nat, fault: DeclarationFault)
    requires k < |b.recoveries|
  {
    && fault.from == b.recoveries[k].from
    && match fault
       case UnknownSource(from) => forall i :: 0 <= i < |b.steps| ==> b.steps[i].id != from
       case DuplicateDeclaration(from) => exists j :: 0 <= j < k && b.recoveries[j].from == from
       case NoEdges(_) => |b.recoveries[k].edges| == 0
  }

  method CheckDeclaration(
    b: Builder, k: nat, known: set<string>, declared: set<string>)
    returns (faults: seq<DeclarationFault>)
    requires k < |b.recoveries|
    requires known == set i | 0 <= i < |b.steps| :: b.steps[i].id
    requires declared == set j | 0 <= j < k :: b.recoveries[j].from
    ensures faults == [] <==> DeclarationSound(b, k)
    ensures forall f :: f in faults <==> FaultyAt(b, k, f)
  {
    faults := [];
    var entry := b.recoveries[k];
    if entry.from !in known {
      faults := faults + [UnknownSource(entry.from)];
    }
    if entry.from in declared {
      faults := faults + [DuplicateDeclaration(entry.from)];
    }
    if |entry.edges| == 0 {
      faults := faults + [NoEdges(entry.from)];
    }
  }

  method CheckDeclarations(b: Builder) returns (faults: seq<DeclarationFault>)
    ensures faults == [] <==> Declared(b)
    ensures forall f :: f in faults <==> exists k :: 0 <= k < |b.recoveries| && FaultyAt(b, k, f)
  {
    hide FaultyAt, DeclarationSound;
    var known := set i | 0 <= i < |b.steps| :: b.steps[i].id;
    var declared: set<string> := {};
    faults := [];
    for k := 0 to |b.recoveries|
      invariant declared == set j | 0 <= j < k :: b.recoveries[j].from
      invariant faults == [] <==> forall j :: 0 <= j < k ==> DeclarationSound(b, j)
      invariant forall f :: f in faults <==> exists j :: 0 <= j < k && FaultyAt(b, j, f)
    {
      var found := CheckDeclaration(b, k, known, declared);
      faults := faults + found;
      declared := declared + {b.recoveries[k].from};
    }
  }

  /** `new Map(recoveries.map(entry => [entry.from, entry.on]))`: the last wins. */
  function Choosers(recoveries: seq<Declaration>): map<string, Chooser> {
    if |recoveries| == 0 then map[]
    else Choosers(recoveries[..|recoveries| - 1])[recoveries[|recoveries| - 1].from := recoveries[|recoveries| - 1].on]
  }

  function Assemble(b: Builder, id: Identity, sha: string -> string): Flow {
    Flow(DerivePlan(b, id), ComputePlanHash(sha, DerivePlan(b, id)),
         set i | 0 <= i < |b.steps| :: b.steps[i].id,
         set i | 0 <= i < |b.steps| && b.steps[i].compensates :: b.steps[i].id,
         Choosers(b.recoveries), b.spec, b.initialKeys)
  }

  /** A node says what its step declares. */
  ghost predicate NodeFrom(step: StepMeta, node: Node) {
    && node.stepId == step.id && node.needs == step.needs && node.supplies == step.supplies
    && node.expects == step.expects && node.idempotency == step.idempotency
    && node.segment == step.segment && node.tags == step.tags
  }

  /** A step's edges and chooser are those of its declaration, if it has one. */
  ghost predicate RecoveriesFrom(b: Builder, flow: Flow) {
    && (forall i, k :: 0 <= i < |flow.Nodes()| && 0 <= k < |b.recoveries| ==>
          b.recoveries[k].from == flow.Nodes()[i].stepId ==> flow.Nodes()[i].recoveries == b.recoveries[k].edges)
    && (forall i :: 0 <= i < |flow.Nodes()| && flow.Nodes()[i].recoveries != [] ==>
          exists k :: 0 <= k < |b.recoveries| && b.recoveries[k].from == flow.Nodes()[i].stepId)
    && (forall k :: 0 <= k < |b.recoveries| ==>
          b.recoveries[k].from in flow.choosers && flow.choosers[b.recoveries[k].from] == b.recoveries[k].on)
    && (forall from :: from in flow.choosers ==> exists k :: 0 <= k < |b.recoveries| && b.recoveries[k].from == from)
  }

  /** A flow is what its builder declared. */
  ghost predicate BuiltFrom(b: Builder, id: Identity, sha: string -> string, flow: Flow) {
    && flow.plan.flowId == id.flowId && flow.plan.backend == id.backend && flow.plan.version == id.version
    && flow.planHash == ComputePlanHash(sha, flow.plan)
    && |flow.Nodes()| == |b.steps| && (forall i :: 0 <= i < |b.steps| ==> NodeFrom(b.steps[i], flow.Nodes()[i]))
    && (forall i :: 0 <= i < |b.steps| ==>
          b.steps[i].id in flow.registered && (b.steps[i].id in flow.compensable <==> b.steps[i].compensates))
    && (forall s :: s in flow.registered + flow.compensable ==> exists i :: 0 <= i < |b.steps| && b.steps[i].id == s)
    && RecoveriesFrom(b, flow)
    && flow.spec == b.spec && flow.initialKeys == b.initialKeys
  }

  /** With one declaration per step, its edges and its chooser are found. */
  lemma {:induction false} EdgesFound(recoveries: seq<Declaration>, k: nat)
    requires k < |recoveries|
    requires forall i, j :: 0 <= i < j < |recoveries| ==> recoveries[i].from != recoveries[j].from
    ensures EdgesFor(recoveries, recoveries[k].from) == recoveries[k].edges
    ensures var from := recoveries[k].from;
      from in Choosers(recoveries) && Choosers(recoveries)[from] == recoveries[k].on
  {
    EdgesAt(recoveries, k);
    ChooserAt(recoveries, k);
  }

  lemma {:induction false} EdgesAt(recoveries: seq<Declaration>, k: nat)
    requires k < |recoveries|
    requires forall i, j :: 0 <= i < j < |recoveries| ==> recoveries[i].from != recoveries[j].from
    ensures EdgesFor(recoveries, recoveries[k].from) == recoveries[k].edges
  {
    if k > 0 {
      assert recoveries[1..][k - 1] == recoveries[k];
      EdgesAt(recoveries[1..], k - 1);
    }
  }

  lemma {:induction false} ChooserAt(recoveries: seq<Declaration>, k: nat)
    requires k < |recoveries|
    requires forall i, j :: 0 <= i < j < |recoveries| ==> recoveries[i].from != recoveries[j].from
    ensures var from := recoveries[k].from;
      from in Choosers(recoveries) && Choosers(recoveries)[from] == recoveries[k].on
  {
    if k + 1 < |recoveries| {
      ChooserAt(recoveries[..|recoveries| - 1], k);
    }
  }

  lemma {:induction false} EdgesSource(recoveries: seq<Declaration>, from: string)
    requires EdgesFor(recoveries, from) != []
    ensures exists k :: 0 <= k < |recoveries| && recoveries[k].from == from
  {
    if recoveries[0].from != from {
      EdgesSource(recoveries[1..], from);
      var k :| 0 <= k < |recoveries[1..]| && recoveries[1..][k].from == from;
      assert recoveries[k + 1].from == from;
    }
  }

  lemma {:induction false} OnePerStep(b: Builder)
    requires Declared(b)
    ensures forall i, j :: 0 <= i < j < |b.recoveries| ==> b.recoveries[i].from != b.recoveries[j].from
  {
    forall i, j | 0 <= i < j < |b.recoveries| ensures b.recoveries[i].from != b.recoveries[j].from {
      assert DeclarationSound(b, j);
    }
  }

  lemma {:induction false} AssembledRecoveries(b: Builder, id: Identity, sha: string -> string)
    requires Declared(b)
    ensures RecoveriesFrom(b, Assemble(b, id, sha))
  {
    OnePerStep(b);
    hide ComputePlanHash, EdgesFor, Choosers, Feeders, Declared, DeclarationSound;
    var flow := Assemble(b, id, sha);
    forall i | 0 <= i < |b.steps|
      ensures flow.Nodes()[i].stepId == b.steps[i].id
      ensures flow.Nodes()[i].recoveries == EdgesFor(b.recoveries, b.steps[i].id)
    {}
    assert flow.choosers == Choosers(b.recoveries) && |flow.Nodes()| == |b.steps|;
    hide Assemble;
    forall k | 0 <= k < |b.recoveries|
      ensures EdgesFor(b.recoveries, b.recoveries[k].from) == b.recoveries[k].edges
      ensures b.recoveries[k].from in flow.choosers && flow.choosers[b.recoveries[k].from] == b.recoveries[k].on
    {
      EdgesFound(b.recoveries, k);
    }
    ChoosersKeys(b.recoveries);
    forall i | 0 <= i < |b.steps| && flow.Nodes()[i].recoveries != []
      ensures exists k :: 0 <= k < |b.recoveries| && b.recoveries[k].from == flow.Nodes()[i].stepId
    {
      EdgesSource(b.recoveries, b.steps[i].id);
    }
  }

  /** What is assembled is what was declared. */
  lemma {:induction false} AssembledFrom(b: Builder, id: Identity, sha: string -> string)
    requires Declared(b) && UniqueIds(DeriveNodes(b))
    ensures BuiltFrom(b, id, sha, Assemble(b, id, sha))
  {
    hide ComputePlanHash, EdgesFor, Choosers, Feeders, Declared, DeclarationSound, RecoveriesFrom;
    AssembledRecoveries(b, id, sha);
    var flow := Assemble(b, id, sha);
    forall i | 0 <= i < |b.steps| && b.steps[i].id in flow.compensable ensures b.steps[i].compensates {
      var j :| 0 <= j < |b.steps| && b.steps[j].compensates && b.steps[j].id == b.steps[i].id;
      assert flow.Nodes()[i].stepId == flow.Nodes()[j].stepId;
    }
  }

  /** Building succeeds exactly for sound declarations over unique ids, met needs,
      contiguous segments and valid edges; a cycle or an unknown dependency is never
      what fails. */
  method Build(b: Builder, id: Identity, sha: string -> string) returns (r: BuildResult)
    ensures r.Built? <==>
      && Declared(b) && UniqueIds(DeriveNodes(b)) && NeedsMet(DeriveNodes(b), b.initialKeys)
      && Contiguous(DeriveNodes(b)) && RecoveriesValid(DeriveNodes(b))
    ensures r.Built? ==> r.flow == Assemble(b, id, sha) && BuiltFrom(b, id, sha, r.flow)
    ensures r.Invalid? ==> forall f :: f in r.declarations <==> exists k :: 0 <= k < |b.recoveries| && FaultyAt(b, k, f)
    ensures r.Invalid? ==> forall v: Violation :: !v.Cycle? ==>
            (v in r.violations <==> Holds(DeriveNodes(b), b.initialKeys, v))
    ensures r.Invalid? && UniqueIds(DeriveNodes(b)) ==>
              forall v :: v in r.violations ==> !v.Cycle? && !v.UnknownDependency?
  {
    hide Declared, FaultyAt, UniqueIds, DeriveNodes, Holds, NeedsMet, Contiguous, RecoveriesValid, DepsKnown;
    hide Acyclic, ComputePlanHash, Choosers, BuiltFrom;
    var declarations := CheckDeclarations(b);
    var plan := DerivePlan(b, id);
    var violations := ValidateFlowPlan(plan, b.initialKeys);
    if UniqueIds(DeriveNodes(b)) {
      DerivedAcyclic(b);
      NoUnknown(DeriveNodes(b), b.initialKeys);
    }
    if |declarations| + |violations| > 0 {
      return Invalid(declarations, violations);
    }
    AssembledFrom(b, id, sha);
    return Built(Assemble(b, id, sha));
  }

  lemma {:induction false} NoUnknown(nodes: seq<Node>, initialKeys: seq<string>)
    requires DepsKnown(nodes)
    ensures forall v: Violation :: v.UnknownDependency? ==> !Holds(nodes, initialKeys, v)
  {}

  // ------------------------------------------------------------ what a built flow is

  ghost predicate Accepted(b: Builder) {
    Declared(b) && UniqueIds(DeriveNodes(b)) && Contiguous(DeriveNodes(b)) && RecoveriesValid(DeriveNodes(b))
  }

  lemma {:induction false} ChoosersKeys(recoveries: seq<Declaration>)
    ensures forall from :: from in Choosers(recoveries) <==>
            exists k :: 0 <= k < |recoveries| && recoveries[k].from == from
  {
    if |recoveries| > 0 {
      ChoosersKeys(recoveries[..|recoveries| - 1]);
    }
  }

  lemma {:induction false} EdgesForExactly(recoveries: seq<Declaration>, from: string)
    requires forall k :: 0 <= k < |recoveries| ==> |recoveries[k].edges| > 0
    ensures |EdgesFor(recoveries, from)| > 0 <==> exists k :: 0 <= k < |recoveries| && recoveries[k].from == from
  {
    if |recoveries| > 0 && recoveries[0].from != from {
      EdgesForExactly(recoveries[1..], from);
      assert forall k :: 0 <= k < |recoveries[1..]| ==> recoveries[1..][k] == recoveries[k + 1];
    }
  }

  /** A built flow can run: every planned step is registered, and a step has a chooser
      exactly when it has recovery edges. */
  lemma {:induction false} BuiltRunnable(b: Builder, id: Identity, sha: string -> string, i: nat)
    requires Accepted(b) && i < |b.steps|
    ensures var flow := Assemble(b, id, sha); var node := flow.Nodes()[i];
      && Runnable(flow)
      && node.stepId in flow.registered
      && (node.stepId in flow.choosers <==> |node.recoveries| > 0)
  {
    hide Contiguous, RecoveriesValid, UniqueIds, ComputePlanHash, Choosers, EdgesFor;
    ChoosersKeys(b.recoveries);
    forall k | 0 <= k < |b.recoveries| ensures |b.recoveries[k].edges| > 0 { assert DeclarationSound(b, k); }
    EdgesForExactly(b.recoveries, b.steps[i].id);
  }
}
