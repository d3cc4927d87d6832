/** `validateFlowPlan` (src/flow/plan.ts:87-185) as it is written: five passes that
    collect violations, one of them Kahn's algorithm over an indegree map, a dependents
    map and a work queue. */
module PlanValidator {
  import opened Basics
  import opened FlowTypes
  import opened PlanShape
  import opened DependencyGraph
  import opened KahnOrder

  datatype Violation =
    | DuplicateId(stepId: string)
    | UnmetNeed(stepId: string, need: string)
    | UnknownDependency(stepId: string, dep: string)
    | Cycle(steps: seq<string>)
    | Reentered(segment: string, stepId: string)
    | DuplicateEdge(stepId: string, to: string)
    | UnknownTarget(stepId: string, to: string)
    | BadBudget(stepId: string, to: string, maxReentries: int)

  // --------------------------------------------------------------------- step ids

  /** The name occurs twice among the first `n` nodes. */
  ghost predicate Repeated(nodes: seq<Node>, n: nat, stepId: string)
    requires n <= |nodes|
  {
    exists i, j :: 0 <= i < j < n && nodes[i].stepId == nodes[j].stepId == stepId
  }

  method CheckIds(nodes: seq<Node>) returns (violations: seq<Violation>, ids: set<string>)
    ensures violations == [] <==> UniqueIds(nodes)
    ensures forall v :: v in violations <==> v.DuplicateId? && Repeated(nodes, |nodes|, v.stepId)
    ensures ids == Elements(StepIds(nodes))
  {
    violations, ids := [], {};
    for i := 0 to |nodes|
      invariant ids == set j | 0 <= j < i :: nodes[j].stepId
      invariant forall v :: v in violations <==> v.DuplicateId? && Repeated(nodes, i, v.stepId)
      invariant violations == [] <==> UniqueIds(nodes[..i])
    {
      ghost var front, longer := nodes[..i], nodes[..i + 1];
      assert longer == front + [nodes[i]];
      assert nodes[i].stepId in ids <==> !(forall j :: 0 <= j < i ==> front[j].stepId != nodes[i].stepId);
      if nodes[i].stepId in ids {
        violations := violations + [DuplicateId(nodes[i].stepId)];
      }
      ids := ids + {nodes[i].stepId};
      UniqueGrows(front, nodes[i]);
    }
    assert nodes[..|nodes|] == nodes;
    assert forall j :: 0 <= j < |nodes| ==> StepIds(nodes)[j] == nodes[j].stepId;
  }

  lemma {:induction false} UniqueGrows(nodes: seq<Node>, node: Node)
    ensures UniqueIds(nodes + [node]) <==> UniqueIds(nodes) && forall j :: 0 <= j < |nodes| ==>
            nodes[j].stepId != node.stepId
  {
    var longer := nodes + [node];
    if UniqueIds(longer) {
      forall i, j | 0 <= i < j < |nodes| ensures nodes[i].stepId != nodes[j].stepId {
        assert longer[i].stepId != longer[j].stepId;
      }
      forall j | 0 <= j < |nodes| ensures nodes[j].stepId != node.stepId {
        assert longer[j].stepId != longer[|nodes|].stepId;
      }
    }
  }

  // ------------------------------------------------------------------------ needs

  /** Some node of that name among the first `n` has the need, unprovided so far. */
  ghost predicate Unmet(nodes: seq<Node>, initialKeys: seq<string>, n: nat, stepId: string, need: string)
    requires n <= |nodes|
  {
    exists i :: 0 <= i < n && nodes[i].stepId == stepId && need in nodes[i].needs
      && need !in Elements(initialKeys) + ProvidedBefore(nodes, i)
  }

  /** The needs of the first `n` nodes are met. */
  ghost predicate MetBefore(nodes: seq<Node>, initialKeys: seq<string>, n: nat)
    requires n <= |nodes|
  {
    forall i, need :: 0 <= i < n && need in nodes[i].needs ==> need in Elements(initialKeys) + ProvidedBefore(nodes, i)
  }

  method CheckNeeds(nodes: seq<Node>, initialKeys: seq<string>) returns (violations: seq<Violation>)
    ensures violations == [] <==> NeedsMet(nodes, initialKeys)
    ensures forall v :: v in violations <==> v.UnmetNeed? && Unmet(nodes, initialKeys, |nodes|, v.stepId, v.need)
  {
    violations := [];
    var provided := Elements(initialKeys);
    for i := 0 to |nodes|
      invariant provided == Elements(initialKeys) + ProvidedBefore(nodes, i)
      invariant forall v :: v in violations <==> v.UnmetNeed? && Unmet(nodes, initialKeys, i, v.stepId, v.need)
      invariant violations == [] <==> MetBefore(nodes, initialKeys, i)
    {
      var found := CheckNodeNeeds(nodes[i], provided);
      NeedsGrow(nodes, initialKeys, i);
      hide Unmet, MetBefore;
      violations := violations + found;
      provided := provided + Elements(nodes[i].supplies);
    }
  }

  method CheckNodeNeeds(node: Node, provided: set<string>) returns (violations: seq<Violation>)
    ensures forall v :: v in violations <==>
            v.UnmetNeed? && v.stepId == node.stepId && v.need in node.needs && v.need !in provided
    ensures violations == [] <==> forall need :: need in node.needs ==> need in provided
  {
    violations := [];
    for k := 0 to |node.needs|
      invariant forall v :: v in violations <==>
                  v.UnmetNeed? && v.stepId == node.stepId && v.need in node.needs[..k] && v.need !in provided
      invariant violations == [] <==> forall m :: 0 <= m < k ==> node.needs[m] in provided
    {
      if node.needs[k] !in provided {
        violations := violations + [UnmetNeed(node.stepId, node.needs[k])];
      }
    }
  }

  lemma {:induction false} NeedsGrow(nodes: seq<Node>, initialKeys: seq<string>, i: nat)
    requires i < |nodes|
    ensures var provided := Elements(initialKeys) + ProvidedBefore(nodes, i);
      && (MetBefore(nodes, initialKeys, i + 1) <==>
            MetBefore(nodes, initialKeys, i) && forall need :: need in nodes[i].needs ==> need in provided)
      && forall stepId, need :: Unmet(nodes, initialKeys, i + 1, stepId, need) <==>
           Unmet(nodes, initialKeys, i, stepId, need)
           || (stepId == nodes[i].stepId && need in nodes[i].needs && need !in provided)
  {
    hide ProvidedBefore;
  }

  // --------------------------------------------------------------------- segments

  /** The segments named by the first `n` nodes. */
  function SegmentsBefore(nodes: seq<Node>, n: nat): set<string>
    requires n <= |nodes|
  {
    set i | 0 <= i < n :: nodes[i].segment
  }

  /** Some node of that name among the first `n` starts a segment that was left before. */
  ghost predicate ReenteredAt(nodes: seq<Node>, n: nat, segment: string, stepId: string)
    requires n <= |nodes|
  {
    exists i :: 0 < i < n && nodes[i].stepId == stepId && nodes[i].segment == segment
      && nodes[i - 1].segment != segment && segment in SegmentsBefore(nodes, i)
  }

  method CheckSegments(nodes: seq<Node>) returns (violations: seq<Violation>)
    ensures violations == [] <==> Contiguous(nodes)
    ensures forall v :: v in violations <==> v.Reentered? && ReenteredAt(nodes, |nodes|, v.segment, v.stepId)
  {
    violations := [];
    var seen: set<string> := {};
    var current: Option<string> := None;
    for i := 0 to |nodes|
      invariant seen == SegmentsBefore(nodes, i)
      invariant current == if i == 0 then None else Some(nodes[i - 1].segment)
      invariant forall v :: v in violations <==> v.Reentered? && ReenteredAt(nodes, i, v.segment, v.stepId)
      invariant violations == [] <==> Contiguous(nodes[..i])
    {
      ContiguousNext(nodes, i);
      ReenteredGrows(nodes, i);
      hide Contiguous, ReenteredAt, SegmentsBefore, Reenters;
      var found := CheckSegment(nodes, i, seen, current);
      violations := violations + found;
      if current != Some(nodes[i].segment) {
        seen := seen + {nodes[i].segment};
        current := Some(nodes[i].segment);
      }
    }
    assert nodes[..|nodes|] == nodes;
  }

  method CheckSegment(
    nodes: seq<Node>, i: nat, seen: set<string>, current: Option<string>)
    returns (violations: seq<Violation>)
    requires i < |nodes| && seen == SegmentsBefore(nodes, i)
    requires current == if i == 0 then None else Some(nodes[i - 1].segment)
    ensures forall v :: v in violations <==> v.Reentered? && Reenters(nodes, i, v.segment, v.stepId)
    ensures violations == [] <==>
            i == 0 || nodes[i - 1].segment == nodes[i].segment || nodes[i].segment !in SegmentsBefore(nodes, i)
  {
    violations := [];
    if current != Some(nodes[i].segment) && nodes[i].segment in seen {
      violations := [Reentered(nodes[i].segment, nodes[i].stepId)];
    }
  }

  /** Node `i` re-enters the segment. */
  ghost predicate Reenters(nodes: seq<Node>, i: nat, segment: string, stepId: string)
    requires i < |nodes|
  {
    && nodes[i].stepId == stepId && nodes[i].segment == segment
    && i > 0 && nodes[i - 1].segment != segment && segment in SegmentsBefore(nodes, i)
  }

  lemma {:induction false} ReenteredGrows(nodes: seq<Node>, i: nat)
    requires i < |nodes|
    ensures forall segment, stepId :: ReenteredAt(nodes, i + 1, segment, stepId) <==>
              ReenteredAt(nodes, i, segment, stepId) || Reenters(nodes, i, segment, stepId)
  {
    hide SegmentsBefore;
    forall segment, stepId | Reenters(nodes, i, segment, stepId) ensures ReenteredAt(nodes, i + 1, segment, stepId) {
      assert 0 < i < i + 1;
    }
  }

  /** A node keeps the segments contiguous unless it re-enters one. */
  lemma {:induction false} ContiguousNext(nodes: seq<Node>, i: nat)
    requires i < |nodes|
    ensures Contiguous(nodes[..i + 1]) <==>
      Contiguous(nodes[..i])
          && (i == 0 || nodes[i - 1].segment == nodes[i].segment || nodes[i].segment !in SegmentsBefore(nodes, i))
    ensures SegmentsBefore(nodes, i + 1) == SegmentsBefore(nodes, i) + {nodes[i].segment}
    ensures i > 0 ==> nodes[i - 1].segment in SegmentsBefore(nodes, i)
  {
    var front := nodes[..i];
    assert nodes[..i + 1] == front + [nodes[i]];
    ContiguousGrows(front, nodes[i]);
    hide Contiguous;
    assert forall j :: 0 <= j < i ==> front[j] == nodes[j];
  }

  lemma {:induction false} ContiguousGrows(nodes: seq<Node>, node: Node)
    ensures Contiguous(nodes + [node]) <==>
      Contiguous(nodes) && (|nodes| == 0 || nodes[|nodes| - 1].segment == node.segment
                            || forall j :: 0 <= j < |nodes| ==> nodes[j].segment != node.segment)
  {
    var n, longer := |nodes|, nodes + [node];
    if Contiguous(longer) {
      forall i, j, k | 0 <= i <= j <= k < n && nodes[i].segment == nodes[k].segment
        ensures nodes[j].segment == nodes[i].segment
      {
        assert longer[i].segment == longer[k].segment;
        assert longer[j].segment == longer[i].segment;
      }
      if j :| 0 <= j < n && nodes[j].segment == node.segment {
        assert longer[j].segment == longer[n].segment;
        assert longer[n - 1].segment == longer[j].segment;
      }
    }
  }

  // --------------------------------------------------------------- recovery edges

  ghost predicate NodeRecoveriesValid(nodes: seq<Node>, node: Node) {
    && Distinct(Targets(node.recoveries))
    && forall e :: e in node.recoveries ==> EdgeValid(nodes, e)
  }

  /** What is wrong with the m-th recovery edge of a node. */
  ghost predicate FaultAt(nodes: seq<Node>, node: Node, m: nat, v: Violation)
    requires m < |node.recoveries|
  {
    var edge := node.recoveries[m];
    match v
    case DuplicateEdge(s, to) => s == node.stepId && to == edge.to && exists n ::
      0 <= n < m && node.recoveries[n].to == to
    case UnknownTarget(s, to) => s == node.stepId && to == edge.to && to !in StepIds(nodes)
    case BadBudget(s, to, budget) => s == node.stepId && to == edge.to && budget == edge.maxReentries < 1
    case _ => false
  }

  ghost predicate EdgeFault(nodes: seq<Node>, node: Node, v: Violation) {
    exists m :: 0 <= m < |node.recoveries| && FaultAt(nodes, node, m, v)
  }

  method CheckRecoveries(nodes: seq<Node>, ids: set<string>) returns (violations: seq<Violation>)
    requires ids == Elements(StepIds(nodes))
    ensures violations == [] <==> RecoveriesValid(nodes)
    ensures forall v :: v in violations <==> exists i :: 0 <= i < |nodes| && EdgeFault(nodes, nodes[i], v)
  {
    violations := [];
    for i := 0 to |nodes|
      invariant forall v :: v in violations <==> exists j :: 0 <= j < i && EdgeFault(nodes, nodes[j], v)
      invariant violations == [] <==> forall j :: 0 <= j < i ==> NodeRecoveriesValid(nodes, nodes[j])
    {
      var found := CheckEdges(nodes, ids, nodes[i]);
      violations := violations + found;
    }
    assert (forall j :: 0 <= j < |nodes| ==> NodeRecoveriesValid(nodes, nodes[j])) <==> RecoveriesValid(nodes);
  }

  method CheckEdges(nodes: seq<Node>, ids: set<string>, node: Node) returns (violations: seq<Violation>)
    requires ids == Elements(StepIds(nodes))
    ensures violations == [] <==> NodeRecoveriesValid(nodes, node)
    ensures forall v :: v in violations <==> EdgeFault(nodes, node, v)
  {
    violations := [];
    var edges := node.recoveries;
    var targets: set<string> := {};
    for k := 0 to |edges|
      invariant targets == set m | 0 <= m < k :: edges[m].to
      invariant forall v :: v in violations <==> exists m :: 0 <= m < k && FaultAt(nodes, node, m, v)
      invariant violations == [] <==> forall m :: 0 <= m < k ==> EdgeSound(nodes, node, m)
    {
      hide FaultAt, EdgeSound;
      var found := CheckEdge(nodes, ids, node, k, targets);
      violations := violations + found;
      targets := targets + {edges[k].to};
    }
    SoundEdges(nodes, node);
  }

  /** The m-th edge is valid and its target is new. */
  ghost predicate EdgeSound(nodes: seq<Node>, node: Node, m: nat)
    requires m < |node.recoveries|
  {
    EdgeValid(nodes, node.recoveries[m]) && forall n :: 0 <= n < m ==> node.recoveries[n].to != node.recoveries[m].to
  }

  lemma {:induction false} SoundEdges(nodes: seq<Node>, node: Node)
    ensures (forall m :: 0 <= m < |node.recoveries| ==> EdgeSound(nodes, node, m)) <==> NodeRecoveriesValid(nodes, node)
  {
    var edges := node.recoveries;
    assert forall m :: 0 <= m < |edges| ==> Targets(edges)[m] == edges[m].to;
    if NodeRecoveriesValid(nodes, node) {
      forall m | 0 <= m < |edges| ensures EdgeSound(nodes, node, m) {
        assert EdgeValid(nodes, edges[m]);
        forall n | 0 <= n < m ensures edges[n].to != edges[m].to { assert Targets(edges)[n] != Targets(edges)[m]; }
      }
    }
    if forall m :: 0 <= m < |edges| ==> EdgeSound(nodes, node, m) {
      forall m, n | 0 <= m < n < |edges|
          ensures Targets(edges)[m] != Targets(edges)[n] { assert EdgeSound(nodes, node, n); }
      forall e | e in edges ensures EdgeValid(nodes, e) {
        var m :| 0 <= m < |edges| && edges[m] == e;
        assert EdgeSound(nodes, node, m);
      }
    }
  }

  method CheckEdge(
    nodes: seq<Node>, ids: set<string>, node: Node, k: nat, targets: set<string>)
    returns (violations: seq<Violation>)
    requires ids == Elements(StepIds(nodes)) && k < |node.recoveries|
    requires targets == set m | 0 <= m < k :: node.recoveries[m].to
    ensures forall v :: v in violations <==> FaultAt(nodes, node, k, v)
    ensures violations == [] <==> EdgeSound(nodes, node, k)
  {
    violations := [];
    var edge := node.recoveries[k];
    if edge.to in targets {
      violations := violations + [DuplicateEdge(node.stepId, edge.to)];
    }
    if edge.to !in ids {
      violations := violations + [UnknownTarget(node.stepId, edge.to)];
    }
    if edge.maxReentries < 1 {
      violations := violations + [BadBudget(node.stepId, edge.to, edge.maxReentries)];
    }
  }

  // -------------------------------------------------------------------- acyclicity

  ghost predicate UnknownEdge(nodes: seq<Node>, stepId: string, dep: string) {
    exists i :: 0 <= i < |nodes| && stepId == nodes[i].stepId && dep in nodes[i].dependsOn
        && dep !in Elements(StepIds(nodes))
  }

  method CheckAcyclic(nodes: seq<Node>, ids: set<string>) returns (violations: seq<Violation>)
    requires ids == Elements(StepIds(nodes))
    ensures UniqueIds(nodes) ==> (violations == [] <==> DepsKnown(nodes) && Acyclic(nodes))
    ensures forall v :: v in violations ==> v.UnknownDependency? || v.Cycle?
    ensures forall s, d :: UnknownDependency(s, d) in violations <==> UnknownEdge(nodes, s, d)
    ensures UniqueIds(nodes) && DepsKnown(nodes) && !Acyclic(nodes) ==>
            violations == [Cycle(TaintedSteps(nodes, |nodes|))]
  {
    hide UniqueIds, Acyclic, CountsIndegree, CountsDependents;
    var indegree, dependents, unknown := CountEdges(nodes, ids);
    violations := [];
    for k := 0 to |unknown|
      invariant |violations| == k
      invariant forall m :: 0 <= m < k ==> violations[m] == UnknownDependency(unknown[m].stepId, unknown[m].dep)
    {
      violations := violations + [UnknownDependency(unknown[k].stepId, unknown[k].dep)];
    }
    forall s, d
      ensures UnknownDependency(s, d) in violations <==> Unknown(s, d) in unknown
    {
      if m :| 0 <= m < |unknown| && unknown[m] == Unknown(s, d) {
        assert violations[m] == UnknownDependency(s, d);
      }
    }
    assert |unknown| == 0 <==> DepsKnown(nodes) by { KnownExactly(nodes, ids, unknown); }
    var cycle := FindCycle(nodes, ids, indegree, dependents);
    if cycle.Some? {
      violations := violations + [Cycle(cycle.value)];
    }
  }

  lemma {:induction false} KnownExactly(nodes: seq<Node>, ids: set<string>, unknown: seq<Unknown>)
    requires ids == Elements(StepIds(nodes))
    requires forall u :: u in unknown <==> exists i ::
               0 <= i < |nodes| && u.stepId == nodes[i].stepId && u.dep in nodes[i].dependsOn && u.dep !in ids
    ensures |unknown| == 0 <==> DepsKnown(nodes)
  {
    if |unknown| > 0 {
      assert unknown[0] in unknown;
    } else {
      forall i, dep | 0 <= i < |nodes| && dep in nodes[i].dependsOn ensures dep in StepIds(nodes) {
        assert Unknown(nodes[i].stepId, dep) !in unknown;
      }
    }
  }

  // ------------------------------------------------------------------ the validator

  /** What validation promises. */
  ghost predicate ValidPlan(plan: Plan, initialKeys: seq<string>) {
    && UniqueIds(plan.nodes)
    && NeedsMet(plan.nodes, initialKeys)
    && DepsKnown(plan.nodes) && Acyclic(plan.nodes)
    && Contiguous(plan.nodes)
    && RecoveriesValid(plan.nodes)
  }

  /** What a violation other than a cycle says about the plan. */
  ghost predicate Holds(nodes: seq<Node>, initialKeys: seq<string>, v: Violation) {
    match v
    case DuplicateId(stepId) => Repeated(nodes, |nodes|, stepId)
    case UnmetNeed(stepId, need) => Unmet(nodes, initialKeys, |nodes|, stepId, need)
    case UnknownDependency(stepId, dep) => UnknownEdge(nodes, stepId, dep)
    case Cycle(_) => false
    case Reentered(segment, stepId) => ReenteredAt(nodes, |nodes|, segment, stepId)
    case DuplicateEdge(_, _) => exists i :: 0 <= i < |nodes| && EdgeFault(nodes, nodes[i], v)
    case UnknownTarget(_, _) => exists i :: 0 <= i < |nodes| && EdgeFault(nodes, nodes[i], v)
    case BadBudget(_, _, _) => exists i :: 0 <= i < |nodes| && EdgeFault(nodes, nodes[i], v)
  }

  lemma {:induction false} EdgeFaultKind(nodes: seq<Node>, node: Node, v: Violation)
    requires EdgeFault(nodes, node, v)
    ensures v.DuplicateEdge? || v.UnknownTarget? || v.BadBudget?
  {}

  /** No violation is reported exactly when the plan is valid, and every report is true
      of the plan; a cycle report names what lies on or behind a cycle. */
  method ValidateFlowPlan(plan: Plan, initialKeys: seq<string>) returns (violations: seq<Violation>)
    ensures violations == [] <==> ValidPlan(plan, initialKeys)
    ensures forall v: Violation :: !v.Cycle? ==> (v in violations <==> Holds(plan.nodes, initialKeys, v))
    ensures UniqueIds(plan.nodes) && DepsKnown(plan.nodes) ==> forall steps :: Cycle(steps) in violations <==>
              !Acyclic(plan.nodes) && steps == TaintedSteps(plan.nodes, |plan.nodes|)
  {
    hide UniqueIds, NeedsMet, DepsKnown, Acyclic, Contiguous, RecoveriesValid, Repeated, Unmet, ReenteredAt;
    hide EdgeFault, UnknownEdge;
    var nodes := plan.nodes;
    var duplicates, ids := CheckIds(nodes);
    var unmet := CheckNeeds(nodes, initialKeys);
    var edges := CheckAcyclic(nodes, ids);
    var segments := CheckSegments(nodes);
    var recoveries := CheckRecoveries(nodes, ids);
    forall v | v in recoveries ensures v.DuplicateEdge? || v.UnknownTarget? || v.BadBudget? {
      var i :| 0 <= i < |nodes| && EdgeFault(nodes, nodes[i], v);
      EdgeFaultKind(nodes, nodes[i], v);
    }
    violations := duplicates + unmet + edges + segments + recoveries;
    forall v
      ensures v in violations <==> v in duplicates || v in unmet || v in edges || v in segments || v in recoveries
    {
      InConcat(duplicates, unmet, edges, segments, recoveries, v);
    }
  }

  lemma {:induction false} InConcat(
    a: seq<Violation>, b: seq<Violation>, c: seq<Violation>, d: seq<Violation>, e: seq<Violation>, v: Violation)
    ensures v in a + b + c + d + e <==> v in a || v in b || v in c || v in d || v in e
  {}
}
