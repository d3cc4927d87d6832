/** What a validated plan promises, stated declaratively
    (src/flow/plan.ts:87-185). `PlanValidator` proves that the validator decides it. */
module PlanShape {
  import opened Basics
  import opened FlowTypes

  /** The keys provided by the first `i` nodes. */
  function ProvidedBefore(nodes: seq<Node>, i: nat): set<string>
    requires i <= |nodes|
  {
    if i == 0 then {} else ProvidedBefore(nodes, i - 1) + Elements(nodes[i - 1].supplies)
  }

  /** Every need comes from the initial keys or from a prior node. */
  ghost predicate NeedsMet(nodes: seq<Node>, initialKeys: seq<string>) {
    forall i, need :: 0 <= i < |nodes| && need in nodes[i].needs ==>
      need in Elements(initialKeys) + ProvidedBefore(nodes, i)
  }

  ghost predicate DepsKnown(nodes: seq<Node>) {
    forall i, dep :: 0 <= i < |nodes| && dep in nodes[i].dependsOn ==> dep in StepIds(nodes)
  }

  /** A segment is one contiguous run of nodes. */
  ghost predicate Contiguous(nodes: seq<Node>) {
    forall i, j, k :: 0 <= i <= j <= k < |nodes| && nodes[i].segment == nodes[k].segment ==>
      nodes[j].segment == nodes[i].segment
  }

  ghost predicate EdgeValid(nodes: seq<Node>, edge: RecoveryEdge) {
    edge.to in StepIds(nodes) && edge.maxReentries >= 1
  }

  function Targets(edges: seq<RecoveryEdge>): seq<string> {
    seq(|edges|, i requires 0 <= i < |edges| => edges[i].to)
  }

  ghost predicate RecoveriesValid(nodes: seq<Node>) {
    forall i :: 0 <= i < |nodes| ==>
      && Distinct(Targets(nodes[i].recoveries))
      && forall e :: e in nodes[i].recoveries ==> EdgeValid(nodes, e)
  }

  lemma {:induction false} ProvidedGrows(nodes: seq<Node>, i: nat, j: nat)
    requires i <= j <= |nodes|
    ensures ProvidedBefore(nodes, i) <= ProvidedBefore(nodes, j)
  {
    if i < j {
      ProvidedGrows(nodes, i, j - 1);
    }
  }
}
