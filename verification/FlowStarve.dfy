/** Which plans can miss a need: those with a walk, over completed nodes and recovery
    edges, that reaches a node having passed every provider of one of its needs without
    completing it. The validator's needs check (src/flow/plan.ts:105-116) looks at plan
    order only; a forward recovery edge walks past providers. */
module FlowStarve {
  import opened Basics
  import opened JsonValues
  import opened FlowTypes
  import opened PlanShape
  import opened FlowFold
  import opened FlowLease
  import opened FlowSteps
  import opened FlowTermination
  import opened FlowNeeds
  import opened FlowOnce
  import opened FlowReturn

  // ------------------------------------------------------------ walks around a provider

  /** The node completes without providing the key. */
  predicate Onward(nodes: seq<Node>, key: string, p: nat, q: nat) {
    p < |nodes| && q == p + 1 && key !in nodes[p].supplies
  }

  /** A declared recovery edge leads from node `p` to node `q`. */
  predicate Edge(nodes: seq<Node>, p: nat, q: nat) {
    p < |nodes| && q < |nodes| && Declares(nodes[p], nodes[q].stepId) && IndexOf(nodes, nodes[q].stepId) == Some(q)
  }

  predicate Hop(nodes: seq<Node>, key: string, p: nat, q: nat) {
    Onward(nodes, key, p, q) || Edge(nodes, p, q)
  }

  /** A walk on which nothing provides the key. */
  ghost predicate Hops(nodes: seq<Node>, key: string, path: seq<nat>) {
    |path| > 0 && forall k :: 0 <= k < |path| - 1 ==> Hop(nodes, key, path[k], path[k + 1])
  }

  /** Such a walk from the head of the plan. */
  ghost predicate Walked(nodes: seq<Node>, key: string, path: seq<nat>) {
    Hops(nodes, key, path) && path[0] == 0
  }

  ghost predicate Evades(nodes: seq<Node>, key: string, i: nat) {
    exists path :: Walked(nodes, key, path) && path[|path| - 1] == i
  }

  /** Some node can be reached while one of its needs is neither an initial key nor
      provided. */
  ghost predicate Starves(nodes: seq<Node>, initialKeys: seq<string>) {
    exists i: nat, need :: i < |nodes| && need in nodes[i].needs && need !in initialKeys && Evades(nodes, need, i)
  }

  lemma {:induction false} EvadesHead(nodes: seq<Node>, key: string)
    ensures Evades(nodes, key, 0)
  {
    assert Walked(nodes, key, [0]);
  }

  lemma {:induction false} EvadesHop(nodes: seq<Node>, key: string, p: nat, q: nat)
    requires Evades(nodes, key, p) && Hop(nodes, key, p, q)
    ensures Evades(nodes, key, q)
  {
    hide Hop;
    var path :| Walked(nodes, key, path) && path[|path| - 1] == p;
    var longer := path + [q];
    forall k | 0 <= k < |longer| - 1 ensures Hop(nodes, key, longer[k], longer[k + 1]) {
      if k < |path| - 1 {
        assert Hop(nodes, key, path[k], path[k + 1]);
      }
    }
    assert Walked(nodes, key, longer);
  }

  lemma {:induction false} EvadingWalk(nodes: seq<Node>, key: string, i: nat) returns (path: seq<nat>)
    requires Evades(nodes, key, i)
    ensures |path| > 0 && Walked(nodes, key, path) && path[|path| - 1] == i
  {
    path :| Walked(nodes, key, path) && path[|path| - 1] == i;
  }

  lemma {:induction false} NeverProvided(nodes: seq<Node>, key: string, i: nat)
    requires key !in ProvidedBefore(nodes, |nodes|) && i <= |nodes|
    ensures Evades(nodes, key, i)
  {
    if i == 0 {
      EvadesHead(nodes, key);
    } else {
      NeverProvided(nodes, key, i - 1);
      ProvidedGrows(nodes, i, |nodes|);
      assert Onward(nodes, key, i - 1, i);
      EvadesHop(nodes, key, i - 1, i);
    }
  }

  // --------------------------------------------------------------- the best guarantee

  /** The keys that no walk to node `i` evades. */
  ghost function SureAt(nodes: seq<Node>, i: nat): set<string> {
    set key | key in ProvidedBefore(nodes, |nodes|) && !Evades(nodes, key, i)
  }

  ghost function Sure(nodes: seq<Node>): (sure: Guarantee)
    ensures Fits(nodes, sure)
  {
    seq(|nodes| + 1, i requires 0 <= i <= |nodes| => SureAt(nodes, i))
  }

  lemma {:induction false} SureAssures(nodes: seq<Node>, initialKeys: seq<string>)
    requires !Starves(nodes, initialKeys)
    ensures Assures(nodes, initialKeys, Sure(nodes))
  {
    hide Evades, Hop;
    var sure := Sure(nodes);
    assert sure[0] == {} by {
      forall key ensures key !in SureAt(nodes, 0) { EvadesHead(nodes, key); }
    }
    forall i | 0 <= i < |nodes| ensures sure[i + 1] <= sure[i] + Elements(nodes[i].supplies) {
      SureOnward(nodes, i);
    }
    forall i, to | 0 <= i < |nodes| && Declares(nodes[i], to) && IndexOf(nodes, to).Some?
      ensures sure[IndexOf(nodes, to).value] <= sure[i]
    {
      SureEdge(nodes, i, to);
    }
    forall i, need | 0 <= i < |nodes| && need in nodes[i].needs ensures need in Elements(initialKeys) + sure[i] {
      if need !in initialKeys && need !in ProvidedBefore(nodes, |nodes|) {
        NeverProvided(nodes, need, i);
      }
    }
  }

  lemma {:induction false} SureOnward(nodes: seq<Node>, i: nat)
    requires i < |nodes|
    ensures SureAt(nodes, i + 1) <= SureAt(nodes, i) + Elements(nodes[i].supplies)
  {
    hide Evades;
    forall key | key in SureAt(nodes, i + 1) && key !in nodes[i].supplies ensures key in SureAt(nodes, i) {
      if Evades(nodes, key, i) {
        assert Onward(nodes, key, i, i + 1);
        EvadesHop(nodes, key, i, i + 1);
      }
    }
  }

  lemma {:induction false} SureEdge(nodes: seq<Node>, i: nat, to: string)
    requires i < |nodes| && Declares(nodes[i], to) && IndexOf(nodes, to).Some?
    ensures SureAt(nodes, IndexOf(nodes, to).value) <= SureAt(nodes, i)
  {
    hide Evades;
    var q := IndexOf(nodes, to).value;
    assert Edge(nodes, i, q);
    forall key | key in SureAt(nodes, q) ensures key in SureAt(nodes, i) {
      if Evades(nodes, key, i) {
        EvadesHop(nodes, key, i, q);
      }
    }
  }

  /** Whatever a guarantee promises at a node, no walk to it evades. */
  lemma {:induction false} WalkUnsure(nodes: seq<Node>, sure: Guarantee, key: string, path: seq<nat>)
    requires Fits(nodes, sure) && Accrues(nodes, sure) && SurvivesEdges(nodes, sure) && Walked(nodes, key, path)
    ensures path[|path| - 1] <= |nodes| && key !in sure[path[|path| - 1]]
    decreases |path|
  {
    if |path| > 1 {
      var front := path[..|path| - 1];
      forall k | 0 <= k < |front| - 1 ensures Hop(nodes, key, front[k], front[k + 1]) {
        assert Hop(nodes, key, path[k], path[k + 1]);
      }
      WalkUnsure(nodes, sure, key, front);
      var p, q := path[|path| - 2], path[|path| - 1];
      assert Hop(nodes, key, path[|path| - 2], path[|path| - 2 + 1]);
      if Edge(nodes, p, q) {
        assert sure[q] <= sure[p];
      }
    }
  }

  /** A plan starves exactly when nothing assures its needs. */
  lemma {:induction false} StarvesExactly(nodes: seq<Node>, initialKeys: seq<string>)
    ensures !Starves(nodes, initialKeys) <==> exists sure :: Assures(nodes, initialKeys, sure)
  {
    hide Walked, Accrues, SurvivesEdges;
    if !Starves(nodes, initialKeys) {
      SureAssures(nodes, initialKeys);
    }
    if sure :| Assures(nodes, initialKeys, sure) {
      forall i: nat, need | i < |nodes| && need in nodes[i].needs && need !in initialKeys
        ensures !Evades(nodes, need, i)
      {
        if Evades(nodes, need, i) {
          var path := EvadingWalk(nodes, need, i);
          WalkUnsure(nodes, sure, need, path);
        }
      }
    }
  }

  /** Every recovery edge leads to its own node or to an earlier one. */
  ghost predicate BackwardOnly(nodes: seq<Node>) {
    forall i, to :: 0 <= i < |nodes| && Declares(nodes[i], to) && IndexOf(nodes, to).Some? ==>
      IndexOf(nodes, to).value <= i
  }

  /** The validator's needs check is enough for plans without forward recovery edges. */
  lemma {:induction false} BackwardNeverStarves(nodes: seq<Node>, initialKeys: seq<string>)
    requires BackwardOnly(nodes) && NeedsMet(nodes, initialKeys)
    ensures !Starves(nodes, initialKeys)
  {
    hide Starves;
    PriorAccrues(nodes);
    PriorMeets(nodes, initialKeys);
    forall i, to | 0 <= i < |nodes| && Declares(nodes[i], to) && IndexOf(nodes, to).Some?
      ensures Prior(nodes)[IndexOf(nodes, to).value] <= Prior(nodes)[i]
    {
      ProvidedGrows(nodes, IndexOf(nodes, to).value, i);
    }
    assert Assures(nodes, initialKeys, Prior(nodes));
    StarvesExactly(nodes, initialKeys);
  }

  /** Over any leases of one operation, each seeing any of the rows that earlier leases
      tried to write, a plan that does not starve never misses a need. */
  lemma {:induction false} LeasesNeverMiss(flow: Flow, attempts: seq<Attempt>, j: nat)
    requires Runnable(flow) && !Starves(flow.Nodes(), flow.initialKeys) && InVocabulary(flow)
    requires SawOnlyWritten(flow, attempts) && j < |attempts|
    requires forall i :: 0 <= i < |attempts| ==>
               SuppliesAll(attempts[i].env, flow.Nodes()) && Elements(flow.initialKeys) <= attempts[i].initial.Keys
    ensures var a := attempts[j]; var r := RunFlow(flow, a.env, a.initial, a.resume, a.seen);
      r.FailedWith? ==> !r.fault.MissingNeed?
  {
    var sure := Sure(flow.Nodes());
    SureAssures(flow.Nodes(), flow.initialKeys);
    SureEncodable(flow);
    hide RunFlow, SawOnlyWritten, Starves, Sure, Assures, SuppliesAll, Encodable, InVocabulary, Contiguous;
    hide RecoveriesValid, UniqueIds;
    assert forall i :: 0 <= i < |attempts| ==> WellSupplied(flow, sure, attempts[i].env, attempts[i].initial);
    NeverMissing(flow, sure, attempts, j);
  }

  lemma {:induction false} SureEncodable(flow: Flow)
    requires InVocabulary(flow)
    ensures Encodable(flow, Sure(flow.Nodes()))
  {}
}
