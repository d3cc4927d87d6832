/** Kahn's algorithm (src/flow/plan.ts:118-147) and its exactness. */
module KahnOrder {
  import opened Basics
  import opened FlowTypes
  import opened PlanShape
  import opened DependencyGraph

  // --------------------------------------------------------------- counting edges

  /** Occurrences of dependencies that are not done yet. */
  function Remaining(deps: seq<string>, done: set<string>): nat {
    if |deps| == 0 then 0
    else Remaining(deps[..|deps| - 1], done) + (if deps[|deps| - 1] in done then 0 else 1)
  }

  lemma {:induction false} RemainingNone(deps: seq<string>)
    ensures Remaining(deps, {}) == |deps|
  {
    if |deps| > 0 {
      RemainingNone(deps[..|deps| - 1]);
    }
  }

  lemma {:induction false} RemainingZero(deps: seq<string>, done: set<string>)
    ensures Remaining(deps, done) == 0 <==> forall d :: d in deps ==> d in done
  {
    if |deps| > 0 {
      var front, last := deps[..|deps| - 1], deps[|deps| - 1];
      assert deps == front + [last];
      RemainingZero(front, done);
    }
  }

  lemma {:induction false} RemainingDone(deps: seq<string>, done: set<string>, id: string)
    requires id !in done
    ensures Remaining(deps, done + {id}) == Remaining(deps, done) - multiset(deps)[id]
  {
    if |deps| > 0 {
      var front, last := deps[..|deps| - 1], deps[|deps| - 1];
      assert deps == front + [last];
      RemainingDone(front, done, id);
    }
  }

  /** How often nodes called `x` among the first `i` name the dependency `d`. */
  function Edges(nodes: seq<Node>, i: nat, x: string, d: string): nat
    requires i <= |nodes|
  {
    if i == 0 then 0
    else Edges(nodes, i - 1, x, d) + (if nodes[i - 1].stepId == x then multiset(nodes[i - 1].dependsOn)[d] else 0)
  }

  lemma {:induction false} EdgesUnique(nodes: seq<Node>, i: nat, j: nat, d: string)
    requires UniqueIds(nodes) && i <= |nodes| && j < |nodes|
    ensures Edges(nodes, i, nodes[j].stepId, d) == if j < i then multiset(nodes[j].dependsOn)[d] else 0
  {
    if i > 0 {
      EdgesUnique(nodes, i - 1, j, d);
    }
  }

  // -------------------------------------------------------------- the two maps

  ghost predicate CountsIndegree(nodes: seq<Node>, n: nat, indegree: map<string, int>)
    requires n <= |nodes|
  {
    && indegree.Keys == (set i | 0 <= i < n :: nodes[i].stepId)
    && (UniqueIds(nodes) ==> forall i :: 0 <= i < n ==> indegree[nodes[i].stepId] == |nodes[i].dependsOn|)
  }

  /** `dependents[d]` lists each node once per edge to the known step `d`. */
  ghost predicate CountsDependents(nodes: seq<Node>, n: nat, ids: set<string>, dependents: map<string, seq<string>>)
    requires n <= |nodes|
  {
    forall d, x :: d in ids ==> multiset(GetOr(dependents, d, []))[x] == Edges(nodes, n, x, d)
  }

  datatype Unknown = Unknown(stepId: string, dep: string)

  method CountEdges(nodes: seq<Node>, ids: set<string>)
      returns (indegree: map<string, int>, dependents: map<string, seq<string>>, unknown: seq<Unknown>)
    requires ids == Elements(StepIds(nodes))
    ensures CountsIndegree(nodes, |nodes|, indegree) && CountsDependents(nodes, |nodes|, ids, dependents)
    ensures forall u :: u in unknown <==> exists i ::
              0 <= i < |nodes| && u.stepId == nodes[i].stepId && u.dep in nodes[i].dependsOn && u.dep !in ids
  {
    indegree, dependents, unknown := map[], map[], [];
    for i := 0 to |nodes|
      invariant CountsIndegree(nodes, i, indegree) && CountsDependents(nodes, i, ids, dependents)
      invariant forall u :: u in unknown <==> exists j ::
                  0 <= j < i && u.stepId == nodes[j].stepId && u.dep in nodes[j].dependsOn && u.dep !in ids
    {
      var node := nodes[i];
      indegree := indegree[node.stepId := |node.dependsOn|];
      var more;
      dependents, more := AddDependents(nodes, i, ids, dependents);
      unknown := unknown + more;
    }
  }

  /** Within a node: the first `k` of its edges are counted too. */
  ghost predicate CountsPart(
    nodes: seq<Node>, i: nat, part: seq<string>, ids: set<string>, dependents: map<string, seq<string>>)
    requires i < |nodes|
  {
    forall d, x :: d in ids ==> (
      multiset(GetOr(dependents, d, []))[x]
          == Edges(nodes, i, x, d) + (if x == nodes[i].stepId then multiset(part)[d] else 0))
  }

  lemma {:induction false} CountOne(
    nodes: seq<Node>, i: nat, part: seq<string>, dep: string, ids: set<string>, dependents: map<string, seq<string>>)
    requires i < |nodes| && CountsPart(nodes, i, part, ids, dependents)
    ensures CountsPart(nodes, i, part + [dep], ids,
              if dep in ids then dependents[dep := GetOr(dependents, dep, []) + [nodes[i].stepId]] else dependents)
  {
    hide Edges;
    var after := if dep in ids then dependents[dep := GetOr(dependents, dep, []) + [nodes[i].stepId]] else dependents;
    forall d, x | d in ids
      ensures multiset(GetOr(after, d, []))[x]
              == Edges(nodes, i, x, d) + (if x == nodes[i].stepId then multiset(part + [dep])[d] else 0)
    {
      assert multiset(GetOr(dependents, d, []))[x]
        == Edges(nodes, i, x, d) + (if x == nodes[i].stepId then multiset(part)[d] else 0);
    }
  }

  /** The inner loop of the counting pass: the edges of one node. */
  method AddDependents(nodes: seq<Node>, i: nat, ids: set<string>, before: map<string, seq<string>>)
      returns (dependents: map<string, seq<string>>, unknown: seq<Unknown>)
    requires i < |nodes| && CountsDependents(nodes, i, ids, before)
    ensures CountsDependents(nodes, i + 1, ids, dependents)
    ensures forall u :: u in unknown <==> u.stepId == nodes[i].stepId && u.dep in nodes[i].dependsOn && u.dep !in ids
  {
    dependents, unknown := before, [];
    var deps := nodes[i].dependsOn;
    for k := 0 to |deps|
      invariant CountsPart(nodes, i, deps[..k], ids, dependents)
      invariant forall u :: u in unknown <==> u.stepId == nodes[i].stepId && u.dep in deps[..k] && u.dep !in ids
    {
      hide CountsPart;
      var dep := deps[k];
      assert deps[..k + 1] == deps[..k] + [dep];
      CountOne(nodes, i, deps[..k], dep, ids, dependents);
      if dep !in ids {
        unknown := unknown + [Unknown(nodes[i].stepId, dep)];
      } else {
        dependents := dependents[dep := GetOr(dependents, dep, []) + [nodes[i].stepId]];
      }
    }
    assert deps[..|deps|] == deps;
  }

  // ------------------------------------------------------------ the queue invariant

  ghost predicate IsStep(nodes: seq<Node>, x: string) {
    exists i :: 0 <= i < |nodes| && nodes[i].stepId == x
  }

  ghost predicate AllSteps(nodes: seq<Node>, s: seq<string>) {
    forall k :: 0 <= k < |s| ==> IsStep(nodes, s[k])
  }

  /** Every dependency of `x` is in `order`. */
  ghost predicate ReadyAfter(nodes: seq<Node>, order: seq<string>, x: string) {
    forall dep :: DependsOn(nodes, x, dep) ==> dep in order
  }

  /** The indegrees count the dependencies that are not in `order`, less what the
      current step has released so far. */
  ghost predicate Counted(nodes: seq<Node>, order: seq<string>, released: seq<string>, indegree: map<string, int>) {
    forall i :: 0 <= i < |nodes| ==> (
      && nodes[i].stepId in indegree
      && indegree[nodes[i].stepId]
         == Remaining(nodes[i].dependsOn, Elements(order)) - multiset(released)[nodes[i].stepId])
  }

  /** A step that is in none of the lists still waits for something. */
  ghost predicate OthersWait(nodes: seq<Node>, listed: seq<string>, indegree: map<string, int>) {
    forall i :: 0 <= i < |nodes| && nodes[i].stepId !in listed ==> GetOr(indegree, nodes[i].stepId, 0) > 0
  }

  /** Kahn's invariant: `order` is done, `queue` is ready, everything else waits. */
  ghost predicate Sorting(nodes: seq<Node>, order: seq<string>, queue: seq<string>, indegree: map<string, int>) {
    && Distinct(order + queue) && AllSteps(nodes, order + queue)
    && Schedule(nodes, order)
    && (forall k :: 0 <= k < |queue| ==> ReadyAfter(nodes, order, queue[k]))
    && Counted(nodes, order, [], indegree)
    && OthersWait(nodes, order + queue, indegree)
  }

  /** The invariant while the step `id` releases its dependents. */
  ghost predicate Releasing(
    nodes: seq<Node>, order: seq<string>, id: string, queue: seq<string>, released: seq<string>,
    indegree: map<string, int>)
  {
    && Distinct(order + [id] + queue) && AllSteps(nodes, order + [id] + queue)
    && Schedule(nodes, order) && ReadyAfter(nodes, order, id)
    && (forall k :: 0 <= k < |queue| ==> GetOr(indegree, queue[k], 0) == 0)
    && Counted(nodes, order, released, indegree)
    && OthersWait(nodes, order + [id] + queue, indegree)
  }

  lemma {:induction false} DependsOnUnique(nodes: seq<Node>, i: nat, d: string)
    requires UniqueIds(nodes) && i < |nodes|
    ensures DependsOn(nodes, nodes[i].stepId, d) <==> d in nodes[i].dependsOn
  {}

  lemma {:induction false} ReadyIsZero(nodes: seq<Node>, order: seq<string>, i: nat)
    requires UniqueIds(nodes) && i < |nodes|
    ensures ReadyAfter(nodes, order, nodes[i].stepId) <==> Remaining(nodes[i].dependsOn, Elements(order)) == 0
  {
    RemainingZero(nodes[i].dependsOn, Elements(order));
    forall d ensures DependsOn(nodes, nodes[i].stepId, d) <==> d in nodes[i].dependsOn {
      DependsOnUnique(nodes, i, d);
    }
  }

  /** The counts of `dependents[id]`, per node. */
  ghost predicate ListsDependents(nodes: seq<Node>, id: string, list: seq<string>) {
    && AllSteps(nodes, list)
    && forall i :: 0 <= i < |nodes| ==> multiset(list)[nodes[i].stepId] == multiset(nodes[i].dependsOn)[id]
  }

  lemma {:induction false} RemainingCovers(deps: seq<string>, done: set<string>, id: string)
    requires id !in done
    ensures multiset(deps)[id] <= Remaining(deps, done)
  {
    RemainingDone(deps, done, id);
  }

  lemma {:induction false} BeginRelease(
    nodes: seq<Node>, order: seq<string>, id: string, queue: seq<string>, indegree: map<string, int>)
    requires UniqueIds(nodes) && Sorting(nodes, order, [id] + queue, indegree)
    ensures Releasing(nodes, order, id, queue, [], indegree)
  {
    assert order + ([id] + queue) == order + [id] + queue;
    assert ([id] + queue)[0] == id;
    forall k | 0 <= k < |queue|
      ensures GetOr(indegree, queue[k], 0) == 0
    {
      assert ([id] + queue)[k + 1] == queue[k];
      assert (order + ([id] + queue))[|order| + 1 + k] == queue[k];
      var i :| 0 <= i < |nodes| && nodes[i].stepId == queue[k];
      ReadyIsZero(nodes, order, i);
    }
  }

  /** A released step was waiting: it is in none of the lists. */
  lemma {:induction false} ReleasedWaits(
    nodes: seq<Node>, order: seq<string>, id: string, queue: seq<string>, released: seq<string>,
    indegree: map<string, int>, i: nat)
    requires UniqueIds(nodes) && i < |nodes| && Releasing(nodes, order, id, queue, released, indegree)
    requires multiset(released)[nodes[i].stepId] < multiset(nodes[i].dependsOn)[id]
    ensures indegree[nodes[i].stepId] > 0 && nodes[i].stepId !in order + [id] + queue
  {
    var x := nodes[i].stepId;
    var all := order + [id] + queue;
    assert id !in order by {
      assert all[|order|] == id;
      forall k | 0 <= k < |order| ensures order[k] != id { assert all[k] == order[k]; }
    }
    RemainingCovers(nodes[i].dependsOn, Elements(order), id);
    ReadyIsZero(nodes, order, i);
  }

  /** One turn of the releasing loop. */
  lemma {:induction false} ReleaseOne(nodes: seq<Node>, order: seq<string>, id: string, queue: seq<string>,
      released: seq<string>,
                                      indegree: map<string, int>, i: nat, after: map<string, int>, longer: seq<string>)
    requires UniqueIds(nodes) && i < |nodes| && Releasing(nodes, order, id, queue, released, indegree)
    requires multiset(released)[nodes[i].stepId] < multiset(nodes[i].dependsOn)[id]
    requires after == indegree[nodes[i].stepId := indegree[nodes[i].stepId] - 1]
    requires longer == if after[nodes[i].stepId] == 0 then queue + [nodes[i].stepId] else queue
    ensures Releasing(nodes, order, id, longer, released + [nodes[i].stepId], after)
  {
    hide Remaining, Schedule, ReadyAfter, DependsOn;
    var x := nodes[i].stepId;
    ReleasedWaits(nodes, order, id, queue, released, indegree, i);
    assert IsStep(nodes, x);
    assert Counted(nodes, order, released + [x], after) by {
      forall j | 0 <= j < |nodes|
        ensures nodes[j].stepId in after
        ensures after[nodes[j].stepId]
                == Remaining(nodes[j].dependsOn, Elements(order)) - multiset(released + [x])[nodes[j].stepId]
      {
        assert nodes[j].stepId == x <==> j == i;
      }
    }
    AppendListed(nodes, order + [id] + queue, x);
    assert order + [id] + (queue + [x]) == order + [id] + queue + [x];
    forall k | 0 <= k < |queue| ensures queue[k] != x { assert (order + [id] + queue)[|order| + 1 + k] == queue[k]; }
  }

  lemma {:induction false} AppendListed(nodes: seq<Node>, listed: seq<string>, x: string)
    requires Distinct(listed) && AllSteps(nodes, listed) && x !in listed && IsStep(nodes, x)
    ensures Distinct(listed + [x]) && AllSteps(nodes, listed + [x])
  {
    hide IsStep;
    var longer := listed + [x];
    forall k | 0 <= k < |longer| ensures IsStep(nodes, longer[k]) {
      if k < |listed| {
        assert IsStep(nodes, listed[k]);
      }
    }
  }

  lemma {:induction false} EndRelease(
    nodes: seq<Node>, order: seq<string>, id: string, queue: seq<string>, list: seq<string>,
    indegree: map<string, int>)
    requires UniqueIds(nodes) && Releasing(nodes, order, id, queue, list, indegree) && ListsDependents(nodes, id, list)
    ensures Sorting(nodes, order + [id], queue, indegree)
  {
    var all := order + [id] + queue;
    assert id !in order by {
      assert all[|order|] == id;
      forall k | 0 <= k < |order| ensures order[k] != id { assert all[k] == order[k]; }
    }
    assert Elements(order + [id]) == Elements(order) + {id};
    forall i | 0 <= i < |nodes|
      ensures indegree[nodes[i].stepId] == Remaining(nodes[i].dependsOn, Elements(order + [id]))
    {
      RemainingDone(nodes[i].dependsOn, Elements(order), id);
    }
    ScheduleGrows(nodes, order, id);
    forall k | 0 <= k < |queue|
      ensures ReadyAfter(nodes, order + [id], queue[k])
    {
      assert all[|order| + 1 + k] == queue[k];
      var i :| 0 <= i < |nodes| && nodes[i].stepId == queue[k];
      ReadyIsZero(nodes, order + [id], i);
    }
  }

  lemma {:induction false} ScheduleGrows(nodes: seq<Node>, order: seq<string>, id: string)
    requires Schedule(nodes, order) && ReadyAfter(nodes, order, id)
    ensures Schedule(nodes, order + [id])
  {
    var longer := order + [id];
    forall k, dep | 0 <= k < |longer| && DependsOn(nodes, longer[k], dep)
      ensures dep in longer[..k]
    {
      if k < |order| {
        assert longer[k] == order[k] && longer[..k] == order[..k];
      } else {
        assert longer[..k] == order;
      }
    }
  }

  // ----------------------------------------------------------------- the algorithm

  function Positive(indegree: map<string, int>): set<string> {
    set x | x in indegree && indegree[x] > 0
  }

  /** Decrement the indegree of every dependent of `id`; those that reach zero are queued. */
  method Release(
    nodes: seq<Node>, ghost order: seq<string>, id: string, list: seq<string>, waiting: seq<string>,
    counts: map<string, int>)
      returns (queue: seq<string>, indegree: map<string, int>)
    requires UniqueIds(nodes) ==> Sorting(nodes, order, [id] + waiting, counts) && ListsDependents(nodes, id, list)
    ensures |queue| + |Positive(indegree)| <= |waiting| + |Positive(counts)|
    ensures UniqueIds(nodes) ==> Sorting(nodes, order + [id], queue, indegree)
  {
    hide UniqueIds, Sorting, Releasing, ListsDependents;
    queue, indegree := waiting, counts;
    if UniqueIds(nodes) {
      BeginRelease(nodes, order, id, queue, indegree);
    }
    for k := 0 to |list|
      invariant |queue| + |Positive(indegree)| <= |waiting| + |Positive(counts)|
      invariant UniqueIds(nodes) ==> Releasing(nodes, order, id, queue, list[..k], indegree)
    {
      var dependent := list[k];
      assert list[..k + 1] == list[..k] + [dependent];
      var next := GetOr(indegree, dependent, 0) - 1;
      ghost var i := 0;
      if UniqueIds(nodes) {
        i := StillOwed(nodes, id, list, k);
        ReleasedWaits(nodes, order, id, queue, list[..k], indegree, i);
        ReleaseOne(nodes, order, id, queue, list[..k], indegree, i, indegree[dependent := next],
                   if next == 0 then queue + [dependent] else queue) by {
          hide Positive;
          ReleasingCounts(nodes, order, id, queue, list[..k], indegree, i);
        }
      }
      PositiveDrops(indegree, dependent);
      indegree := indegree[dependent := next];
      if next == 0 {
        queue := queue + [dependent];
      }
    }
    assert list[..|list|] == list;
    if UniqueIds(nodes) {
      EndRelease(nodes, order, id, queue, list, indegree);
    }
  }

  lemma {:induction false} ReleasingCounts(
    nodes: seq<Node>, order: seq<string>, id: string, queue: seq<string>, released: seq<string>,
    indegree: map<string, int>, i: nat)
    requires Releasing(nodes, order, id, queue, released, indegree) && i < |nodes|
    ensures nodes[i].stepId in indegree
  {}

  /** The k-th listed dependent has not been released as often as it has edges. */
  lemma {:induction false} StillOwed(nodes: seq<Node>, id: string, list: seq<string>, k: nat) returns (i: nat)
    requires ListsDependents(nodes, id, list) && k < |list|
    ensures i < |nodes| && nodes[i].stepId == list[k]
    ensures multiset(list[..k])[nodes[i].stepId] < multiset(nodes[i].dependsOn)[id]
  {
    assert IsStep(nodes, list[k]);
    i :| 0 <= i < |nodes| && nodes[i].stepId == list[k];
    assert list == list[..k] + [list[k]] + list[k + 1..];
  }

  lemma {:induction false} PositiveDrops(indegree: map<string, int>, x: string)
    ensures var next := GetOr(indegree, x, 0) - 1;
      |Positive(indegree[x := next])| + (if next == 0 then 1 else 0) <= |Positive(indegree)|
  {
    var next := GetOr(indegree, x, 0) - 1;
    var after := Positive(indegree[x := next]);
    if next == 0 {
      assert after == Positive(indegree) - {x};
    } else if next > 0 {
      assert after == Positive(indegree);
    } else {
      assert after == Positive(indegree);
    }
  }

  /** The names stand among the first `n` nodes, in their order. */
  ghost predicate InPlanOrder(nodes: seq<Node>, queue: seq<string>, n: nat) {
    && (forall a :: 0 <= a < |queue| ==> IndexOf(nodes, queue[a]).Some? && IndexOf(nodes, queue[a]).value < n)
    && forall a, b :: 0 <= a < b < |queue| ==> IndexOf(nodes, queue[a]).value < IndexOf(nodes, queue[b]).value
  }

  lemma {:induction false} PlanOrderGrows(nodes: seq<Node>, queue: seq<string>, i: nat)
    requires UniqueIds(nodes) && i < |nodes| && InPlanOrder(nodes, queue, i)
    ensures InPlanOrder(nodes, queue, i + 1) && InPlanOrder(nodes, queue + [nodes[i].stepId], i + 1)
  {
    IndexOfUnique(nodes, i);
    hide IndexOf;
  }

  /** The steps whose indegree is zero, in plan order. */
  method InitialQueue(nodes: seq<Node>, indegree: map<string, int>) returns (queue: seq<string>)
    requires CountsIndegree(nodes, |nodes|, indegree)
    ensures forall i :: 0 <= i < |nodes| ==> nodes[i].stepId in indegree
    ensures forall i :: 0 <= i < |nodes| ==> (nodes[i].stepId in queue <==> indegree[nodes[i].stepId] == 0)
    ensures UniqueIds(nodes) ==> InPlanOrder(nodes, queue, |nodes|) && Sorting(nodes, [], queue, indegree)
  {
    forall i | 0 <= i < |nodes| ensures nodes[i].stepId in indegree { CountedKey(nodes, indegree, i); }
    queue := [];
    for i := 0 to |nodes|
      invariant UniqueIds(nodes) ==> InPlanOrder(nodes, queue, i)
      invariant forall k :: 0 <= k < |queue| ==> queue[k] in indegree && indegree[queue[k]] == 0
      invariant AllSteps(nodes[..i], queue)
      invariant UniqueIds(nodes) ==> Distinct(queue)
      invariant forall j :: 0 <= j < i && nodes[j].stepId !in queue ==> indegree[nodes[j].stepId] != 0
    {
      hide UniqueIds, AllSteps, IsStep, CountsIndegree, InPlanOrder;
      if UniqueIds(nodes) {
        PlanOrderGrows(nodes, queue, i);
      }
      AllStepsGrow(nodes, i, queue);
      if indegree[nodes[i].stepId] == 0 {
        if UniqueIds(nodes) {
          NotYetListed(nodes, i, queue);
        }
        ListNode(nodes, i, queue);
        queue := queue + [nodes[i].stepId];
      }
    }
    if UniqueIds(nodes) {
      assert nodes[..|nodes|] == nodes;
      StartSorting(nodes, queue, indegree);
    }
  }

  lemma {:induction false} CountedKey(nodes: seq<Node>, indegree: map<string, int>, i: nat)
    requires CountsIndegree(nodes, |nodes|, indegree) && i < |nodes|
    ensures nodes[i].stepId in indegree
  {}

  lemma {:induction false} ListNode(nodes: seq<Node>, i: nat, queue: seq<string>)
    requires i < |nodes| && AllSteps(nodes[..i + 1], queue)
    ensures AllSteps(nodes[..i + 1], queue + [nodes[i].stepId])
  {
    var longer := queue + [nodes[i].stepId];
    forall k | 0 <= k < |longer| ensures IsStep(nodes[..i + 1], longer[k]) {
      if k == |queue| {
        assert nodes[..i + 1][i].stepId == longer[k];
      } else {
        assert IsStep(nodes[..i + 1], queue[k]);
      }
    }
  }

  lemma {:induction false} AllStepsGrow(nodes: seq<Node>, i: nat, queue: seq<string>)
    requires i < |nodes| && AllSteps(nodes[..i], queue)
    ensures AllSteps(nodes[..i + 1], queue)
  {
    forall k | 0 <= k < |queue| ensures IsStep(nodes[..i + 1], queue[k]) {
      var j :| 0 <= j < |nodes[..i]| && nodes[..i][j].stepId == queue[k];
      assert nodes[..i + 1][j].stepId == queue[k];
    }
  }

  lemma {:induction false} NotYetListed(nodes: seq<Node>, i: nat, queue: seq<string>)
    requires UniqueIds(nodes) && i < |nodes| && AllSteps(nodes[..i], queue)
    ensures nodes[i].stepId !in queue
  {
    forall k | 0 <= k < |queue| ensures queue[k] != nodes[i].stepId {
      var j :| 0 <= j < |nodes[..i]| && nodes[..i][j].stepId == queue[k];
    }
  }

  lemma {:induction false} StartSorting(nodes: seq<Node>, queue: seq<string>, indegree: map<string, int>)
    requires UniqueIds(nodes) && CountsIndegree(nodes, |nodes|, indegree)
    requires Distinct(queue) && AllSteps(nodes, queue)
    requires forall k :: 0 <= k < |queue| ==> queue[k] in indegree && indegree[queue[k]] == 0
    requires forall j :: 0 <= j < |nodes| && nodes[j].stepId !in queue ==> indegree[nodes[j].stepId] != 0
    ensures Sorting(nodes, [], queue, indegree)
  {
    assert [] + queue == queue;
    forall i | 0 <= i < |nodes|
      ensures nodes[i].stepId in indegree && indegree[nodes[i].stepId] == Remaining(nodes[i].dependsOn, Elements([]))
    {
      assert Elements<string>([]) == {};
      RemainingNone(nodes[i].dependsOn);
    }
    forall k | 0 <= k < |queue|
      ensures ReadyAfter(nodes, [], queue[k])
    {
      var i :| 0 <= i < |nodes| && nodes[i].stepId == queue[k];
      ReadyIsZero(nodes, [], i);
    }
  }

  /** Run the queue dry. */
  method Sort(nodes: seq<Node>, ids: set<string>, counts: map<string, int>, dependents: map<string, seq<string>>)
      returns (ghost order: seq<string>, visited: nat, indegree: map<string, int>)
    requires ids == Elements(StepIds(nodes))
    requires CountsIndegree(nodes, |nodes|, counts) && CountsDependents(nodes, |nodes|, ids, dependents)
    ensures UniqueIds(nodes) ==> Sorting(nodes, order, [], indegree) && visited == |order|
  {
    indegree := counts;
    var queue := InitialQueue(nodes, indegree);
    order, visited := [], 0;
    while |queue| > 0
      invariant UniqueIds(nodes) ==> Sorting(nodes, order, queue, indegree) && visited == |order|
      decreases |queue| + |Positive(indegree)|
    {
      hide UniqueIds, Sorting, CountsDependents, CountsIndegree;
      var id, rest := queue[0], queue[1..];
      assert queue == [id] + rest;
      if UniqueIds(nodes) {
        HeadIsStep(nodes, order, queue, indegree);
        ListedDependents(nodes, ids, dependents, id);
      }
      visited := visited + 1;
      queue, indegree := Release(nodes, order, id, GetOr(dependents, id, []), rest, indegree);
      order := order + [id];
    }
    assert queue == [];
  }

  lemma {:induction false} HeadIsStep(
    nodes: seq<Node>, order: seq<string>, queue: seq<string>, indegree: map<string, int>)
    requires Sorting(nodes, order, queue, indegree) && |queue| > 0
    ensures IsStep(nodes, queue[0])
  {
    assert (order + queue)[|order|] == queue[0];
  }

  lemma {:induction false} ListedDependents(
    nodes: seq<Node>, ids: set<string>, dependents: map<string, seq<string>>, id: string)
    requires UniqueIds(nodes) && ids == Elements(StepIds(nodes)) && CountsDependents(nodes, |nodes|, ids, dependents)
    requires IsStep(nodes, id)
    ensures ListsDependents(nodes, id, GetOr(dependents, id, []))
  {
    var list := GetOr(dependents, id, []);
    var m :| 0 <= m < |nodes| && nodes[m].stepId == id;
    assert StepIds(nodes)[m] == id;
    forall i | 0 <= i < |nodes|
      ensures multiset(list)[nodes[i].stepId] == multiset(nodes[i].dependsOn)[id]
    {
      EdgesUnique(nodes, |nodes|, i, id);
    }
    forall k | 0 <= k < |list|
      ensures IsStep(nodes, list[k])
    {
      assert multiset(list)[list[k]] > 0;
      EdgeHasStep(nodes, |nodes|, list[k], id);
    }
  }

  lemma {:induction false} EdgeHasStep(nodes: seq<Node>, i: nat, x: string, d: string)
    requires i <= |nodes| && Edges(nodes, i, x, d) > 0
    ensures IsStep(nodes, x)
  {
    if nodes[i - 1].stepId != x {
      EdgeHasStep(nodes, i - 1, x, d);
    }
  }

  // --------------------------------------------------------------------- exactness

  /** The steps on or downstream of a cycle, in plan order. */
  ghost function TaintedSteps(nodes: seq<Node>, n: nat): seq<string>
    requires n <= |nodes|
  {
    if n == 0 then []
    else
      var rest, id := TaintedSteps(nodes, n - 1), nodes[n - 1].stepId;
      if Tainted(nodes, id) then rest + [id] else rest
  }

  /** After sorting, what has no place in the order is exactly what is tainted. */
  lemma {:induction false} SortedExactly(nodes: seq<Node>, order: seq<string>, indegree: map<string, int>, i: nat)
    requires UniqueIds(nodes) && DepsKnown(nodes) && Sorting(nodes, order, [], indegree) && i < |nodes|
    ensures nodes[i].stepId in indegree
    ensures indegree[nodes[i].stepId] > 0 <==> Tainted(nodes, nodes[i].stepId)
    ensures nodes[i].stepId in order <==> !Tainted(nodes, nodes[i].stepId)
  {
    assert order + [] == order;
    var x := nodes[i].stepId;
    ReadyIsZero(nodes, order, i);
    if x in order {
      ScheduledUntainted(nodes, order, x);
      InOrderIsReady(nodes, order, x);
    } else {
      var rest := set j | 0 <= j < |nodes| && nodes[j].stepId !in order :: nodes[j].stepId;
      assert Stuck(nodes, rest) by { WaitingIsStuck(nodes, order, indegree, rest); }
      StuckTainted(nodes, rest, x);
    }
  }

  lemma {:induction false} InOrderIsReady(nodes: seq<Node>, order: seq<string>, x: string)
    requires Schedule(nodes, order) && x in order
    ensures ReadyAfter(nodes, order, x)
  {
    var k :| 0 <= k < |order| && order[k] == x;
    forall dep | DependsOn(nodes, x, dep) ensures dep in order {
      assert dep in order[..k];
    }
  }

  /** Whatever still waits depends on something that still waits. */
  lemma {:induction false} WaitingIsStuck(
    nodes: seq<Node>, order: seq<string>, indegree: map<string, int>, rest: set<string>)
    requires UniqueIds(nodes) && DepsKnown(nodes) && Sorting(nodes, order, [], indegree)
    requires rest == set j | 0 <= j < |nodes| && nodes[j].stepId !in order :: nodes[j].stepId
    ensures Stuck(nodes, rest)
  {
    assert order + [] == order;
    forall x | x in rest
      ensures exists y :: y in rest && DependsOn(nodes, x, y)
    {
      var i :| 0 <= i < |nodes| && nodes[i].stepId !in order && nodes[i].stepId == x;
      RemainingZero(nodes[i].dependsOn, Elements(order));
      var y :| y in nodes[i].dependsOn && y !in Elements(order);
      assert DependsOn(nodes, x, y);
      assert y in StepIds(nodes);
      var m :| 0 <= m < |StepIds(nodes)| && StepIds(nodes)[m] == y;
      assert nodes[m].stepId == y;
    }
  }

  /** `visited` falls short exactly when some step is tainted. */
  lemma {:induction false} VisitedExactly(nodes: seq<Node>, order: seq<string>, indegree: map<string, int>)
    requires UniqueIds(nodes) && DepsKnown(nodes) && Sorting(nodes, order, [], indegree)
    ensures |order| < |nodes| <==> !Acyclic(nodes)
  {
    assert order + [] == order;
    var ids, done := Elements(StepIds(nodes)), Elements(order);
    DistinctSize(order);
    DistinctSize(StepIds(nodes)) by {
      forall i, j | 0 <= i < j < |StepIds(nodes)| ensures StepIds(nodes)[i] != StepIds(nodes)[j] {
        assert nodes[i].stepId != nodes[j].stepId;
      }
    }
    assert done <= ids by {
      forall x | x in done ensures x in ids {
        var k :| 0 <= k < |order| && order[k] == x;
        assert IsStep(nodes, order[k]);
        var m :| 0 <= m < |nodes| && nodes[m].stepId == x;
        assert StepIds(nodes)[m] == x;
      }
    }
    if Acyclic(nodes) {
      forall x | x in ids ensures x in done {
        var m :| 0 <= m < |StepIds(nodes)| && StepIds(nodes)[m] == x;
        SortedExactly(nodes, order, indegree, m);
        AcyclicUntainted(nodes, nodes[m].stepId);
      }
      assert done == ids;
    } else {
      var i :| 0 <= i < |nodes| && OnCycle(nodes, nodes[i].stepId);
      CycleTainted(nodes, nodes[i].stepId);
      SortedExactly(nodes, order, indegree, i);
      assert StepIds(nodes)[i] in ids && StepIds(nodes)[i] !in done;
      SmallerSet(done, ids, StepIds(nodes)[i]);
    }
  }

  lemma {:induction false} SmallerSet(a: set<string>, b: set<string>, x: string)
    requires a <= b && x in b && x !in a
    ensures |a| < |b|
  {
    assert a <= b - {x};
    SubsetSize(a, b - {x});
  }

  lemma {:induction false} SubsetSize(a: set<string>, b: set<string>)
    requires a <= b
    ensures |a| <= |b|
  {
    assert b == a + (b - a);
  }

  lemma {:induction false} DistinctSize(s: seq<string>)
    requires Distinct(s)
    ensures |Elements(s)| == |s|
  {
    if |s| > 0 {
      var front, last := s[..|s| - 1], s[|s| - 1];
      DistinctSize(front);
      assert s == front + [last];
      assert Elements(s) == Elements(front) + {last};
    }
  }

  /** The cycle violation: absent for acyclic plans, and otherwise the list of exactly
      the steps on or downstream of a cycle. */
  method FindCycle(nodes: seq<Node>, ids: set<string>, indegree: map<string, int>, dependents: map<string, seq<string>>)
      returns (cycle: Option<seq<string>>)
    requires ids == Elements(StepIds(nodes))
    requires CountsIndegree(nodes, |nodes|, indegree) && CountsDependents(nodes, |nodes|, ids, dependents)
    ensures UniqueIds(nodes) && DepsKnown(nodes) ==> (cycle.Some? <==> !Acyclic(nodes))
    ensures UniqueIds(nodes) && DepsKnown(nodes) && cycle.Some? ==> cycle.value == TaintedSteps(nodes, |nodes|)
  {
    hide Sorting, CountsIndegree, CountsDependents, UniqueIds, DepsKnown, Acyclic, Tainted, Elements, StepIds;
    var order, visited, left := Sort(nodes, ids, indegree, dependents);
    if UniqueIds(nodes) && DepsKnown(nodes) {
      VisitedExactly(nodes, order, left);
    }
    if visited >= |nodes| {
      return None;
    }
    var cyclic: seq<string> := [];
    for i := 0 to |nodes|
      invariant UniqueIds(nodes) && DepsKnown(nodes) ==> cyclic == TaintedSteps(nodes, i)
    {
      if UniqueIds(nodes) && DepsKnown(nodes) {
        SortedExactly(nodes, order, left, i);
      }
      if GetOr(left, nodes[i].stepId, 0) > 0 {
        cyclic := cyclic + [nodes[i].stepId];
      }
    }
    return Some(cyclic);
  }
}
