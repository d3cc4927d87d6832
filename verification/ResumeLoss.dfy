/** When crash and resume preserve meaning (src/flow/run.ts:191-232, 405-454): exactly when
    every key that is provided and live at a boundary that can be restored has a true
    codec. A redacting codec is not one. */
module ResumeLoss {
  import opened Basics
  import opened JsonValues
  import opened FlowTypes
  import opened PlanShape
  import opened FlowFold
  import opened FlowLease
  import opened FlowSteps
  import opened FlowTermination
  import opened FlowNeeds
  import opened FlowReturn
  import opened FlowResume
  import Redaction

  /** A validated flow without recovery edges. */
  ghost predicate Straight(flow: Flow) {
    && Runnable(flow)
    && RecoveryFree(flow.Nodes())
    && NeedsMet(flow.Nodes(), flow.initialKeys)
    && InVocabulary(flow)
    && Elements(StepIds(flow.Nodes())) <= flow.registered
  }

  /** Leases of one operation that obey a law, and an undisturbed run under it. */
  ghost predicate Operated(c: Course, calm: Env, attempts: seq<Attempt>) {
    && LawfulSteps(c)
    && SawOnlyWritten(c.flow, attempts) && SameCourse(c, attempts)
    && Obeys(calm, c.law) && Calm(calm)
  }

  /** Every lease that succeeds has the output of the undisturbed run. */
  ghost predicate SameOutputs(c: Course, calm: Env, attempts: seq<Attempt>)
    requires Runnable(c.flow)
  {
    forall j :: 0 <= j < |attempts| ==>
      var r := RunFlow(c.flow, attempts[j].env, attempts[j].initial, attempts[j].resume, attempts[j].seen);
      r.Succeeded? ==> r.final.state == RunFlow(c.flow, calm, c.initial, false, []).final.state
  }

  /** The promise of resume: whatever the steps compute, whatever the state at the start,
      however often the operation crashes. */
  ghost predicate Preserves(flow: Flow)
    requires Runnable(flow)
  {
    forall c: Course, calm: Env, attempts: seq<Attempt> :: c.flow == flow && Operated(c, calm, attempts) ==>
      SameOutputs(c, calm, attempts)
  }

  // --------------------------------------------------------------- an undisturbed world

  function CalmEnv(law: Law): Env {
    Env((n: nat, stepId: string, input: State, token: Option<string>) =>
          Returned(StepOutcome(law(stepId, input), None, [], None)),
        (n: nat, segment: string) => None, (n: nat) => true, true)
  }

  /** The state at node `j` of a run that is in state `s` at node `i`. */
  function Later(nodes: seq<Node>, law: Law, s: State, i: nat, j: nat): State
    requires i <= j <= |nodes|
    decreases j - i
  {
    if i == j then s
    else
      var before := Later(nodes, law, s, i, j - 1);
      before + law(nodes[j - 1].stepId, Inputs(nodes[j - 1].needs, before))
  }

  lemma {:induction false} IdealLater(nodes: seq<Node>, law: Law, initial: State, i: nat, j: nat)
    requires i <= j <= |nodes|
    ensures Later(nodes, law, Ideal(nodes, law, initial, i), i, j) == Ideal(nodes, law, initial, j)
    decreases j - i
  {
    if i < j {
      IdealLater(nodes, law, initial, i, j - 1);
    }
  }

  /** In an undisturbed world a node that is reached completes. */
  lemma {:induction false} Completes(flow: Flow, law: Law, f: Fold)
    requires Straight(flow) && Steady(flow, f) && f.index < |flow.Nodes()| && f.open.Some?
    ensures RunNode(flow, CalmEnv(law), f).Advanced? && f.open == Some(flow.Nodes()[f.index].segment)
    ensures var node := flow.Nodes()[f.index];
      Answer(CalmEnv(law), f, node)
          == Returned(StepOutcome(law(node.stepId, Inputs(node.needs, f.state)), None, [], None))
  {
    var nodes := flow.Nodes();
    hide ExecutionBound, Contiguous, UniqueIds, Prior;
    assert StepIds(nodes)[f.index] == nodes[f.index].stepId;
    PriorMeets(nodes, flow.initialKeys);
    ReachesOrOther(flow, Prior(nodes), f);
    CallBounded(nodes, f, ExecutionBound(nodes));
    assert Reaches(flow, f, nodes[f.index]);
    hide Reaches, Supplied, Bounded;
    StepOnTrack(flow, CalmEnv(law), f);
  }

  /** One node further. */
  lemma {:induction false} OneOn(flow: Flow, law: Law, f: Fold) returns (g: Fold)
    requires Straight(flow) && ExactSupplies(flow.Nodes(), law)
    requires Steady(flow, f) && f.index < |flow.Nodes()| && f.open.Some?
    ensures Drive(flow, CalmEnv(law), f) == Drive(flow, CalmEnv(law), g)
    ensures Steady(flow, g) && g.index == f.index + 1
    ensures var node := flow.Nodes()[f.index];
      && g.state == f.state + law(node.stepId, Inputs(node.needs, f.state))
      && g.provided == f.provided + Elements(node.supplies)
    ensures RunNode(flow, CalmEnv(law), f).next.log <= g.log
  {
    hide RunNode, Drive, MoveTo, Steady, ExecutionBound, Contiguous, UniqueIds, NeedsMet, InVocabulary;
    hide RecoveryFree, Reaches, EncodeDelta, SegmentEnd, CalmEnv, Inputs;
    var env, nodes := CalmEnv(law), flow.Nodes();
    Completes(flow, law, f);
    DriveAdvances(flow, env, f);
    var h := RunNode(flow, env, f).next;
    g := MoveTo(nodes, h, f.index + 1);
    StepAdvance(flow, env, f);
    MoveKeeps(nodes, h, f.index + 1);
    WalkSteady(flow, env, f, g);
  }

  /** An undisturbed run reaches every later node with the state the law says. */
  lemma {:induction false} WalkOn(flow: Flow, law: Law, f: Fold, j: nat) returns (g: Fold)
    requires Straight(flow) && ExactSupplies(flow.Nodes(), law)
    requires Steady(flow, f) && f.index <= j <= |flow.Nodes()|
    ensures Drive(flow, CalmEnv(law), f) == Drive(flow, CalmEnv(law), g)
    ensures Steady(flow, g) && g.index == j && g.state == Later(flow.Nodes(), law, f.state, f.index, j)
    ensures f.provided == ProvidedBefore(flow.Nodes(), f.index) ==> g.provided == ProvidedBefore(flow.Nodes(), j)
    decreases j - f.index
  {
    hide RunNode, Drive, Steady, ExecutionBound, Contiguous, UniqueIds, NeedsMet, InVocabulary, RecoveryFree;
    hide RecoveriesValid, ExactSupplies, Inputs;
    var nodes := flow.Nodes();
    g := f;
    if f.index < j {
      g := WalkOn(flow, law, f, j - 1);
      g := Opens(flow, law, g);
      g := OneOn(flow, law, g);
    }
  }

  lemma {:induction false} Opens(flow: Flow, law: Law, f: Fold) returns (g: Fold)
    requires Runnable(flow) && Steady(flow, f) && f.index < |flow.Nodes()|
    ensures Drive(flow, CalmEnv(law), f) == Drive(flow, CalmEnv(law), g)
    ensures Steady(flow, g) && g.open.Some? && g.index == f.index && g.state == f.state && g.provided == f.provided
  {
    g := f;
    if f.open.None? {
      hide Drive, Steady, Runnable;
      DriveClosed(flow, CalmEnv(law), f);
      EnterSteady(flow, f);
      g := Enter(f, flow.Nodes()[f.index].segment);
    }
  }

  /** It finishes there. */
  lemma {:induction false} Arrives(flow: Flow, law: Law, f: Fold)
    requires Straight(flow) && ExactSupplies(flow.Nodes(), law) && Steady(flow, f) && f.index <= |flow.Nodes()|
    ensures var o := Drive(flow, CalmEnv(law), f);
      o.Finished? && o.final.state == Later(flow.Nodes(), law, f.state, f.index, |flow.Nodes()|)
  {
    hide Drive, Steady, ExactSupplies, Later;
    var g := WalkOn(flow, law, f, |flow.Nodes()|);
    DriveDone(flow, CalmEnv(law), g);
  }

  /** The undisturbed run of an operation. */
  lemma {:induction false} Undisturbed(c: Course)
    requires LawfulSteps(c) && Straight(c.flow)
    ensures var r := RunFlow(c.flow, CalmEnv(c.law), c.initial, false, []);
      r.Succeeded? && r.final.state == Destination(c)
  {
    hide Drive, RunFlow, Steady, ExactSupplies, Budgets, NeedsMet, InVocabulary, RecoveryFree, Contiguous;
    hide RecoveriesValid, UniqueIds, ReplayGuard, Ideal;
    var flow, nodes, f := c.flow, c.flow.Nodes(), Fresh(c.flow, c.initial);
    LeaseCases(flow, CalmEnv(c.law), c.initial, false, []);
    FreshSteady(flow, CalmEnv(c.law), c.initial);
    Arrives(flow, c.law, f);
    assert Ideal(nodes, c.law, c.initial, 0) == c.initial by { IdealStart(c); }
    IdealLater(nodes, c.law, c.initial, 0, |nodes|);
  }

  lemma {:induction false} IdealStart(c: Course)
    ensures Ideal(c.flow.Nodes(), c.law, c.initial, 0) == c.initial
  {}

  // --------------------------------------------------- a lease behind a restored boundary

  /** The row of a boundary in front of node `i`, as an undisturbed run journals it. */
  ghost predicate BoundaryRow(c: Course, i: nat, row: Row)
    requires 0 < i <= |c.flow.Nodes()|
  {
    var nodes := c.flow.Nodes();
    && row.status == Completed && row.stepId == nodes[i - 1].stepId
    && row.stateDelta == EncodeDelta(c.flow, ProvidedBefore(nodes, i), Ideal(nodes, c.law, c.initial, i))
  }

  function FirstLease(c: Course): Attempt {
    Attempt(CalmEnv(c.law), c.initial, false, [])
  }

  lemma {:induction false} Journaled(c: Course, i: nat) returns (row: Row)
    requires LawfulSteps(c) && Straight(c.flow) && 0 < i <= |c.flow.Nodes()| && SegmentEnd(c.flow.Nodes(), i - 1)
    ensures BoundaryRow(c, i, row) && Wrote(c.flow, FirstLease(c), row)
  {
    hide RunNode, Drive, RunFlow, Steady, ExactSupplies, Budgets, NeedsMet, InVocabulary, RecoveryFree, Contiguous;
    hide RecoveriesValid, UniqueIds, ReplayGuard, SegmentEnd, EncodeDelta, CalmEnv, Inputs, Reaches;
    var flow, nodes, env := c.flow, c.flow.Nodes(), CalmEnv(c.law);
    LeaseCases(flow, env, c.initial, false, []);
    var f := Fresh(flow, c.initial);
    FreshSteady(flow, env, c.initial);
    Arrives(flow, c.law, f);
    var g := WalkOn(flow, c.law, f, i - 1);
    g := Opens(flow, c.law, g);
    IdealLater(nodes, c.law, c.initial, 0, i - 1);
    IdealStart(c);
    row := BoundaryWritten(c, g, i);
    assert Drive(flow, env, f) == Drive(flow, env, g);
    assert Append(row, env.append(g.appends + 1)) in RunFlow(flow, env, c.initial, false, []).final.log;
  }

  lemma {:induction false} BoundaryWritten(c: Course, f: Fold, i: nat) returns (row: Row)
    requires LawfulSteps(c) && Straight(c.flow) && 0 < i <= |c.flow.Nodes()| && SegmentEnd(c.flow.Nodes(), i - 1)
    requires Steady(c.flow, f) && f.index == i - 1 && f.open.Some?
    requires f.state == Ideal(c.flow.Nodes(), c.law, c.initial, i - 1)
    requires f.provided == ProvidedBefore(c.flow.Nodes(), i - 1)
    ensures BoundaryRow(c, i, row)
    ensures Append(row, CalmEnv(c.law).append(f.appends + 1)) in Drive(c.flow, CalmEnv(c.law), f).final.log
  {
    hide RunNode, Drive, ExactSupplies, NeedsMet, InVocabulary, RecoveryFree, Contiguous, UniqueIds, SegmentEnd;
    hide EncodeDelta, CalmEnv, Inputs, Reaches, ExecutionBound, Steady;
    var flow, env := c.flow, CalmEnv(c.law);
    Completes(flow, c.law, f);
    StepAdvance(flow, env, f);
    StepLog(flow, env, f);
    var log := RunNode(flow, env, f).next.log;
    row := log[|f.log| + 2].row;
    var g := OneOn(flow, c.law, f);
    assert Steady(flow, g);
    DriveGrows(flow, env, g) by { SteadyOpen(flow, g); }
    var all := Drive(flow, env, g).final.log;
    assert log <= all;
    assert all[|f.log| + 2] == Append(row, env.append(f.appends + 1));
  }

  lemma {:induction false} SteadyOpen(flow: Flow, f: Fold)
    requires Steady(flow, f)
    ensures f.open.Some? ==> f.index < |flow.Nodes()| && f.open == Some(flow.Nodes()[f.index].segment)
  {}

  /** The fold of a lease that sees just that row. */
  function Resumed(c: Course, row: Row): Fold {
    Hydrate(c.flow, CalmEnv(c.law), Fresh(c.flow, c.initial), [row])
  }

  lemma {:induction false} ResumedAt(c: Course, i: nat, row: Row)
    requires LawfulSteps(c) && Straight(c.flow) && 0 < i <= |c.flow.Nodes()| && SegmentEnd(c.flow.Nodes(), i - 1)
    requires BoundaryRow(c, i, row) && row.stateDelta.Some? && DecodeDelta(c.flow, row.stateDelta.value).Some?
    ensures var f, d := Resumed(c, row), DecodeDelta(c.flow, row.stateDelta.value).value;
      && f.index == i && f.state == c.initial + d && f.provided == d.Keys && f.open.None?
      && StartingFold(c.flow, CalmEnv(c.law), c.initial, [row]) == f
    ensures ReplayGuard(c.flow.Nodes(), [row], i).None?
  {
    hide Hydrate, ReplayGuard, DecodeDelta, EncodeDelta, Ideal, ProvidedBefore, ExactSupplies, NeedsMet;
    hide InVocabulary, RecoveryFree;
    OneRowResumes(c.flow, CalmEnv(c.law), c.initial, row, i);
  }

  lemma {:induction false} ResumedSteady(c: Course, i: nat, row: Row)
    requires LawfulSteps(c) && Straight(c.flow) && 0 < i <= |c.flow.Nodes()| && SegmentEnd(c.flow.Nodes(), i - 1)
    requires BoundaryRow(c, i, row) && row.stateDelta.Some? && DecodeDelta(c.flow, row.stateDelta.value).Some?
    requires DecodeDelta(c.flow, row.stateDelta.value).value.Keys == ProvidedBefore(c.flow.Nodes(), i)
    ensures Steady(c.flow, Resumed(c, row))
  {
    hide Hydrate, Budgets, DecodeDelta, EncodeDelta, Ideal, ProvidedBefore, ExactSupplies, NeedsMet, InVocabulary;
    hide RecoveryFree, Contiguous, RecoveriesValid, UniqueIds, SegmentEnd, ReplayGuard, ExecutionBound, Bounded;
    ResumedAt(c, i, row);
    StartBounded(c.flow, CalmEnv(c.law), c.initial, [row]);
    assert Prior(c.flow.Nodes())[i] == ProvidedBefore(c.flow.Nodes(), i);
  }

  /** It starts from the decoded state and computes on from there. */
  lemma {:induction false} ResumedOutput(c: Course, i: nat, row: Row)
    requires LawfulSteps(c) && Straight(c.flow) && 0 < i <= |c.flow.Nodes()| && SegmentEnd(c.flow.Nodes(), i - 1)
    requires BoundaryRow(c, i, row) && row.stateDelta.Some? && DecodeDelta(c.flow, row.stateDelta.value).Some?
    requires DecodeDelta(c.flow, row.stateDelta.value).value.Keys == ProvidedBefore(c.flow.Nodes(), i)
    ensures var r := RunFlow(c.flow, CalmEnv(c.law), c.initial, true, [row]);
      && r.Succeeded?
      && r.final.state == Later(c.flow.Nodes(), c.law, c.initial + DecodeDelta(c.flow, row.stateDelta.value).value, i,
         |c.flow.Nodes()|)
  {
    hide Drive, RunFlow, Steady, Hydrate, Resumed, Later, Budgets, DecodeDelta, EncodeDelta, Ideal, ProvidedBefore;
    hide ExactSupplies, NeedsMet, InVocabulary, RecoveryFree, Contiguous, RecoveriesValid, UniqueIds, SegmentEnd;
    hide ReplayGuard, BoundaryRow, StartingFold;
    ResumedAt(c, i, row);
    ResumedSteady(c, i, row);
    LeaseCases(c.flow, CalmEnv(c.law), c.initial, true, [row]);
    Arrives(c.flow, c.law, Resumed(c, row));
  }

  // --------------------------------------------------------- a law that tells everything

  /** Up to node `i` the steps provide fixed samples; from there on every provided value
      tells the whole input of its step. */
  function TellingLaw(nodes: seq<Node>, i: nat, sample: State): Law {
    (stepId: string, input: State) =>
      var at := IndexOf(nodes, stepId);
      if at.None? then map[]
      else if at.value < i then map k | k in Elements(nodes[at.value].supplies) && k in sample :: sample[k]
      else map k | k in Elements(nodes[at.value].supplies) :: Obj(input)
  }

  lemma {:induction false} TellingSupplies(nodes: seq<Node>, i: nat, sample: State)
    requires UniqueIds(nodes) && i <= |nodes| && ProvidedBefore(nodes, i) <= sample.Keys
    ensures ExactSupplies(nodes, TellingLaw(nodes, i, sample))
  {
    forall j, input: State | 0 <= j < |nodes|
      ensures TellingLaw(nodes, i, sample)(nodes[j].stepId, input).Keys == Elements(nodes[j].supplies)
    {
      IndexOfUnique(nodes, j);
      if j < i {
        ProvidedGrows(nodes, j + 1, i);
        assert Elements(nodes[j].supplies) <= sample.Keys;
      }
    }
  }

  /** At node `i` the provided keys hold their samples. */
  lemma {:induction false} Sampled(nodes: seq<Node>, initial: State, i: nat, sample: State, j: nat, k: string)
    requires UniqueIds(nodes) && j <= i <= |nodes| && k in sample && k in ProvidedBefore(nodes, j)
    ensures var s := Ideal(nodes, TellingLaw(nodes, i, sample), initial, j); k in s && s[k] == sample[k]
  {
    hide UniqueIds, IndexOf, Inputs;
    var law := TellingLaw(nodes, i, sample);
    var before := Ideal(nodes, law, initial, j - 1);
    var added := law(nodes[j - 1].stepId, Inputs(nodes[j - 1].needs, before));
    assert added == (map q | q in Elements(nodes[j - 1].supplies) && q in sample :: sample[q]) by {
      IndexOfUnique(nodes, j - 1);
    }
    hide TellingLaw;
    if k !in added {
      Sampled(nodes, initial, i, sample, j - 1, k);
    }
  }

  /** A difference at a live key reaches the output. */
  lemma {:induction false} Differs(nodes: seq<Node>, i: nat, sample: State, s: State, t: State, j: nat, k: string)
    requires UniqueIds(nodes) && i <= j <= |nodes| && ProvidedBefore(nodes, i) <= sample.Keys
    requires k in s && k in t && s[k] != t[k] && IsLive(nodes, j, k)
    ensures var law := TellingLaw(nodes, i, sample);
      Later(nodes, law, s, j, |nodes|) != Later(nodes, law, t, j, |nodes|)
    decreases |nodes| - j
  {
    if j < |nodes| {
      var law := TellingLaw(nodes, i, sample);
      var node := nodes[j];
      var s', t' := s + law(node.stepId, Inputs(node.needs, s)), t + law(node.stepId, Inputs(node.needs, t));
      var k' := DiffersNext(nodes, i, sample, s, t, j, k);
      Differs(nodes, i, sample, s', t', j + 1, k');
      LaterFirst(nodes, law, s, j, |nodes|);
      LaterFirst(nodes, law, t, j, |nodes|);
    }
  }

  lemma {:induction false} DiffersNext(
    nodes: seq<Node>, i: nat, sample: State, s: State, t: State, j: nat, k: string)
    returns (k': string)
    requires UniqueIds(nodes) && i <= j < |nodes|
    requires k in s && k in t && s[k] != t[k] && IsLive(nodes, j, k)
    ensures var law, node := TellingLaw(nodes, i, sample), nodes[j];
      var s', t' := s + law(node.stepId, Inputs(node.needs, s)), t + law(node.stepId, Inputs(node.needs, t));
      k' in s' && k' in t' && s'[k'] != t'[k'] && IsLive(nodes, j + 1, k')
  {
    IndexOfUnique(nodes, j);
    hide IndexOf;
    var node := nodes[j];
    if k !in node.supplies && IsLive(nodes, j + 1, k) {
      k' := k;
    } else {
      k' :| k' in node.supplies && IsLive(nodes, j + 1, k');
      assert Inputs(node.needs, s)[k] != Inputs(node.needs, t)[k];
      assert k' in Elements(node.supplies);
    }
  }

  lemma {:induction false} LaterFirst(nodes: seq<Node>, law: Law, s: State, i: nat, j: nat)
    requires i < j <= |nodes|
    ensures Later(nodes, law, s, i, j)
            == Later(nodes, law, s + law(nodes[i].stepId, Inputs(nodes[i].needs, s)), i + 1, j)
    decreases j - i
  {
    hide Inputs;
    if i + 1 < j {
      LaterFirst(nodes, law, s, i, j - 1);
    } else {
      assert Later(nodes, law, s, i, i) == s;
    }
  }

  // ------------------------------------------------------------------------- the theorem

  /** A value that the codec writes and reads back. */
  ghost function Pick(codec: Codec): (v: Json)
    requires Usable(codec)
    ensures codec.encode(Some(v)).Some? && codec.decode(codec.encode(Some(v)).value).Some?
  {
    var v :| codec.encode(Some(v)).Some? && codec.decode(codec.encode(Some(v)).value).Some?;
    v
  }

  /** For each key provided up to node `i` a value that can be journaled; `v` for `key`. */
  ghost function Sample(flow: Flow, i: nat, key: string, v: Json): State
    requires i <= |flow.Nodes()| && Restorable(flow, i) && ProvidedBefore(flow.Nodes(), i) <= flow.spec.Keys
  {
    map k | k in ProvidedBefore(flow.Nodes(), i) :: if k == key then v else Pick(flow.spec[k])
  }

  lemma {:induction false} SampleRestores(flow: Flow, i: nat, sample: State, s: State)
    requires i <= |flow.Nodes()| && ProvidedBefore(flow.Nodes(), i) <= flow.spec.Keys
    requires forall k :: k in ProvidedBefore(flow.Nodes(), i) ==> k in sample && k in s && s[k] == sample[k]
    requires forall k :: k in ProvidedBefore(flow.Nodes(), i) ==>
               var codec := flow.spec[k];
               codec.encode(Some(sample[k])).Some? && codec.decode(codec.encode(Some(sample[k])).value).Some?
    ensures var delta := EncodeDelta(flow, ProvidedBefore(flow.Nodes(), i), s);
      && delta.Some? && DecodeDelta(flow, delta.value).Some?
      && DecodeDelta(flow, delta.value).value.Keys == ProvidedBefore(flow.Nodes(), i)
      && forall k :: k in ProvidedBefore(flow.Nodes(), i) ==>
           DecodeDelta(flow, delta.value).value[k]
               == flow.spec[k].decode(flow.spec[k].encode(Some(sample[k])).value).value
  {
    hide ProvidedBefore;
    var keys := ProvidedBefore(flow.Nodes(), i);
    forall k | k in keys ensures Get(s, k) == Some(sample[k]) {}
    var delta := EncodeDelta(flow, keys, s).value;
    assert delta.Keys == keys;
    forall k | k in delta ensures flow.spec[k].decode(delta[k]).Some? {
      assert delta[k] == flow.spec[k].encode(Some(sample[k])).value;
    }
  }

  lemma {:induction false} Sampling(flow: Flow, i: nat, key: string, v: Json)
    requires i <= |flow.Nodes()| && Restorable(flow, i) && ProvidedBefore(flow.Nodes(), i) <= flow.spec.Keys
    requires key in ProvidedBefore(flow.Nodes(), i)
    requires flow.spec[key].encode(Some(v)).Some? && flow.spec[key].decode(flow.spec[key].encode(Some(v)).value).Some?
    ensures var sample := Sample(flow, i, key, v);
      && sample.Keys == ProvidedBefore(flow.Nodes(), i) && sample[key] == v
      && forall k :: k in sample ==>
           flow.spec[k].encode(Some(sample[k])).Some?
               && flow.spec[k].decode(flow.spec[k].encode(Some(sample[k])).value).Some?
  {
    hide ProvidedBefore, Usable;
  }

  /** The course of that law. */
  function Telling(flow: Flow, i: nat, sample: State): Course {
    Course(flow, TellingLaw(flow.Nodes(), i, sample), map k | k in Elements(flow.initialKeys) :: Null)
  }

  lemma {:induction false} TellingLawful(flow: Flow, i: nat, sample: State)
    requires Straight(flow) && i <= |flow.Nodes()| && ProvidedBefore(flow.Nodes(), i) <= sample.Keys
    ensures LawfulSteps(Telling(flow, i, sample))
  {
    TellingSupplies(flow.Nodes(), i, sample);
    hide TellingLaw, Runnable, RecoveryFree, NeedsMet, InVocabulary, ExactSupplies, ProvidedBefore;
  }

  /** A course on which a value is lost, and the row that loses it. */
  lemma {:induction false} Loses(flow: Flow, i: nat, key: string, v: Json) returns (c: Course, row: Row)
    requires Straight(flow) && 0 < i <= |flow.Nodes()| && SegmentEnd(flow.Nodes(), i - 1) && Restorable(flow, i)
    requires key in ProvidedBefore(flow.Nodes(), i) && key in flow.spec && IsLive(flow.Nodes(), i, key)
    requires var codec := flow.spec[key];
      && codec.encode(Some(v)).Some? && codec.decode(codec.encode(Some(v)).value).Some?
      && codec.decode(codec.encode(Some(v)).value) != Some(v)
    ensures c.flow == flow && LawfulSteps(c) && Wrote(flow, FirstLease(c), row)
    ensures var r := RunFlow(flow, CalmEnv(c.law), c.initial, true, [row]);
      r.Succeeded? && r.final.state != Destination(c)
  {
    var nodes := flow.Nodes();
    ProvidedGrows(nodes, i, |nodes|);
    hide Usable, SegmentEnd, RunFlow, IsLive, Ideal, EncodeDelta, DecodeDelta, Wrote, ProvidedBefore, Sample;
    hide RecoveryFree, NeedsMet, RecoveriesValid, Contiguous, ExactSupplies, TellingLaw;
    var sample := Sample(flow, i, key, v);
    Sampling(flow, i, key, v);
    c := Telling(flow, i, sample);
    TellingLawful(flow, i, sample);
    row := Journaled(c, i);
    var ideal := Ideal(nodes, c.law, c.initial, i);
    forall k | k in ProvidedBefore(nodes, i) ensures k in ideal && ideal[k] == sample[k] {
      Sampled(nodes, c.initial, i, sample, i, k);
    }
    SampleRestores(flow, i, sample, ideal);
    LostAt(c, i, sample, row, key);
  }

  lemma {:induction false} LostAt(c: Course, i: nat, sample: State, row: Row, key: string)
    requires Straight(c.flow) && LawfulSteps(c) && c == Telling(c.flow, i, sample)
    requires 0 < i <= |c.flow.Nodes()| && SegmentEnd(c.flow.Nodes(), i - 1) && BoundaryRow(c, i, row)
    requires ProvidedBefore(c.flow.Nodes(), i) <= sample.Keys && key in ProvidedBefore(c.flow.Nodes(), i)
    requires IsLive(c.flow.Nodes(), i, key)
    requires row.stateDelta.Some? && DecodeDelta(c.flow, row.stateDelta.value).Some?
    requires var decoded := DecodeDelta(c.flow, row.stateDelta.value).value;
             var ideal := Ideal(c.flow.Nodes(), c.law, c.initial, i);
      decoded.Keys == ProvidedBefore(c.flow.Nodes(), i) && key in ideal && decoded[key] != ideal[key]
    ensures var r := RunFlow(c.flow, CalmEnv(c.law), c.initial, true, [row]);
      r.Succeeded? && r.final.state != Destination(c)
  {
    hide TellingLaw, RecoveryFree, NeedsMet, InVocabulary, ExactSupplies, SegmentEnd, RunFlow, IsLive, Later;
    hide Ideal, EncodeDelta, DecodeDelta, ProvidedBefore, Contiguous, RecoveriesValid;
    ResumedOutput(c, i, row);
    var nodes, ideal := c.flow.Nodes(), Ideal(c.flow.Nodes(), c.law, c.initial, i);
    Differs(nodes, i, sample, c.initial + DecodeDelta(c.flow, row.stateDelta.value).value, ideal, i, key);
    IdealLater(nodes, c.law, c.initial, i, |nodes|);
  }

  lemma {:induction false} StraightRunnable(flow: Flow)
    requires Straight(flow)
    ensures Runnable(flow)
  {}

  lemma {:induction false} CalmObeys(law: Law)
    ensures Obeys(CalmEnv(law), law) && Calm(CalmEnv(law))
  {}

  /** Two leases: the first is cut behind the boundary, the second resumes from it. */
  lemma {:induction false} LossBreaks(c: Course, row: Row)
    requires LawfulSteps(c) && Straight(c.flow) && Wrote(c.flow, FirstLease(c), row)
    requires var r := RunFlow(c.flow, CalmEnv(c.law), c.initial, true, [row]);
      r.Succeeded? && r.final.state != Destination(c)
    ensures !Preserves(c.flow)
  {
    hide RunFlow, LawfulSteps, Straight, Wrote, Obeys, Calm, CalmEnv, Runnable;
    assert Runnable(c.flow) by { StraightRunnable(c.flow); }
    Undisturbed(c);
    CalmObeys(c.law);
    var attempts := [FirstLease(c), Attempt(CalmEnv(c.law), c.initial, true, [row])];
    assert SawOnlyWritten(c.flow, attempts) by {
      assert Wrote(c.flow, attempts[0], row);
    }
    assert Operated(c, CalmEnv(c.law), attempts);
    assert !SameOutputs(c, CalmEnv(c.law), attempts) by {
      assert attempts[1].seen == [row];
    }
  }

  /** Resume preserves meaning exactly when the codec of every key that is provided and
      live at a boundary that can be restored decodes what it encodes. */
  lemma {:induction false} ResumeExactly(flow: Flow)
    requires Straight(flow)
    ensures Preserves(flow) <==> TrueWhereLive(flow)
  {
    hide RunFlow, Runnable, RecoveryFree, NeedsMet, InVocabulary, ExactSupplies, SegmentEnd, Restorable, IsLive;
    hide True, ProvidedBefore, Obeys, Calm, SawOnlyWritten, SameCourse, Wrote;
    if TrueWhereLive(flow) {
      forall c: Course, calm: Env, attempts: seq<Attempt> | c.flow == flow && Operated(c, calm, attempts)
        ensures SameOutputs(c, calm, attempts)
      {
        forall j | 0 <= j < |attempts|
          ensures var r := RunFlow(c.flow, attempts[j].env, attempts[j].initial, attempts[j].resume, attempts[j].seen);
            r.Succeeded? ==> r.final.state == RunFlow(c.flow, calm, c.initial, false, []).final.state
        {
          ResumePreservesMeaning(c, calm, attempts, j);
        }
      }
    } else {
      var nodes := flow.Nodes();
      var i :| 0 < i <= |nodes| && SegmentEnd(nodes, i - 1) && Restorable(flow, i)
        && !(forall k :: k in ProvidedBefore(nodes, i) && k in flow.spec && IsLive(nodes, i, k) ==> True(flow.spec[k]));
      var k :| k in ProvidedBefore(nodes, i) && k in flow.spec && IsLive(nodes, i, k) && !True(flow.spec[k]);
      var v := Untrue(flow.spec[k]);
      var c, row := Loses(flow, i, k, v);
      LossBreaks(c, row);
    }
  }

  lemma {:induction false} Untrue(codec: Codec) returns (v: Json)
    requires !True(codec)
    ensures codec.encode(Some(v)).Some? && codec.decode(codec.encode(Some(v)).value).Some?
    ensures codec.decode(codec.encode(Some(v)).value) != Some(v)
  {
    v :| codec.encode(Some(v)).Some? && codec.decode(codec.encode(Some(v)).value).Some?
      && codec.decode(codec.encode(Some(v)).value) != Some(v);
  }

  /** Where every provided key has a usable codec, as every schema of a state vocabulary
      should be, liveness drops out: the last boundary can be restored, and there every
      key is live. */
  lemma {:induction false} UsableResumeExactly(flow: Flow)
    requires Straight(flow) && Restorable(flow, |flow.Nodes()|)
    ensures Preserves(flow) <==>
              forall k :: k in ProvidedBefore(flow.Nodes(), |flow.Nodes()|) && k in flow.spec ==> True(flow.spec[k])
  {
    hide Runnable, RecoveryFree, NeedsMet, InVocabulary, True, Preserves, Usable;
    ResumeExactly(flow);
    var nodes := flow.Nodes(); var n := |nodes|;
    if TrueWhereLive(flow) && n > 0 {
      assert SegmentEnd(nodes, n - 1);
      assert forall k :: IsLive(nodes, n, k);
    }
    hide IsLive, SegmentEnd;
    forall i | 0 < i <= n ensures ProvidedBefore(nodes, i) <= ProvidedBefore(nodes, n) {
      ProvidedGrows(nodes, i, n);
    }
  }

  // -------------------------------------------------------------------- redacted keys

  /** A schema's codec with redaction behind its encoder; the decoder does not know of it. */
  function Redacting(plain: Codec, schema: Redaction.Ast): Codec {
    Codec((v: Option<Json>) => var e := plain.encode(v);
        if e.None? then None else Some(Redaction.Redact(schema, e.value)),
          plain.decode)
  }

  /** What becomes of a value on its way through the journal. */
  function ThroughJournal(plain: Codec, schema: Redaction.Ast, v: Json): Option<Json> {
    var e := plain.encode(Some(v));
    if e.None? then None else plain.decode(Redaction.Redact(schema, e.value))
  }

  /** Every value is decoded to itself after redaction, or the decoder rejects what
      redaction left of it. */
  ghost predicate Harmless(plain: Codec, schema: Redaction.Ast) {
    forall v :: ThroughJournal(plain, schema, v).None? || ThroughJournal(plain, schema, v) == Some(v)
  }

  lemma {:induction false} RedactingReads(plain: Codec, schema: Redaction.Ast, v: Json)
    ensures var codec := Redacting(plain, schema);
      (if codec.encode(Some(v)).Some? then codec.decode(codec.encode(Some(v)).value) else None)
          == ThroughJournal(plain, schema, v)
  {
    hide Redaction.Redact;
  }

  lemma {:induction false} RedactingTrue(plain: Codec, schema: Redaction.Ast)
    ensures True(Redacting(plain, schema)) <==> Harmless(plain, schema)
  {
    var codec := Redacting(plain, schema);
    hide Redacting, ThroughJournal;
    forall v
      ensures (if codec.encode(Some(v)).Some? then codec.decode(codec.encode(Some(v)).value) else None)
              == ThroughJournal(plain, schema, v)
    {
      RedactingReads(plain, schema, v);
    }
    if True(codec) {
      forall v ensures ThroughJournal(plain, schema, v).None? || ThroughJournal(plain, schema, v) == Some(v) {
        assert codec.encode(Some(v)).Some? || codec.encode(Some(v)).None?;
      }
    }
  }

  /** With redaction behind usable codecs, resume preserves meaning exactly when redaction
      leaves of every value of every provided key what decodes to the value itself, or
      what does not decode at all. */
  lemma {:induction false} RedactionLoses(flow: Flow, plains: map<string, Codec>, schemas: map<string, Redaction.Ast>)
    requires Straight(flow) && Restorable(flow, |flow.Nodes()|)
    requires plains.Keys == flow.spec.Keys && schemas.Keys == flow.spec.Keys
    requires forall k :: k in flow.spec ==> flow.spec[k] == Redacting(plains[k], schemas[k])
    ensures Preserves(flow) <==>
              forall k :: k in ProvidedBefore(flow.Nodes(), |flow.Nodes()|) && k in flow.spec ==>
                  Harmless(plains[k], schemas[k])
  {
    hide Straight, Preserves, True, Restorable, Redacting, ProvidedBefore, Harmless;
    forall k | k in flow.spec ensures True(flow.spec[k]) <==> Harmless(plains[k], schemas[k]) {
      RedactingTrue(plains[k], schemas[k]);
    }
    UsableResumeExactly(flow);
  }

  // ----------------------------------------------------- decoders that accept everything

  /** A codec that changes and rejects nothing. */
  function AsIs(): Codec {
    Codec((v: Option<Json>) => v, (e: Json) => Some(e))
  }

  ghost predicate NeverRedacts(schema: Redaction.Ast) {
    forall v :: Redaction.Redact(schema, v) == v
  }

  lemma {:induction false} AsIsThrough(schema: Redaction.Ast, v: Json)
    ensures ThroughJournal(AsIs(), schema, v) == Some(Redaction.Redact(schema, v))
  {
    hide Redaction.Redact;
  }

  lemma {:induction false} AsIsUsable(schema: Redaction.Ast)
    ensures Usable(Redacting(AsIs(), schema))
  {
    var codec := Redacting(AsIs(), schema);
    AsIsThrough(schema, Null);
    RedactingReads(AsIs(), schema, Null);
    hide Redacting, AsIs, ThroughJournal;
    hide Redaction.Redact;
    assert codec.encode(Some(Null)).Some? && codec.decode(codec.encode(Some(Null)).value).Some?;
  }

  lemma {:induction false} AsIsHarmless(schema: Redaction.Ast)
    ensures Harmless(AsIs(), schema) <==> NeverRedacts(schema)
  {
    hide ThroughJournal;
    hide Redaction.Redact;
    forall v ensures ThroughJournal(AsIs(), schema, v) == Some(Redaction.Redact(schema, v)) {
      AsIsThrough(schema, v);
    }
    if Harmless(AsIs(), schema) {
      forall v ensures Redaction.Redact(schema, v) == v {
        assert ThroughJournal(AsIs(), schema, v) == Some(v);
      }
    } else {
      var v :| !(ThroughJournal(AsIs(), schema, v).None? || ThroughJournal(AsIs(), schema, v) == Some(v));
      assert Redaction.Redact(schema, v) != v;
    }
  }

  /** Decoders that accept whatever was journaled make no difference to what is lost:
      meaning is preserved exactly when no provided key is ever redacted. */
  lemma {:induction false} AcceptedRedactionLoses(flow: Flow, schemas: map<string, Redaction.Ast>)
    requires Straight(flow) && schemas.Keys == flow.spec.Keys
    requires forall k :: k in schemas ==> flow.spec[k] == Redacting(AsIs(), schemas[k])
    ensures Preserves(flow) <==>
              forall k :: k in ProvidedBefore(flow.Nodes(), |flow.Nodes()|) && k in schemas ==> NeverRedacts(schemas[k])
  {
    hide Straight, Preserves, Usable, Redacting, ProvidedBefore, NeverRedacts, Harmless;
    forall k | k in flow.spec
      ensures k in schemas && Usable(flow.spec[k]) && (Harmless(AsIs(), schemas[k]) <==> NeverRedacts(schemas[k]))
    {
      AsIsUsable(schemas[k]);
      AsIsHarmless(schemas[k]);
    }
    RedactionLoses(flow, map k | k in schemas :: AsIs(), schemas);
  }

  // ---------------------------------------------------------------------------- examples

  /** A plan of one step that provides a field of the client, redacted in the journal. */
  function ClientFlow(plain: Codec, schema: Redaction.Ast): Flow {
    var node := Node("extract-client", [], ["client"], [], [], [], Read, "form", []);
    Flow(Plan("booking", "acuity", "1", [node]), "", {"extract-client"}, {}, map[],
        map["client" := Redacting(plain, schema)], [])
  }

  lemma {:induction false} ClientStraight(plain: Codec, schema: Redaction.Ast)
    ensures Straight(ClientFlow(plain, schema)) && ProvidedBefore(ClientFlow(plain, schema).Nodes(), 1) == {"client"}
  {
    hide Redacting;
    var nodes := ClientFlow(plain, schema).Nodes();
    assert StepIds(nodes) == ["extract-client"];
    assert ProvidedBefore(nodes, 0) == {};
    assert Elements(nodes[0].supplies) == {"client"};
  }

  lemma {:induction false} SecretRedacted()
    ensures !NeverRedacts(Redaction.Scalar(true))
  {
    assert "secret"[0] != "[redacted]"[0];
    assert Redaction.Redact(Redaction.Scalar(true), Redaction.SECRET) != Redaction.SECRET;
  }

  /** A redacted string is lost: behind the boundary the resumed operation has the
      placeholder in its output. */
  lemma {:induction false} RedactedKeyLost()
    ensures var flow := ClientFlow(AsIs(), Redaction.Scalar(true)); Straight(flow) && !Preserves(flow)
  {
    var schema := Redaction.Scalar(true);
    var flow := ClientFlow(AsIs(), schema);
    ClientStraight(AsIs(), schema);
    SecretRedacted();
    hide Straight, Preserves, Redacting, ProvidedBefore, NeverRedacts, AsIs;
    AcceptedRedactionLoses(flow, map["client" := schema]);
    assert "client" in ProvidedBefore(flow.Nodes(), |flow.Nodes()|);
  }

  /** The codec of a record that may be null: it accepts null and objects only. */
  function NullOrRecord(): Codec {
    Codec((v: Option<Json>) => v, (e: Json) => if e.Null? || e.Obj? then Some(e) else None)
  }

  lemma {:induction false} RecordThrough(v: Json)
    ensures var back := ThroughJournal(NullOrRecord(), Redaction.Scalar(true), v);
      if v.Null? then back == Some(v) else back.None?
  {}

  /** A wholly redacted record is not lost: its decoder rejects the placeholder, and the
      operation runs again from its head. */
  lemma {:induction false} RejectedKeyKept()
    ensures var flow := ClientFlow(NullOrRecord(), Redaction.Scalar(true));
      Straight(flow) && Preserves(flow) && !NeverRedacts(Redaction.Scalar(true))
  {
    var plain, schema := NullOrRecord(), Redaction.Scalar(true);
    var flow := ClientFlow(plain, schema);
    ClientStraight(plain, schema);
    SecretRedacted();
    RedactingReads(plain, schema, Null);
    RecordThrough(Null);
    hide Straight, Preserves, Redacting, ProvidedBefore, ThroughJournal, NullOrRecord, NeverRedacts;
    hide Redaction.Redact;
    var codec := Redacting(plain, schema);
    assert codec.encode(Some(Null)).Some? && codec.decode(codec.encode(Some(Null)).value).Some?;
    assert Restorable(flow, |flow.Nodes()|);
    forall v ensures ThroughJournal(plain, schema, v).None? || ThroughJournal(plain, schema, v) == Some(v) {
      RecordThrough(v);
    }
    RedactionLoses(flow, map["client" := plain], map["client" := schema]);
  }

  /** A key that is never encoded keeps every boundary in front of which it is provided
      from being journaled, and with it the loss. */
  function BlobFlow(schema: Redaction.Ast): Flow {
    var node := Node("extract-client", [], ["client", "blob"], [], [], [], Read, "form", []);
    Flow(Plan("booking", "acuity", "1", [node]), "", {"extract-client"}, {}, map[],
         map["client" := Redacting(AsIs(), schema), "blob" := Codec((v: Option<Json>) => None, (e: Json) => None)], [])
  }

  lemma {:induction false} BlobStraight(schema: Redaction.Ast)
    ensures Straight(BlobFlow(schema)) && ProvidedBefore(BlobFlow(schema).Nodes(), 1) == {"client", "blob"}
  {
    hide Redacting;
    var nodes := BlobFlow(schema).Nodes();
    assert StepIds(nodes) == ["extract-client"];
    assert ProvidedBefore(nodes, 0) == {};
    assert Elements(nodes[0].supplies) == {"client", "blob"};
  }

  lemma {:induction false} BlobNotRestorable(schema: Redaction.Ast)
    ensures !Restorable(BlobFlow(schema), 1)
  {
    var flow := BlobFlow(schema);
    BlobStraight(schema);
    assert !Usable(flow.spec["blob"]);
    hide Straight, Redacting, ProvidedBefore, Usable;
    assert "blob" in ProvidedBefore(flow.Nodes(), 1);
  }

  /** That every codec is usable cannot be dropped: here a provided key is redacted, and
      nothing is lost because nothing is restored. */
  lemma {:induction false} NothingRestored()
    ensures var flow := BlobFlow(Redaction.Scalar(true));
            Straight(flow) && Preserves(flow) && !True(flow.spec["client"])
  {
    var schema := Redaction.Scalar(true);
    var flow := BlobFlow(schema);
    BlobStraight(schema);
    SecretRedacted();
    BlobNotRestorable(schema);
    hide Straight, Preserves, Redacting, ProvidedBefore, True, Restorable, Harmless, NeverRedacts;
    RedactingTrue(AsIs(), schema);
    AsIsHarmless(schema);
    ResumeExactly(flow);
  }
}
