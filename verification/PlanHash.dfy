/** The plan hash (src/flow/plan.ts:79-81): the digest of the plan's canonical text.
    The text determines the plan, so only a digest collision can confuse two plans. */
module PlanHash {
  import opened Basics
  import opened JsonValues
  import opened FlowTypes
  import opened JsonReader
  import opened CanonicalJson
  import opened CanonicalMeaning
  import opened CanonicalReadable
  import opened BookingOnce

  // ------------------------------------------------------------- the plan as a value

  function StringsValue(strings: seq<string>): JsValue {
    JsArray(seq(|strings|, i requires 0 <= i < |strings| => JsString(strings[i])))
  }

  function EdgeMembers(edge: RecoveryEdge): seq<Member> {
    [Member("to", JsString(edge.to)), Member("maxReentries", JsNumber(edge.maxReentries))]
  }

  function EdgesValue(edges: seq<RecoveryEdge>): JsValue {
    JsArray(seq(|edges|, i requires 0 <= i < |edges| => JsObject(EdgeMembers(edges[i]))))
  }

  function ClassName(idempotency: Idempotency): string {
    match idempotency
    case Read => "read"
    case ReplayableWrite => "replayable-write"
    case EffectfulOnce => "effectful-once"
  }

  /** A node without recovery edges has no `recoveries` member. */
  function NodeMembers(node: Node): seq<Member> {
    [Member("stepId", JsString(node.stepId)),
     Member("needs", StringsValue(node.needs)),
     Member("provides", StringsValue(node.supplies)),
     Member("dependsOn", StringsValue(node.dependsOn)),
     Member("recoveries", if |node.recoveries| > 0 then EdgesValue(node.recoveries) else JsUndefined),
     Member("expects", StringsValue(node.expects)),
     Member("idempotency", JsString(ClassName(node.idempotency))),
     Member("segment", JsString(node.segment)),
     Member("tags", StringsValue(node.tags))]
  }

  function NodesValue(nodes: seq<Node>): JsValue {
    JsArray(seq(|nodes|, i requires 0 <= i < |nodes| => JsObject(NodeMembers(nodes[i]))))
  }

  function PlanMembers(plan: Plan): seq<Member> {
    [Member("flowId", JsString(plan.flowId)),
     Member("backend", JsString(plan.backend)),
     Member("version", JsString(plan.version)),
     Member("nodes", NodesValue(plan.nodes))]
  }

  function PlanValue(plan: Plan): JsValue {
    JsObject(PlanMembers(plan))
  }

  // ---------------------------------------------------------- every plan has a text

  lemma {:induction false} StringsDenote(strings: seq<string>)
    ensures WellFormed(StringsValue(strings)) && Meaning(StringsValue(strings)).Some?
  {
    ItemsMeaningHolds(StringsValue(strings).items, 0);
  }

  lemma {:induction false} EdgeDenotes(edge: RecoveryEdge)
    ensures DistinctKeys(EdgeMembers(edge))
    ensures WellFormed(JsObject(EdgeMembers(edge))) && Meaning(JsObject(EdgeMembers(edge))).Some?
  {
    assert EdgeMembers(edge)[0].key == "to" && EdgeMembers(edge)[1].key == "maxReentries";
    assert DistinctKeys(EdgeMembers(edge));
    MembersMeaningHolds(EdgeMembers(edge));
  }

  lemma {:induction false} EdgesDenote(edges: seq<RecoveryEdge>)
    ensures WellFormed(EdgesValue(edges)) && Meaning(EdgesValue(edges)).Some?
    ensures forall j :: 0 <= j < |edges| ==> Meaning(EdgesValue(edges).items[j]).Some?
  {
    var items := EdgesValue(edges).items;
    forall j | 0 <= j < |items| ensures WellFormed(items[j]) && Meaning(items[j]).Some? {
      EdgeDenotes(edges[j]);
    }
    ItemsMeaningHolds(items, 0);
  }

  const NODE_KEYS := ["stepId", "needs", "provides", "dependsOn", "recoveries", "expects", "idempotency", "segment",
      "tags"]

  lemma {:induction false} NodeKeys(node: Node)
    ensures |NodeMembers(node)| == 9 && forall i :: 0 <= i < 9 ==> NodeMembers(node)[i].key == NODE_KEYS[i]
    ensures DistinctKeys(NodeMembers(node))
  {
    hide StringsValue, EdgesValue;
    KeysApart();
  }

  lemma {:induction false} KeysApart()
    ensures forall i, j :: 0 <= i < j < 9 ==> NODE_KEYS[i] != NODE_KEYS[j]
  {
    assert NODE_KEYS[0][2] == 'e' && NODE_KEYS[1][2] == 'e' && NODE_KEYS[0][0] == 's' && NODE_KEYS[1][0] == 'n';
    assert NODE_KEYS[2][0] == 'p' && NODE_KEYS[3][0] == 'd' && NODE_KEYS[4][0] == 'r' && NODE_KEYS[5][0] == 'e';
    assert NODE_KEYS[6][0] == 'i' && NODE_KEYS[7][0] == 's' && NODE_KEYS[7][1] == 'e' && NODE_KEYS[0][1] == 't'
      && NODE_KEYS[8][0] == 't';
  }

  /** A member's value denotes something, or is left out. */
  ghost predicate Denotes(v: JsValue) {
    WellFormed(v) && (v.JsUndefined? || Meaning(v).Some?)
  }

  lemma {:induction false} MembersDenote(members: seq<Member>)
    requires DistinctKeys(members) && forall i :: 0 <= i < |members| ==> Denotes(members[i].value)
    ensures WellFormed(JsObject(members)) && Meaning(JsObject(members)).Some?
  {
    hide DistinctKeys, MembersMeaning;
    MembersMeaningHolds(members);
  }

  lemma {:induction false} NodeDenotes(node: Node)
    ensures WellFormed(JsObject(NodeMembers(node))) && Meaning(JsObject(NodeMembers(node))).Some?
  {
    NodeKeys(node);
    StringsDenote(node.needs);
    StringsDenote(node.supplies);
    StringsDenote(node.dependsOn);
    StringsDenote(node.expects);
    StringsDenote(node.tags);
    EdgesDenote(node.recoveries);
    var members := NodeMembers(node);
    assert Denotes(JsString(node.stepId)) && Denotes(JsString(ClassName(node.idempotency)))
      && Denotes(JsString(node.segment)) && Denotes(JsUndefined);
    hide StringsValue, EdgesValue, DistinctKeys, Meaning, WellFormed;
    assert forall i :: 0 <= i < |members| ==> Denotes(members[i].value);
    MembersDenote(members);
  }

  lemma {:induction false} NodesDenote(nodes: seq<Node>)
    ensures WellFormed(NodesValue(nodes)) && Meaning(NodesValue(nodes)).Some?
    ensures forall j :: 0 <= j < |nodes| ==> Meaning(NodesValue(nodes).items[j]).Some?
  {
    hide NodeMembers;
    var items := NodesValue(nodes).items;
    forall j | 0 <= j < |items| ensures WellFormed(items[j]) && Meaning(items[j]).Some? {
      NodeDenotes(nodes[j]);
    }
    ItemsMeaningHolds(items, 0);
  }

  lemma {:induction false} PlanDenotes(plan: Plan)
    ensures DistinctKeys(PlanMembers(plan))
    ensures WellFormed(PlanValue(plan)) && Meaning(PlanValue(plan)).Some?
  {
    var members := PlanMembers(plan);
    assert members[0].key[0] == 'f' && members[1].key[0] == 'b' && members[2].key[0] == 'v' && members[3].key[0] == 'n';
    assert DistinctKeys(members);
    NodesDenote(plan.nodes);
    assert Denotes(JsString(plan.flowId)) && Denotes(JsString(plan.backend)) && Denotes(JsString(plan.version));
    hide NodesValue, Meaning, WellFormed, DistinctKeys;
    assert forall i :: 0 <= i < |members| ==> Denotes(members[i].value);
    MembersDenote(members);
  }

  /** The canonical text of a plan. */
  function PlanText(plan: Plan): (text: string)
    ensures Canonicalize(PlanValue(plan), "$") == Text(text)
  {
    PlanDenotes(plan);
    Printable(ByKey, PlanValue(plan), "$");
    Canonicalize(PlanValue(plan), "$").text
  }

  /** `sha` stands for the hexadecimal SHA-256 digest. */
  function ComputePlanHash(sha: string -> string, plan: Plan): string {
    sha(PlanText(plan))
  }

  // ------------------------------------------------------------- what the text says

  function StringsJson(strings: seq<string>): Json {
    Arr(seq(|strings|, i requires 0 <= i < |strings| => Str(strings[i])))
  }

  /** The recovery edges, in order. */
  ghost predicate EdgesNamed(edges: seq<RecoveryEdge>, j: Json) {
    && j.Arr? && |j.items| == |edges|
    && forall i :: 0 <= i < |edges| ==>
         j.items[i] == Obj(map["to" := Str(edges[i].to), "maxReentries" := Num(edges[i].maxReentries)])
  }

  ghost predicate ClassNamed(idempotency: Idempotency, j: Json) {
    && (idempotency.Read? <==> j == Str("read"))
    && (idempotency.ReplayableWrite? <==> j == Str("replayable-write"))
    && (idempotency.EffectfulOnce? <==> j == Str("effectful-once"))
  }

  lemma {:induction false} ClassNames(idempotency: Idempotency)
    ensures ClassNamed(idempotency, Str(ClassName(idempotency)))
  {
    assert "read"[2] == 'a' && "replayable-write"[2] == 'p' && "effectful-once"[2] == 'f';
  }

  ghost predicate TextsNamed(node: Node, m: map<string, Json>) {
    && Get(m, "stepId") == Some(Str(node.stepId))
    && Get(m, "segment") == Some(Str(node.segment))
    && Get(m, "idempotency").Some? && ClassNamed(node.idempotency, m["idempotency"])
  }

  ghost predicate ListsNamed(node: Node, m: map<string, Json>) {
    && Get(m, "needs") == Some(StringsJson(node.needs))
    && Get(m, "provides") == Some(StringsJson(node.supplies))
    && Get(m, "dependsOn") == Some(StringsJson(node.dependsOn))
    && Get(m, "expects") == Some(StringsJson(node.expects))
    && Get(m, "tags") == Some(StringsJson(node.tags))
  }

  ghost predicate RecoveriesNamed(node: Node, m: map<string, Json>) {
    && ("recoveries" in m <==> |node.recoveries| > 0)
    && ("recoveries" in m ==> EdgesNamed(node.recoveries, m["recoveries"]))
  }

  /** Every part of a node under its own name, recovery edges only if there are some, and
      nothing else. */
  ghost predicate NodeNamed(node: Node, j: Json) {
    && j.Obj? && TextsNamed(node, j.members) && ListsNamed(node, j.members) && RecoveriesNamed(node, j.members)
    && j.members.Keys <= Elements(NODE_KEYS)
  }

  ghost predicate PlanNamed(plan: Plan, j: Json) {
    && j.Obj? && j.members.Keys == {"flowId", "backend", "version", "nodes"}
    && j.members["flowId"] == Str(plan.flowId)
    && j.members["backend"] == Str(plan.backend)
    && j.members["version"] == Str(plan.version)
    && j.members["nodes"].Arr? && |j.members["nodes"].items| == |plan.nodes|
    && forall i :: 0 <= i < |plan.nodes| ==> NodeNamed(plan.nodes[i], j.members["nodes"].items[i])
  }

  lemma {:induction false} StringsMean(strings: seq<string>)
    ensures Meaning(StringsValue(strings)) == Some(StringsJson(strings))
  {
    var v := StringsValue(strings);
    ArrayMeans(v.items);
    var items := Meaning(v).value.items;
    forall j | 0 <= j < |strings| ensures items[j] == Str(strings[j]) {
      assert Meaning(v.items[j]) == Some(items[j]);
    }
    assert items == StringsJson(strings).items;
  }

  lemma {:induction false} EdgeMeans(edge: RecoveryEdge)
    ensures Meaning(JsObject(EdgeMembers(edge)))
         == Some(Obj(map["to" := Str(edge.to), "maxReentries" := Num(edge.maxReentries)]))
  {
    var members := EdgeMembers(edge);
    EdgeDenotes(edge);
    MembersMeaningHolds(members);
    hide MembersMeaning, DistinctKeys;
    var m := MembersMeaning(members).value;
    assert members[0] in members && members[1] in members;
    assert m.Keys == {"to", "maxReentries"};
    assert m == map["to" := Str(edge.to), "maxReentries" := Num(edge.maxReentries)];
  }

  lemma {:induction false} EdgesMean(edges: seq<RecoveryEdge>)
    ensures Meaning(EdgesValue(edges)).Some? && EdgesNamed(edges, Meaning(EdgesValue(edges)).value)
  {
    EdgesDenote(edges);
    var v := EdgesValue(edges);
    ArrayMeans(v.items);
    hide EdgeMembers, Meaning, WellFormed;
    var items := Meaning(v).value.items;
    forall j | 0 <= j < |edges|
      ensures items[j] == Obj(map["to" := Str(edges[j].to), "maxReentries" := Num(edges[j].maxReentries)])
    {
      assert Meaning(v.items[j]) == Some(items[j]);
      EdgeMeans(edges[j]);
    }
  }

  lemma {:induction false} FieldIs(members: seq<Member>, i: nat, key: string, value: JsValue)
    requires DistinctKeys(members) && MembersMeaning(members).Some? && i < |members|
    requires members[i] == Member(key, value) && !value.JsUndefined?
    ensures Get(MembersMeaning(members).value, key) == Meaning(value)
  {
    hide Meaning, MembersMeaning, DistinctKeys;
    FieldMeans(members, i);
  }

  lemma {:induction false} StringIs(members: seq<Member>, i: nat, key: string, s: string)
    requires DistinctKeys(members) && MembersMeaning(members).Some? && i < |members|
    requires members[i] == Member(key, JsString(s))
    ensures Get(MembersMeaning(members).value, key) == Some(Str(s))
  {
    hide MembersMeaning, DistinctKeys;
    FieldIs(members, i, key, JsString(s));
  }

  lemma {:induction false} StringsAre(members: seq<Member>, i: nat, key: string, strings: seq<string>)
    requires DistinctKeys(members) && MembersMeaning(members).Some? && i < |members|
    requires members[i] == Member(key, StringsValue(strings))
    ensures Get(MembersMeaning(members).value, key) == Some(StringsJson(strings))
  {
    hide Meaning, MembersMeaning, DistinctKeys;
    StringsMean(strings);
    FieldIs(members, i, key, StringsValue(strings));
  }

  /** The map that a node's members mean. */
  function NodeMap(node: Node): map<string, Json>
    requires MembersMeaning(NodeMembers(node)).Some?
  {
    MembersMeaning(NodeMembers(node)).value
  }

  lemma {:induction false} TextsMean(node: Node)
    requires DistinctKeys(NodeMembers(node)) && MembersMeaning(NodeMembers(node)).Some?
    ensures TextsNamed(node, NodeMap(node))
  {
    ClassNames(node.idempotency);
    hide MembersMeaning, DistinctKeys, StringsValue, EdgesValue, ClassName, ClassNamed;
    var members := NodeMembers(node);
    StringIs(members, 0, "stepId", node.stepId);
    StringIs(members, 6, "idempotency", ClassName(node.idempotency));
    StringIs(members, 7, "segment", node.segment);
  }

  lemma {:induction false} ListsMean(node: Node)
    requires DistinctKeys(NodeMembers(node)) && MembersMeaning(NodeMembers(node)).Some?
    ensures ListsNamed(node, NodeMap(node))
  {
    hide MembersMeaning, DistinctKeys, StringsValue, StringsJson, EdgesValue, ClassName;
    var members := NodeMembers(node);
    StringsAre(members, 1, "needs", node.needs);
    StringsAre(members, 2, "provides", node.supplies);
    StringsAre(members, 3, "dependsOn", node.dependsOn);
    StringsAre(members, 5, "expects", node.expects);
    StringsAre(members, 8, "tags", node.tags);
  }

  lemma {:induction false} RecoveriesMean(node: Node)
    requires DistinctKeys(NodeMembers(node)) && MembersMeaning(NodeMembers(node)).Some?
    ensures RecoveriesNamed(node, NodeMap(node))
  {
    EdgesMean(node.recoveries);
    hide MembersMeaning, DistinctKeys, StringsValue, Meaning, ClassName, EdgesNamed;
    FieldMeans(NodeMembers(node), 4);
  }

  lemma {:induction false} NodeMeans(node: Node)
    ensures Meaning(JsObject(NodeMembers(node))).Some?
    ensures NodeNamed(node, Meaning(JsObject(NodeMembers(node))).value)
  {
    NodeKeys(node);
    NodeDenotes(node);
    ObjectMeans(NodeMembers(node));
    KeysMean(NodeMembers(node));
    hide NodeMembers, Meaning, MembersMeaning, DistinctKeys, WellFormed, TextsNamed, ListsNamed, RecoveriesNamed;
    TextsMean(node);
    ListsMean(node);
    RecoveriesMean(node);
    assert forall i :: 0 <= i < 9 ==> NODE_KEYS[i] in Elements(NODE_KEYS);
  }

  lemma {:induction false} NodesMean(nodes: seq<Node>)
    ensures Meaning(NodesValue(nodes)).Some? && Meaning(NodesValue(nodes)).value.Arr?
    ensures var items := Meaning(NodesValue(nodes)).value.items;
      |items| == |nodes| && forall i :: 0 <= i < |nodes| ==> NodeNamed(nodes[i], items[i])
  {
    NodesDenote(nodes);
    hide NodeMembers, NodeNamed, Meaning, WellFormed;
    var v := NodesValue(nodes);
    ArrayMeans(v.items);
    var items := Meaning(v).value.items;
    forall j | 0 <= j < |nodes| ensures NodeNamed(nodes[j], items[j]) {
      assert Meaning(v.items[j]) == Some(items[j]);
      NodeMeans(nodes[j]);
    }
  }

  lemma {:induction false} PlanMeans(plan: Plan)
    ensures Meaning(PlanValue(plan)).Some? && PlanNamed(plan, Meaning(PlanValue(plan)).value)
  {
    PlanDenotes(plan);
    var members := PlanMembers(plan);
    ObjectMeans(members);
    hide NodesValue, MembersMeaning, DistinctKeys, WellFormed, Meaning, PlanNamed;
    FieldMeans(members, 0);
    FieldMeans(members, 1);
    FieldMeans(members, 2);
    FieldMeans(members, 3);
    KeysMean(members);
    PlanNames(plan, MembersMeaning(members).value);
  }

  lemma {:induction false} PlanNames(plan: Plan, m: map<string, Json>)
    requires Get(m, "flowId") == Meaning(JsString(plan.flowId)) && Get(m, "backend") == Meaning(JsString(plan.backend))
    requires Get(m, "version") == Meaning(JsString(plan.version)) && Get(m, "nodes") == Meaning(NodesValue(plan.nodes))
    requires m.Keys <= {"flowId", "backend", "version", "nodes"}
    ensures PlanNamed(plan, Obj(m))
  {
    NodesMean(plan.nodes);
    hide NodesValue, NodeNamed;
  }

  /** The canonical text reads as the plan: every part of it under its own name, nothing
      else, in the plan's order. */
  lemma {:induction false} PlanReads(plan: Plan)
    ensures ReadValue(PlanText(plan)).Front? && ReadValue(PlanText(plan)).rest == ""
    ensures PlanNamed(plan, ReadValue(PlanText(plan)).value)
  {
    PlanDenotes(plan);
    hide Render, Meaning, WellFormed, ReadValue, PlanNamed, PlanMembers;
    PlanMeans(plan);
    assert Text(PlanText(plan)) == Canonicalize(PlanValue(plan), "$") == Render(ByKey, PlanValue(plan), "$");
    ReadsBack(ByKey, PlanValue(plan), "$", "");
    assert PlanText(plan) + "" == PlanText(plan);
  }

  // ---------------------------------------------------- the text determines the plan

  lemma {:induction false} SameStrings(a: seq<string>, b: seq<string>)
    requires StringsJson(a) == StringsJson(b)
    ensures a == b
  {
    forall j | 0 <= j < |a| ensures a[j] == b[j] {
      assert StringsJson(a).items[j] == StringsJson(b).items[j];
    }
  }

  lemma {:induction false} SameEdges(a: seq<RecoveryEdge>, b: seq<RecoveryEdge>, j: Json)
    requires EdgesNamed(a, j) && EdgesNamed(b, j)
    ensures a == b
  {
    forall i | 0 <= i < |a| ensures a[i] == b[i] {
      var m := j.items[i].members;
      assert m["to"] == Str(a[i].to) == Str(b[i].to);
      assert m["maxReentries"] == Num(a[i].maxReentries) == Num(b[i].maxReentries);
    }
  }

  lemma {:induction false} SameNode(a: Node, b: Node, j: Json)
    requires NodeNamed(a, j) && NodeNamed(b, j)
    ensures a == b
  {
    hide StringsJson, EdgesNamed, Elements;
    SameStrings(a.needs, b.needs);
    SameStrings(a.supplies, b.supplies);
    SameStrings(a.dependsOn, b.dependsOn);
    SameStrings(a.expects, b.expects);
    SameStrings(a.tags, b.tags);
    if |a.recoveries| > 0 {
      SameEdges(a.recoveries, b.recoveries, j.members["recoveries"]);
    }
  }

  lemma {:induction false} SamePlan(p: Plan, q: Plan, j: Json)
    requires PlanNamed(p, j) && PlanNamed(q, j)
    ensures p == q
  {
    hide NodeNamed;
    forall i | 0 <= i < |p.nodes| ensures p.nodes[i] == q.nodes[i] {
      SameNode(p.nodes[i], q.nodes[i], j.members["nodes"].items[i]);
    }
  }

  /** Two plans have the same canonical text only if they are the same plan. */
  lemma {:induction false} PlanTextNamesPlan(p: Plan, q: Plan)
    ensures PlanText(p) == PlanText(q) <==> p == q
  {
    hide PlanText, PlanNamed, ReadValue;
    PlanReads(p);
    PlanReads(q);
    if PlanText(p) == PlanText(q) {
      SamePlan(p, q, ReadValue(PlanText(p)).value);
    }
  }

  /** Replicas hash their own plans: without a digest collision among them, a pinned
      hash names one plan, which is what the skew check relies on. */
  lemma {:induction false} PinNamesPlan(sha: string -> string, leases: seq<Lease>, plan: Plan)
    requires forall j :: 0 <= j < |leases| ==> leases[j].flow.planHash == ComputePlanHash(sha, leases[j].flow.plan)
    requires forall j :: 0 <= j < |leases| && sha(PlanText(leases[j].flow.plan)) == sha(PlanText(plan)) ==>
               PlanText(leases[j].flow.plan) == PlanText(plan)
    requires ComputePlanHash(sha, plan) != ""
    ensures HashNamesPlan(leases, ComputePlanHash(sha, plan), plan)
    ensures OnePlan(leases, Some(ComputePlanHash(sha, plan)), plan)
  {
    hide PlanText;
    PinOnePlan(leases, Some(ComputePlanHash(sha, plan)), plan);
    forall j | 0 <= j < |leases| && leases[j].flow.planHash == ComputePlanHash(sha, plan)
      ensures leases[j].flow.plan == plan
    {
      PlanTextNamesPlan(leases[j].flow.plan, plan);
    }
  }
}
