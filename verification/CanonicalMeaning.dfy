/** What canonical text says: two values print alike exactly when they denote the same
    JSON value, whatever the order of their keys and whichever members are undefined. */
module CanonicalMeaning {
  import opened Basics
  import opened JsonValues
  import opened JsonScalars
  import opened CanonicalJson

  // ---------------------------------------------------------------------- meaning

  /** The JSON value a JavaScript value denotes, if it denotes one: members that are
      undefined do not count, and an object is a map. */
  function Meaning(v: JsValue): Option<Json>
    decreases v
  {
    match v
    case JsNull => Some(Null)
    case JsBool(b) => Some(Bool(b))
    case JsNumber(n) => Some(Num(n))
    case JsString(s) => Some(Str(s))
    case JsArray(items) =>
      var inner := ItemsMeaning(items, 0);
      if inner.Some? then Some(Arr(inner.value)) else None
    case JsObject(members) =>
      var inner := MembersMeaning(members);
      if inner.Some? then Some(Obj(inner.value)) else None
    case JsUndefined => None
    case JsNotFinite => None
    case JsOther => None
  }

  function ItemsMeaning(items: seq<JsValue>, i: nat): Option<seq<Json>>
    requires i <= |items|
    decreases items, |items| - i
  {
    if i == |items| then Some([])
    else
      var head, rest := Meaning(items[i]), ItemsMeaning(items, i + 1);
      if head.Some? && rest.Some? then Some([head.value] + rest.value) else None
  }

  function MembersMeaning(members: seq<Member>): Option<map<string, Json>>
    decreases members
  {
    if |members| == 0 then Some(map[])
    else
      var rest := MembersMeaning(members[1..]);
      if members[0].value.JsUndefined? then rest
      else
        var head := Meaning(members[0].value);
        if head.Some? && rest.Some? then Some(rest.value[members[0].key := head.value]) else None
  }

  /** The keys of an object are distinct, at every depth. */
  ghost predicate WellFormed(v: JsValue)
    decreases v
  {
    match v
    case JsArray(items) => forall i :: 0 <= i < |items| ==> WellFormed(items[i])
    case JsObject(members) => DistinctKeys(members) && forall i :: 0 <= i < |members| ==> WellFormed(members[i].value)
    case _ => true
  }

  ghost predicate DistinctKeys(members: seq<Member>) {
    forall i, j :: 0 <= i < j < |members| ==> members[i].key != members[j].key
  }

  // --------------------------------------------------------- entries keep the meaning

  /** Strictly increasing keys. */
  ghost predicate Sorted(members: seq<Member>) {
    forall i, j :: 0 <= i < j < |members| ==> Before(members[i].key, members[j].key)
  }

  ghost predicate AllDefined(members: seq<Member>) {
    forall m :: m in members ==> !m.value.JsUndefined?
  }

  lemma {:induction false} SortedTail(members: seq<Member>)
    requires Sorted(members) && |members| > 0
    ensures Sorted(members[1..])
    ensures forall m :: m in members[1..] ==> Before(members[0].key, m.key)
  {
    hide Before;
    forall m | m in members[1..] ensures Before(members[0].key, m.key) {
      var i :| 0 <= i < |members[1..]| && members[1..][i] == m;
      assert members[i + 1] == m;
    }
  }

  lemma {:induction false} SortedCons(m: Member, rest: seq<Member>)
    requires Sorted(rest) && forall x :: x in rest ==> Before(m.key, x.key)
    ensures Sorted([m] + rest)
  {
    hide Before;
  }

  lemma {:induction false} InsertSorted(m: Member, sorted: seq<Member>)
    requires Sorted(sorted) && forall x :: x in sorted ==> x.key != m.key
    ensures Sorted(InsertByKey(m, sorted))
  {
    hide Before, Sorted;
    if |sorted| == 0 {
      SingleSorted(m);
      assert [m] + sorted == [m];
    } else {
      SortedTail(sorted);
      if Before(sorted[0].key, m.key) {
        InsertSorted(m, sorted[1..]);
        SortedCons(sorted[0], InsertByKey(m, sorted[1..]));
      } else {
        BeforeTotal(m.key, sorted[0].key);
        forall x | x in sorted ensures Before(m.key, x.key) {
          if x != sorted[0] {
            BeforeTransitive(m.key, sorted[0].key, x.key);
          }
        }
        SortedCons(m, sorted);
      }
    }
  }

  lemma {:induction false} SingleSorted(m: Member)
    ensures Sorted([m])
  {}

  lemma {:induction false} SortSorted(members: seq<Member>)
    requires DistinctKeys(members)
    ensures Sorted(SortByKey(members))
  {
    hide Before;
    if |members| > 0 {
      SortSorted(members[1..]);
      hide Sorted;
      InsertSorted(members[0], SortByKey(members[1..]));
    }
  }

  lemma {:induction false} DefinedDistinct(members: seq<Member>)
    requires DistinctKeys(members)
    ensures DistinctKeys(Defined(members))
  {
    if |members| > 0 {
      DefinedDistinct(members[1..]);
    }
  }

  /** What a map of members holds, member by member. */
  lemma {:induction false} MembersMeaningHolds(members: seq<Member>)
    requires DistinctKeys(members)
    ensures MembersMeaning(members).Some? <==> forall m :: m in members && !m.value.JsUndefined? ==>
            Meaning(m.value).Some?
    ensures MembersMeaning(members).Some? ==> forall k :: k in MembersMeaning(members).value <==>
              exists m :: m in members && !m.value.JsUndefined? && m.key == k
    ensures MembersMeaning(members).Some? ==> forall m :: m in members && !m.value.JsUndefined? ==>
              m.key in MembersMeaning(members).value && Meaning(m.value) == Some(MembersMeaning(members).value[m.key])
  {
    hide Meaning;
    if |members| > 0 {
      var rest := members[1..];
      MembersMeaningHolds(rest);
      assert members == [members[0]] + rest;
      assert forall m :: m in rest ==> m.key != members[0].key;
    }
  }

  /** Distinct-key lists with the same defined members mean the same map. */
  lemma {:induction false} SameMembers(a: seq<Member>, b: seq<Member>)
    requires DistinctKeys(a) && DistinctKeys(b)
    requires forall m: Member :: !m.value.JsUndefined? ==> (m in a <==> m in b)
    ensures MembersMeaning(a) == MembersMeaning(b)
  {
    hide Meaning, MembersMeaning, DistinctKeys;
    MembersMeaningHolds(a);
    MembersMeaningHolds(b);
    if MembersMeaning(a).Some? {
      var p, q := MembersMeaning(a).value, MembersMeaning(b).value;
      assert p.Keys == q.Keys;
      forall k | k in p ensures p[k] == q[k] {
        var m :| m in a && !m.value.JsUndefined? && m.key == k;
      }
      assert p == q;
    }
  }

  lemma {:induction false} SortedDistinct(members: seq<Member>)
    requires Sorted(members)
    ensures DistinctKeys(members)
  {
    hide Before;
    forall i, j | 0 <= i < j < |members| ensures members[i].key != members[j].key {
      BeforeStrict(members[i].key);
      assert Before(members[i].key, members[j].key);
    }
  }

  /** The printed entries of an object are sorted, defined, and mean what its members
      mean. */
  lemma {:induction false} EntriesMean(members: seq<Member>)
    requires DistinctKeys(members)
    ensures Sorted(Entries(members)) && AllDefined(Entries(members)) && DistinctKeys(Entries(members))
    ensures MembersMeaning(Entries(members)) == MembersMeaning(members)
  {
    hide Before, DistinctKeys, Sorted, MembersMeaning;
    DefinedDistinct(members);
    SortSorted(Defined(members));
    SortedDistinct(Entries(members));
    SameMembers(Entries(members), members);
  }

  lemma {:induction false} ItemsMeaningHolds(items: seq<JsValue>, i: nat)
    requires i <= |items| && forall j :: i <= j < |items| ==> Meaning(items[j]).Some?
    ensures var r := ItemsMeaning(items, i);
      r.Some? && |r.value| == |items| - i && forall j :: i <= j < |items| ==> Meaning(items[j]) == Some(r.value[j - i])
    decreases |items| - i
  {
    hide Meaning;
    if i < |items| {
      ItemsMeaningHolds(items, i + 1);
    }
  }

  /** An array means the array of what its items mean. */
  lemma {:induction false} ArrayMeans(items: seq<JsValue>)
    requires forall j :: 0 <= j < |items| ==> Meaning(items[j]).Some?
    ensures Meaning(JsArray(items)).Some? && Meaning(JsArray(items)).value.Arr?
    ensures var r := Meaning(JsArray(items)).value.items;
      |r| == |items| && forall j :: 0 <= j < |items| ==> Meaning(items[j]) == Some(r[j])
  {
    ItemsMeaningHolds(items, 0);
    hide ItemsMeaning;
    forall j | 0 <= j < |items| ensures Meaning(items[j]) == Some(ItemsMeaning(items, 0).value[j]) {
      assert ItemsMeaning(items, 0).value[j] == ItemsMeaning(items, 0).value[j - 0];
    }
  }

  lemma {:induction false} ObjectMeans(members: seq<Member>)
    requires Meaning(JsObject(members)).Some?
    ensures MembersMeaning(members).Some? && Meaning(JsObject(members)) == Some(Obj(MembersMeaning(members).value))
  {
    hide MembersMeaning;
  }

  /** A member's value is found under its key, unless it is undefined. */
  lemma {:induction false} FieldMeans(members: seq<Member>, i: nat)
    requires DistinctKeys(members) && MembersMeaning(members).Some? && i < |members|
    ensures Get(MembersMeaning(members).value, members[i].key)
         == if members[i].value.JsUndefined? then None else Meaning(members[i].value)
  {
    MembersMeaningHolds(members);
    hide MembersMeaning, Meaning;
    assert members[i] in members;
    assert forall x :: x in members && x.key == members[i].key ==> x == members[i];
  }

  /** No key beside the members'. */
  lemma {:induction false} KeysMean(members: seq<Member>)
    requires DistinctKeys(members) && MembersMeaning(members).Some?
    ensures forall k :: k in MembersMeaning(members).value ==> exists i :: 0 <= i < |members| && members[i].key == k
  {
    MembersMeaningHolds(members);
    hide MembersMeaning, Meaning;
    forall k | k in MembersMeaning(members).value ensures exists i :: 0 <= i < |members| && members[i].key == k {
      var m :| m in members && !m.value.JsUndefined? && m.key == k;
      var i :| 0 <= i < |members| && members[i] == m;
    }
  }

  /** In either style the entries of an object mean what its members mean. */
  lemma {:induction false} ArrangedMeans(style: Style, members: seq<Member>)
    requires DistinctKeys(members)
    ensures AllDefined(Arranged(style, members)) && DistinctKeys(Arranged(style, members))
    ensures MembersMeaning(Arranged(style, members)) == MembersMeaning(members)
  {
    EntriesMean(members);
    DefinedDistinct(members);
    hide MembersMeaning, DistinctKeys, Sorted, Entries, Defined;
    if style.AsWritten? {
      SameMembers(Defined(members), members);
    }
  }
}
