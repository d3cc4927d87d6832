/** The single-step journals: in memory (src/flow/journal.ts:75-97) and Redis
    (src/flow/redis-journal.ts:39-110). Both keep one append-only sequence of rows per
    operation whose i-th row carries the number i. */
module Journals {
  import opened Basics
  import opened JsonValues
  import opened FlowTypes
  import opened FlowFold
  import opened FlowLease
  import opened JsonReader
  import opened JsonScalars
  import opened CanonicalJson
  import opened CanonicalMeaning
  import opened CanonicalReadable

  datatype Numbered = Numbered(seqNo: nat, row: Row)

  function Number(rows: seq<Row>): seq<Numbered> {
    seq(|rows|, i requires 0 <= i < |rows| => Numbered(i, rows[i]))
  }

  /** One array per operation. */
  class MemoryJournal {
    var operations: map<string, seq<Numbered>>

    /** The rows of an operation without their numbers. */
    ghost function Contents(operationId: string): seq<Row>
      reads this
    {
      var rows := GetOr(operations, operationId, []);
      seq(|rows|, i requires 0 <= i < |rows| => rows[i].row)
    }

    ghost predicate Valid()
      reads this
    {
      forall op, i :: op in operations && 0 <= i < |operations[op]| ==> operations[op][i].seqNo == i
    }

    constructor ()
      ensures Valid() && forall op :: Contents(op) == []
    {
      operations := map[];
    }

    method Append(operationId: string, row: Row) returns (stored: Numbered)
      requires Valid()
      modifies this
      ensures Valid() && stored == Numbered(|old(Contents(operationId))|, row)
      ensures Contents(operationId) == old(Contents(operationId)) + [row]
      ensures forall op :: op != operationId ==> Contents(op) == old(Contents(op))
    {
      var rows := GetOr(operations, operationId, []);
      stored := Numbered(|rows|, row);
      operations := operations[operationId := rows + [stored]];
    }

    method Read(operationId: string) returns (rows: seq<Numbered>)
      requires Valid()
      ensures rows == Number(Contents(operationId))
    {
      rows := GetOr(operations, operationId, []);
    }

    /** A lease writes its rows one by one; the appends that fail leave nothing. What the
        journal then holds is what the next lease of the operation reads. */
    method WriteLease(operationId: string, log: seq<Event>)
      requires Valid()
      modifies this
      ensures Valid() && Contents(operationId) == old(Contents(operationId)) + Kept(log)
      ensures forall op :: op != operationId ==> Contents(op) == old(Contents(op))
    {
      for i := 0 to |log|
        invariant Valid() && Contents(operationId) == old(Contents(operationId)) + Kept(log[..i])
        invariant forall op :: op != operationId ==> Contents(op) == old(Contents(op))
      {
        assert log[..i + 1][..i] == log[..i];
        if log[i].Append? && log[i].kept {
          var _ := Append(operationId, log[i].row);
        }
      }
      assert log[..|log|] == log;
    }
  }

  // ----------------------------------------------------------------- JSON.stringify

  /** What `JSON.stringify` makes of a value before it prints: an undefined item and a
      number that is not finite become null. Undefined members it leaves out. */
  function Jsonified(v: JsValue): JsValue
    decreases v
  {
    match v
    case JsNotFinite => JsNull
    case JsArray(items) =>
      JsArray(seq(|items|, i requires 0 <= i < |items| => if items[i].JsUndefined? then JsNull
          else Jsonified(items[i])))
    case JsObject(members) =>
      JsObject(seq(|members|, i requires 0 <= i < |members| => Member(members[i].key, Jsonified(members[i].value))))
    case _ => v
  }

  /** Nothing in the value is of a kind that JSON does not have. */
  ghost predicate Jsonable(v: JsValue)
    decreases v
  {
    match v
    case JsUndefined => false
    case JsOther => false
    case JsArray(items) => forall i :: 0 <= i < |items| ==> items[i].JsUndefined? || Jsonable(items[i])
    case JsObject(members) => forall i :: 0 <= i < |members| ==>
      members[i].value.JsUndefined? || Jsonable(members[i].value)
    case _ => true
  }

  /** What `JSON.stringify` is documented to write of a value. */
  ghost predicate Stringifies(v: JsValue, j: Json)
    decreases v
  {
    match v
    case JsNull => j == Null
    case JsBool(b) => j == Bool(b)
    case JsNumber(n) => j == Num(n)
    case JsNotFinite => j == Null
    case JsString(s) => j == Str(s)
    case JsArray(items) =>
      && j.Arr? && |j.items| == |items|
      && forall i :: 0 <= i < |items| ==>
           if items[i].JsUndefined? then j.items[i] == Null else Stringifies(items[i], j.items[i])
    case JsObject(members) =>
      && j.Obj? && (forall k :: k in j.members ==> exists i :: 0 <= i < |members| && members[i].key == k)
      && forall i :: 0 <= i < |members| ==>
           if members[i].value.JsUndefined? then members[i].key !in j.members
           else members[i].key in j.members && Stringifies(members[i].value, j.members[members[i].key])
    case JsUndefined => false
    case JsOther => false
  }

  /** Then the value denotes just that, and its keys stay distinct. */
  lemma {:induction false} JsonifiedMeans(v: JsValue)
    requires WellFormed(v) && Jsonable(v)
    ensures WellFormed(Jsonified(v)) && Meaning(Jsonified(v)).Some?
    ensures Stringifies(v, Meaning(Jsonified(v)).value)
    decreases v
  {
    match v
    case JsArray(items) =>
      var made := Jsonified(v).items;
      forall i | 0 <= i < |items|
        ensures WellFormed(made[i]) && Meaning(made[i]).Some?
        ensures if items[i].JsUndefined? then Meaning(made[i]) == Some(Null)
                else Stringifies(items[i], Meaning(made[i]).value)
      {
        if !items[i].JsUndefined? {
          JsonifiedMeans(items[i]);
        }
      }
      ArrayMeans(made);
    case JsObject(members) =>
      forall i | 0 <= i < |members| && !members[i].value.JsUndefined?
        ensures WellFormed(Jsonified(members[i].value)) && Meaning(Jsonified(members[i].value)).Some?
        ensures Stringifies(members[i].value, Meaning(Jsonified(members[i].value)).value)
      {
        JsonifiedMeans(members[i].value);
      }
      JsonifiedObject(members);
    case _ =>
  }

  lemma {:induction false} JsonifiedObject(members: seq<Member>)
    requires DistinctKeys(members)
    requires forall i :: 0 <= i < |members| && !members[i].value.JsUndefined? ==>
               && WellFormed(Jsonified(members[i].value)) && Meaning(Jsonified(members[i].value)).Some?
               && Stringifies(members[i].value, Meaning(Jsonified(members[i].value)).value)
    ensures WellFormed(Jsonified(JsObject(members))) && Meaning(Jsonified(JsObject(members))).Some?
    ensures Stringifies(JsObject(members), Meaning(Jsonified(JsObject(members))).value)
  {
    var made := Jsonified(JsObject(members)).members;
    assert |made| == |members| && forall i :: 0 <= i < |members| ==>
      made[i] == Member(members[i].key, Jsonified(members[i].value));
    assert Jsonified(JsUndefined) == JsUndefined && WellFormed(JsUndefined);
    assert forall v: JsValue :: !v.JsUndefined? ==> !Jsonified(v).JsUndefined?;
    hide Jsonified;
    forall i | 0 <= i < |members| ensures WellFormed(made[i].value) {}
    assert DistinctKeys(made);
    forall m | m in made && !m.value.JsUndefined? ensures Meaning(m.value).Some? {
      var i :| 0 <= i < |made| && made[i] == m;
      assert !members[i].value.JsUndefined?;
    }
    MembersMeaningHolds(made);
    assert Jsonified(JsObject(members)) == JsObject(made);
    ObjectMeans(made);
    hide Meaning, MembersMeaning, WellFormed, DistinctKeys;
    var j := MembersMeaning(made).value;
    forall i | 0 <= i < |members|
      ensures if members[i].value.JsUndefined? then members[i].key !in j
              else members[i].key in j && Stringifies(members[i].value, j[members[i].key])
    {
      FieldMeans(made, i);
    }
    KeysMean(made);
    forall k | k in j ensures exists i :: 0 <= i < |members| && members[i].key == k {
      var i :| 0 <= i < |made| && made[i].key == k;
      assert members[i].key == k;
    }
  }

  // ----------------------------------------------------------------- the Redis script

  /** `JSON.stringify` of an object whose members are given in order. */
  function ObjectText(members: seq<Member>): (r: Option<string>)
    ensures r.Some? ==> |r.value| >= 2 && r.value[0] == '{'
  {
    var owner := JsObject(members);
    var printed := PrintEntries(AsWritten, members, "$", owner);
    if printed.Text? then Some("{" + printed.text + "}") else None
  }

  /** The script's splice of the number in front of the payload's members. */
  function Splice(payload: string, seqNo: nat): string
    requires |payload| >= 1
  {
    if payload == "{}" then "{\"seq\":" + Decimal(seqNo) + "}"
    else "{\"seq\":" + Decimal(seqNo) + "," + payload[1..]
  }

  function SeqMember(seqNo: nat): Member {
    Member("seq", JsNumber(seqNo))
  }

  /** A row that `JSON.stringify` writes in full: plain JSON members with distinct keys,
      none of them called `seq`. */
  ghost predicate Storable(members: seq<Member>) {
    && DistinctKeys(members) && AllDefined(members)
    && (forall m :: m in members ==> m.key != "seq" && WellFormed(m.value) && Meaning(m.value).Some?)
  }

  /** A printed member list does not depend on where it stands. */
  lemma {:induction false} EntriesAnywhere(members: seq<Member>, p: string, q: string, v: JsValue, w: JsValue)
    requires Storable(members)
    requires forall m :: m in members ==> m.value < v && m.value < w
    ensures PrintEntries(AsWritten, members, p, v).Text?
    ensures PrintEntries(AsWritten, members, p, v) == PrintEntries(AsWritten, members, q, w)
  {
    MembersMeaningHolds(members);
    PrintableEntries(AsWritten, members, p, v);
    EntriesPathFree(AsWritten, members, p, q, v, w);
  }

  lemma {:induction false} StorableText(members: seq<Member>)
    requires Storable(members)
    ensures ObjectText(members).Some?
  {
    hide Storable;
    EntriesAnywhere(members, "$", "$", JsObject(members), JsObject(members));
  }

  lemma {:induction false} EmptyOnly(members: seq<Member>)
    requires Storable(members) && ObjectText(members).Some?
    ensures ObjectText(members).value == "{}" <==> |members| == 0
  {
    var owner := JsObject(members);
    if |members| > 0 {
      hide Render, Escaped, Meaning, WellFormed;
      assert PrintEntries(AsWritten, members, "$", owner).text[0] == '"';
      assert ObjectText(members).value[1] == '"';
      assert "{}"[1] == '}';
    } else {
      assert ObjectText(members).value == "{" + "" + "}" == "{}";
    }
  }

  lemma {:induction false} MemberBelow(members: seq<Member>, m: Member)
    requires m in members
    ensures m.value < JsObject(members)
  {
    var i :| 0 <= i < |members| && members[i] == m;
    assert members[i].value < JsObject(members);
  }

  /** The entries of a row with its number in front. */
  lemma {:induction false} NumberedEntries(members: seq<Member>, seqNo: nat)
    requires Storable(members)
    ensures ObjectText(members).Some?
    ensures var all := [SeqMember(seqNo)] + members;
            var rest := PrintEntries(AsWritten, members, "$", JsObject(members)).text;
      PrintEntries(AsWritten, all, "$", JsObject(all))
          == Text("\"seq\"" + ":" + Decimal(seqNo) + (if |members| > 0 then "," else "") + rest)
  {
    var all := [SeqMember(seqNo)] + members;
    StorableText(members);
    assert all[1..] == members && all[0] == SeqMember(seqNo);
    forall m | m in members ensures m.value < JsObject(all) && m.value < JsObject(members) {
      assert m in all;
      MemberBelow(all, m);
      MemberBelow(members, m);
    }
    EntriesAnywhere(members, "$", "$", JsObject(all), JsObject(members));
    assert Render(AsWritten, JsNumber(seqNo), "$" + "." + "seq") == Text(Decimal(seqNo));
    SeqKey();
    hide Storable, Render, Decimal, Quote;
  }

  /** Splicing the number into the text is printing the row with the number in front. */
  lemma {:induction false} SpliceIsPrint(members: seq<Member>, seqNo: nat)
    requires Storable(members)
    ensures ObjectText(members).Some?
    ensures ObjectText([SeqMember(seqNo)] + members) == Some(Splice(ObjectText(members).value, seqNo))
  {
    NumberedEntries(members, seqNo);
    EmptyOnly(members);
    hide Storable, PrintEntries, Decimal;
    var rest := PrintEntries(AsWritten, members, "$", JsObject(members)).text;
    if |members| == 0 {
      assert rest == "" by { NoEntries(members); }
      SpliceEmpty(Decimal(seqNo), rest);
    } else {
      DropBrace(rest);
      SpliceFront(Decimal(seqNo), rest);
    }
  }

  lemma {:induction false} NoEntries(members: seq<Member>)
    requires |members| == 0
    ensures PrintEntries(AsWritten, members, "$", JsObject(members)) == Text("")
  {}

  lemma {:induction false} SpliceEmpty(n: string, rest: string)
    requires rest == ""
    ensures "{" + ("\"seq\"" + ":" + n + "" + rest) + "}" == "{\"seq\":" + n + "}"
  {}

  lemma {:induction false} SpliceFront(n: string, rest: string)
    ensures "{" + ("\"seq\"" + ":" + n + "," + rest) + "}" == "{\"seq\":" + n + "," + (rest + "}")
  {}

  lemma {:induction false} SeqKey()
    ensures Quote("seq") == "\"seq\""
  {
    assert Escaped("") == "";
    assert "q"[1..] == "" && "eq"[1..] == "q" && "seq"[1..] == "eq";
    assert Escaped("q") == "q" && Escaped("eq") == "eq" && Escaped("seq") == "seq";
  }

  lemma {:induction false} DropBrace(rest: string)
    ensures ("{" + rest + "}")[1..] == rest + "}"
  {}

  /** Rest-destructuring: the row without a `seq` of its own, and what is undefined is
      not written. */
  function Payload(cp: seq<Member>): (r: seq<Member>)
    ensures forall m :: m in r ==>
            exists x :: x in cp && x.key == m.key != "seq" && !x.value.JsUndefined? && m.value == Jsonified(x.value)
    ensures forall x :: x in cp && x.key != "seq" && !x.value.JsUndefined? ==> Member(x.key, Jsonified(x.value)) in r
  {
    if |cp| == 0 then []
    else if cp[0].key == "seq" || cp[0].value.JsUndefined? then Payload(cp[1..])
    else [Member(cp[0].key, Jsonified(cp[0].value))] + Payload(cp[1..])
  }

  lemma {:induction false} PayloadDistinct(cp: seq<Member>)
    requires DistinctKeys(cp)
    ensures DistinctKeys(Payload(cp))
  {
    hide Jsonified;
    if |cp| > 0 {
      PayloadDistinct(cp[1..]);
      assert forall x :: x in cp[1..] ==> x.key != cp[0].key;
    }
  }

  lemma {:induction false} PayloadStorable(cp: seq<Member>)
    requires DistinctKeys(cp)
    requires forall m :: m in cp && !m.value.JsUndefined? ==> WellFormed(m.value) && Jsonable(m.value)
    ensures Storable(Payload(cp))
  {
    PayloadDistinct(cp);
    hide Payload, Jsonified, WellFormed, Jsonable, Meaning, DistinctKeys;
    forall m | m in Payload(cp)
      ensures m.key != "seq" && WellFormed(m.value) && Meaning(m.value).Some? && !m.value.JsUndefined?
    {
      var x :| x in cp && x.key == m.key != "seq" && !x.value.JsUndefined? && m.value == Jsonified(x.value);
      JsonifiedMeans(x.value);
      MeansDefined(m.value);
    }
  }

  /** What is stored of a row says of each member what `JSON.stringify` writes of it, and of
      nothing else. */
  lemma {:induction false} PayloadMeans(cp: seq<Member>)
    requires DistinctKeys(cp)
    requires forall m :: m in cp && !m.value.JsUndefined? ==> WellFormed(m.value) && Jsonable(m.value)
    ensures MembersMeaning(Payload(cp)).Some?
    ensures var stored := MembersMeaning(Payload(cp)).value;
      && "seq" !in stored
      && (forall x :: x in cp && x.key != "seq" ==>
            if x.value.JsUndefined? then x.key !in stored
            else x.key in stored && Stringifies(x.value, stored[x.key]))
      && forall k :: k in stored ==> exists x :: x in cp && x.key == k
  {
    PayloadStorable(cp);
    var payload := Payload(cp);
    MembersMeaningHolds(payload);
    hide MembersMeaning, Payload, Jsonified, WellFormed, Jsonable, Meaning, Stringifies;
    var stored := MembersMeaning(payload).value;
    forall k | k in stored ensures k != "seq" && exists x :: x in cp && x.key == k && !x.value.JsUndefined? {
      var m :| m in payload && !m.value.JsUndefined? && m.key == k;
    }
    forall x | x in cp && x.key != "seq" && !x.value.JsUndefined?
      ensures x.key in stored && Stringifies(x.value, stored[x.key])
    {
      JsonifiedMeans(x.value);
      MeansDefined(Jsonified(x.value));
      assert Member(x.key, Jsonified(x.value)) in payload;
    }
  }

  lemma {:induction false} MeansDefined(v: JsValue)
    requires Meaning(v).Some?
    ensures !v.JsUndefined?
  {}

  lemma {:induction false} NumberedMeans(members: seq<Member>, seqNo: nat)
    requires Storable(members)
    ensures var all := [SeqMember(seqNo)] + members;
      && AllDefined(all) && DistinctKeys(all) && (forall m :: m in all ==> WellFormed(m.value))
      && MembersMeaning(members).Some?
      && MembersMeaning(all) == Some(MembersMeaning(members).value["seq" := Num(seqNo)])
  {
    var all := [SeqMember(seqNo)] + members;
    assert all[1..] == members;
    MembersMeaningHolds(members);
  }

  /** A stored text is read as the row it was written for: its members and the number. */
  lemma {:induction false} StoredTextReads(members: seq<Member>, seqNo: nat)
    requires Storable(members)
    ensures MembersMeaning(members).Some? && ObjectText([SeqMember(seqNo)] + members).Some?
    ensures ReadValue(ObjectText([SeqMember(seqNo)] + members).value)
         == Front(Obj(MembersMeaning(members).value["seq" := Num(seqNo)]), "")
  {
    var all := [SeqMember(seqNo)] + members;
    SpliceIsPrint(members, seqNo);
    NumberedMeans(members, seqNo);
    hide Storable, WellFormed, Meaning, MembersMeaning, PrintEntries, DistinctKeys, Splice;
    forall m | m in all ensures m.value < JsObject(all) {
      MemberBelow(all, m);
    }
    EntriesReadBack(AsWritten, all, "$", "", JsObject(all));
    BracedReads(AsWritten, all, "$", "", JsObject(all));
    var text := ObjectText(all).value;
    assert text + "" == text;
  }

  /** The JSON value of a row with its number. */
  ghost function NumberedRow(members: seq<Member>, seqNo: nat): Json
    requires MembersMeaning(members).Some?
  {
    Obj(MembersMeaning(members).value["seq" := Num(seqNo)])
  }

  /** The i-th text is the i-th row with the number i in front. */
  ghost predicate Mirrors(list: seq<string>, rows: seq<seq<Member>>) {
    && |list| == |rows|
    && forall i :: 0 <= i < |rows| ==>
         Storable(rows[i]) && ObjectText([SeqMember(i)] + rows[i]) == Some(list[i])
  }

  lemma {:induction false} MirrorsGrows(list: seq<string>, rows: seq<seq<Member>>, payload: seq<Member>)
    requires Mirrors(list, rows) && Storable(payload)
    ensures ObjectText(payload).Some?
    ensures Mirrors(list + [Splice(ObjectText(payload).value, |list|)], rows + [payload])
  {
    hide Storable, ObjectText, Splice;
    SpliceIsPrint(payload, |list|);
  }

  /** One list of texts per operation. */
  class RedisJournal {
    var lists: map<string, seq<string>>
    ghost var rows: map<string, seq<seq<Member>>>

    ghost predicate Valid()
      reads this
    {
      lists.Keys == rows.Keys && forall op :: op in rows ==> Mirrors(lists[op], rows[op])
    }

    constructor ()
      ensures Valid() && rows == map[]
    {
      lists, rows := map[], map[];
    }

    /** The script's `LLEN`, splice and `RPUSH` as one atomic step. */
    method Append(operationId: string, cp: seq<Member>) returns (seqNo: nat)
      requires Valid() && DistinctKeys(cp)
      requires forall m :: m in cp && !m.value.JsUndefined? ==> WellFormed(m.value) && Jsonable(m.value)
      modifies this
      ensures Valid() && seqNo == |GetOr(old(rows), operationId, [])|
      ensures rows == old(rows)[operationId := GetOr(old(rows), operationId, []) + [Payload(cp)]]
    {
      PayloadStorable(cp);
      var payload, list := Payload(cp), GetOr(lists, operationId, []);
      ghost var held := GetOr(rows, operationId, []);
      MirrorsGrows(list, held, payload);
      hide Storable, ObjectText, Splice, Mirrors, DistinctKeys, Payload, WellFormed, Jsonable;
      seqNo := |list|;
      lists := lists[operationId := list + [Splice(ObjectText(payload).value, seqNo)]];
      rows := rows[operationId := held + [payload]];
    }

    /** `LRANGE` and `JSON.parse`: what was appended, in order, each row with its number. */
    method Read(operationId: string) returns (values: seq<Json>)
      requires Valid()
      ensures var held := GetOr(rows, operationId, []);
        && |values| == |held|
        && forall i :: 0 <= i < |held| ==> MembersMeaning(held[i]).Some? && values[i] == NumberedRow(held[i], i)
    {
      hide MembersMeaning, Storable, ObjectText, ReadValue;
      var list := GetOr(lists, operationId, []);
      ghost var held := GetOr(rows, operationId, []);
      values := [];
      for i := 0 to |list|
        invariant |values| == i && |held| == |list|
        invariant forall j :: 0 <= j < i ==> MembersMeaning(held[j]).Some? && values[j] == NumberedRow(held[j], j)
      {
        assert ObjectText([SeqMember(i)] + held[i]) == Some(list[i]);
        StoredTextReads(held[i], i);
        values := values + [ReadValue(list[i]).value];
      }
    }
  }
}
