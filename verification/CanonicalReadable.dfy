/** The canonical text of a value is uniquely readable (RFC 8259 grammar restricted to
    what the printer emits), so equal texts mean equal JSON values and back. */
module CanonicalReadable {
  import opened Basics
  import opened JsonValues
  import opened JsonReader
  import opened JsonScalars
  import opened CanonicalJson
  import opened CanonicalMeaning

  // ------------------------------------------------- which values have a text at all

  lemma {:induction false} EntriesWellFormed(style: Style, members: seq<Member>)
    requires WellFormed(JsObject(members))
    ensures forall m :: m in Arranged(style, members) ==> WellFormed(m.value)
  {}

  lemma {:induction false} Printable(style: Style, v: JsValue, path: string)
    requires WellFormed(v)
    ensures Render(style, v, path).Text? <==> Meaning(v).Some?
    decreases v
  {
    match v
    case JsArray(items) => PrintableItems(style, items, 0, path);
    case JsObject(members) =>
      EntriesWellFormed(style, members);
      ArrangedMeans(style, members);
      PrintableEntries(style, Arranged(style, members), path, v);
    case _ =>
  }

  lemma {:induction false} PrintableItems(style: Style, items: seq<JsValue>, i: nat, path: string)
    requires i <= |items| && forall j :: 0 <= j < |items| ==> WellFormed(items[j])
    ensures PrintItems(style, items, i, path).Text? <==> ItemsMeaning(items, i).Some?
    decreases items, |items| - i
  {
    hide Render, Meaning, WellFormed;
    if i < |items| {
      Printable(style, items[i], path + "[" + Decimal(i) + "]");
      PrintableItems(style, items, i + 1, path);
    }
  }

  lemma {:induction false} PrintableEntries(style: Style, entries: seq<Member>, path: string, owner: JsValue)
    requires AllDefined(entries) && forall m :: m in entries ==> m.value < owner && WellFormed(m.value)
    ensures PrintEntries(style, entries, path, owner).Text? <==> MembersMeaning(entries).Some?
    decreases owner, |entries|
  {
    hide Render, Meaning, WellFormed;
    if |entries| > 0 {
      Printable(style, entries[0].value, path + "." + entries[0].key);
      PrintableEntries(style, entries[1..], path, owner);
    }
  }

  // ------------------------------------------------------------- what a rejection says

  /** Inside the value `v` that is found at `path`, the value `w` is found at `at`. */
  ghost predicate Holds(v: JsValue, path: string, w: JsValue, at: string)
    decreases v
  {
    || (v == w && at == path)
    || (v.JsArray? && exists i :: 0 <= i < |v.items| && Holds(v.items[i], path + "[" + Decimal(i) + "]", w, at))
    || (v.JsObject? && exists i ::
         0 <= i < |v.members| && Holds(v.members[i].value, path + "." + v.members[i].key, w, at))
  }

  /** A value that is not JSON, with the reason why. */
  predicate Offends(w: JsValue, reason: Reason) {
    match reason
    case NonFiniteNumber => w.JsNotFinite?
    case NonJsonValue => w.JsUndefined? || w.JsOther?
  }

  /** A rejection names the place of a value that is not JSON, and what is wrong with it. */
  lemma {:induction false} RejectedAt(style: Style, v: JsValue, path: string) returns (w: JsValue)
    requires Render(style, v, path).Rejected?
    ensures Offends(w, Render(style, v, path).reason) && Holds(v, path, w, Render(style, v, path).path)
    decreases v
  {
    match v
    case JsArray(items) =>
      var i: nat;
      hide Holds;
      i, w := ItemRejectedAt(style, items, 0, path);
      ItemHolds(v, path, w, Render(style, v, path).path, i);
    case JsObject(members) =>
      var m: Member;
      hide Holds;
      m, w := EntryRejectedAt(style, Arranged(style, members), path, v);
      assert m in members;
      var i :| 0 <= i < |members| && members[i] == m;
      MemberHolds(v, path, w, Render(style, v, path).path, i);
    case _ => w := v;
  }

  lemma {:induction false} ItemHolds(v: JsValue, path: string, w: JsValue, at: string, i: nat)
    requires v.JsArray? && i < |v.items| && Holds(v.items[i], path + "[" + Decimal(i) + "]", w, at)
    ensures Holds(v, path, w, at)
  {}

  lemma {:induction false} MemberHolds(v: JsValue, path: string, w: JsValue, at: string, i: nat)
    requires v.JsObject? && i < |v.members| && Holds(v.members[i].value, path + "." + v.members[i].key, w, at)
    ensures Holds(v, path, w, at)
  {}

  lemma {:induction false} ItemRejectedAt(style: Style, items: seq<JsValue>, i: nat, path: string)
    returns (k: nat, w: JsValue)
    requires i <= |items| && PrintItems(style, items, i, path).Rejected?
    ensures var r := PrintItems(style, items, i, path);
      k < |items| && Offends(w, r.reason) && Holds(items[k], path + "[" + Decimal(k) + "]", w, r.path)
    decreases items, |items| - i
  {
    hide Render, Holds, Offends;
    if Render(style, items[i], path + "[" + Decimal(i) + "]").Rejected? {
      k := i;
      w := RejectedAt(style, items[i], path + "[" + Decimal(i) + "]");
    } else {
      k, w := ItemRejectedAt(style, items, i + 1, path);
    }
  }

  lemma {:induction false} EntryRejectedAt(style: Style, entries: seq<Member>, path: string, owner: JsValue)
    returns (m: Member, w: JsValue)
    requires (forall m :: m in entries ==> m.value < owner) && PrintEntries(style, entries, path, owner).Rejected?
    ensures var r := PrintEntries(style, entries, path, owner);
      m in entries && Offends(w, r.reason) && Holds(m.value, path + "." + m.key, w, r.path)
    decreases owner, |entries|
  {
    hide Render, Holds, Offends;
    if Render(style, entries[0].value, path + "." + entries[0].key).Rejected? {
      m := entries[0];
      w := RejectedAt(style, entries[0].value, path + "." + entries[0].key);
    } else {
      m, w := EntryRejectedAt(style, entries[1..], path, owner);
    }
  }

  // ------------------------------------------------- the path shows in rejections only

  lemma {:induction false} PathFree(style: Style, v: JsValue, p: string, q: string)
    requires Render(style, v, p).Text?
    ensures Render(style, v, q) == Render(style, v, p)
    decreases v
  {
    match v
    case JsArray(items) => ItemsPathFree(style, items, 0, p, q);
    case JsObject(members) => EntriesPathFree(style, Arranged(style, members), p, q, v, v);
    case _ =>
  }

  lemma {:induction false} ItemsPathFree(style: Style, items: seq<JsValue>, i: nat, p: string, q: string)
    requires i <= |items| && PrintItems(style, items, i, p).Text?
    ensures PrintItems(style, items, i, q) == PrintItems(style, items, i, p)
    decreases items, |items| - i
  {
    hide Render;
    if i < |items| {
      PathFree(style, items[i], p + "[" + Decimal(i) + "]", q + "[" + Decimal(i) + "]");
      ItemsPathFree(style, items, i + 1, p, q);
    }
  }

  /** Nor does the object that the entries stand in show. */
  lemma {:induction false} EntriesPathFree(
    style: Style, entries: seq<Member>, p: string, q: string, v: JsValue, w: JsValue)
    requires forall m :: m in entries ==> m.value < v && m.value < w
    requires PrintEntries(style, entries, p, v).Text?
    ensures PrintEntries(style, entries, q, w) == PrintEntries(style, entries, p, v)
    decreases v, |entries|
  {
    hide Render;
    if |entries| > 0 {
      PathFree(style, entries[0].value, p + "." + entries[0].key, q + "." + entries[0].key);
      EntriesPathFree(style, entries[1..], p, q, v, w);
    }
  }

  // --------------------------------------------------- equal meaning gives equal text

  lemma {:induction false} MeaningPrints(v: JsValue, w: JsValue, p: string, q: string)
    requires WellFormed(v) && WellFormed(w) && Meaning(v).Some? && Meaning(v) == Meaning(w)
    ensures Render(ByKey, v, p).Text? && Render(ByKey, v, p) == Render(ByKey, w, q)
    decreases v, 2, 0
  {
    match v
    case JsArray(items) => ItemsPrint(items, w.items, 0, p, q);
    case JsObject(members) =>
      ObjectsPrint(v, w, p, q);
    case _ =>
  }

  lemma {:induction false} ObjectsPrint(v: JsValue, w: JsValue, p: string, q: string)
    requires v.JsObject? && w.JsObject? && WellFormed(v) && WellFormed(w)
    requires Meaning(v).Some? && Meaning(v) == Meaning(w)
    ensures Render(ByKey, v, p).Text? && Render(ByKey, v, p) == Render(ByKey, w, q)
    decreases v, 1, 0
  {
    EntriesWellFormed(ByKey, v.members);
    EntriesWellFormed(ByKey, w.members);
    EntriesMean(v.members);
    EntriesMean(w.members);
    hide WellFormed, MembersMeaning, PrintEntries, Entries;
    EntriesPrint(Entries(v.members), Entries(w.members), p, q, v, w);
  }

  lemma {:induction false} ItemsPrint(a: seq<JsValue>, b: seq<JsValue>, i: nat, p: string, q: string)
    requires i <= |a| && i <= |b|
    requires forall j :: 0 <= j < |a| ==> WellFormed(a[j])
    requires forall j :: 0 <= j < |b| ==> WellFormed(b[j])
    requires ItemsMeaning(a, i).Some? && ItemsMeaning(a, i) == ItemsMeaning(b, i)
    ensures |a| == |b|
    ensures PrintItems(ByKey, a, i, p).Text? && PrintItems(ByKey, a, i, p) == PrintItems(ByKey, b, i, q)
    decreases a, 0, |a| - i
  {
    hide Render, Meaning, WellFormed;
    if i < |a| && i < |b| {
      var m := ItemsMeaning(a, i).value;
      assert m[0] == Meaning(a[i]).value && m[1..] == ItemsMeaning(a, i + 1).value;
      assert m[0] == Meaning(b[i]).value && m[1..] == ItemsMeaning(b, i + 1).value;
      MeaningPrints(a[i], b[i], p + "[" + Decimal(i) + "]", q + "[" + Decimal(i) + "]");
      ItemsPrint(a, b, i + 1, p, q);
    }
  }

  /** The first key of sorted entries is the least key of the map they mean. */
  lemma {:induction false} SameFirst(a: seq<Member>, b: seq<Member>)
    requires Sorted(a) && Sorted(b) && AllDefined(a) && AllDefined(b)
    requires MembersMeaning(a).Some? && MembersMeaning(a) == MembersMeaning(b)
    ensures |a| == 0 <==> |b| == 0
    ensures |a| > 0 ==> a[0].key == b[0].key && Meaning(a[0].value).Some? && Meaning(a[0].value) == Meaning(b[0].value)
    ensures |a| > 0 ==> MembersMeaning(a[1..]).Some? && MembersMeaning(a[1..]) == MembersMeaning(b[1..])
  {
    hide Before, Meaning, Sorted, AllDefined;
    SortedDistinct(a);
    SortedDistinct(b);
    MembersMeaningHolds(a);
    MembersMeaningHolds(b);
    FirstLeast(a, b);
    if |a| > 0 {
      SortedTail(a);
      SortedTail(b);
      TailMeans(a);
      TailMeans(b);
    }
  }

  lemma {:induction false} FirstLeast(a: seq<Member>, b: seq<Member>)
    requires Sorted(a) && Sorted(b) && AllDefined(a) && AllDefined(b)
    requires MembersMeaning(a).Some? && MembersMeaning(a) == MembersMeaning(b)
    requires DistinctKeys(a) && DistinctKeys(b)
    ensures |a| == 0 <==> |b| == 0
    ensures |a| > 0 ==> a[0].key == b[0].key && Meaning(a[0].value) == Meaning(b[0].value)
  {
    hide Before, Meaning, MembersMeaning, Sorted, DistinctKeys, AllDefined;
    if |a| > 0 {
      KeyHeld(a, b, a[0]);
    }
    if |b| > 0 {
      KeyHeld(b, a, b[0]);
    }
    if |a| > 0 && |b| > 0 && a[0].key != b[0].key {
      LeastKey(a, b[0].key);
      LeastKey(b, a[0].key);
      BeforeTransitive(a[0].key, b[0].key, a[0].key);
      BeforeStrict(a[0].key);
    }
  }

  /** Lists that mean the same map hold the same keys with the same meanings. */
  lemma {:induction false} KeyHeld(a: seq<Member>, b: seq<Member>, m: Member)
    requires DistinctKeys(a) && DistinctKeys(b) && AllDefined(a) && AllDefined(b) && m in a
    requires MembersMeaning(a).Some? && MembersMeaning(a) == MembersMeaning(b)
    ensures exists x :: x in b && x.key == m.key
    ensures forall x :: x in b && x.key == m.key ==> Meaning(x.value) == Meaning(m.value)
  {
    hide Meaning, MembersMeaning, DistinctKeys;
    MembersMeaningHolds(a);
    MembersMeaningHolds(b);
    assert m.key in MembersMeaning(b).value;
    var x :| x in b && !x.value.JsUndefined? && x.key == m.key;
  }

  /** Any other key of sorted entries comes after the first. */
  lemma {:induction false} LeastKey(a: seq<Member>, key: string)
    requires Sorted(a) && |a| > 0 && a[0].key != key && exists x :: x in a && x.key == key
    ensures Before(a[0].key, key)
  {
    hide Before, Sorted;
    SortedTail(a);
    assert a == [a[0]] + a[1..];
  }

  /** Removing the first entry removes its key from the map. */
  lemma {:induction false} TailMeans(a: seq<Member>)
    requires |a| > 0 && DistinctKeys(a) && AllDefined(a) && MembersMeaning(a).Some?
    ensures Meaning(a[0].value).Some?
    ensures MembersMeaning(a[1..]) == Some(MembersMeaning(a).value - {a[0].key})
  {
    hide Meaning;
    MembersMeaningHolds(a[1..]);
    assert a[0] in a;
    var rest := MembersMeaning(a[1..]).value;
    assert a[0].key !in rest;
    assert MembersMeaning(a).value == rest[a[0].key := Meaning(a[0].value).value];
    assert rest[a[0].key := Meaning(a[0].value).value] - {a[0].key} == rest;
  }

  lemma {:induction false} EntriesPrint(a: seq<Member>, b: seq<Member>, p: string, q: string, v: JsValue, w: JsValue)
    requires Sorted(a) && Sorted(b) && AllDefined(a) && AllDefined(b)
    requires forall m :: m in a ==> m.value < v && WellFormed(m.value)
    requires forall m :: m in b ==> m.value < w && WellFormed(m.value)
    requires MembersMeaning(a).Some? && MembersMeaning(a) == MembersMeaning(b)
    ensures PrintEntries(ByKey, a, p, v).Text? && PrintEntries(ByKey, a, p, v) == PrintEntries(ByKey, b, q, w)
    decreases v, 0, |a|
  {
    hide Render, Meaning, WellFormed, MembersMeaning, Before, Sorted;
    SameFirst(a, b);
    if |a| > 0 {
      MeaningPrints(a[0].value, b[0].value, p + "." + a[0].key, q + "." + b[0].key);
      SortedTail(a);
      SortedTail(b);
      EntriesPrint(a[1..], b[1..], p, q, v, w);
      assert |a[1..]| == 0 <==> |b[1..]| == 0 by { SameFirst(a[1..], b[1..]); }
    }
  }

  // -------------------------------------------------- equal text gives equal meaning

  /** The text stops here or goes on with a separator. */
  predicate Ends(x: string) {
    |x| == 0 || x[0] == ',' || x[0] == ']' || x[0] == '}'
  }

  /** A printed value is read back from the front of any text that ends it. */
  lemma {:induction false} ReadsBack(style: Style, v: JsValue, p: string, x: string)
    requires WellFormed(v) && Render(style, v, p).Text? && Ends(x)
    ensures Meaning(v).Some? && ReadValue(Render(style, v, p).text + x) == Front(Meaning(v).value, x)
    decreases v, 2, 0
  {
    match v
    case JsArray(_) => ArrayReadsBack(style, v, p, x);
    case JsObject(_) => ObjectReadsBack(style, v, p, x);
    case _ => ScalarReadsBack(style, v, p, x);
  }

  lemma {:induction false} ScalarReadsBack(style: Style, v: JsValue, p: string, x: string)
    requires Render(style, v, p).Text? && Ends(x) && !v.JsArray? && !v.JsObject?
    ensures Meaning(v).Some? && ReadValue(Render(style, v, p).text + x) == Front(Meaning(v).value, x)
  {
    hide Quote, Decimal, ReadChars, ReadNumber;
    match v
    case JsNumber(n) =>
      DecimalReads(n, x);
      FirstOf(Decimal(n), x);
    case JsString(s) => QuoteReads(s, x);
    case JsBool(b) => WordReads(if b then "true" else "false", x);
    case JsNull => WordReads("null", x);
  }

  lemma {:induction false} WordReads(word: string, x: string)
    requires |word| > 0
    ensures word <= word + x && (word + x)[|word|..] == x && (word + x)[0] == word[0]
  {}

  lemma {:induction false} Bracketed(open: string, inner: string, close: string, x: string)
    ensures (open + inner + close) + x == open + (inner + (close + x))
  {
    Assoc(open + inner, close, x);
    Assoc(open, inner, close + x);
  }

  lemma {:induction false} ArrayReadsBack(style: Style, v: JsValue, p: string, x: string)
    requires v.JsArray? && WellFormed(v) && Render(style, v, p).Text?
    ensures Meaning(v).Some? && ReadValue(Render(style, v, p).text + x) == Front(Meaning(v).value, x)
    decreases v, 1, 0
  {
    hide PrintItems, ItemsMeaning, ReadItems;
    var s := PrintItems(style, v.items, 0, p).text;
    Bracketed("[", s, "]", x);
    WordReads("[", s + ("]" + x));
    if |v.items| == 0 {
      assert s == "" by { NoItems(style, v.items, p); }
      assert "" + ("]" + x) == "]" + x;
      NoItems(style, v.items, p);
      assert ("[" + ("]" + x))[2..] == x;
    } else {
      ItemsReadBack(style, v.items, 0, p, x);
      NotEmpty(s + ("]" + x));
    }
  }

  lemma {:induction false} NoItems(style: Style, items: seq<JsValue>, p: string)
    requires |items| == 0
    ensures PrintItems(style, items, 0, p) == Text("") && ItemsMeaning(items, 0) == Some([])
  {}

  /** What reads as items does not start with the closing bracket. */
  lemma {:induction false} NotEmpty(t: string)
    requires ReadItems(t).Front?
    ensures |t| > 0 && t[0] != ']'
  {}

  /** An item's text, then a comma and the next items, or the closing bracket. */
  lemma {:induction false} ItemsSplit(style: Style, items: seq<JsValue>, i: nat, p: string, x: string)
    requires i < |items| && PrintItems(style, items, i, p).Text?
    ensures var head := Render(style, items[i], p + "[" + Decimal(i) + "]");
            var rest := PrintItems(style, items, i + 1, p);
      && head.Text? && rest.Text?
      && PrintItems(style, items, i, p).text + x == head.text + (if i + 1 < |items| then "," + (rest.text + x) else x)
  {
    hide Render;
    var head, rest := Render(style, items[i], p + "[" + Decimal(i) + "]"), PrintItems(style, items, i + 1, p);
    if i + 1 < |items| {
      Bracketed(head.text, ",", rest.text, x);
      assert PrintItems(style, items, i, p).text == head.text + "," + rest.text;
    } else {
      assert PrintItems(style, items, i, p).text == head.text + "" + "" == head.text;
    }
  }

  lemma {:induction false} ItemsReadBack(style: Style, items: seq<JsValue>, i: nat, p: string, x: string)
    requires i < |items| && (forall j :: 0 <= j < |items| ==> WellFormed(items[j]))
    requires PrintItems(style, items, i, p).Text?
    ensures ItemsMeaning(items, i).Some?
    ensures ReadItems(PrintItems(style, items, i, p).text + ("]" + x)) == Front(ItemsMeaning(items, i).value, x)
    decreases items, 0, |items| - i
  {
    hide Render, Meaning, WellFormed, PrintItems, ReadValue;
    ItemsSplit(style, items, i, p, "]" + x);
    var path := p + "[" + Decimal(i) + "]";
    if i + 1 < |items| {
      var u := PrintItems(style, items, i + 1, p).text + ("]" + x);
      WordReads(",", u);
      ReadsBack(style, items[i], path, "," + u);
      ItemsReadBack(style, items, i + 1, p, x);
    } else {
      WordReads("]", x);
      ReadsBack(style, items[i], path, "]" + x);
      LastItemMeans(items, i);
    }
  }

  lemma {:induction false} LastItemMeans(items: seq<JsValue>, i: nat)
    requires i + 1 == |items| && Meaning(items[i]).Some?
    ensures ItemsMeaning(items, i) == Some([Meaning(items[i]).value])
  {
    hide Meaning;
    assert ItemsMeaning(items, i + 1) == Some([]);
    assert [Meaning(items[i]).value] + [] == [Meaning(items[i]).value];
  }

  lemma {:induction false} ObjectReadsBack(style: Style, v: JsValue, p: string, x: string)
    requires v.JsObject? && WellFormed(v) && Render(style, v, p).Text?
    ensures Meaning(v).Some? && ReadValue(Render(style, v, p).text + x) == Front(Meaning(v).value, x)
    decreases v, 1, 0
  {
    var entries := Arranged(style, v.members);
    EntriesWellFormed(style, v.members);
    ArrangedMeans(style, v.members);
    hide Arranged, PrintEntries, MembersMeaning, ReadMembers;
    EntriesReadBack(style, entries, p, x, v);
    BracedReads(style, entries, p, x, v);
  }

  /** The text of entries between braces. */
  lemma {:induction false} BracedReads(style: Style, entries: seq<Member>, p: string, x: string, owner: JsValue)
    requires forall m :: m in entries ==> m.value < owner
    requires PrintEntries(style, entries, p, owner).Text? && MembersMeaning(entries).Some?
    requires var t := PrintEntries(style, entries, p, owner).text + ("}" + x);
      if |entries| == 0 then t == "}" + x else ReadMembers(t) == Front(MembersMeaning(entries).value, x)
    ensures ReadValue(("{" + PrintEntries(style, entries, p, owner).text + "}") + x)
         == Front(Obj(MembersMeaning(entries).value), x)
  {
    hide PrintEntries;
    var s := PrintEntries(style, entries, p, owner).text;
    Bracketed("{", s, "}", x);
    WordReads("{", s + ("}" + x));
    if |entries| == 0 {
      assert ("{" + ("}" + x))[2..] == x;
    } else {
      assert (s + ("}" + x))[0] == '"';
    }
  }

  /** What follows an entry's value. */
  function AfterEntry(entries: seq<Member>, rest: string, x: string): string {
    if |entries| > 1 then "," + (rest + x) else x
  }

  /** A key, a colon, its value, then a comma and the next entries, or the closing brace. */
  lemma {:induction false} EntriesSplit(style: Style, entries: seq<Member>, p: string, x: string, owner: JsValue)
    requires |entries| > 0 && forall m :: m in entries ==> m.value < owner
    requires PrintEntries(style, entries, p, owner).Text?
    ensures var head := Render(style, entries[0].value, p + "." + entries[0].key);
            var rest := PrintEntries(style, entries[1..], p, owner);
      && head.Text? && rest.Text?
      && PrintEntries(style, entries, p, owner).text + x
         == Quote(entries[0].key) + (":" + (head.text + AfterEntry(entries, rest.text, x)))
  {
    hide Render, Quote;
    var head, rest := Render(style, entries[0].value, p + "." + entries[0].key).text,
      PrintEntries(style, entries[1..], p, owner).text;
    var key := Quote(entries[0].key);
    if |entries| > 1 {
      assert PrintEntries(style, entries, p, owner).text == (key + ":" + head) + "," + rest;
      Bracketed(key + ":" + head, ",", rest, x);
      Bracketed(key, ":", head, "," + (rest + x));
    } else {
      assert PrintEntries(style, entries, p, owner).text == key + ":" + head;
      Bracketed(key, ":", head, x);
    }
  }

  lemma {:induction false} EntriesReadBack(style: Style, entries: seq<Member>, p: string, x: string, owner: JsValue)
    requires AllDefined(entries) && DistinctKeys(entries)
    requires forall m :: m in entries ==> m.value < owner && WellFormed(m.value)
    requires PrintEntries(style, entries, p, owner).Text?
    ensures MembersMeaning(entries).Some?
    ensures var t := PrintEntries(style, entries, p, owner).text + ("}" + x);
      if |entries| == 0 then t == "}" + x else ReadMembers(t) == Front(MembersMeaning(entries).value, x)
    decreases owner, 0, |entries|
  {
    hide Render, Meaning, WellFormed, PrintEntries, MembersMeaning, Quote, ReadValue, ReadChars;
    if |entries| == 0 {
      NoEntriesText(style, entries, p, owner);
      assert "" + ("}" + x) == "}" + x;
    } else {
      EntriesSplit(style, entries, p, "}" + x, owner);
      var head := Render(style, entries[0].value, p + "." + entries[0].key);
      var rest := PrintEntries(style, entries[1..], p, owner).text;
      var u := AfterEntry(entries, rest, "}" + x);
      QuoteReads(entries[0].key, ":" + (head.text + u));
      WordReads(":", head.text + u);
      assert entries[0] in entries;
      assert Ends(u);
      ReadsBack(style, entries[0].value, p + "." + entries[0].key, u);
      EntriesReadBack(style, entries[1..], p, x, owner);
      ConsMeans(entries);
      if |entries| > 1 {
        WordReads(",", rest + ("}" + x));
      } else {
        WordReads("}", x);
      }
    }
  }

  lemma {:induction false} NoEntriesText(style: Style, entries: seq<Member>, p: string, owner: JsValue)
    requires |entries| == 0
    ensures PrintEntries(style, entries, p, owner) == Text("") && MembersMeaning(entries) == Some(map[])
  {}

  lemma {:induction false} ConsMeans(entries: seq<Member>)
    requires |entries| > 0 && DistinctKeys(entries) && AllDefined(entries)
    requires Meaning(entries[0].value).Some? && MembersMeaning(entries[1..]).Some?
    ensures MembersMeaning(entries)
         == Some(map[entries[0].key := Meaning(entries[0].value).value] + MembersMeaning(entries[1..]).value)
    ensures |entries| == 1 ==> MembersMeaning(entries) == Some(map[entries[0].key := Meaning(entries[0].value).value])
  {
    hide Meaning;
    assert entries[0] in entries;
    MembersMeaningHolds(entries[1..]);
    var key, rest := entries[0].key, MembersMeaning(entries[1..]).value;
    assert key !in rest;
    assert rest[key := Meaning(entries[0].value).value] == map[key := Meaning(entries[0].value).value] + rest;
  }

  /** So the text of a value is uniquely readable from the front of a longer text. */
  lemma {:induction false} Readable(style: Style, v: JsValue, w: JsValue, p: string, q: string, x: string, y: string)
    requires WellFormed(v) && WellFormed(w) && Render(style, v, p).Text? && Render(style, w, q).Text?
    requires Ends(x) && Ends(y) && Render(style, v, p).text + x == Render(style, w, q).text + y
    ensures Meaning(v) == Meaning(w) && x == y
  {
    hide Render, Meaning, WellFormed;
    ReadsBack(style, v, p, x);
    ReadsBack(style, w, q, y);
  }

  // ------------------------------------------------------------------ main theorems

  /** The text depends on nothing but the denoted JSON value, and determines it. */
  lemma {:induction false} CanonicalExactly(v: JsValue, w: JsValue)
    requires WellFormed(v) && WellFormed(w)
    requires Canonicalize(v, "$").Text? && Canonicalize(w, "$").Text?
    ensures Canonicalize(v, "$") == Canonicalize(w, "$") <==> Meaning(v) == Meaning(w)
  {
    hide Render, Meaning, WellFormed;
    Printable(ByKey, v, "$");
    Printable(ByKey, w, "$");
    if Canonicalize(v, "$") == Canonicalize(w, "$") {
      Readable(ByKey, v, w, "$", "$", "", "");
    } else if Meaning(v) == Meaning(w) {
      MeaningPrints(v, w, "$", "$");
    }
  }

  /** The order in which members were written does not show, at any depth. */
  lemma {:induction false} OrderDoesNotShow(a: seq<Member>, b: seq<Member>)
    requires WellFormed(JsObject(a)) && WellFormed(JsObject(b))
    requires Canonicalize(JsObject(a), "$").Text?
    requires forall m: Member :: !m.value.JsUndefined? ==> (m in a <==> m in b)
    ensures Canonicalize(JsObject(a), "$") == Canonicalize(JsObject(b), "$")
  {
    hide Render, WellFormed;
    assert DistinctKeys(a) && DistinctKeys(b) by { KeysDistinct(a); KeysDistinct(b); }
    SameMembers(a, b);
    Printable(ByKey, JsObject(a), "$");
    Printable(ByKey, JsObject(b), "$");
    assert Meaning(JsObject(a)) == Meaning(JsObject(b));
    CanonicalExactly(JsObject(a), JsObject(b));
  }

  lemma {:induction false} KeysDistinct(members: seq<Member>)
    requires WellFormed(JsObject(members))
    ensures DistinctKeys(members)
  {}
}
