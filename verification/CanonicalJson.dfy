/** The canonical printer behind the plan hash (src/flow/plan.ts:49-77), and beside it the
    order-preserving printer that `JSON.stringify` is. */
module CanonicalJson {
  import opened Basics
  import opened JsonValues
  import opened JsonScalars

  /** A JavaScript value as the printer can meet it. An object lists its own enumerable
      entries in insertion order. Numbers that are finite are integers here. */
  datatype JsValue =
    | JsUndefined
    | JsNull
    | JsBool(b: bool)
    | JsNumber(n: int)
    | JsNotFinite
    | JsString(s: string)
    | JsArray(items: seq<JsValue>)
    | JsObject(members: seq<Member>)
    | JsOther

  datatype Member = Member(key: string, value: JsValue)

  datatype Reason = NonFiniteNumber | NonJsonValue

  datatype Printed = Text(text: string) | Rejected(reason: Reason, path: string)

  // ------------------------------------------------------------------- key order

  /** The UTF-16 code units of a character (RFC 2781 section 2.1). */
  function Units(c: char): seq<int> {
    var n := c as int;
    if n < 0x10000 then [n] else [0xD800 + (n - 0x10000) / 0x400, 0xDC00 + (n - 0x10000) % 0x400]
  }

  function Utf16(s: string): seq<int> {
    if |s| == 0 then [] else Units(s[0]) + Utf16(s[1..])
  }

  predicate Less(x: seq<int>, y: seq<int>) {
    if |y| == 0 then false
    else if |x| == 0 then true
    else if x[0] != y[0] then x[0] < y[0]
    else Less(x[1..], y[1..])
  }

  /** JavaScript's `<` on strings. */
  predicate Before(a: string, b: string) {
    Less(Utf16(a), Utf16(b))
  }

  /** Up to position `k` they agree, and there `x` has ended or is smaller. */
  ghost predicate SmallerAt(x: seq<int>, y: seq<int>, k: nat) {
    k <= |x| && k < |y| && x[..k] == y[..k] && (k < |x| ==> x[k] < y[k])
  }

  lemma {:induction false} SameFront(x: seq<int>, y: seq<int>, k: nat)
    requires SmallerAt(x, y, k) && k > 0
    ensures |x| > 0 && x[0] == y[0]
  {
    assert x[..k][0] == x[0] && y[..k][0] == y[0];
  }

  lemma {:induction false} LessExactly(x: seq<int>, y: seq<int>)
    ensures Less(x, y) <==> exists k: nat :: SmallerAt(x, y, k)
  {
    if |x| > 0 && |y| > 0 && x[0] == y[0] {
      LessExactly(x[1..], y[1..]);
      forall k: nat | SmallerAt(x[1..], y[1..], k) ensures SmallerAt(x, y, k + 1) {
        assert x[..k + 1] == [x[0]] + x[1..][..k] && y[..k + 1] == [y[0]] + y[1..][..k];
      }
      forall k: nat | SmallerAt(x, y, k) ensures k > 0 && SmallerAt(x[1..], y[1..], k - 1) {
        assert x[1..][..k - 1] == x[..k][1..] && y[1..][..k - 1] == y[..k][1..];
      }
    } else {
      assert |y| > 0 && (|x| == 0 || x[0] < y[0]) ==> SmallerAt(x, y, 0);
      forall k: nat | SmallerAt(x, y, k) ensures k == 0 {
        if k > 0 {
          SameFront(x, y, k);
        }
      }
    }
  }

  /** Keys are ordered by the first UTF-16 code unit in which they differ, and a key comes
      before its continuations. */
  lemma {:induction false} BeforeExactly(a: string, b: string)
    ensures Before(a, b) <==> exists k: nat :: SmallerAt(Utf16(a), Utf16(b), k)
  {
    hide Less, SmallerAt, Utf16;
    var x, y := Utf16(a), Utf16(b);
    LessExactly(x, y);
    if k: nat :| SmallerAt(x, y, k) {
      assert SmallerAt(Utf16(a), Utf16(b), k);
    }
  }

  lemma {:induction false} LessOrder(x: seq<int>, y: seq<int>)
    ensures !Less(x, x) && (x == y || Less(x, y) || Less(y, x))
  {
    if |x| > 0 {
      LessOrder(x[1..], if |y| > 0 then y[1..] else []);
      if |y| > 0 && x[0] == y[0] {
        assert x == [x[0]] + x[1..] && y == [y[0]] + y[1..];
      }
    }
  }

  lemma {:induction false} LessTransitive(x: seq<int>, y: seq<int>, z: seq<int>)
    requires Less(x, y) && Less(y, z)
    ensures Less(x, z)
  {
    if |x| > 0 && x[0] == y[0] == z[0] {
      LessTransitive(x[1..], y[1..], z[1..]);
    }
  }

  lemma {:induction false} UnitsFront(s: string)
    requires |s| > 0
    ensures var u := Utf16(s);
      && |u| > 0 && (0xD800 <= u[0] < 0xDC00 <==> s[0] as int >= 0x10000)
      && (s[0] as int < 0x10000 ==> u[0] == s[0] as int)
      && (s[0] as int >= 0x10000 ==> |u| > 1 && s[0] as int == 0x10000 + (u[0] - 0xD800) * 0x400 + (u[1] - 0xDC00))
      && Utf16(s[1..]) == u[|Units(s[0])|..]
  {}

  /** A string can be told from its code units. */
  lemma {:induction false} Utf16Injective(a: string, b: string)
    requires Utf16(a) == Utf16(b)
    ensures a == b
  {
    if |a| > 0 {
      UnitsFront(a);
    }
    if |b| > 0 {
      UnitsFront(b);
    }
    if |a| > 0 && |b| > 0 {
      assert a[0] == b[0];
      Utf16Injective(a[1..], b[1..]);
      assert a == [a[0]] + a[1..] && b == [b[0]] + b[1..];
    }
  }

  lemma {:induction false} BeforeStrict(a: string)
    ensures !Before(a, a)
  {
    LessOrder(Utf16(a), []);
  }

  lemma {:induction false} BeforeTotal(a: string, b: string)
    ensures a == b || Before(a, b) || Before(b, a)
  {
    LessOrder(Utf16(a), Utf16(b));
    if Utf16(a) == Utf16(b) {
      Utf16Injective(a, b);
    }
  }

  lemma {:induction false} BeforeTransitive(a: string, b: string, c: string)
    requires Before(a, b) && Before(b, c)
    ensures Before(a, c)
  {
    LessTransitive(Utf16(a), Utf16(b), Utf16(c));
  }

  // -------------------------------------------------------------------- entries

  /** `filter(([, v]) => v !== undefined)`. */
  function Defined(members: seq<Member>): (r: seq<Member>)
    ensures forall m :: m in r <==> m in members && !m.value.JsUndefined?
  {
    if |members| == 0 then []
    else if members[0].value.JsUndefined? then Defined(members[1..])
    else [members[0]] + Defined(members[1..])
  }

  function InsertByKey(m: Member, sorted: seq<Member>): (r: seq<Member>)
    ensures forall x :: x in r <==> x == m || x in sorted
  {
    if |sorted| == 0 || !Before(sorted[0].key, m.key) then [m] + sorted
    else [sorted[0]] + InsertByKey(m, sorted[1..])
  }

  function SortByKey(members: seq<Member>): (r: seq<Member>)
    ensures forall x :: x in r <==> x in members
  {
    if |members| == 0 then [] else InsertByKey(members[0], SortByKey(members[1..]))
  }

  function Entries(members: seq<Member>): (r: seq<Member>)
    ensures forall m :: m in r <==> m in members && !m.value.JsUndefined?
  {
    SortByKey(Defined(members))
  }

  // --------------------------------------------------------------------- printing

  /** The canonical printer sorts the entries of an object, `JSON.stringify` does not. */
  datatype Style = ByKey | AsWritten

  function Arranged(style: Style, members: seq<Member>): (r: seq<Member>)
    ensures forall m :: m in r <==> m in members && !m.value.JsUndefined?
  {
    match style
    case ByKey => Entries(members)
    case AsWritten => Defined(members)
  }

  function Canonicalize(v: JsValue, path: string): Printed {
    Render(ByKey, v, path)
  }

  function Render(style: Style, v: JsValue, path: string): Printed
    decreases v
  {
    match v
    case JsNull => Text("null")
    case JsString(s) => Text(Quote(s))
    case JsBool(b) => Text(if b then "true" else "false")
    case JsNumber(n) => Text(Decimal(n))
    case JsNotFinite => Rejected(NonFiniteNumber, path)
    case JsArray(items) =>
      var inner := PrintItems(style, items, 0, path);
      if inner.Text? then Text("[" + inner.text + "]") else inner
    case JsObject(members) =>
      var entries := Arranged(style, members);
      var inner := PrintEntries(style, entries, path, v);
      if inner.Text? then Text("{" + inner.text + "}") else inner
    case JsUndefined => Rejected(NonJsonValue, path)
    case JsOther => Rejected(NonJsonValue, path)
  }

  /** The items from `i` on, joined by commas; the first rejection wins. */
  function PrintItems(style: Style, items: seq<JsValue>, i: nat, path: string): Printed
    requires i <= |items|
    decreases items, |items| - i
  {
    if i == |items| then Text("")
    else
      var head := Render(style, items[i], path + "[" + Decimal(i) + "]");
      if head.Rejected? then head
      else
        var rest := PrintItems(style, items, i + 1, path);
        if rest.Rejected? then rest else Text(head.text + (if i + 1 < |items| then "," else "") + rest.text)
  }

  /** Arranged entries of the object `owner`, joined by commas. */
  function PrintEntries(style: Style, entries: seq<Member>, path: string, owner: JsValue): Printed
    requires forall m :: m in entries ==> m.value < owner
    decreases owner, |entries|
  {
    if |entries| == 0 then Text("")
    else
      var head := Render(style, entries[0].value, path + "." + entries[0].key);
      if head.Rejected? then head
      else
        var rest := PrintEntries(style, entries[1..], path, owner);
        if rest.Rejected? then rest
        else Text(Quote(entries[0].key) + ":" + head.text + (if |entries| > 1 then "," else "") + rest.text)
  }
}
