/** A reader of JSON text (RFC 8259), written from its grammar alone: no white space,
    integers for numbers, no surrogate pairs. What `JSON.parse` makes of printed text. */
module JsonReader {
  import opened JsonValues

  /** The value in front, and the text behind it. */
  datatype Parsed<+T> = Front(value: T, rest: string) | Malformed

  // ---------------------------------------------------------------- section 6, numbers

  predicate IsDigit(c: char) {
    '0' <= c <= '9'
  }

  /** The number of leading digits. */
  function Run(s: string): (n: nat)
    ensures n <= |s|
  {
    if |s| == 0 || !IsDigit(s[0]) then 0 else 1 + Run(s[1..])
  }

  /** The number a digit string denotes. */
  function ValueOf(s: string): int {
    if |s| == 0 then 0 else ValueOf(s[..|s| - 1]) * 10 + (s[|s| - 1] as int - '0' as int)
  }

  /** No leading zeros. */
  function ReadDigits(t: string): (r: Parsed<int>)
    ensures r.Front? ==> |r.rest| < |t|
  {
    var k := Run(t);
    if k == 0 || (k > 1 && t[0] == '0') then Malformed else Front(ValueOf(t[..k]), t[k..])
  }

  function ReadNumber(t: string): (r: Parsed<int>)
    ensures r.Front? ==> |r.rest| < |t|
  {
    if |t| > 0 && t[0] == '-' then
      var n := ReadDigits(t[1..]);
      if n.Front? then Front(-n.value, n.rest) else Malformed
    else ReadDigits(t)
  }

  // ---------------------------------------------------------------- section 7, strings

  function HexValue(c: char): nat {
    if IsDigit(c) then c as nat - '0' as nat
    else if 'a' <= c <= 'f' then c as nat - 'a' as nat + 10
    else if 'A' <= c <= 'F' then c as nat - 'A' as nat + 10
    else 16
  }

  /** Four hexadecimal digits that name a character. */
  function ReadCode(t: string): (r: Parsed<char>)
    ensures r.Front? ==> |r.rest| < |t|
  {
    if |t| < 4 then Malformed
    else
      var a, b, c, d := HexValue(t[0]), HexValue(t[1]), HexValue(t[2]), HexValue(t[3]);
      if a == 16 || b == 16 || c == 16 || d == 16 then Malformed
      else
        var code := ((a * 16 + b) * 16 + c) * 16 + d;
        if 0xD800 <= code < 0xE000 || code > 0xFFFF then Malformed else Front(code as char, t[4..])
  }

  /** What follows a backslash. */
  function ReadEscape(t: string): (r: Parsed<char>)
    ensures r.Front? ==> |r.rest| < |t|
  {
    if |t| == 0 then Malformed
    else
      match t[0]
      case '"' => Front('"', t[1..])
      case '\\' => Front('\\', t[1..])
      case '/' => Front('/', t[1..])
      case 'b' => Front(0x08 as char, t[1..])
      case 'f' => Front(0x0C as char, t[1..])
      case 'n' => Front(0x0A as char, t[1..])
      case 'r' => Front(0x0D as char, t[1..])
      case 't' => Front(0x09 as char, t[1..])
      case 'u' => ReadCode(t[1..])
      case _ => Malformed
  }

  /** A control character must be escaped. */
  function ReadChar(t: string): (r: Parsed<char>)
    ensures r.Front? ==> |r.rest| < |t|
  {
    if |t| == 0 || t[0] as int < 0x20 then Malformed
    else if t[0] == '\\' then ReadEscape(t[1..])
    else Front(t[0], t[1..])
  }

  /** The characters up to the closing quotation mark. */
  function ReadChars(t: string): (r: Parsed<string>)
    ensures r.Front? ==> |r.rest| < |t|
  {
    if |t| == 0 then Malformed
    else if t[0] == '"' then Front("", t[1..])
    else
      var c := ReadChar(t);
      if c.Malformed? then Malformed
      else
        var more := ReadChars(c.rest);
        if more.Malformed? then Malformed else Front([c.value] + more.value, more.rest)
  }

  // ------------------------------------------------------- sections 3 to 5, all values

  function ReadWord(t: string, word: string, value: Json): (r: Parsed<Json>)
    requires |word| > 0
    ensures r.Front? ==> |r.rest| < |t|
  {
    if word <= t then Front(value, t[|word|..]) else Malformed
  }

  function ReadValue(t: string): (r: Parsed<Json>)
    ensures r.Front? ==> |r.rest| < |t|
    decreases |t|, 0
  {
    if |t| == 0 then Malformed
    else
      match t[0]
      case 'n' => ReadWord(t, "null", Null)
      case 't' => ReadWord(t, "true", Bool(true))
      case 'f' => ReadWord(t, "false", Bool(false))
      case '"' =>
        var s := ReadChars(t[1..]);
        if s.Front? then Front(Str(s.value), s.rest) else Malformed
      case '[' =>
        if |t| > 1 && t[1] == ']' then Front(Arr([]), t[2..])
        else
          var items := ReadItems(t[1..]);
          if items.Front? then Front(Arr(items.value), items.rest) else Malformed
      case '{' =>
        if |t| > 1 && t[1] == '}' then Front(Obj(map[]), t[2..])
        else
          var members := ReadMembers(t[1..]);
          if members.Front? then Front(Obj(members.value), members.rest) else Malformed
      case _ =>
        var n := ReadNumber(t);
        if n.Front? then Front(Num(n.value), n.rest) else Malformed
  }

  /** At least one item, up to the closing bracket. */
  function ReadItems(t: string): (r: Parsed<seq<Json>>)
    ensures r.Front? ==> |r.rest| < |t|
    decreases |t|, 1
  {
    var head := ReadValue(t);
    if head.Malformed? || |head.rest| == 0 then Malformed
    else if head.rest[0] == ']' then Front([head.value], head.rest[1..])
    else if head.rest[0] != ',' then Malformed
    else
      var more := ReadItems(head.rest[1..]);
      if more.Malformed? then Malformed else Front([head.value] + more.value, more.rest)
  }

  /** At least one member, up to the closing brace; of equal keys the last one counts. */
  function ReadMembers(t: string): (r: Parsed<map<string, Json>>)
    ensures r.Front? ==> |r.rest| < |t|
    decreases |t|, 1
  {
    if |t| == 0 || t[0] != '"' then Malformed
    else
      var key := ReadChars(t[1..]);
      if key.Malformed? || |key.rest| == 0 || key.rest[0] != ':' then Malformed
      else
        var head := ReadValue(key.rest[1..]);
        if head.Malformed? || |head.rest| == 0 then Malformed
        else if head.rest[0] == '}' then Front(map[key.value := head.value], head.rest[1..])
        else if head.rest[0] != ',' then Malformed
        else
          var more := ReadMembers(head.rest[1..]);
          if more.Malformed? then Malformed else Front(map[key.value := head.value] + more.value, more.rest)
  }
}
