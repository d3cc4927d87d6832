/** The text of JSON strings and numbers as `JSON.stringify` prints them
    (RFC 8259 sections 6 and 7), and why each can be read back from the front of a
    longer text. */
module JsonScalars {
  import opened JsonReader

  // ---------------------------------------------------------------- decimal numbers

  const DIGITS := "0123456789"

  function Digits(n: nat): (r: string)
    ensures |r| > 0 && forall i :: 0 <= i < |r| ==> IsDigit(r[i])
  {
    if n < 10 then [DIGITS[n]] else Digits(n / 10) + [DIGITS[n % 10]]
  }

  function Decimal(n: int): (r: string)
    ensures |r| > 0 && (r[0] == '-' || IsDigit(r[0]))
  {
    if n < 0 then "-" + Digits(-n) else Digits(n)
  }

  lemma {:induction false} ValueOfDigits(n: nat)
    ensures ValueOf(Digits(n)) == n
  {
    if n >= 10 {
      var s := Digits(n);
      assert s[..|s| - 1] == Digits(n / 10);
      ValueOfDigits(n / 10);
    }
  }

  /** The text does not go on with a digit. */
  predicate NoDigit(x: string) {
    |x| == 0 || !IsDigit(x[0])
  }

  lemma {:induction false} RunOf(s: string, x: string)
    requires NoDigit(x) && forall i :: 0 <= i < |s| ==> IsDigit(s[i])
    ensures Run(s + x) == |s|
  {
    if |s| == 0 {
      assert s + x == x;
    } else {
      assert (s + x)[1..] == s[1..] + x;
      RunOf(s[1..], x);
    }
  }

  /** Only zero starts with a zero. */
  lemma {:induction false} NoLeadingZero(n: nat)
    ensures n > 0 ==> Digits(n)[0] != '0'
    ensures n < 10 ==> |Digits(n)| == 1
  {
    if n >= 10 {
      NoLeadingZero(n / 10);
    }
  }

  lemma {:induction false} DigitsRead(n: nat, x: string)
    requires NoDigit(x)
    ensures ReadDigits(Digits(n) + x) == Front(n, x)
  {
    NoLeadingZero(n);
    hide Digits;
    var s := Digits(n);
    RunOf(s, x);
    ValueOfDigits(n);
    assert (s + x)[..|s|] == s && (s + x)[|s|..] == x && (s + x)[0] == s[0];
  }

  /** A number is read back from the front of any text that goes on with a delimiter. */
  lemma {:induction false} DecimalReads(n: int, x: string)
    requires NoDigit(x)
    ensures ReadNumber(Decimal(n) + x) == Front(n, x)
  {
    hide Digits, ReadDigits;
    FirstOf(Decimal(n), x);
    if n < 0 {
      Assoc("-", Digits(-n), x);
      DigitsRead(-n, x);
      assert ("-" + (Digits(-n) + x))[1..] == Digits(-n) + x;
    } else {
      DigitsRead(n, x);
      FirstOf(Digits(n), x);
    }
  }

  lemma {:induction false} FirstOf(a: string, x: string)
    requires |a| > 0
    ensures |a + x| > 0 && (a + x)[0] == a[0]
  {}

  lemma {:induction false} Assoc(a: string, b: string, c: string)
    ensures (a + b) + c == a + (b + c)
  {}

  // ------------------------------------------------------------------- strings

  const HEX := "0123456789abcdef"

  /** How one character is written inside a string literal. */
  function Escape(c: char): (r: string)
    ensures |r| > 0 && r[0] != '"'
  {
    match c
    case '"' => "\\\""
    case '\\' => "\\\\"
    case '\n' => "\\n"
    case '\r' => "\\r"
    case '\t' => "\\t"
    case _ =>
      var n := c as int;
      if n == 8 then "\\b"
      else if n == 12 then "\\f"
      else if n < 32 then "\\u00" + [HEX[n / 16], HEX[n % 16]]
      else [c]
  }

  function Escaped(s: string): string {
    if |s| == 0 then "" else Escape(s[0]) + Escaped(s[1..])
  }

  function Quote(s: string): string {
    "\"" + Escaped(s) + "\""
  }

  lemma {:induction false} HexRoundTrip(n: nat)
    requires n < 16
    ensures HexValue(HEX[n]) == n
  {}

  /** How the escape of a character is read: as it stands, by its letter, or by its code. */
  lemma {:induction false} EscapeForms(c: char)
    ensures var e := Escape(c);
      || (e == [c] && c as int >= 0x20 && c != '\\')
      || (|e| == 2 && e[0] == '\\' && forall x :: ReadEscape([e[1]] + x) == Front(c, x))
      || (|e| == 6 && e[..2] == "\\u" && forall x :: ReadCode(e[2..] + x) == Front(c, x))
  {
    var n, e := c as int, Escape(c);
    if |e| == 6 {
      HexRoundTrip(n / 16);
      HexRoundTrip(n % 16);
      assert HexValue('0') == 0;
    }
    hide HexValue;
  }

  lemma {:induction false} EscapeReads(c: char, x: string)
    ensures ReadChar(Escape(c) + x) == Front(c, x)
  {
    EscapeForms(c);
    hide Escape, ReadCode;
    var e := Escape(c);
    if |e| == 1 {
      assert ([c] + x)[1..] == x;
    } else {
      assert (e + x)[1..] == e[1..] + x;
      if |e| == 2 {
        assert e[1..] == [e[1]];
      } else {
        assert (e[1..] + x)[1..] == e[2..] + x;
      }
    }
  }

  lemma {:induction false} EscapedSplit(s: string, x: string)
    ensures |s| == 0 ==> Escaped(s) + x == x
    ensures |s| > 0 ==> Escaped(s) + x == Escape(s[0]) + (Escaped(s[1..]) + x)
    ensures |s| > 0 ==> |Escaped(s) + x| > 0 && (Escaped(s) + x)[0] != '"'
  {
    hide Escape;
    if |s| > 0 {
      Assoc(Escape(s[0]), Escaped(s[1..]), x);
      FirstOf(Escape(s[0]), Escaped(s[1..]) + x);
    }
  }

  lemma {:induction false} EscapedReads(s: string, x: string)
    ensures ReadChars(Escaped(s) + ("\"" + x)) == Front(s, x)
  {
    hide Escape, Escaped, ReadChar;
    EscapedSplit(s, "\"" + x);
    if |s| > 0 {
      EscapeReads(s[0], Escaped(s[1..]) + ("\"" + x));
      EscapedReads(s[1..], x);
      assert s == [s[0]] + s[1..];
    }
  }

  /** Behind the opening quotation mark a string literal is read back from the front of
      any text. */
  lemma {:induction false} QuoteReads(s: string, x: string)
    ensures var t := Quote(s) + x; |t| > 0 && t[0] == '"' && ReadChars(t[1..]) == Front(s, x)
  {
    hide Escaped, ReadChars;
    QuoteSplit(s, x);
    EscapedReads(s, x);
    assert ("\"" + (Escaped(s) + ("\"" + x)))[1..] == Escaped(s) + ("\"" + x);
  }

  lemma {:induction false} QuoteSplit(s: string, x: string)
    ensures Quote(s) + x == "\"" + (Escaped(s) + ("\"" + x))
  {
    hide Escaped;
    Assoc("\"" + Escaped(s), "\"", x);
    Assoc("\"", Escaped(s), "\"" + x);
  }
}
