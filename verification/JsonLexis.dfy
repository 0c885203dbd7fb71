/** The lexical part of canonical JSON: numbers and strings, printed and read back. */
module JsonLexis {
  import opened Text
  import opened Options

  datatype Number = Integer(n: int) | Token(t: Text)

  // ---- Numbers ----

  predicate Digit(u: Unit) { 48 <= u <= 57 }

  /** The units a JSON number can contain (section 6 of RFC 8259). */
  predicate NumberUnit(u: Unit) { Digit(u) || u == 43 || u == 45 || u == 46 || u == 69 || u == 101 }

  function Decimal(n: nat): (t: Text)
    ensures t != [] && forall i :: 0 <= i < |t| ==> Digit(t[i])
  {
    if n < 10 then [48 + n] else Decimal(n / 10) + [48 + n % 10]
  }

  function IntText(n: int): (t: Text)
    ensures t != [] && (Digit(t[0]) || t[0] == 45) && forall i :: 0 <= i < |t| ==> NumberUnit(t[i])
  {
    if n < 0 then [45] + Decimal(-n) else Decimal(n)
  }

  function DigitsValue(t: Text): nat
    requires forall i :: 0 <= i < |t| ==> Digit(t[i])
  {
    if t == [] then 0
    else
      var last := t[|t| - 1];
      assert Digit(last);
      10 * DigitsValue(t[..|t| - 1]) + (last - 48)
  }

  predicate AllDigits(t: Text) { t != [] && forall i :: 0 <= i < |t| ==> Digit(t[i]) }

  predicate IntegerToken(t: Text) {
    AllDigits(t) || (t != [] && t[0] == 45 && AllDigits(t[1..]))
  }

  function ReadNumber(t: Text): Number
    requires t != []
  {
    if AllDigits(t) then Integer(DigitsValue(t))
    else if t[0] == 45 && AllDigits(t[1..]) then Integer(0 - DigitsValue(t[1..]))
    else Token(t)
  }

  lemma {:induction false} DecimalValue(n: nat)
    ensures DigitsValue(Decimal(n)) == n
  {
    if n >= 10 {
      DecimalValue(n / 10);
      var t := Decimal(n);
      assert t[..|t| - 1] == Decimal(n / 10);
    }
  }

  lemma {:induction false} IntTextReads(n: int)
    ensures ReadNumber(IntText(n)) == Integer(n)
  {
    if n < 0 {
      DecimalValue(-n);
      assert IntText(n)[1..] == Decimal(-n);
    } else {
      DecimalValue(n);
    }
  }

  predicate NumberToken(t: Text) {
    t != [] && (Digit(t[0]) || t[0] == 45) && (forall i :: 0 <= i < |t| ==> NumberUnit(t[i])) && !IntegerToken(t)
  }

  // ---- Strings (section 7 of RFC 8259; lone surrogates escaped as in ECMAScript's QuoteJSONString) ----

  function HexDigit(n: nat): Unit
    requires n < 16
  {
    if n < 10 then 48 + n else 87 + n
  }

  function UnicodeEscape(u: Unit): Text {
    [BACKSLASH, 117, HexDigit(u / 4096), HexDigit(u / 256 % 16), HexDigit(u / 16 % 16), HexDigit(u % 16)]
  }

  function EscapeUnit(u: Unit): Text {
    if u == QUOTE then [BACKSLASH, QUOTE]
    else if u == BACKSLASH then [BACKSLASH, BACKSLASH]
    else if u == 8 then [BACKSLASH, 98]
    else if u == 9 then [BACKSLASH, 116]
    else if u == 10 then [BACKSLASH, 110]
    else if u == 12 then [BACKSLASH, 102]
    else if u == 13 then [BACKSLASH, 114]
    else if u < 32 || Lead(u) || Trail(u) then UnicodeEscape(u)
    else [u]
  }

  function Escape(s: Text): Text {
    if s == [] then []
    else if Lead(s[0]) && |s| > 1 && Trail(s[1]) then [s[0], s[1]] + Escape(s[2..])
    else EscapeUnit(s[0]) + Escape(s[1..])
  }

  function Quote(s: Text): Text { [QUOTE] + Escape(s) + [QUOTE] }

  function HexValue(u: Unit): Option<nat> {
    if Digit(u) then Some(u - 48)
    else if 97 <= u <= 102 then Some(u - 87)
    else if 65 <= u <= 70 then Some(u - 55)
    else None
  }

  function ReadHex(t: Text): Option<Unit>
    requires |t| >= 4
  {
    match (HexValue(t[0]), HexValue(t[1]), HexValue(t[2]), HexValue(t[3]))
    case (Some(a), Some(b), Some(c), Some(d)) =>
      if a < 16 && b < 16 && c < 16 && d < 16 then Some(((a * 16 + b) * 16 + c) * 16 + d) else None
    case _ => None
  }

  function SimpleEscape(u: Unit): Option<Unit> {
    if u == QUOTE || u == BACKSLASH || u == 47 then Some(u)
    else if u == 98 then Some(8)
    else if u == 116 then Some(9)
    else if u == 110 then Some(10)
    else if u == 102 then Some(12)
    else if u == 114 then Some(13)
    else None
  }

  /** The string whose body starts `t`, up to its closing quotation mark, and the text after it. */
  function ReadString(t: Text): (r: Option<(Text, Text)>)
    ensures r.Some? ==> |r.value.1| < |t|
    decreases |t|
  {
    if t == [] || t[0] < 32 then None
    else if t[0] == QUOTE then Some(([], t[1..]))
    else if t[0] != BACKSLASH then Prefix(t[0], ReadString(t[1..]))
    else if |t| < 2 then None
    else if t[1] != 117 then
      match SimpleEscape(t[1])
      case Some(u) => Prefix(u, ReadString(t[2..]))
      case None => None
    else if |t| < 6 then None
    else
      match ReadHex(t[2..6])
      case Some(u) => Prefix(u, ReadString(t[6..]))
      case None => None
  }

  function Prefix(u: Unit, r: Option<(Text, Text)>): Option<(Text, Text)> {
    match r
    case Some((s, rest)) => Some(([u] + s, rest))
    case None => None
  }

  lemma {:induction false} HexReads(u: Unit)
    ensures ReadHex(UnicodeEscape(u)[2..6]) == Some(u)
  {
    var t := UnicodeEscape(u)[2..6];
    assert HexValue(t[0]) == Some(u / 4096);
    assert HexValue(t[1]) == Some(u / 256 % 16);
    assert HexValue(t[2]) == Some(u / 16 % 16);
    assert HexValue(t[3]) == Some(u % 16);
    assert u / 256 == u / 4096 * 16 + u / 256 % 16;
    assert u / 16 == u / 256 * 16 + u / 16 % 16;
  }

  lemma {:induction false} EscapeUnitReads(u: Unit, more: Text)
    ensures ReadString(EscapeUnit(u) + more) == Prefix(u, ReadString(more))
  {
    var e := EscapeUnit(u);
    var t := e + more;
    assert t[|e|..] == more;
    if |e| == 6 {
      HexReads(u);
      assert t[2..6] == e[2..6];
    }
  }

  lemma {:induction false} PairReads(a: Unit, b: Unit, more: Text)
    requires Lead(a) && Trail(b)
    ensures ReadString([a, b] + more) == Prefix(a, Prefix(b, ReadString(more)))
  {
    assert ([a, b] + more)[1..] == [b] + more;
    assert ([b] + more)[1..] == more;
  }

  /** What follows an escaped string: its closing quotation mark and the rest of the text. */
  function Closed(s: Text, rest: Text): Text { Escape(s) + ([QUOTE] + rest) }

  lemma {:induction false} ClosedPair(s: Text, rest: Text)
    requires |s| > 1 && Lead(s[0]) && Trail(s[1])
    ensures Closed(s, rest) == [s[0], s[1]] + Closed(s[2..], rest)
  {
    assert Escape(s) == [s[0], s[1]] + Escape(s[2..]);
  }

  lemma {:induction false} ClosedUnit(s: Text, rest: Text)
    requires s != [] && !(Lead(s[0]) && |s| > 1 && Trail(s[1]))
    ensures Closed(s, rest) == EscapeUnit(s[0]) + Closed(s[1..], rest)
  {
    Associates(EscapeUnit(s[0]), Escape(s[1..]), [QUOTE] + rest);
  }

  lemma {:induction false} Associates(a: Text, b: Text, c: Text)
    ensures (a + b) + c == a + (b + c)
  {}

  lemma {:induction false} EscapeReads(s: Text, rest: Text)
    ensures ReadString(Closed(s, rest)) == Some((s, rest))
    decreases |s|
  {
    if s == [] {
      assert Closed(s, rest) == [QUOTE] + rest;
    } else if Lead(s[0]) && |s| > 1 && Trail(s[1]) {
      EscapeReads(s[2..], rest);
      ClosedPair(s, rest);
      PairReads(s[0], s[1], Closed(s[2..], rest));
      assert [s[0]] + ([s[1]] + s[2..]) == s;
    } else {
      EscapeReads(s[1..], rest);
      assert [s[0]] + s[1..] == s;
      ClosedUnit(s, rest);
      EscapeUnitReads(s[0], Closed(s[1..], rest));
    }
  }
}
