/**
 * The JavaScript built-ins that the heart-rate core leans on, stated once:
 * Math.round, String.prototype.trim, parseInt(_, 10), parseFloat, and the
 * array operations find, findIndex, indexOf, filter and Math.max(...).
 * Strings are sequences of Unicode scalar values; numbers are exact
 * integers or rationals (no IEEE-754 rounding, no overflow to Infinity).
 */
module JsBuiltins {

  datatype Option<+T> = None | Some(value: T)

  // ---------------------------------------------------------------------
  // Math.round
  // ---------------------------------------------------------------------

  /** Math.round: the integer nearest to x, a half rounded towards +infinity. */
  function Round(x: real): (r: int)
    ensures r as real - 0.5 <= x < r as real + 0.5
  {
    (x + 0.5).Floor
  }

  lemma RoundMonotone(x: real, y: real)
    requires x <= y
    ensures Round(x) <= Round(y)
  {
  }

  lemma RoundOfInteger(n: int)
    ensures Round(n as real) == n
  {
  }

  /** Flooring an exact quotient agrees with Euclidean integer division. */
  lemma FloorOfQuotient(a: int, b: int)
    requires b > 0
    ensures (a as real / b as real).Floor == a / b
  {
    var q, r := a / b, a % b;
    assert a == q * b + r && 0 <= r < b;
    assert (a as real) == (q as real) * (b as real) + (r as real);
    assert (a as real) / (b as real) == (q as real) + (r as real) / (b as real);
    assert 0.0 <= (r as real) / (b as real) < 1.0;
  }

  lemma QuotientOfProduct(w: real, v: real, d: real)
    requires d != 0.0 && w == v * d
    ensures w / d == v
  {
  }

  /** Math.round of a quotient of integers, in integer arithmetic. */
  lemma {:induction false} RoundOfQuotient(a: int, b: int)
    requires b > 0
    ensures Round(a as real / b as real) == (2 * a + b) / (2 * b)
  {
    var x, y := a as real, b as real;
    assert (2 * a + b) as real / (2 * b) as real == (2.0 * x + y) / (2.0 * y);
    var q := x / y;
    assert q * y == x;
    QuotientOfProduct(2.0 * x + y, q + 0.5, 2.0 * y);
    FloorOfQuotient(2 * a + b, 2 * b);
  }

  // ---------------------------------------------------------------------
  // White space, trim
  // ---------------------------------------------------------------------

  /** The characters JavaScript's trim and parseInt skip: WhiteSpace and LineTerminator. */
  predicate IsWhitespace(c: char)
  {
    || c == '\t' || c == '\U{000B}' || c == '\U{000C}' || c == ' ' || c == '\U{00A0}'
    || c == '\U{FEFF}' || c == '\U{1680}' || ('\U{2000}' <= c <= '\U{200A}')
    || c == '\U{202F}' || c == '\U{205F}' || c == '\U{3000}'
    || c == '\n' || c == '\r' || c == '\U{2028}' || c == '\U{2029}'
  }

  ghost predicate AllWhitespace(s: string)
  {
    forall i :: 0 <= i < |s| ==> IsWhitespace(s[i])
  }

  /** String.prototype.trimStart. */
  function TrimStart(s: string): string
  {
    if s != [] && IsWhitespace(s[0]) then TrimStart(s[1..]) else s
  }

  /** trimStart drops a prefix of white space and stops at the first other character. */
  lemma {:induction false} TrimStartDropsWhitespace(s: string)
    ensures |TrimStart(s)| <= |s| && TrimStart(s) == s[|s| - |TrimStart(s)|..]
    ensures AllWhitespace(s[..|s| - |TrimStart(s)|])
    ensures TrimStart(s) == [] || !IsWhitespace(TrimStart(s)[0])
  {
    if s != [] && IsWhitespace(s[0]) {
      TrimStartDropsWhitespace(s[1..]);
      var k := |s| - |TrimStart(s)|;
      assert s[..k] == [s[0]] + s[1..][..k - 1];
    }
  }

  /** String.prototype.trimEnd. */
  function TrimEnd(s: string): (r: string)
    ensures |r| <= |s| && r == s[..|r|]
    ensures AllWhitespace(s[|r|..])
    ensures r == [] || !IsWhitespace(r[|r| - 1])
  {
    if s != [] && IsWhitespace(s[|s| - 1]) then TrimEnd(s[..|s| - 1]) else s
  }

  /**
   * String.prototype.trim: the result is "" exactly when every character is
   * white space, and otherwise starts and ends with a character that is not.
   */
  function Trim(s: string): (r: string)
    ensures r == [] <==> AllWhitespace(s)
    ensures r != [] ==> !IsWhitespace(r[0]) && !IsWhitespace(r[|r| - 1])
  {
    var t := TrimStart(s);
    TrimStartDropsWhitespace(s);
    var k := |s| - |t|;
    assert s == s[..k] + t;
    assert TrimEnd(t) == [] ==> s[..k] == s;
    TrimEnd(t)
  }

  // ---------------------------------------------------------------------
  // Decimal digits
  // ---------------------------------------------------------------------

  predicate IsDigit(c: char)
  {
    '0' <= c <= '9'
  }

  ghost predicate AllDigits(s: string)
  {
    forall i :: 0 <= i < |s| ==> IsDigit(s[i])
  }

  function DigitValue(c: char): (d: nat)
    requires IsDigit(c)
    ensures d < 10
  {
    c as int - '0' as int
  }

  function DigitChar(d: nat): (c: char)
    requires d < 10
    ensures IsDigit(c) && DigitValue(c) == d
  {
    ('0' as int + d) as char
  }

  /** Number of decimal digits at the head of s. */
  function DigitRunLength(s: string): (n: nat)
    ensures n <= |s| && AllDigits(s[..n])
    ensures n < |s| ==> !IsDigit(s[n])
  {
    if s != [] && IsDigit(s[0]) then 1 + DigitRunLength(s[1..]) else 0
  }

  /** The value of a string of decimal digits, most significant first. */
  function DigitsValue(ds: string): nat
    requires AllDigits(ds)
  {
    if ds == [] then 0 else 10 * DigitsValue(ds[..|ds| - 1]) + DigitValue(ds[|ds| - 1])
  }

  function Pow10(k: nat): (p: nat)
    ensures p >= 1
  {
    if k == 0 then 1 else 10 * Pow10(k - 1)
  }

  /** The shortest decimal representation of n (Number.prototype.toString for integers). */
  function NatToDecimal(n: nat): (s: string)
    ensures 1 <= |s| && AllDigits(s)
    ensures DigitsValue(s) == n
  {
    if n < 10 then [DigitChar(n)]
    else
      var s := NatToDecimal(n / 10) + [DigitChar(n % 10)];
      assert s[..|s| - 1] == NatToDecimal(n / 10);
      s
  }

  lemma {:induction false} DigitRunOfDigitsThenTail(ds: string, tail: string)
    requires AllDigits(ds)
    requires tail == [] || !IsDigit(tail[0])
    ensures DigitRunLength(ds + tail) == |ds|
  {
    if ds != [] {
      assert (ds + tail)[1..] == ds[1..] + tail;
      DigitRunOfDigitsThenTail(ds[1..], tail);
    }
  }

  lemma {:induction false} TrimStartSkipsWhitespace(ws: string, s: string)
    requires AllWhitespace(ws)
    requires s == [] || !IsWhitespace(s[0])
    ensures TrimStart(ws + s) == s
  {
    if ws != [] {
      assert (ws + s)[1..] == ws[1..] + s;
      TrimStartSkipsWhitespace(ws[1..], s);
    }
  }

  // ---------------------------------------------------------------------
  // parseInt(s, 10) and parseFloat(s)
  // ---------------------------------------------------------------------

  /** A JavaScript number as parseFloat can produce it: NaN, finite, or an infinity. */
  datatype JsNumber = NaN | Finite(value: real) | Infinity(negative: bool)

  /** The leading sign of s: whether it is '-', and what follows the sign. */
  function SplitSign(s: string): (r: (bool, string))
    ensures r.1 == if s != [] && (s[0] == '-' || s[0] == '+') then s[1..] else s
    ensures r.0 <==> s != [] && s[0] == '-'
  {
    if s != [] && s[0] == '-' then (true, s[1..])
    else if s != [] && s[0] == '+' then (false, s[1..])
    else (false, s)
  }

  /**
   * parseInt(s, 10): skip leading white space, read an optional sign and the
   * longest run of decimal digits; None stands for NaN (no digit at all).
   */
  function ParseInt(s: string): (r: Option<int>)
    ensures var rest := SplitSign(TrimStart(s)).1;
            r.None? <==> rest == [] || !IsDigit(rest[0])
  {
    var (negative, body) := SplitSign(TrimStart(s));
    var n := DigitRunLength(body);
    if n == 0 then None
    else
      var magnitude: int := DigitsValue(body[..n]);
      Some(if negative then -magnitude else magnitude)
  }

  /** White space and then an optional '-' before a digit: trimming and sign splitting recover both. */
  lemma SplitSignAfterWhitespace(ws: string, negative: bool, body: string)
    requires AllWhitespace(ws)
    requires body != [] && IsDigit(body[0])
    ensures SplitSign(TrimStart(ws + ((if negative then "-" else "") + body))) == (negative, body)
  {
    var signed := (if negative then "-" else "") + body;
    if negative {
      assert signed[0] == '-' && signed[1..] == body;
      assert SplitSign(signed) == (true, body);
    } else {
      assert signed == body;
      assert SplitSign(signed) == (false, body);
    }
    TrimStartSkipsWhitespace(ws, signed);
  }

  /** parseInt of a signed run of digits, followed by a non-digit, is that run's value, negated after '-'. */
  lemma ParseIntOfSignedDigits(s: string, negative: bool, ds: string, tail: string)
    requires |ds| >= 1 && AllDigits(ds)
    requires tail == [] || !IsDigit(tail[0])
    requires SplitSign(TrimStart(s)) == (negative, ds + tail)
    ensures ParseInt(s) == Some(if negative then -(DigitsValue(ds) as int) else DigitsValue(ds))
  {
    var body := ds + tail;
    DigitRunOfDigitsThenTail(ds, tail);
    assert SplitSign(TrimStart(s)).1 == body;
    assert body[..DigitRunLength(body)] == ds;
    var magnitude: int := DigitsValue(body[..DigitRunLength(body)]);
    assert magnitude == DigitsValue(ds);
  }

  /**
   * parseInt reads back any decimal integer, whatever white space precedes it
   * and whatever non-digit text follows it ("  30", "-7", "30歳").
   */
  lemma ParseIntReadsDecimal(ws: string, negative: bool, n: nat, tail: string)
    requires AllWhitespace(ws)
    requires tail == [] || !IsDigit(tail[0])
    ensures ParseInt(ws + (if negative then "-" else "") + NatToDecimal(n) + tail)
            == Some(if negative then -(n as int) else n)
  {
    var ds := NatToDecimal(n);
    var body := ds + tail;
    var sign: string := if negative then "-" else "";
    var s := ws + sign + ds + tail;
    assert s == ws + (sign + body);
    assert body[0] == ds[0];
    SplitSignAfterWhitespace(ws, negative, body);
    ParseIntOfSignedDigits(s, negative, ds, tail);
  }

  /** The exponent of an ExponentPart ("e-3", "E+12") at the head of s, if there is one. */
  function ExponentAt(s: string): (r: Option<int>)
    ensures r.Some? ==> |s| >= 2 && (s[0] == 'e' || s[0] == 'E')
  {
    if |s| >= 2 && (s[0] == 'e' || s[0] == 'E') then
      var (negative, body) := SplitSign(s[1..]);
      var n := DigitRunLength(body);
      if n == 0 then None
      else
        var magnitude: int := DigitsValue(body[..n]);
        Some(if negative then -magnitude else magnitude)
    else None
  }

  /** 10 raised to an integer power, as an exact rational. */
  function Scale10(e: int): (r: real)
    ensures r > 0.0
  {
    if e >= 0 then Pow10(e) as real else 1.0 / Pow10(-e) as real
  }

  /** A mantissa scaled by the exponent part at the head of after, if there is one. */
  function ScaledByExponent(mantissa: real, after: string): real
  {
    match ExponentAt(after)
    case Some(e) => mantissa * Scale10(e)
    case None => mantissa
  }

  /** The value of fraction digits ds after a decimal point. */
  function FractionValue(ds: string): real
    requires AllDigits(ds)
  {
    DigitsValue(ds) as real / Pow10(|ds|) as real
  }

  /**
   * The value of an unsigned decimal literal whose integer digits are
   * intDigits, continuing with rest: an optional point and fraction digits
   * (at least one digit in all) and an optional exponent.
   */
  function DecimalAfterIntegerDigits(intDigits: string, rest: string): Option<real>
    requires AllDigits(intDigits)
  {
    if rest != [] && rest[0] == '.' then
      var f := DigitRunLength(rest[1..]);
      if |intDigits| == 0 && f == 0 then None
      else
        Some(ScaledByExponent(DigitsValue(intDigits) as real + FractionValue(rest[1..][..f]), rest[1 + f..]))
    else if |intDigits| == 0 then None
    else Some(ScaledByExponent(DigitsValue(intDigits) as real, rest))
  }

  /** The value of the unsigned decimal literal at the head of body; None when there is none. */
  function UnsignedDecimalPrefix(body: string): Option<real>
  {
    var i := DigitRunLength(body);
    DecimalAfterIntegerDigits(body[..i], body[i..])
  }

  /**
   * parseFloat(s): skip leading white space, read an optional sign and the
   * longest prefix that is "Infinity" or an unsigned decimal literal; NaN when
   * there is none.
   */
  function ParseFloat(s: string): (r: JsNumber)
    ensures var body := SplitSign(TrimStart(s)).1;
            r.NaN? <==> !(|body| >= 8 && body[..8] == "Infinity") && UnsignedDecimalPrefix(body).None?
  {
    var (negative, body) := SplitSign(TrimStart(s));
    if |body| >= 8 && body[..8] == "Infinity" then Infinity(negative)
    else
      match UnsignedDecimalPrefix(body)
      case None => NaN
      case Some(m) => Finite(if negative then -m else m)
  }

  lemma UnsignedDecimalOfDigits(ds: string, tail: string)
    requires |ds| >= 1 && AllDigits(ds)
    requires tail == [] || (!IsDigit(tail[0]) && tail[0] != '.' && tail[0] != 'e' && tail[0] != 'E')
    ensures UnsignedDecimalPrefix(ds + tail) == Some(DigitsValue(ds) as real)
  {
    var body := ds + tail;
    DigitRunOfDigitsThenTail(ds, tail);
    assert body[..|ds|] == ds;
    assert body[|ds|..] == tail;
    assert ExponentAt(tail) == None;
  }

  /** The digit run after a point is ds, and the text after it is tail. */
  lemma FractionDigitsAfterPoint(ds: string, tail: string)
    requires AllDigits(ds)
    requires tail == [] || !IsDigit(tail[0])
    ensures var rest := "." + ds + tail;
            var f := DigitRunLength(rest[1..]);
            f == |ds| && rest[1..][..f] == ds && rest[1 + f..] == tail
  {
    var rest := "." + ds + tail;
    assert rest[1..] == ds + tail;
    DigitRunOfDigitsThenTail(ds, tail);
  }

  /** After the integer digits, a point and fraction digits continue the literal with that fraction. */
  lemma DecimalAfterPoint(intDigits: string, ds: string, tail: string)
    requires |intDigits| >= 1 && AllDigits(intDigits) && AllDigits(ds)
    requires tail == [] || (!IsDigit(tail[0]) && tail[0] != 'e' && tail[0] != 'E')
    ensures DecimalAfterIntegerDigits(intDigits, "." + ds + tail)
            == Some(DigitsValue(intDigits) as real + FractionValue(ds))
  {
    FractionDigitsAfterPoint(ds, tail);
    assert ExponentAt(tail) == None;
  }

  /** The integer digits at the head of a literal end where rest begins. */
  lemma UnsignedDecimalSplitsAtDigits(intDigits: string, rest: string)
    requires AllDigits(intDigits)
    requires rest == [] || !IsDigit(rest[0])
    ensures UnsignedDecimalPrefix(intDigits + rest) == DecimalAfterIntegerDigits(intDigits, rest)
  {
    var body := intDigits + rest;
    DigitRunOfDigitsThenTail(intDigits, rest);
    assert body[..|intDigits|] == intDigits && body[|intDigits|..] == rest;
  }

  /** Integer digits, a point and fraction digits: the literal's value is the integer part plus the fraction. */
  lemma UnsignedDecimalOfFraction(intDigits: string, ds: string, tail: string)
    requires |intDigits| >= 1 && AllDigits(intDigits) && AllDigits(ds)
    requires tail == [] || (!IsDigit(tail[0]) && tail[0] != 'e' && tail[0] != 'E')
    ensures UnsignedDecimalPrefix(intDigits + ("." + ds + tail))
            == Some(DigitsValue(intDigits) as real + FractionValue(ds))
  {
    UnsignedDecimalSplitsAtDigits(intDigits, "." + ds + tail);
    DecimalAfterPoint(intDigits, ds, tail);
  }

  /** A literal that starts with a digit is not "Infinity". */
  lemma DigitIsNotInfinity(body: string)
    requires body != [] && IsDigit(body[0])
    ensures !(|body| >= 8 && body[..8] == "Infinity")
  {
    if |body| >= 8 { assert body[..8][0] == body[0]; }
  }

  /** parseFloat of a signed literal that starts with a digit is that literal's value, negated after '-'. */
  lemma ParseFloatOfSignedDigits(s: string, negative: bool, body: string, m: real)
    requires body != [] && IsDigit(body[0])
    requires SplitSign(TrimStart(s)) == (negative, body)
    requires UnsignedDecimalPrefix(body) == Some(m)
    ensures ParseFloat(s) == Finite(if negative then -m else m)
  {
    DigitIsNotInfinity(body);
  }

  /** parseFloat reads back a decimal integer followed by text that does not continue the literal. */
  lemma ParseFloatReadsDecimal(ws: string, negative: bool, n: nat, tail: string)
    requires AllWhitespace(ws)
    requires tail == [] || (!IsDigit(tail[0]) && tail[0] != '.' && tail[0] != 'e' && tail[0] != 'E')
    ensures ParseFloat(ws + (if negative then "-" else "") + NatToDecimal(n) + tail)
            == Finite(if negative then -(n as real) else n as real)
  {
    var ds := NatToDecimal(n);
    var body := ds + tail;
    var sign: string := if negative then "-" else "";
    var s := ws + sign + ds + tail;
    assert s == ws + (sign + body);
    assert body[0] == ds[0];
    SplitSignAfterWhitespace(ws, negative, body);
    UnsignedDecimalOfDigits(ds, tail);
    ParseFloatOfSignedDigits(s, negative, body, n as real);
  }

  /**
   * parseFloat reads back a decimal with a fraction, such as the "170.5" a
   * step-0.1 number input submits, followed by text that does not continue it.
   */
  lemma ParseFloatReadsFraction(ws: string, negative: bool, n: nat, ds: string, tail: string)
    requires AllWhitespace(ws) && AllDigits(ds)
    requires tail == [] || (!IsDigit(tail[0]) && tail[0] != 'e' && tail[0] != 'E')
    ensures var v := n as real + FractionValue(ds);
            ParseFloat(ws + (if negative then "-" else "") + NatToDecimal(n) + "." + ds + tail)
            == Finite(if negative then -v else v)
  {
    var ids := NatToDecimal(n);
    var body := ids + ("." + ds + tail);
    var sign: string := if negative then "-" else "";
    var s := ws + sign + ids + "." + ds + tail;
    assert s == ws + (sign + body);
    assert body[0] == ids[0];
    SplitSignAfterWhitespace(ws, negative, body);
    UnsignedDecimalOfFraction(ids, ds, tail);
    ParseFloatOfSignedDigits(s, negative, body, n as real + FractionValue(ds));
  }

  /** Reference value: a height as the form submits it. */
  lemma ParseFloatExamples()
    ensures ParseFloat("170.5") == Finite(170.5)
  {
    assert NatToDecimal(17) == "17";
    assert NatToDecimal(170) == "170";
    assert "5"[..0] == [];
    assert DigitsValue("5") == 5;
    assert FractionValue("5") == 0.5;
    assert "" + "" + NatToDecimal(170) + "." + "5" + "" == "170.5";
    ParseFloatReadsFraction("", false, 170, "5", "");
  }

  /** parseInt reads back the decimal text of a natural number. */
  lemma ParseIntOfDecimal(n: nat)
    ensures ParseInt(NatToDecimal(n)) == Some(n)
  {
    var ds := NatToDecimal(n);
    assert TrimStart(ds) == ds && SplitSign(ds) == (false, ds) by { assert IsDigit(ds[0]); }
    assert ds + "" == ds;
    ParseIntOfSignedDigits(ds, false, ds, "");
  }

  // ---------------------------------------------------------------------
  // Array operations
  // ---------------------------------------------------------------------

  /** Array.prototype.findIndex: the first index whose element satisfies p, or -1. */
  function FindIndex<T>(s: seq<T>, p: T -> bool): (i: int)
    ensures -1 <= i < |s|
    ensures i >= 0 ==> p(s[i]) && forall j :: 0 <= j < i ==> !p(s[j])
    ensures i == -1 ==> forall j :: 0 <= j < |s| ==> !p(s[j])
  {
    if s == [] then -1
    else if p(s[0]) then 0
    else
      var k := FindIndex(s[1..], p);
      if k == -1 then -1 else k + 1
  }

  /** Array.prototype.find: the first element that satisfies p. */
  function Find<T>(s: seq<T>, p: T -> bool): (r: Option<T>)
    ensures r.Some? <==> exists j :: 0 <= j < |s| && p(s[j])
    ensures r.Some? ==> r.value == s[FindIndex(s, p)]
  {
    var i := FindIndex(s, p);
    if i == -1 then None else Some(s[i])
  }

  /** Array.prototype.indexOf: the first index holding v, or -1. */
  function IndexOf<T(==)>(s: seq<T>, v: T): (i: int)
    ensures i == -1 <==> v !in s
    ensures i >= 0 ==> i < |s| && s[i] == v && v !in s[..i]
  {
    FindIndex(s, x => x == v)
  }

  /** Array.prototype.filter. */
  function Filter<T>(s: seq<T>, p: T -> bool): (r: seq<T>)
    ensures |r| <= |s|
    ensures forall i :: 0 <= i < |r| ==> r[i] in s && p(r[i])
    ensures forall j :: 0 <= j < |s| && p(s[j]) ==> s[j] in r
  {
    if s == [] then []
    else if p(s[0]) then [s[0]] + Filter(s[1..], p)
    else Filter(s[1..], p)
  }

  /** Filtering keeps the order of the kept elements: it distributes over concatenation. */
  lemma {:induction false} FilterConcat<T>(a: seq<T>, b: seq<T>, p: T -> bool)
    ensures Filter(a + b, p) == Filter(a, p) + Filter(b, p)
  {
    if a != [] {
      assert (a + b)[0] == a[0] && (a + b)[1..] == a[1..] + b;
      FilterConcat(a[1..], b, p);
    } else {
      assert a + b == b;
    }
  }

  /**
   * When the predicate, once false along s, stays false, filter keeps a
   * prefix of s.
   */
  lemma {:induction false} FilterOfDownwardClosed<T>(s: seq<T>, p: T -> bool)
    requires forall i, j :: 0 <= i <= j < |s| && p(s[j]) ==> p(s[i])
    ensures |Filter(s, p)| <= |s| && Filter(s, p) == s[..|Filter(s, p)|]
  {
    if s != [] {
      var rest := s[1..];
      assert forall i, j :: 0 <= i <= j < |rest| && p(rest[j]) ==> p(rest[i]) by {
        forall i, j | 0 <= i <= j < |rest| && p(rest[j]) ensures p(rest[i]) {
          assert rest[j] == s[j + 1] && rest[i] == s[i + 1];
        }
      }
      FilterOfDownwardClosed(rest, p);
      var tail := Filter(rest, p);
      if p(s[0]) {
        assert Filter(s, p) == [s[0]] + tail;
        assert [s[0]] + rest[..|tail|] == s[..|tail| + 1];
      } else {
        assert forall j :: 0 <= j < |s| ==> !p(s[j]);
        NoneKept(s, p);
      }
    }
  }

  /** Filter keeps nothing when no element satisfies the predicate. */
  lemma {:induction false} NoneKept<T>(s: seq<T>, p: T -> bool)
    requires forall j :: 0 <= j < |s| ==> !p(s[j])
    ensures Filter(s, p) == []
  {
    if s != [] {
      assert forall j :: 0 <= j < |s[1..]| ==> !p(s[1..][j]) by {
        forall j | 0 <= j < |s[1..]| ensures !p(s[1..][j]) { assert s[1..][j] == s[j + 1]; }
      }
      NoneKept(s[1..], p);
    }
  }

  /** Math.max(...s) for a non-empty array of integers. */
  function MaxOf(s: seq<int>): (m: int)
    requires s != []
    ensures m in s
    ensures forall j :: 0 <= j < |s| ==> s[j] <= m
  {
    if |s| == 1 then s[0]
    else
      var rest := MaxOf(s[1..]);
      if s[0] >= rest then s[0] else rest
  }
}
