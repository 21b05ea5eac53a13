/** JavaScript's `Number(string)` conversion, restricted to decimal notation: surrounding
 *  whitespace is ignored, the empty string is 0, an optional sign is followed by digits with an
 *  optional fractional part; anything else is NaN. */
module JsNumber {
  import opened Wrappers
  import opened JsString

  predicate AllDigits(s: string) {
    forall i :: 0 <= i < |s| ==> IsDigit(s[i])
  }


  /** The value of a run of decimal digits, most significant first. */
  function DigitsValue(s: string): nat
    requires AllDigits(s)
  {
    if s == [] then 0 else DigitsValue(s[..|s| - 1]) * 10 + (s[|s| - 1] as int - '0' as int)
  }

  /** The value of the digits after a decimal point, `0.d1d2...`, accumulated from the last
   *  digit. */
  function FractionValue(s: string): real
    requires AllDigits(s)
  {
    if s == [] then 0.0 else ((s[0] as int - '0' as int) as real + FractionValue(s[1..])) / 10.0
  }

  /** Digits, optionally with one `.` and a fractional part; at least one digit in all. */
  function UnsignedNumber(t: string): JsNum {
    var k := IndexOfChar(t, '.', 0);
    if k == -1 then
      if t != [] && AllDigits(t) then Finite(DigitsValue(t) as real) else NaN
    else
      var whole := t[..k];
      var fraction := t[k + 1..];
      if |whole| + |fraction| > 0 && AllDigits(whole) && AllDigits(fraction) then
        Finite(DigitsValue(whole) as real + FractionValue(fraction))
      else NaN
  }

  function Negate(n: JsNum): JsNum {
    match n
    case Finite(r) => Finite(-r)
    case NaN => NaN
  }

  /** `Number(s)` for decimal text. */
  function ToNumber(s: string): JsNum {
    var t := Trim(s);
    if t == [] then Finite(0.0)
    else if t[0] == '-' then Negate(UnsignedNumber(t[1..]))
    else if t[0] == '+' then UnsignedNumber(t[1..])
    else UnsignedNumber(t)
  }

  /** `Number.isInteger`. */
  predicate IsInteger(n: JsNum) {
    n.Finite? && n.r == n.r.Floor as real
  }

  lemma {:induction false} DigitsOfNat(n: nat)
    ensures AllDigits(NatToString(n)) && DigitsValue(NatToString(n)) == n
    decreases n
  {
    var s := NatToString(n);
    if n >= 10 {
      DigitsOfNat(n / 10);
      assert s[..|s| - 1] == NatToString(n / 10);
    }
  }

  lemma DigitIsNotPunctuation(c: char)
    requires IsDigit(c)
    ensures !IsWhitespace(c) && c != '-' && c != '+' && c != '.'
  {
  }

  lemma UnsignedOfDigits(s: string)
    requires s != [] && AllDigits(s)
    ensures UnsignedNumber(s) == Finite(DigitsValue(s) as real)
  {
    forall i | 0 <= i < |s| ensures s[i] != '.' {
      DigitIsNotPunctuation(s[i]);
    }
    assert IndexOfChar(s, '.', 0) == -1;
  }

  /** Decimal text of a natural number converts back to that number. */
  lemma NumberOfNat(n: nat)
    ensures ToNumber(NatToString(n)) == Finite(n as real)
  {
    var s := NatToString(n);
    DigitsOfNat(n);
    UnsignedOfDigits(s);
    DigitIsNotPunctuation(s[0]);
    DigitIsNotPunctuation(s[|s| - 1]);
    TrimNoEdgeWhitespace(s);
    assert Trim(s) == s;
    assert ToNumber(s) == UnsignedNumber(s);
  }

  /** A minus sign in front negates it. */
  lemma NumberOfNegative(n: nat)
    ensures ToNumber("-" + NatToString(n)) == Finite(-(n as real))
  {
    var s := NatToString(n);
    DigitsOfNat(n);
    NegatedDigits("-" + s, s);
  }

  lemma NegatedDigits(m: string, s: string)
    requires s != [] && AllDigits(s) && |m| == |s| + 1 && m[0] == '-' && m[1..] == s
    ensures ToNumber(m) == Finite(-(DigitsValue(s) as real))
  {
    UnsignedOfDigits(s);
    assert m[|m| - 1] == s[|s| - 1];
    DigitIsNotPunctuation(s[|s| - 1]);
    assert !IsWhitespace('-');
    TrimNoEdgeWhitespace(m);
    assert Trim(m) == m;
    assert ToNumber(m) == Negate(UnsignedNumber(s));
  }

  /** Both are integers in the sense of `Number.isInteger`. */
  lemma DecimalIsInteger(n: nat)
    ensures IsInteger(ToNumber(NatToString(n))) && IsInteger(ToNumber("-" + NatToString(n)))
  {
    NumberOfNat(n);
    NumberOfNegative(n);
    assert (n as real).Floor == n;
    assert (-(n as real)).Floor == -(n as int);
  }

  /** Blank text is 0, and a single sign is not a number. */
  lemma NumberEdgeCases(ws: string)
    requires AllWhitespace(ws)
    ensures ToNumber(ws) == Finite(0.0)
    ensures ToNumber("-") == NaN && ToNumber("+") == NaN && ToNumber(".") == NaN
  {
    TrimAllWhitespace(ws);
    TrimNoEdgeWhitespace("-");
    TrimNoEdgeWhitespace("+");
    TrimNoEdgeWhitespace(".");
  }

  /** A fractional part makes a non-integer: `5.5` is 5.5. */
  lemma FractionExample()
    ensures ToNumber("5.5") == Finite(5.5) && !IsInteger(ToNumber("5.5"))
  {
    TrimNoEdgeWhitespace("5.5");
    assert IndexOfChar("5.5", '.', 0) == 1;
    assert "5.5"[..1] == "5" && "5.5"[2..] == "5";
    assert DigitsValue("5") == 5 by { assert "5"[..0] == []; }
    assert (5.5).Floor == 5;
  }

  /** Text with a letter is not a number. */
  lemma LetterIsNaN(s: string, i: nat)
    requires i < |s| && IsAsciiLetter(s[i])
    ensures ToNumber(s) == NaN
  {
    TrimIsInfix(s);
    var a, b :| 0 <= a <= b <= |s| && Trim(s) == s[a..b] && AllWhitespace(s[..a]) && AllWhitespace(s[b..]);
    assert !IsWhitespace(s[i]);
    assert a <= i < b;
    var t := Trim(s);
    assert t[i - a] == s[i];
    var u := if t[0] == '-' || t[0] == '+' then t[1..] else t;
    assert exists j :: 0 <= j < |u| && IsAsciiLetter(u[j]) by {
      if t[0] == '-' || t[0] == '+' {
        assert i - a > 0;
        assert u[i - a - 1] == t[i - a];
      } else {
        assert u[i - a] == t[i - a];
      }
    }
    UnsignedWithLetter(u);
  }

  lemma UnsignedWithLetter(u: string)
    requires exists j :: 0 <= j < |u| && IsAsciiLetter(u[j])
    ensures UnsignedNumber(u) == NaN
  {
    var j :| 0 <= j < |u| && IsAsciiLetter(u[j]);
    var k := IndexOfChar(u, '.', 0);
    if k != -1 {
      if j < k {
        assert u[..k][j] == u[j];
      } else {
        assert u[k + 1..][j - k - 1] == u[j];
      }
    }
  }
}
