/** Numeric helpers of the movement and display code: the move-path parser, linear range
 *  scaling and clamping. */
module Motion {
  import opened Wrappers
  import opened JsString
  import opened JsNumber

  // ---------------------------------------------------------------- transformMoveInstruction

  /** One point of a move path. */
  datatype Point = Point(x: JsNum, y: JsNum, opacity: JsNum)

  /** `[-\d]+`: a non-empty run of minus signs and digits. */
  predicate IsCoordinate(s: string) {
    s != [] && forall i :: 0 <= i < |s| ==> s[i] == '-' || IsDigit(s[i])
  }

  function Divide(n: JsNum, d: real): JsNum
    requires d != 0.0
  {
    match n
    case Finite(r) => Finite(r / d)
    case NaN => NaN
  }

  /** One piece `(x,y,opacity)`: the three coordinates become numbers and the opacity is divided
   *  by 255; anything else is rejected with the piece in the message. */
  function PointOf(piece: string): (r: Result<Point>)
    ensures r.Err? ==> r.error == "Invalid path format: " + piece
  {
    if |piece| >= 2 && piece[0] == '(' && piece[|piece| - 1] == ')' then
      var parts := Split(piece[1..|piece| - 1], ',');
      if |parts| == 3 && IsCoordinate(parts[0]) && IsCoordinate(parts[1]) && IsCoordinate(parts[2]) then
        Ok(Point(ToNumber(parts[0]), ToNumber(parts[1]), Divide(ToNumber(parts[2]), 255.0)))
      else Err("Invalid path format: " + piece)
    else Err("Invalid path format: " + piece)
  }

  /** The index of the first malformed piece, or the number of pieces when all are well formed. */
  function FirstMalformed(pieces: seq<string>): (k: nat)
    ensures k <= |pieces|
    ensures forall j :: 0 <= j < k ==> PointOf(pieces[j]).Ok?
    ensures k < |pieces| ==> PointOf(pieces[k]).Err?
  {
    if pieces == [] then 0
    else if PointOf(pieces[0]).Err? then 0
    else
      var k := FirstMalformed(pieces[1..]);
      assert forall j :: 1 <= j < k + 1 ==> PointOf(pieces[j]) == PointOf(pieces[1..][j - 1]);
      1 + k
  }

  /** The `map` over the pieces: the first malformed piece aborts it. */
  function PointsOf(pieces: seq<string>): (r: Result<seq<Point>>)
    ensures r.Ok? <==> FirstMalformed(pieces) == |pieces|
    ensures r.Ok? ==> |r.value| == |pieces| && forall i :: 0 <= i < |pieces| ==> PointOf(pieces[i]) == Ok(r.value[i])
    ensures r.Err? ==> r.error == "Invalid path format: " + pieces[FirstMalformed(pieces)]
  {
    if pieces == [] then Ok([])
    else match PointOf(pieces[0])
      case Err(e) => Err(e)
      case Ok(p) =>
        match PointsOf(pieces[1..])
        case Err(e) =>
          assert pieces[1..][FirstMalformed(pieces[1..])] == pieces[FirstMalformed(pieces)];
          Err(e)
        case Ok(ps) =>
          assert forall i :: 1 <= i < |pieces| ==> pieces[i] == pieces[1..][i - 1];
          Ok([p] + ps)
  }

  /** `transformMoveInstruction`: split on single spaces and parse each piece. */
  function TransformMoveInstruction(text: string): Result<seq<Point>> {
    PointsOf(Split(text, ' '))
  }

  /** An integer in decimal notation, with a minus sign when negative. */
  function IntText(i: int): string {
    if i < 0 then "-" + NatToString(-i) else NatToString(i)
  }

  lemma IntTextNumber(i: int)
    ensures ToNumber(IntText(i)) == Finite(i as real)
    ensures IsCoordinate(IntText(i)) && ',' !in IntText(i) && ' ' !in IntText(i)
  {
    var n: nat := if i < 0 then -i else i;
    var s := NatToString(n);
    if i < 0 {
      NumberOfNegative(n);
      assert forall k :: 0 <= k < |"-" + s| ==> ("-" + s)[k] == '-' || IsDigit(("-" + s)[k]);
    } else {
      NumberOfNat(n);
    }
  }

  /** Three pieces joined by commas. */
  function Triple(a: string, b: string, c: string): string {
    a + "," + b + "," + c
  }

  lemma SplitTriple(a: string, b: string, c: string)
    requires ',' !in a && ',' !in b && ',' !in c
    ensures Split(Triple(a, b, c), ',') == [a, b, c]
  {
    assert Triple(a, b, c) == a + [','] + (b + [','] + c);
    SplitAppend(a, b + [','] + c, ',');
    SplitAppend(b, c, ',');
    SplitNoSep(c, ',');
  }

  /** A coordinate as written in a path, with the number it stands for. */
  datatype Written = Written(text: string, value: real)

  /** `w.text` is a coordinate free of separators whose number is `w.value`. */
  predicate WellWritten(w: Written) {
    IsCoordinate(w.text) && ',' !in w.text && ' ' !in w.text && ToNumber(w.text) == Finite(w.value)
  }

  /** The decimal text of any integer is a well-written coordinate of that integer. */
  lemma IntTextWellWritten(i: int)
    ensures WellWritten(Written(IntText(i), i as real))
  {
    IntTextNumber(i);
  }

  /** The text of one point. */
  function PointText(x: Written, y: Written, opacity: Written): string {
    "(" + Triple(x.text, y.text, opacity.text) + ")"
  }

  /** The point the three written coordinates stand for. */
  function PointOfWritten(x: Written, y: Written, opacity: Written): Point {
    Point(Finite(x.value), Finite(y.value), Finite(opacity.value / 255.0))
  }

  lemma Parenthesized(inner: string)
    ensures var piece := "(" + inner + ")";
      |piece| >= 2 && piece[0] == '(' && piece[|piece| - 1] == ')' && piece[1..|piece| - 1] == inner
  {
  }

  /** A parenthesised triple of coordinates parses into their numbers. */
  lemma PointOfTripleText(a: string, b: string, c: string)
    requires IsCoordinate(a) && IsCoordinate(b) && IsCoordinate(c)
    requires ',' !in a && ',' !in b && ',' !in c
    ensures var r := PointOf("(" + Triple(a, b, c) + ")");
      r.Ok? && r.value.x == ToNumber(a) && r.value.y == ToNumber(b) && r.value.opacity == Divide(ToNumber(c), 255.0)
  {
    SplitTriple(a, b, c);
    Parenthesized(Triple(a, b, c));
  }

  /** Writing a point and parsing it gives back its coordinates, with the opacity scaled to
   *  `opacity / 255`. */
  lemma PointRoundTrip(x: Written, y: Written, opacity: Written)
    requires WellWritten(x) && WellWritten(y) && WellWritten(opacity)
    ensures var r := PointOf(PointText(x, y, opacity));
      r.Ok? && r.value.x == Finite(x.value) && r.value.y == Finite(y.value) && r.value.opacity == Finite(opacity.value / 255.0)
  {
    PointOfTripleText(x.text, y.text, opacity.text);
  }

  /** The round trip as an equation on the parser's result. */
  lemma PointParses(x: Written, y: Written, opacity: Written)
    requires WellWritten(x) && WellWritten(y) && WellWritten(opacity)
    ensures PointOf(PointText(x, y, opacity)) == Ok(PointOfWritten(x, y, opacity))
  {
    PointRoundTrip(x, y, opacity);
    var r := PointOf(PointText(x, y, opacity));
    var p := PointOfWritten(x, y, opacity);
    assert r.value.x == p.x && r.value.y == p.y && r.value.opacity == p.opacity;
    assert r.value == p;
    assert r == Ok(p);
  }

  lemma PointTextNoSpace(x: Written, y: Written, opacity: Written)
    requires ' ' !in x.text && ' ' !in y.text && ' ' !in opacity.text
    ensures ' ' !in PointText(x, y, opacity)
  {
    var t := Triple(x.text, y.text, opacity.text);
    assert ' ' !in t by {
      assert t == x.text + "," + y.text + "," + opacity.text;
    }
    assert PointText(x, y, opacity) == "(" + t + ")";
  }

  /** All three coordinates of every point are well written. */
  predicate WellWrittenPath(path: seq<(Written, Written, Written)>) {
    forall i :: 0 <= i < |path| ==> WellWritten(path[i].0) && WellWritten(path[i].1) && WellWritten(path[i].2)
  }

  /** A path written from coordinate triples parses back to their points, in order. */
  lemma PathRoundTrip(path: seq<(Written, Written, Written)>)
    requires |path| >= 1 && WellWrittenPath(path)
    ensures TransformMoveInstruction(Join(PathTexts(path), ' ')) == Ok(PathPoints(path))
  {
    var texts := PathTexts(path);
    var points := PathPoints(path);
    forall i | 0 <= i < |texts| ensures ' ' !in texts[i] {
      PointTextNoSpace(path[i].0, path[i].1, path[i].2);
    }
    SplitJoin(texts, ' ');
    forall i | 0 <= i < |texts| ensures PointOf(texts[i]) == Ok(points[i]) {
      PointParses(path[i].0, path[i].1, path[i].2);
    }
    PointsOfAll(texts, points);
  }

  function PathTexts(path: seq<(Written, Written, Written)>): (r: seq<string>)
    ensures |r| == |path| && forall i :: 0 <= i < |path| ==> r[i] == PointText(path[i].0, path[i].1, path[i].2)
  {
    seq(|path|, i requires 0 <= i < |path| => PointText(path[i].0, path[i].1, path[i].2))
  }

  function PathPoints(path: seq<(Written, Written, Written)>): (r: seq<Point>)
    ensures |r| == |path| && forall i :: 0 <= i < |path| ==> r[i] == PointOfWritten(path[i].0, path[i].1, path[i].2)
  {
    seq(|path|, i requires 0 <= i < |path| => PointOfWritten(path[i].0, path[i].1, path[i].2))
  }

  lemma {:induction false} PointsOfAll(pieces: seq<string>, points: seq<Point>)
    requires |pieces| == |points| && forall i :: 0 <= i < |pieces| ==> PointOf(pieces[i]) == Ok(points[i])
    ensures PointsOf(pieces) == Ok(points)
  {
    if pieces != [] {
      PointsOfAll(pieces[1..], points[1..]);
      assert PointOf(pieces[0]) == Ok(points[0]);
      assert points == [points[0]] + points[1..];
    }
  }

  /** The empty path and a piece with a stray character are rejected. */
  lemma MalformedPaths()
    ensures TransformMoveInstruction("") == Err("Invalid path format: ")
    ensures TransformMoveInstruction("(1,2,3)x") == Err("Invalid path format: (1,2,3)x")
  {
    SplitNoSep("", ' ');
    assert PointOf("").Err?;
    assert FirstMalformed([""]) == 0;
    StrayCharacter();
  }

  lemma StrayCharacter()
    ensures TransformMoveInstruction("(1,2,3)x") == Err("Invalid path format: (1,2,3)x")
  {
    var piece := "(1,2,3)x";
    SplitNoSep(piece, ' ');
    assert piece[|piece| - 1] == 'x';
    assert PointOf(piece).Err?;
    assert FirstMalformed([piece]) == 0;
  }

  // ---------------------------------------------------------------- scaleRange

  /** `scaleRange`: linear interpolation of `value` from `[inMin, inMax]` onto
   *  `[outMin, outMax]`; a value outside the input range throws, and an empty input range
   *  divides zero by zero. */
  function ScaleRange(value: real, inMin: real, inMax: real, outMin: real, outMax: real): (r: Result<JsNum>)
    ensures r.Err? <==> value < inMin || value > inMax
  {
    if value < inMin || value > inMax then Err(OutOfRange(value, inMin, inMax))
    else if inMax == inMin then Ok(NaN)
    else Ok(Finite(Lerp(Fraction(value, inMin, inMax), outMin, outMax)))
  }

  /** The message of a value outside the input range, with the value and the bounds written
   *  as numbers. */
  function OutOfRange(value: real, inMin: real, inMax: real): string {
    "Value " + NumberText(value) + " is out of range [" + NumberText(inMin) + ", " + NumberText(inMax) + "]"
  }

  /** A number as a template literal writes it: an integer as `IntegerText` writes it; any
   *  other value with its integer part, a point and its decimal digits, up to 20 of them. */
  function NumberText(x: real): (r: string)
    ensures x == x.Floor as real ==> r == IntegerText(x.Floor)
  {
    if x == x.Floor as real then IntegerText(x.Floor)
    else if x < 0.0 then "-" + DecimalText(-x)
    else DecimalText(x)
  }

  /** 10^21: from this magnitude on, JavaScript writes integers in exponent form. */
  const ExponentFrom: int := 1_000_000_000_000_000_000_000

  /** An integer as JavaScript writes it: in decimal notation below 10^21 in magnitude,
   *  otherwise in exponent form with a minus sign when negative. */
  function IntegerText(i: int): (r: string)
    ensures -ExponentFrom < i < ExponentFrom ==> r == IntText(i)
    ensures i >= ExponentFrom ==> r == ExponentText(i)
    ensures i <= -ExponentFrom ==> r == "-" + ExponentText(-i)
  {
    if i <= -ExponentFrom then "-" + ExponentText(-i)
    else if i >= ExponentFrom then ExponentText(i)
    else IntText(i)
  }

  /** Exponent form `d.ddde+k` of a number of k + 1 digits: its first digit, then a point and
   *  the other significant digits when there are any, then `e+` and k. */
  function ExponentText(n: nat): string {
    var digits := NatToString(n);
    var significant := DropTrailingZeros(digits);
    [significant[0]] + (if |significant| > 1 then "." + significant[1..] else "") + "e+" + NatToString(|digits| - 1)
  }

  /** The digits without their trailing zeros, keeping the first digit. */
  function DropTrailingZeros(s: string): (r: string)
    requires |s| > 0
    ensures 0 < |r| <= |s| && r == s[..|r|]
    ensures |r| > 1 ==> r[|r| - 1] != '0'
    ensures forall i :: |r| <= i < |s| ==> s[i] == '0'
  {
    if |s| == 1 || s[|s| - 1] != '0' then s else DropTrailingZeros(s[..|s| - 1])
  }

  function Pow10(k: nat): nat {
    if k == 0 then 1 else 10 * Pow10(k - 1)
  }

  /** `k` zero digits. */
  function Zeros(k: nat): string {
    seq(k, _ => '0')
  }

  /** A power of ten is written as a one followed by its zeros. */
  lemma {:induction false} PowerOfTenDigits(k: nat)
    ensures NatToString(Pow10(k)) == "1" + Zeros(k)
  {
    if k > 0 {
      PowerOfTenDigits(k - 1);
      assert Pow10(k) % 10 == 0 && Pow10(k) / 10 == Pow10(k - 1) && Pow10(k) >= 10;
      assert Zeros(k) == Zeros(k - 1) + "0";
    }
  }

  /** Dropping the zeros of a one followed by zeros leaves the one. */
  lemma {:induction false} OneAndZeros(k: nat)
    ensures DropTrailingZeros("1" + Zeros(k)) == "1"
  {
    if k > 0 {
      assert ("1" + Zeros(k))[..k] == "1" + Zeros(k - 1);
      OneAndZeros(k - 1);
    }
  }

  /** 10^k is written `1e+k`: exponent form has no point when one digit is significant. */
  lemma PowerOfTenText(k: nat)
    ensures ExponentText(Pow10(k)) == "1e+" + NatToString(k)
  {
    PowerOfTenDigits(k);
    OneAndZeros(k);
  }

  /** 10^21, the first integer written in exponent form, is written `1e+21`. */
  lemma ExponentFromText()
    ensures IntegerText(ExponentFrom) == "1e+21"
  {
    ExponentFromPower();
    PowerOfTenText(21);
    TwentyOneText();
  }

  lemma ExponentFromPower()
    ensures Pow10(21) == ExponentFrom
  {
    assert Pow10(7) == 10_000_000;
    assert Pow10(14) == 10_000_000 * Pow10(7) by { Pow10Add(7, 7); }
    assert Pow10(21) == 10_000_000 * Pow10(14) by { Pow10Add(7, 14); }
  }

  lemma {:induction false} Pow10Add(j: nat, k: nat)
    ensures Pow10(j + k) == Pow10(j) * Pow10(k)
  {
    if j > 0 {
      Pow10Add(j - 1, k);
    }
  }

  lemma TwentyOneText()
    ensures NatToString(21) == "21"
  {
    assert NatToString(21) == NatToString(2) + "1";
  }

  function DecimalText(x: real): string
    requires x >= 0.0
  {
    NatToString(x.Floor) + "." + FractionDigits(x - x.Floor as real, 20)
  }

  /** The first `n` decimal digits of a fraction in `[0, 1)`, without the trailing zeros of an
   *  expansion that ends. */
  function FractionDigits(f: real, n: nat): string
    requires 0.0 <= f < 1.0
    decreases n
  {
    if n == 0 || f == 0.0 then ""
    else
      var d := (f * 10.0).Floor;
      assert 0 <= d <= 9;
      ['0' + d as char] + FractionDigits(f * 10.0 - d as real, n - 1)
  }

  /** With integer bounds and value, the message names all three as JavaScript writes
   *  integers, as in `Value -1 is out of range [0, 10]` or `Value 1e+21 is out of range [0, 10]`. */
  lemma ScaleRangeRejects(value: int, inMin: int, inMax: int, outMin: real, outMax: real)
    requires value < inMin || value > inMax
    ensures ScaleRange(value as real, inMin as real, inMax as real, outMin, outMax)
      == Err("Value " + IntegerText(value) + " is out of range [" + IntegerText(inMin) + ", " + IntegerText(inMax) + "]")
  {
    assert (value as real).Floor == value && (inMin as real).Floor == inMin && (inMax as real).Floor == inMax;
  }

  /** The two rejections `scaleRange`'s tests expect, below and above `[0, 10]`. */
  lemma ScaleRangeMessages()
    ensures ScaleRange(-1.0, 0.0, 10.0, 0.0, 100.0) == Err("Value -1 is out of range [0, 10]")
    ensures ScaleRange(11.0, 0.0, 10.0, 0.0, 100.0) == Err("Value 11 is out of range [0, 10]")
  {
    MessageBelow();
    MessageAbove();
  }

  lemma MessageBelow()
    ensures OutOfRange(-1.0, 0.0, 10.0) == "Value -1 is out of range [0, 10]"
  {
    SmallNumberTexts();
  }

  /** 10^21 against `[0, 10]` names the value in exponent form. */
  lemma ScaleRangeExponentMessage()
    ensures ScaleRange(ExponentFrom as real, 0.0, 10.0, 0.0, 1.0) == Err("Value 1e+21 is out of range [0, 10]")
  {
    MessageExponent();
  }

  lemma MessageExponent()
    ensures OutOfRange(ExponentFrom as real, 0.0, 10.0) == "Value 1e+21 is out of range [0, 10]"
  {
    SmallNumberTexts();
    ExponentNumberText();
  }

  lemma ExponentNumberText()
    ensures NumberText(ExponentFrom as real) == "1e+21"
  {
    assert (ExponentFrom as real).Floor == ExponentFrom;
    ExponentFromText();
  }

  lemma MessageAbove()
    ensures OutOfRange(11.0, 0.0, 10.0) == "Value 11 is out of range [0, 10]"
  {
    SmallNumberTexts();
  }

  lemma SmallNumberTexts()
    ensures NumberText(-1.0) == "-1" && NumberText(0.0) == "0" && NumberText(10.0) == "10" && NumberText(11.0) == "11"
  {
    assert (-1.0).Floor == -1 && (0.0).Floor == 0 && (10.0).Floor == 10 && (11.0).Floor == 11;
    assert NatToString(1) == "1" && NatToString(0) == "0";
    assert NatToString(10) == NatToString(1) + "0";
    assert NatToString(11) == NatToString(1) + "1";
  }

  /** How far `value` lies along `[lo, hi]`: `(value - lo) / (hi - lo)`. */
  function Fraction(value: real, lo: real, hi: real): real
    requires lo != hi
  {
    (value - lo) / (hi - lo)
  }

  /** The point a fraction `t` of the way along `[lo, hi]`: `t * (hi - lo) + lo`. */
  function Lerp(t: real, lo: real, hi: real): real {
    t * (hi - lo) + lo
  }

  /** The ends of the input range map exactly onto the ends of the output range. */
  lemma ScaleEndpoints(inMin: real, inMax: real, outMin: real, outMax: real)
    requires inMin < inMax
    ensures ScaleRange(inMin, inMin, inMax, outMin, outMax) == Ok(Finite(outMin))
    ensures ScaleRange(inMax, inMin, inMax, outMin, outMax) == Ok(Finite(outMax))
  {
    FractionEnds(inMin, inMax);
    LerpEnds(outMin, outMax);
  }

  /** Scaling is monotone and stays inside the output range. */
  lemma ScaleMonotone(v1: real, v2: real, inMin: real, inMax: real, outMin: real, outMax: real)
    requires inMin <= v1 <= v2 <= inMax && inMin < inMax && outMin <= outMax
    ensures var r1 := ScaleRange(v1, inMin, inMax, outMin, outMax);
      var r2 := ScaleRange(v2, inMin, inMax, outMin, outMax);
      r1.Ok? && r2.Ok? && r1.value.Finite? && r2.value.Finite?
      && outMin <= r1.value.r <= r2.value.r <= outMax
  {
    FractionOrder(v1, v2, inMin, inMax);
    LerpOrder(Fraction(v1, inMin, inMax), Fraction(v2, inMin, inMax), outMin, outMax);
  }

  /** Scaling back with the ranges exchanged recovers the value. */
  lemma ScaleInverse(value: real, inMin: real, inMax: real, outMin: real, outMax: real)
    requires inMin <= value <= inMax && inMin < inMax && outMin < outMax
    ensures var r := ScaleRange(value, inMin, inMax, outMin, outMax);
      r.Ok? && r.value.Finite? && ScaleRange(r.value.r, outMin, outMax, inMin, inMax) == Ok(Finite(value))
  {
    ScaleMonotone(value, value, inMin, inMax, outMin, outMax);
    var t := Fraction(value, inMin, inMax);
    FractionOfLerp(t, outMin, outMax);
    LerpOfFraction(value, inMin, inMax);
    assert ScaleRange(Lerp(t, outMin, outMax), outMin, outMax, inMin, inMax) == Ok(Finite(Lerp(t, inMin, inMax)));
  }

  lemma FractionEnds(lo: real, hi: real)
    requires lo != hi
    ensures Fraction(lo, lo, hi) == 0.0 && Fraction(hi, lo, hi) == 1.0
  {
    DivZero(lo - lo, hi - lo);
    DivSelf(hi - lo);
  }

  lemma LerpEnds(lo: real, hi: real)
    ensures Lerp(0.0, lo, hi) == lo && Lerp(1.0, lo, hi) == hi
  {
  }

  /** Ordered values inside `[lo, hi]` give ordered fractions inside `[0, 1]`. */
  lemma FractionOrder(v1: real, v2: real, lo: real, hi: real)
    requires lo <= v1 <= v2 <= hi && lo < hi
    ensures 0.0 <= Fraction(v1, lo, hi) <= Fraction(v2, lo, hi) <= 1.0
  {
    DivZero(0.0, hi - lo);
    DivMono(0.0, v1 - lo, hi - lo);
    DivMono(v1 - lo, v2 - lo, hi - lo);
    DivMono(v2 - lo, hi - lo, hi - lo);
    DivSelf(hi - lo);
  }

  /** Ordered fractions inside `[0, 1]` give ordered points inside `[lo, hi]`. */
  lemma LerpOrder(x: real, y: real, lo: real, hi: real)
    requires 0.0 <= x <= y <= 1.0 && lo <= hi
    ensures lo <= Lerp(x, lo, hi) <= Lerp(y, lo, hi) <= hi
  {
    MulMono(0.0, x, hi - lo);
    MulMono(x, y, hi - lo);
    MulMono(y, 1.0, hi - lo);
  }

  lemma FractionOfLerp(t: real, lo: real, hi: real)
    requires lo != hi
    ensures Fraction(Lerp(t, lo, hi), lo, hi) == t
  {
    assert Lerp(t, lo, hi) - lo == t * (hi - lo);
    MulDiv(t, hi - lo);
  }

  lemma LerpOfFraction(v: real, lo: real, hi: real)
    requires lo != hi
    ensures Lerp(Fraction(v, lo, hi), lo, hi) == v
  {
    DivMul(v - lo, hi - lo);
  }

  lemma DivSelf(d: real)
    requires d != 0.0
    ensures d / d == 1.0
  {
  }

  lemma DivZero(a: real, d: real)
    requires a == 0.0 && d != 0.0
    ensures a / d == 0.0
  {
  }

  lemma MulDiv(a: real, d: real)
    requires d != 0.0
    ensures a * d / d == a
  {
  }

  lemma DivMul(a: real, d: real)
    requires d != 0.0
    ensures a / d * d == a
  {
  }

  lemma DivMono(a: real, b: real, d: real)
    requires a <= b && d > 0.0
    ensures a / d <= b / d
  {
    assert b / d - a / d == (b - a) / d;
  }

  lemma MulMono(a: real, b: real, c: real)
    requires a <= b && c >= 0.0
    ensures a * c <= b * c
  {
    assert b * c - a * c == (b - a) * c;
  }

  // ---------------------------------------------------------------- clamp

  function Min(a: real, b: real): real { if b < a then b else a }
  function MaxReal(a: real, b: real): real { if a < b then b else a }

  /** `clamp`: `max(min, min(max, value))`. */
  function Clamp(value: real, min: real, max: real): real {
    MaxReal(min, Min(max, value))
  }

  lemma ClampProperties(value: real, min: real, max: real)
    ensures min <= max ==> min <= Clamp(value, min, max) <= max
    ensures min <= value <= max ==> Clamp(value, min, max) == value
    ensures Clamp(Clamp(value, min, max), min, max) == Clamp(value, min, max)
    ensures min > max ==> Clamp(value, min, max) == min
  {
  }
}
