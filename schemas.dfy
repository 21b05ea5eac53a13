/** The property validators of `src/schemas.ts`, with the parts of the validation library they
 *  rely on written out: a number is coerced with `Number(...)`, a NaN is a type error that stops
 *  validation, every failed refinement adds an issue, and a transform runs only on input without
 *  issues. */
module Schemas {
  import opened Wrappers
  import opened JsString
  import opened JsNumber
  import Motion

  /** A property value as the validators receive it; an absent property is `undefined`. */
  datatype JsValue = Str(s: string) | Bool(b: bool) | Num(n: JsNum) | Undefined

  /** The issues a validator reports. `NotInteger` is "Value must be an integer", `TooSmall(m)`
   *  "Value must be greater than or equal to m", `TooBig(m)` "Value must be less than or equal
   *  to m"; the others are the library's own type, enum, union and unknown-key issues. */
  datatype Issue =
    | InvalidType
    | InvalidEnum
    | InvalidUnion
    | NotInteger
    | TooSmall(min: real)
    | TooBig(max: real)
    | UnrecognizedKeys(keys: set<string>)

  /** The result of `parse`: a value, a validation error listing its issues, or an exception
   *  thrown by a transform. */
  datatype Parsed<T> = Success(value: T) | Failure(issues: seq<Issue>) | Thrown(message: string)

  /** `z.coerce.number()` applies `Number(...)` first. */
  function CoerceNumber(v: JsValue): JsNum {
    match v
    case Str(s) => ToNumber(s)
    case Bool(b) => Finite(if b then 1.0 else 0.0)
    case Num(n) => n
    case Undefined => NaN
  }

  /** The optional lower and upper bound refinements. */
  function BoundIssues(r: real, min: Option<real>, max: Option<real>): seq<Issue> {
    (if min.Some? && !(r >= min.value) then [TooSmall(min.value)] else [])
      + (if max.Some? && !(r <= max.value) then [TooBig(max.value)] else [])
  }

  /** `createBooleanSchema`: the strings `'true'` and `'false'`, or a boolean. Both options of
   *  the union reject anything else outright, so the union reports its own issue. */
  function BooleanSchema(v: JsValue): Parsed<bool> {
    match v
    case Bool(b) => Success(b)
    case Str(s) => if s == "true" then Success(true) else if s == "false" then Success(false) else Failure([InvalidUnion])
    case _ => Failure([InvalidUnion])
  }

  /** `createIntegerSchema(min, max)`. A NaN fails the number type before any refinement, so the
   *  "Value must be a number" refinement never fires; that type issue is the only one that
   *  aborts the parse, the refinements' issues leave it merely failed. */
  function IntegerSchema(min: Option<real>, max: Option<real>, v: JsValue): Parsed<int> {
    match CoerceNumber(v)
    case NaN => Failure([InvalidType])
    case Finite(r) =>
      var issues := (if r != r.Floor as real then [NotInteger] else []) + BoundIssues(r, min, max);
      if issues == [] then Success(r.Floor) else Failure(issues)
  }

  /** `createFloatSchema(min, max)`. */
  function FloatSchema(min: Option<real>, max: Option<real>, v: JsValue): Parsed<real> {
    match CoerceNumber(v)
    case NaN => Failure([InvalidType])
    case Finite(r) =>
      var issues := BoundIssues(r, min, max);
      if issues == [] then Success(r) else Failure(issues)
  }

  const GammaMin: real := 0.1
  const GammaMax: real := 9.9

  /** Maps a validated gamma onto the 0..255 range; `scaleRange` throws out of range. */
  function ScaleGamma(p: Parsed<real>): Parsed<JsNum> {
    match p
    case Success(g) =>
      (match Motion.ScaleRange(g, GammaMin, GammaMax, 0.0, 255.0)
       case Ok(n) => Success(n)
       case Err(m) => Thrown(m))
    case Failure(issues) => Failure(issues)
    case Thrown(m) => Thrown(m)
  }

  /** `createGammaSchema`: a float within `[0.1, 9.9]`, transformed onto `[0, 255]`. */
  function GammaSchema(v: JsValue): Parsed<JsNum> {
    ScaleGamma(FloatSchema(Some(GammaMin), Some(GammaMax), v))
  }

  /** `createPageSchema`: exactly `'fore'` or `'back'`; a value that is not a string is a type
   *  issue. */
  function PageSchema(v: JsValue): Parsed<string> {
    if v == Str("fore") || v == Str("back") then Success(v.s)
    else if v.Str? then Failure([InvalidEnum])
    else Failure([InvalidType])
  }

  // ---------------------------------------------------------------- properties

  /** The text a boolean is written as. */
  function BoolText(b: bool): string { if b then "true" else "false" }

  /** The boolean schema accepts exactly the two words and the booleans, and reads each back. */
  lemma BooleanSchemaExact(v: JsValue)
    ensures BooleanSchema(v).Success? <==> v.Bool? || v == Str("true") || v == Str("false")
    ensures BooleanSchema(v).Success? ==> BooleanSchema(v).value == (v == Bool(true) || v == Str("true"))
    ensures !BooleanSchema(v).Thrown?
  {
  }

  /** Writing a boolean and validating it gives it back. */
  lemma BooleanRoundTrip(b: bool)
    ensures BooleanSchema(Str(BoolText(b))) == Success(b)
    ensures BooleanSchema(Bool(b)) == Success(b)
  {
  }

  /** The integer schema accepts exactly the integers within the bounds (inclusive). */
  lemma IntegerSchemaExact(min: Option<real>, max: Option<real>, v: JsValue)
    ensures IntegerSchema(min, max, v).Success? <==>
      (IsInteger(CoerceNumber(v)) && (min.Some? ==> CoerceNumber(v).r >= min.value)
        && (max.Some? ==> CoerceNumber(v).r <= max.value))
    ensures IntegerSchema(min, max, v).Success? ==> IntegerSchema(min, max, v).value as real == CoerceNumber(v).r
    ensures !IntegerSchema(min, max, v).Thrown?
  {
  }

  /** Decimal text of any integer validates to that integer. */
  lemma IntegerOfText(i: int)
    ensures IntegerSchema(None, None, Str(Motion.IntText(i))) == Success(i)
  {
    Motion.IntTextNumber(i);
    assert CoerceNumber(Str(Motion.IntText(i))) == Finite(i as real);
  }

  /** `'5.5'` is not an integer and `'abc'` is not a number. */
  lemma IntegerRejects()
    ensures IntegerSchema(None, None, Str("5.5")) == Failure([NotInteger])
    ensures IntegerSchema(None, None, Str("abc")) == Failure([InvalidType])
  {
    FractionRejected();
    WordRejected();
  }

  lemma FractionRejected()
    ensures IntegerSchema(None, None, Str("5.5")) == Failure([NotInteger])
  {
    FractionExample();
  }

  lemma WordRejected()
    ensures IntegerSchema(None, None, Str("abc")) == Failure([InvalidType])
  {
    assert IsAsciiLetter("abc"[0]);
    LetterIsNaN("abc", 0);
  }

  /** Every failed refinement is reported, not only the first: 5.5 against a minimum of 10 is
   *  both a fraction and too small. */
  lemma IssuesAccumulate()
    ensures IntegerSchema(Some(10.0), None, Num(Finite(5.5))) == Failure([NotInteger, TooSmall(10.0)])
  {
    assert (5.5).Floor == 5;
  }

  /** The float schema accepts exactly the numbers within the bounds, and returns them. */
  lemma FloatSchemaExact(min: Option<real>, max: Option<real>, v: JsValue)
    ensures FloatSchema(min, max, v).Success? <==>
      (CoerceNumber(v).Finite? && (min.Some? ==> CoerceNumber(v).r >= min.value)
        && (max.Some? ==> CoerceNumber(v).r <= max.value))
    ensures FloatSchema(min, max, v).Success? ==> FloatSchema(min, max, v).value == CoerceNumber(v).r
  {
  }

  /** The gamma schema accepts exactly the numbers in `[0.1, 9.9]`, never throws, and maps
   *  them linearly onto `[0, 255]`. */
  lemma GammaSchemaExact(v: JsValue)
    ensures GammaSchema(v).Success? <==> CoerceNumber(v).Finite? && GammaMin <= CoerceNumber(v).r <= GammaMax
    ensures GammaSchema(v).Success? ==>
      GammaSchema(v) == Success(Finite((CoerceNumber(v).r - GammaMin) / (GammaMax - GammaMin) * 255.0))
    ensures !GammaSchema(v).Thrown?
  {
  }

  /** The ends of the gamma range map onto 0 and 255; 0 and 10 are rejected. */
  lemma GammaEndpoints()
    ensures GammaSchema(Num(Finite(GammaMin))) == Success(Finite(0.0))
    ensures GammaSchema(Num(Finite(GammaMax))) == Success(Finite(255.0))
    ensures GammaSchema(Num(Finite(0.0))).Failure? && GammaSchema(Num(Finite(10.0))).Failure?
  {
    Motion.ScaleEndpoints(GammaMin, GammaMax, 0.0, 255.0);
  }

  /** The page schema accepts exactly the two page names. */
  lemma PageSchemaExact(v: JsValue)
    ensures PageSchema(v).Success? <==> v == Str("fore") || v == Str("back")
    ensures PageSchema(v).Success? ==> Str(PageSchema(v).value) == v
  {
  }
}
