/** The second set of validators, `src/schemas/zod.ts`. The boolean and page validators are the
 *  same as in `Schemas`. The bound refinements of the integer and float validators are built
 *  with `pipe` and thrown away, so those validators ignore their bounds, and the gamma validator
 *  rejects out-of-range input only because `scaleRange` throws inside its transform. */
module ZodSchemas {
  import opened Wrappers
  import opened JsNumber
  import opened Schemas
  import Motion

  /** `createIntegerSchema(min, max)`: the bounds have no effect. */
  function IntegerSchema(min: Option<real>, max: Option<real>, v: JsValue): Parsed<int> {
    Schemas.IntegerSchema(None, None, v)
  }

  /** `createFloatSchema(min, max)`: the bounds have no effect. */
  function FloatSchema(min: Option<real>, max: Option<real>, v: JsValue): Parsed<real> {
    Schemas.FloatSchema(None, None, v)
  }

  /** `createGammaSchema`: any number reaches the `scaleRange` transform. */
  function GammaSchema(v: JsValue): Parsed<JsNum> {
    ScaleGamma(FloatSchema(Some(GammaMin), Some(GammaMax), v))
  }

  /** Whatever the strict integer validator accepts, this one accepts with the same value; and
   *  this one accepts every integer, however far outside the bounds. */
  lemma IntegerBoundsIgnored(min: Option<real>, max: Option<real>, v: JsValue)
    ensures Schemas.IntegerSchema(min, max, v).Success? ==> IntegerSchema(min, max, v) == Schemas.IntegerSchema(min, max, v)
    ensures IntegerSchema(min, max, v).Success? <==> IsInteger(CoerceNumber(v))
  {
    IntegerSchemaExact(min, max, v);
    IntegerSchemaExact(None, None, v);
  }

  /** A concrete disagreement: with a minimum of 10, the strict validator rejects 5 and this one
   *  accepts it. */
  lemma MinimumNotEnforced()
    ensures Schemas.IntegerSchema(Some(10.0), None, Num(Finite(5.0))) == Failure([TooSmall(10.0)])
    ensures IntegerSchema(Some(10.0), None, Num(Finite(5.0))) == Success(5)
  {
  }

  /** The float validator accepts every number, whatever its bounds. */
  lemma FloatBoundsIgnored(min: Option<real>, max: Option<real>, v: JsValue)
    ensures FloatSchema(min, max, v).Success? <==> CoerceNumber(v).Finite?
  {
    FloatSchemaExact(None, None, v);
  }

  /** Both gamma validators accept exactly the same inputs with the same value; they differ only
   *  in how a rejection is reported (validation issues here, an exception there). */
  lemma GammaAgrees(v: JsValue)
    ensures GammaSchema(v).Success? <==> Schemas.GammaSchema(v).Success?
    ensures GammaSchema(v).Success? ==> GammaSchema(v) == Schemas.GammaSchema(v)
    ensures CoerceNumber(v).Finite? && !Schemas.GammaSchema(v).Success? ==> GammaSchema(v) == Thrown(Motion.OutOfRange(CoerceNumber(v).r, 0.1, 9.9))
  {
    GammaSchemaExact(v);
    FloatSchemaExact(None, None, v);
  }
}
