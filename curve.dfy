/** The curve combinator: `MinMaxCurve` picks a constant, one curve, or a
    blend of a min and a max curve by a caller-supplied lerp factor. The
    keyframe `Curve` itself is still a stub that evaluates to zero. */
module Curve {

  /** `Curve` has no fields: keyframes are not stored yet. */
  datatype Curve = Curve

  datatype MinMaxCurve =
    | Constant(value: real)
    | Single(curve: Curve)
    | RangeCurve(min: Curve, max: Curve)

  /** `Curve::evaluate`: the stub ignores its input. */
  function EvaluateCurve(c: Curve, time: real): real
  {
    0.0
  }

  /** `MinMaxCurve::evaluate(time, lerp_factor)`, with the range blend
      written as `curve.rs` writes it: `(f * (max - min)) + min`. */
  function Evaluate(m: MinMaxCurve, time: real, lerpFactor: real): real
  {
    match m
    case Constant(v) => v
    case Single(c) => EvaluateCurve(c, time)
    case RangeCurve(lo, hi) =>
      var a := EvaluateCurve(lo, time);
      var b := EvaluateCurve(hi, time);
      (lerpFactor * (b - a)) + a
  }

  /** Linear interpolation as a weighted mean: the reference the range
      blend is compared with. */
  function Lerp(a: real, b: real, f: real): (r: real)
    ensures f == 0.0 ==> r == a
    ensures f == 1.0 ==> r == b
  {
    (1.0 - f) * a + f * b
  }

  /** With a factor in [0, 1] the blend stays between its two ends. */
  lemma LerpBetween(a: real, b: real, f: real)
    requires 0.0 <= f <= 1.0 && a <= b
    ensures a <= Lerp(a, b, f) <= b
  {
    assert Lerp(a, b, f) - a == f * (b - a);
    assert b - Lerp(a, b, f) == (1.0 - f) * (b - a);
    assert f * (b - a) >= 0.0 by {
      MulNonNegative(f, b - a);
    }
    assert (1.0 - f) * (b - a) >= 0.0 by {
      MulNonNegative(1.0 - f, b - a);
    }
  }

  lemma MulNonNegative(x: real, y: real)
    requires x >= 0.0 && y >= 0.0
    ensures x * y >= 0.0
  {
  }

  /** A constant curve yields its value whatever the time and factor. */
  lemma ConstantIgnoresInputs(v: real, time: real, f: real)
    ensures Evaluate(Constant(v), time, f) == v
  {
  }

  /** The single-curve variant is the curve's own value; the factor is not used. */
  lemma SingleIgnoresFactor(c: Curve, time: real, f1: real, f2: real)
    ensures Evaluate(Single(c), time, f1) == EvaluateCurve(c, time)
    ensures Evaluate(Single(c), time, f1) == Evaluate(Single(c), time, f2)
  {
  }

  /** The range variant is the weighted mean of the two curves' values, so
      factor 0 gives the min curve and factor 1 the max curve. */
  lemma RangeCurveIsLerp(lo: Curve, hi: Curve, time: real, f: real)
    ensures Evaluate(RangeCurve(lo, hi), time, f)
         == Lerp(EvaluateCurve(lo, time), EvaluateCurve(hi, time), f)
    ensures Evaluate(RangeCurve(lo, hi), time, 0.0) == EvaluateCurve(lo, time)
    ensures Evaluate(RangeCurve(lo, hi), time, 1.0) == EvaluateCurve(hi, time)
  {
    var a, b := EvaluateCurve(lo, time), EvaluateCurve(hi, time);
    assert f * (b - a) + a == (1.0 - f) * a + f * b;
  }

  /** With a factor in [0, 1] a range curve stays between the values of its
      min and max curves. */
  lemma RangeCurveBetween(lo: Curve, hi: Curve, time: real, f: real)
    requires 0.0 <= f <= 1.0 && EvaluateCurve(lo, time) <= EvaluateCurve(hi, time)
    ensures EvaluateCurve(lo, time) <= Evaluate(RangeCurve(lo, hi), time, f) <= EvaluateCurve(hi, time)
  {
    RangeCurveIsLerp(lo, hi, time, f);
    LerpBetween(EvaluateCurve(lo, time), EvaluateCurve(hi, time), f);
  }

  /** Because `Curve::evaluate` is a stub, every variant but `Constant`
      evaluates to zero. */
  lemma StubCurvesEvaluateToZero(m: MinMaxCurve, time: real, f: real)
    requires !m.Constant?
    ensures Evaluate(m, time, f) == 0.0
  {
  }
}
