/**
 * PiperJoystickAxis: conditioning of one analog joystick axis.
 *
 * A 16-bit sample is normalised to [-1, 1), shaped by a cubic curve, cut by
 * a deadband whose edge is shifted so that the output is continuous there,
 * then scaled and truncated toward zero (Python's `int` of a float).
 * Arithmetic is over the reals; IEEE rounding is not modelled.
 */
module JoystickAxis {
  import opened Common

  /** The configuration; `alpha` is derived once, at construction. */
  datatype Axis = Axis(outputScale: real, deadbandCutoff: real, weight: real, alpha: real)

  /** `_Cubic`: a blend of x^3 and x that keeps the centre and both end points fixed. */
  function Cubic(weight: real, x: real): real {
    weight * x * x * x + (1.0 - weight) * x
  }

  /** The constructor: outputScale=20.0, deadbandCutoff=0.1, weight=0.2 by default. */
  function NewAxis(outputScale: real, deadbandCutoff: real, weight: real): (a: Axis)
    ensures a.outputScale == outputScale && a.deadbandCutoff == deadbandCutoff && a.weight == weight
    ensures Derived(a)
  {
    Axis(outputScale, deadbandCutoff, weight, Cubic(weight, deadbandCutoff))
  }

  const DefaultAxis := NewAxis(20.0, 0.1, 0.2)

  /** `alpha` is the cubic at the cutoff, as the constructor set it. */
  predicate Derived(a: Axis) {
    a.alpha == Cubic(a.weight, a.deadbandCutoff)
  }

  /**
   * No 16-bit sample makes `_cubicScaledDeadband` divide by zero: either
   * `1 - alpha` is nonzero, or the cutoff lies beyond every normalised sample.
   */
  predicate SafeConfig(a: Axis) {
    a.alpha != 1.0 || a.deadbandCutoff > 1.0
  }

  /** The configurations the design intends: cutoff in (0, 1), weight in [0, 1]. */
  predicate Intended(a: Axis) {
    Derived(a) && 0.0 < a.deadbandCutoff < 1.0 && 0.0 <= a.weight <= 1.0 && a.outputScale >= 0.0
  }

  /** `copysign(1, x)`; the argument is never the float -0.0 here. */
  function CopySign(x: real): real { if x < 0.0 then -1.0 else 1.0 }

  /** `_cubicScaledDeadband`: zero inside the deadband, the shifted and rescaled cubic outside it. */
  function CubicScaledDeadband(a: Axis, x: real): (v: real)
    requires Abs(x) >= a.deadbandCutoff ==> a.alpha != 1.0
  {
    if Abs(x) < a.deadbandCutoff then 0.0
    else (Cubic(a.weight, x) - CopySign(x) * a.alpha) / (1.0 - a.alpha)
  }

  /** `value / 2**15 - 1`. */
  function Normalize(raw: int): (x: real)
  {
    raw as real / 32768.0 - 1.0
  }

  /** Python's `int()` of a float: truncation toward zero. */
  function Trunc(v: real): (t: int)
    ensures Abs(t as real) <= Abs(v)
    ensures Abs(v) < Abs(t as real) + 1.0
    ensures v >= 0.0 ==> t >= 0
    ensures v <= 0.0 ==> t <= 0
  {
    if v >= 0.0 then v.Floor else -((-v).Floor)
  }

  /**
   * `readJoystickAxis`: for an intended configuration the delta never
   * exceeds the output scale in magnitude and never has the opposite sign to
   * the stick's offset from the centre.
   */
  function ReadJoystickAxis(a: Axis, raw: int): (d: int)
    requires 0 <= raw <= 65535
    requires SafeConfig(a)
    ensures Intended(a) ==> Abs(d as real) <= a.outputScale
    ensures Intended(a) && raw > 32768 ==> d >= 0
    ensures Intended(a) && raw < 32768 ==> d <= 0
  {
    var x := Normalize(raw);
    NormalizeInRange(raw);
    ScaledBounded(a, x);
    Trunc(CubicScaledDeadband(a, x) * a.outputScale)
  }

  // ---------------------------------------------------------------------
  // Properties of the curve

  lemma NormalizeInRange(raw: int)
    requires 0 <= raw <= 65535
    ensures -1.0 <= Normalize(raw) < 1.0
    ensures Normalize(raw) == 0.0 <==> raw == 32768
    ensures Normalize(raw) > 0.0 <==> raw > 32768
  {
  }

  /** The cubic is odd and fixes the end points. */
  lemma CubicOdd(w: real, x: real)
    ensures Cubic(w, -x) == -Cubic(w, x)
    ensures Cubic(w, 1.0) == 1.0 && Cubic(w, -1.0) == -1.0
  {
  }

  /** Inside the deadband the shaped value is zero. */
  lemma DeadbandIsZero(a: Axis, x: real)
    requires Abs(x) < a.deadbandCutoff
    ensures CubicScaledDeadband(a, x) == 0.0
  {
  }

  /** Continuity: at the cutoff itself the shaped value is already zero, so there is no jump. */
  lemma ContinuousAtCutoff(a: Axis)
    requires Derived(a) && a.deadbandCutoff > 0.0 && a.alpha != 1.0
    ensures CubicScaledDeadband(a, a.deadbandCutoff) == 0.0
    ensures CubicScaledDeadband(a, -a.deadbandCutoff) == 0.0
  {
    CubicOdd(a.weight, a.deadbandCutoff);
    ZeroDiv(1.0 - a.alpha);
    assert Abs(a.deadbandCutoff) == a.deadbandCutoff == Abs(-a.deadbandCutoff);
    assert Cubic(a.weight, a.deadbandCutoff) - CopySign(a.deadbandCutoff) * a.alpha == 0.0;
    assert Cubic(a.weight, -a.deadbandCutoff) - CopySign(-a.deadbandCutoff) * a.alpha == 0.0;
  }

  /** Odd symmetry of the shaped value, for a positive cutoff. */
  lemma ShapedOdd(a: Axis, x: real)
    requires a.deadbandCutoff > 0.0
    requires Abs(x) >= a.deadbandCutoff ==> a.alpha != 1.0
    ensures CubicScaledDeadband(a, -x) == -CubicScaledDeadband(a, x)
  {
    CubicOdd(a.weight, x);
    if Abs(x) >= a.deadbandCutoff {
      var n := Cubic(a.weight, x) - CopySign(x) * a.alpha;
      assert Cubic(a.weight, -x) - CopySign(-x) * a.alpha == -n;
      DivNegate(n, 1.0 - a.alpha);
    }
  }

  /** `Cubic(w, _)` is nondecreasing on [0, 1] when 0 <= w <= 1. */
  lemma CubicMonotone(w: real, x: real, y: real)
    requires 0.0 <= w <= 1.0 && 0.0 <= x <= y
    ensures Cubic(w, x) <= Cubic(w, y)
  {
    var s := x * x + x * y + y * y;
    assert s >= 0.0 by {
      assert x * x >= 0.0 && x * y >= 0.0 && y * y >= 0.0;
    }
    assert y * y * y - x * x * x == (y - x) * s;
    assert w * s >= 0.0;
    assert Cubic(w, y) - Cubic(w, x) == (y - x) * (w * s + (1.0 - w));
    assert (y - x) * (w * s + (1.0 - w)) >= 0.0;
  }

  /** With an intended configuration, 0 < alpha < 1. */
  lemma AlphaInUnitInterval(a: Axis)
    requires Intended(a)
    ensures 0.0 < a.alpha < 1.0
  {
    var c, w := a.deadbandCutoff, a.weight;
    var c2 := c * c;
    MulPositive(c, c);
    MulNonNegative(w, c2);
    var f := w * c2 + (1.0 - w);
    assert f > 0.0 by {
      if w == 1.0 {
        assert f == c2;
      } else {
        assert 1.0 - w > 0.0;
      }
    }
    assert a.alpha == c * f;
    MulPositive(c, f);
    // alpha = c - w * c * (1 - c * c), and the subtracted term is non-negative
    assert c2 < 1.0 by {
      MulLess(c, c, 1.0);
    }
    var g := c * (1.0 - c2);
    MulPositive(c, 1.0 - c2);
    MulNonNegative(w, g);
    assert a.alpha == c - w * g;
  }

  // Small facts of real arithmetic that the solver does not find on its own.

  lemma MulNonNegative(x: real, y: real)
    requires x >= 0.0 && y >= 0.0
    ensures x * y >= 0.0
  {
  }

  lemma MulPositive(x: real, y: real)
    requires x > 0.0 && y > 0.0
    ensures x * y > 0.0
  {
  }

  lemma MulLess(x: real, y: real, b: real)
    requires 0.0 <= x < b && 0.0 <= y <= b
    ensures x * y < b * b || y == 0.0
  {
    if y > 0.0 {
      assert x * y < b * y;
      assert b * y <= b * b;
    }
  }

  lemma ZeroDiv(d: real)
    requires d != 0.0
    ensures 0.0 / d == 0.0
  {
  }

  lemma DivNegate(n: real, d: real)
    requires d != 0.0
    ensures (-n) / d == -(n / d)
  {
    var q := n / d;
    assert q * d == n;
    assert (-q) * d == -n;
  }

  lemma DivUnitInterval(n: real, d: real)
    requires 0.0 <= n <= d && d > 0.0
    ensures 0.0 <= n / d <= 1.0
  {
    var q := n / d;
    assert q * d == n;
    if q < 0.0 {
      MulPositive(-q, d);
    }
    if q > 1.0 {
      MulPositive(q - 1.0, d);
    }
  }

  /** Above the cutoff, the shaped value is in [0, 1] once the cubic lies between alpha and 1. */
  lemma ShapedAboveCutoff(a: Axis, x: real)
    requires 0.0 < a.deadbandCutoff <= x && 0.0 < a.alpha < 1.0
    requires a.alpha <= Cubic(a.weight, x) <= 1.0
    ensures 0.0 <= CubicScaledDeadband(a, x) <= 1.0
  {
    DivUnitInterval(Cubic(a.weight, x) - a.alpha, 1.0 - a.alpha);
  }

  /** For a non-negative input in [0, 1] the shaped value is in [0, 1]. */
  lemma ShapedNonNegative(a: Axis, x: real)
    requires Intended(a) && 0.0 <= x <= 1.0
    ensures a.alpha < 1.0
    ensures 0.0 <= CubicScaledDeadband(a, x) <= 1.0
  {
    AlphaInUnitInterval(a);
    if x >= a.deadbandCutoff {
      CubicMonotone(a.weight, a.deadbandCutoff, x);
      CubicMonotone(a.weight, x, 1.0);
      CubicOdd(a.weight, x);
      ShapedAboveCutoff(a, x);
    } else {
      DeadbandIsZero(a, x);
    }
  }

  /** With an intended configuration the shaped value of any x in [-1, 1] is in [-1, 1] and has the sign of x. */
  lemma ShapedBounded(a: Axis, x: real)
    requires Intended(a) && -1.0 <= x <= 1.0
    ensures a.alpha < 1.0
    ensures -1.0 <= CubicScaledDeadband(a, x) <= 1.0
    ensures x >= 0.0 ==> CubicScaledDeadband(a, x) >= 0.0
    ensures x <= 0.0 ==> CubicScaledDeadband(a, x) <= 0.0
  {
    AlphaInUnitInterval(a);
    if x >= 0.0 {
      ShapedNonNegative(a, x);
    } else {
      ShapedNonNegative(a, -x);
      ShapedOdd(a, -x);
      assert CubicScaledDeadband(a, x) == -CubicScaledDeadband(a, -x);
    }
  }

  lemma IntendedIsSafe(a: Axis)
    requires Intended(a)
    ensures SafeConfig(a)
  {
    AlphaInUnitInterval(a);
  }

  /** The scaled and truncated shaped value of any x in [-1, 1] is bounded by the output scale and has the sign of x. */
  lemma ScaledBounded(a: Axis, x: real)
    requires -1.0 <= x <= 1.0
    requires Abs(x) >= a.deadbandCutoff ==> a.alpha != 1.0
    ensures Intended(a) ==> Abs(Trunc(CubicScaledDeadband(a, x) * a.outputScale) as real) <= a.outputScale
    ensures Intended(a) && x > 0.0 ==> Trunc(CubicScaledDeadband(a, x) * a.outputScale) >= 0
    ensures Intended(a) && x < 0.0 ==> Trunc(CubicScaledDeadband(a, x) * a.outputScale) <= 0
  {
    if Intended(a) {
      ShapedBounded(a, x);
      ScaleBounded(CubicScaledDeadband(a, x), a.outputScale);
    }
  }

  /** readJoystickAxis never exceeds the output scale in magnitude and never has the opposite sign to the stick. */
  lemma ReadBounded(a: Axis, raw: int)
    requires Intended(a) && 0 <= raw <= 65535
    ensures SafeConfig(a)
    ensures Abs(ReadJoystickAxis(a, raw) as real) <= a.outputScale
    ensures Normalize(raw) > 0.0 ==> ReadJoystickAxis(a, raw) >= 0
    ensures Normalize(raw) < 0.0 ==> ReadJoystickAxis(a, raw) <= 0
  {
    IntendedIsSafe(a);
  }

  lemma ScaleBounded(s: real, scale: real)
    requires -1.0 <= s <= 1.0 && scale >= 0.0
    ensures Abs(s * scale) <= scale
    ensures s >= 0.0 ==> s * scale >= 0.0
    ensures s <= 0.0 ==> s * scale <= 0.0
  {
    if s >= 0.0 {
      MulNonNegative(s, scale);
      assert s * scale <= 1.0 * scale;
    } else {
      MulNonNegative(-s, scale);
      assert (-s) * scale <= 1.0 * scale;
    }
  }

  /** A sample whose offset from centre is inside the deadband reads as zero. */
  lemma ReadInDeadband(a: Axis, raw: int)
    requires SafeConfig(a) && 0 <= raw <= 65535
    requires Abs((raw - 32768) as real) < a.deadbandCutoff * 32768.0
    ensures ReadJoystickAxis(a, raw) == 0
  {
    var x := Normalize(raw);
    assert x == (raw - 32768) as real / 32768.0;
    assert Abs(x) == Abs((raw - 32768) as real) / 32768.0;
    assert Abs(x) < a.deadbandCutoff;
  }

  lemma TruncOdd(v: real)
    ensures Trunc(-v) == -Trunc(v)
  {
  }

  lemma ReadFrom(a: Axis, raw: int, v: real)
    requires 0 <= raw <= 65535 && SafeConfig(a)
    requires v == CubicScaledDeadband(a, Normalize(raw)) * a.outputScale
    ensures ReadJoystickAxis(a, raw) == Trunc(v)
  {
  }

  /** Samples mirrored about the centre read as opposite values, exactly (truncation is odd too). */
  lemma ReadOdd(a: Axis, hi: int, lo: int)
    requires SafeConfig(a) && a.deadbandCutoff > 0.0
    requires 32768 <= hi <= 65535 && lo == 65536 - hi
    ensures ReadJoystickAxis(a, hi) == -ReadJoystickAxis(a, lo)
  {
    var x := Normalize(hi);
    NormalizeInRange(hi);
    assert Normalize(lo) == -x;
    ShapedOdd(a, x);
    var s := CubicScaledDeadband(a, x);
    assert CubicScaledDeadband(a, Normalize(lo)) == -s;
    assert (-s) * a.outputScale == -(s * a.outputScale);
    TruncOdd(s * a.outputScale);
    ReadFrom(a, hi, s * a.outputScale);
    ReadFrom(a, lo, -(s * a.outputScale));
  }
}
