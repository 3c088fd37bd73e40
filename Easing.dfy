/**
 * The time arithmetic shared by the two camera flights (script.js, the two
 * `step` closures): the elapsed fraction of the flight and the quadratic
 * ease-in-out curve applied to it. JavaScript doubles are modelled as reals.
 */
module Easing {

  /** Length of the fly-in towards a screen, in milliseconds. */
  const ZoomInDuration: real := 1000.0

  /** Length of the fly-back to the saved pose, in milliseconds. */
  const ZoomOutDuration: real := 800.0

  /**
   * `Math.min((now - start) / duration, 1)`. Only the upper end is clamped:
   * a frame stamped before the flight started yields a negative fraction.
   */
  function Fraction(now: real, start: real, duration: real): (t: real)
    requires duration > 0.0
    ensures t <= 1.0
    ensures t < 1.0 <==> now - start < duration
    ensures now < start ==> t < 0.0
    ensures start <= now ==> 0.0 <= t
    ensures start <= now <= start + duration ==> t * duration == now - start
  {
    var x := (now - start) / duration;
    if x < 1.0 then x else 1.0
  }

  /** The quadratic ease-in-out curve `t < 0.5 ? 2t² : -1 + (4 - 2t)t`. */
  function Ease(t: real): (e: real)
    ensures t == 0.0 ==> e == 0.0
    ensures t == 1.0 ==> e == 1.0
    // the two branches meet at the switch point: the lower one also gives 0.5 there
    ensures t == 0.5 ==> e == 0.5 && 2.0 * (t * t) == 0.5
  {
    if t < 0.5 then 2.0 * (t * t) else -1.0 + (4.0 - 2.0 * t) * t
  }

  /** On [0, 1] the curve stays in [0, 1]; its lower half maps below 0.5, its upper half above. */
  lemma EaseBounds(t: real)
    requires 0.0 <= t <= 1.0
    ensures 0.0 <= Ease(t) <= 1.0
    ensures t < 0.5 <==> Ease(t) < 0.5
  {
    if t < 0.5 {
      ScaleLe(t, 0.5, t);
      ScaleLe(0.0, t, t);
      assert Ease(t) == 2.0 * (t * t);
    } else {
      EaseUpperBranch(t);
      var u := 1.0 - t;
      ScaleLe(u, 0.5, u);
      ScaleLe(0.0, u, u);
      assert 0.0 <= u * u <= 0.25;
      assert Ease(t) == 1.0 - 2.0 * (u * u);
    }
  }

  /** Multiplying by a non-negative factor keeps an inequality. */
  lemma ScaleLe(a: real, b: real, c: real)
    requires 0.0 <= c && a <= b
    ensures c * a <= c * b
  {
  }

  /** The upper branch is the lower one mirrored: `1 - 2(1 - t)²`. */
  lemma EaseUpperBranch(t: real)
    requires 0.5 <= t
    ensures -1.0 + (4.0 - 2.0 * t) * t == 1.0 - 2.0 * (1.0 - t) * (1.0 - t)
  {
    assert (1.0 - t) * (1.0 - t) == 1.0 - 2.0 * t + t * t;
  }

  /** The curve is point-symmetric about (0.5, 0.5): it eases out as it eased in. */
  lemma EaseSymmetric(t: real)
    ensures Ease(1.0 - t) == 1.0 - Ease(t)
  {
    if t < 0.5 {
      EaseUpperBranch(1.0 - t);
      assert (1.0 - (1.0 - t)) * (1.0 - (1.0 - t)) == t * t;
    } else if t > 0.5 {
      EaseUpperBranch(t);
    }
  }

  /** Squaring is monotone on the non-negative reals. */
  lemma SquareLe(a: real, b: real)
    requires 0.0 <= a <= b
    ensures a * a <= b * b
  {
    ScaleLe(a, b, a);
    ScaleLe(a, b, b);
    assert a * b == b * a;
  }

  /**
   * On [0, 1] the curve never goes backwards: once frames have t in [0, 1],
   * a later frame never moves the camera back along its path.
   */
  lemma EaseMonotone(s: real, t: real)
    requires 0.0 <= s <= t <= 1.0
    ensures Ease(s) <= Ease(t)
  {
    if t < 0.5 {
      SquareLe(s, t);
    } else if s >= 0.5 {
      EaseUpperBranch(s);
      EaseUpperBranch(t);
      SquareLe(1.0 - t, 1.0 - s);
    } else {
      EaseBounds(s);
      EaseBounds(t);
    }
  }

  /**
   * The curve is continuous at the switch point: on [0, 1] it stays within
   * twice the distance of t from 0.5 of the value 0.5, on both branches.
   */
  lemma EaseContinuousAtHalf(t: real)
    requires 0.0 <= t <= 1.0
    ensures t < 0.5 ==> 0.0 <= 0.5 - Ease(t) <= 2.0 * (0.5 - t)
    ensures 0.5 <= t ==> 0.0 <= Ease(t) - 0.5 <= 2.0 * (t - 0.5)
  {
    if t < 0.5 {
      // 0.5 - 2t² == 2(0.5 - t)(0.5 + t), and 0.5 + t lies in [0.5, 1]
      GapFactors(0.5 - t, 0.5 + t, 0.5 - Ease(t));
    } else {
      // -1.5 + 4t - 2t² == 2(t - 0.5)(1.5 - t), and 1.5 - t lies in [0.5, 1]
      GapFactors(t - 0.5, 1.5 - t, Ease(t) - 0.5);
    }
  }

  /** A gap that factors as 2g times a factor in [0, 1] lies between 0 and 2g. */
  lemma GapFactors(g: real, d: real, gap: real)
    requires 0.0 <= g && 0.0 <= d <= 1.0 && gap == 2.0 * g * d
    ensures 0.0 <= gap <= 2.0 * g
  {
    ShrinkBy(2.0 * g, d);
  }

  /** Multiplying a non-negative number by a factor in [0, 1] does not enlarge it. */
  lemma ShrinkBy(c: real, d: real)
    requires 0.0 <= c && 0.0 <= d <= 1.0
    ensures 0.0 <= c * d <= c
  {
    ScaleLe(d, 1.0, c);
  }
}
