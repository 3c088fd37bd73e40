/**
 * How the loaded model is turned and sized while no camera flight is under
 * way (script.js `onMouseMove`, `animate`, `applyResponsiveScale`).
 * JavaScript doubles are modelled as reals.
 */
module Orientation {

  /** `Math.PI` written out to the precision of a JavaScript double. */
  const Pi: real := 3.141592653589793

  /** Largest turn of the model either way, in radians (`MAX_ROT`). */
  const MaxRot: real := Pi * 0.35

  /** Share of the remaining gap closed on each animation frame. */
  const Smoothing: real := 0.05

  /** Scale of the model on a wide viewport (`BASE_MODEL_SCALE`). */
  const BaseModelScale: real := 0.8

  /** Widest viewport, in CSS pixels, that counts as mobile (`max-width: 1000px`). */
  const MobileMaxWidth: real := 1000.0

  predicate InRange(angle: real) {
    -MaxRot <= angle <= MaxRot
  }

  /**
   * The turn asked for by a pointer at `clientX` in a window `innerWidth`
   * wide: `(clientX / innerWidth * 2 - 1) * MAX_ROT`.
   */
  function TargetRotation(clientX: real, innerWidth: real): (r: real)
    requires innerWidth > 0.0
    ensures 0.0 <= clientX <= innerWidth ==> InRange(r)
    ensures r < 0.0 <==> 2.0 * clientX < innerWidth
    ensures r == 0.0 <==> 2.0 * clientX == innerWidth
    ensures clientX == 0.0 ==> r == -MaxRot
    ensures clientX == innerWidth ==> r == MaxRot
  {
    var x := clientX / innerWidth;
    QuotientOrder(clientX, innerWidth, 0.0);
    QuotientOrder(clientX, innerWidth, 0.5);
    QuotientOrder(clientX, innerWidth, 1.0);
    (x * 2.0 - 1.0) * MaxRot
  }

  /** Comparing a quotient with a constant is comparing the dividend with a multiple of the divisor. */
  lemma QuotientOrder(a: real, w: real, c: real)
    requires w > 0.0
    ensures a / w < c <==> a < c * w
    ensures a / w == c <==> a == c * w
  {
    var x := a / w;
    assert x * w == a;
    assert (c - x) * w == c * w - a;
    if x < c {
      assert (c - x) * w > 0.0;
    } else if x > c {
      assert (x - c) * w > 0.0;
    }
  }

  /** One frame of smoothing: `current += (target - current) * 0.05`. */
  function Smooth(current: real, target: real): (r: real)
    ensures target - r == (1.0 - Smoothing) * (target - current)
    ensures current <= target ==> current <= r <= target
    ensures target <= current ==> target <= r <= current
    ensures current != target ==> r != current && r != target
    ensures InRange(current) && InRange(target) ==> InRange(r)
  {
    current + (target - current) * Smoothing
  }

  /** Where the smoothed angle stands after `frames` frames towards a fixed target. */
  function SmoothFrames(current: real, target: real, frames: nat): real
    decreases frames
  {
    if frames == 0 then current else SmoothFrames(Smooth(current, target), target, frames - 1)
  }

  function Power(x: real, n: nat): real {
    if n == 0 then 1.0 else x * Power(x, n - 1)
  }

  /** After `frames` frames the gap to a fixed target is 0.95^frames of what it was. */
  lemma {:induction false} SmoothFramesGap(current: real, target: real, frames: nat)
    ensures target - SmoothFrames(current, target, frames)
            == Power(1.0 - Smoothing, frames) * (target - current)
    decreases frames
  {
    if frames > 0 {
      var next := Smooth(current, target);
      SmoothFramesGap(next, target, frames - 1);
      var p := Power(1.0 - Smoothing, frames - 1);
      assert target - next == 0.95 * (target - current);
      assert p * (0.95 * (target - current)) == (0.95 * p) * (target - current);
    }
  }

  /** Smoothing towards an in-range target keeps an in-range angle in range, frame after frame. */
  lemma {:induction false} SmoothFramesInRange(current: real, target: real, frames: nat)
    requires InRange(current) && InRange(target)
    ensures InRange(SmoothFrames(current, target, frames))
    decreases frames
  {
    if frames > 0 {
      SmoothFramesInRange(Smooth(current, target), target, frames - 1);
    }
  }

  /** `applyResponsiveScale`: half the base scale on a mobile-width viewport. */
  function ResponsiveScale(viewportWidth: real): (s: real)
    ensures s == 0.4 || s == 0.8
    ensures s == 0.4 <==> viewportWidth <= MobileMaxWidth
  {
    if viewportWidth <= MobileMaxWidth then BaseModelScale * 0.5 else BaseModelScale
  }

  /** Crossing the breakpoint changes the scale by exactly a factor of two, never the other way. */
  lemma ResponsiveScaleStep(narrow: real, wide: real)
    requires narrow <= wide
    ensures ResponsiveScale(narrow) <= ResponsiveScale(wide)
    ensures narrow <= MobileMaxWidth < wide ==> 2.0 * ResponsiveScale(narrow) == ResponsiveScale(wide)
  {
  }
}
