/** src/Animation/Interpolator.cs: interpolators reshape the time fraction of an animation. */
module SrcInterpolator {
  import opened Numerics

  /** LinearInterpolator: the identity. */
  function Linear(x: real): (r: real)
    ensures r == x
  {
    x
  }

  /** AccelerateInterpolator(Factor): x to the power 2 * Factor. */
  function Accelerate(factor: real, m: Maths, x: real): real {
    m.pow(x, 2.0 * factor)
  }

  /** DecelerateInterpolator(Factor): 1 - (1 - x) to the power 2 * Factor. */
  function Decelerate(factor: real, m: Maths, x: real): real {
    1.0 - m.pow(1.0 - x, 2.0 * factor)
  }

  /** With pow fixing 0 and 1 for positive exponents, both power interpolators fix the ends of [0, 1]. */
  lemma PowerInterpolatorsFixEnds(factor: real, m: Maths)
    requires PowFixesEnds(m) && factor > 0.0
    ensures Accelerate(factor, m, 0.0) == 0.0 && Accelerate(factor, m, 1.0) == 1.0
    ensures Decelerate(factor, m, 0.0) == 0.0 && Decelerate(factor, m, 1.0) == 1.0
  {
    assert m.pow(0.0, 2.0 * factor) == 0.0 && m.pow(1.0, 2.0 * factor) == 1.0;
  }

  /** LightsInterpolator: 5x/9 below 0.9, 5x from there on. */
  function Lights(x: real): (r: real)
    ensures x < 0.9 ==> r * 9.0 == x * 5.0
    ensures x >= 0.9 ==> r == x * 5.0
  {
    if x < 0.9 then x * 5.0 / 9.0 else x * 5.0
  }

  /** [0, 0.9) goes to [0, 0.5); at 0.9 the value jumps to 4.5 and at 1 it reaches 5. */
  lemma LightsShape(x: real)
    ensures 0.0 <= x < 0.9 ==> 0.0 <= Lights(x) < 0.5
    ensures Lights(0.9) == 4.5 && Lights(1.0) == 5.0
  {
  }

  /** Each piece is strictly increasing. */
  lemma LightsIncreasing(a: real, b: real)
    requires a < b
    requires b < 0.9 || 0.9 <= a
    ensures Lights(a) < Lights(b)
  {
  }
}
