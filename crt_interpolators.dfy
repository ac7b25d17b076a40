/**
 * ConsoleRayTracer/Animation/Interpolators.cs: the interpolators of the middle generation.
 * Linear, Accelerate and Decelerate are those of the newest generation (SrcInterpolator).
 * An interpolator is any function from real to real wherever an animation takes one, so
 * FunctionalInterpolator, which applies the function it holds, needs no member of its own.
 */
module CrtInterpolators {
  import opened Numerics

  /** AnticipateInterpolator(Tension): ((T + 1)x - T)x², which first runs backwards. */
  function Anticipate(tension: real, x: real): real {
    ((tension + 1.0) * x - tension) * x * x
  }

  /** OvershootInterpolator(Tension): ((T + 1)(x - 1) + T)(x - 1)² + 1, which runs past the end. */
  function Overshoot(tension: real, x: real): real {
    ((tension + 1.0) * (x - 1.0) + tension) * (x - 1.0) * (x - 1.0) + 1.0
  }

  /** AnticipateOvershootInterpolator(Tension), with the two halves written out as in the source. */
  function AnticipateOvershoot(tension: real, x: real): real {
    if x < 0.5 then 0.5 * (((tension + 1.0) * 2.0 * x - tension) * 4.0 * x * x)
    else 0.5 * (((tension + 1.0) * (2.0 * x - 2.0) + tension) * (4.0 * x * x - 8.0 * x + 4.0)) + 1.0
  }

  /** AcelerateDecelerateInterpolator: cos((x + 1)π) / 2 + 0.5. */
  function AccelerateDecelerate(m: Maths, x: real): real {
    m.cos((x + 1.0) * DoublePi) / 2.0 + 0.5
  }

  /** CycleInterpolator(Cycles): sin(2π·Cycles·x). */
  function Cycle(m: Maths, cycles: real, x: real): real {
    m.sin(2.0 * DoublePi * cycles * x)
  }

  /** Every tension gives interpolators that start at 0 and end at 1. */
  lemma TensionInterpolatorsFixEnds(tension: real)
    ensures Anticipate(tension, 0.0) == 0.0 && Anticipate(tension, 1.0) == 1.0
    ensures Overshoot(tension, 0.0) == 0.0 && Overshoot(tension, 1.0) == 1.0
    ensures AnticipateOvershoot(tension, 0.0) == 0.0 && AnticipateOvershoot(tension, 1.0) == 1.0
  {
  }

  /** Overshoot is Anticipate played backwards and upside down. */
  lemma OvershootMirrorsAnticipate(tension: real, x: real)
    ensures Overshoot(tension, x) == 1.0 - Anticipate(tension, 1.0 - x)
  {
    var u := 1.0 - x;
    assert x - 1.0 == -u;
    assert (x - 1.0) * (x - 1.0) == u * u;
  }

  /**
   * AnticipateOvershoot is Anticipate squeezed into the first half and Overshoot into the
   * second, each at half height; the halves meet at 0.5.
   */
  lemma AnticipateOvershootHalves(tension: real, x: real)
    ensures x < 0.5 ==> AnticipateOvershoot(tension, x) == 0.5 * Anticipate(tension, 2.0 * x)
    ensures x >= 0.5 ==> AnticipateOvershoot(tension, x) == 0.5 * Overshoot(tension, 2.0 * x - 1.0) + 0.5
    ensures AnticipateOvershoot(tension, 0.5) == 0.5 && 0.5 * Anticipate(tension, 1.0) == 0.5
  {
    var y := 2.0 * x - 1.0;
    var a := (tension + 1.0) * (y - 1.0) + tension;
    assert y - 1.0 == 2.0 * x - 2.0;
    assert (y - 1.0) * (y - 1.0) == 4.0 * x * x - 8.0 * x + 4.0;
    assert a * (y - 1.0) * (y - 1.0) == a * ((y - 1.0) * (y - 1.0));
    assert (2.0 * x) * (2.0 * x) == 4.0 * x * x;
  }

  /** With a positive tension Anticipate first moves below 0, and (by the mirror) Overshoot passes 1. */
  lemma AnticipateGoesBack(tension: real, x: real)
    requires tension > 0.0 && 0.0 < x && (tension + 1.0) * x < tension
    ensures Anticipate(tension, x) < 0.0
    ensures Overshoot(tension, 1.0 - x) > 1.0
  {
    NegativeTimesSquare((tension + 1.0) * x - tension, x, Anticipate(tension, x));
    OvershootMirrorsAnticipate(tension, 1.0 - x);
    assert 1.0 - (1.0 - x) == x;
  }

  lemma NegativeTimesSquare(a: real, x: real, p: real)
    requires a < 0.0 && x != 0.0 && p == a * x * x
    ensures p < 0.0
  {
    var q := -p;
    assert q == (-a) * x * x;
    if x > 0.0 {
      PositiveProduct(-a, x);
      PositiveProduct((-a) * x, x);
    } else {
      PositiveProduct(-a, -x);
      PositiveProduct((-a) * (-x), -x);
      assert q == ((-a) * (-x)) * (-x);
    }
  }

  lemma PositiveProduct(u: real, v: real)
    requires u > 0.0 && v > 0.0
    ensures u * v > 0.0
  {
  }

  /** Where cos(π) = -1 and cos(2π) = 1, AccelerateDecelerate runs from 0 to 1. */
  lemma AccelerateDecelerateFixesEnds(m: Maths)
    requires m.cos(DoublePi) == -1.0 && m.cos(2.0 * DoublePi) == 1.0
    ensures AccelerateDecelerate(m, 0.0) == 0.0 && AccelerateDecelerate(m, 1.0) == 1.0
  {
    assert (0.0 + 1.0) * DoublePi == DoublePi;
    assert (1.0 + 1.0) * DoublePi == 2.0 * DoublePi;
  }

  /** Where sin(0) = 0, Cycle starts at 0 whatever the number of cycles. */
  lemma CycleStartsAtZero(m: Maths, cycles: real)
    requires m.sin(0.0) == 0.0
    ensures Cycle(m, cycles, 0.0) == 0.0
  {
    assert 2.0 * DoublePi * cycles * 0.0 == 0.0;
  }
}
