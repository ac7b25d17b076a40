/**
 * System.Numerics.Vector3 and the scalar helpers of System.Math / float that the ray
 * tracer uses, over mathematical reals. Float rounding, NaN and infinities are not
 * modelled. Transcendental functions (square root, sine, cosine, power, vector
 * normalisation) are not computed: they arrive as a `Maths` record of function values,
 * about which only the axioms a proof needs are assumed, as explicit preconditions.
 */
module Numerics {

  datatype Vec3 = Vec3(x: real, y: real, z: real)

  const Zero: Vec3 := Vec3(0.0, 0.0, 0.0)
  const UnitX: Vec3 := Vec3(1.0, 0.0, 0.0)
  const UnitY: Vec3 := Vec3(0.0, 1.0, 0.0)
  const UnitZ: Vec3 := Vec3(0.0, 0.0, 1.0)

  /** The largest finite float, used where the source searches up to float.MaxValue or +infinity. */
  const FloatMax: real := 340282346638528859811704183484516925440.0

  /** Math.PI and float.Pi (as the decimal literals of their values). */
  const DoublePi: real := 3.141592653589793
  const FloatPi: real := 3.1415927
  /** float.Tau. */
  const FloatTau: real := 6.2831855

  function Add(a: Vec3, b: Vec3): Vec3 { Vec3(a.x + b.x, a.y + b.y, a.z + b.z) }
  function Sub(a: Vec3, b: Vec3): Vec3 { Vec3(a.x - b.x, a.y - b.y, a.z - b.z) }
  function Neg(a: Vec3): Vec3 { Vec3(-a.x, -a.y, -a.z) }
  /** `a * s` for a vector and a scalar. */
  function Scale(a: Vec3, s: real): Vec3 { Vec3(a.x * s, a.y * s, a.z * s) }
  /** `a * b` componentwise. */
  function Mul(a: Vec3, b: Vec3): Vec3 { Vec3(a.x * b.x, a.y * b.y, a.z * b.z) }
  function Dot(a: Vec3, b: Vec3): real { a.x * b.x + a.y * b.y + a.z * b.z }
  function Cross(a: Vec3, b: Vec3): Vec3 {
    Vec3(a.y * b.z - a.z * b.y, a.z * b.x - a.x * b.z, a.x * b.y - a.y * b.x)
  }
  /** Vector3.Reflect(d, n) = d - 2 (d . n) n. */
  function Reflect(d: Vec3, n: Vec3): Vec3 { Sub(d, Scale(n, 2.0 * Dot(d, n))) }

  /** The vector indexer `v[i]`. */
  function At(v: Vec3, i: int): real
    requires 0 <= i < 3
  {
    if i == 0 then v.x else if i == 1 then v.y else v.z
  }

  /** Writing component `i` of a vector. */
  function WithAt(v: Vec3, i: int, value: real): Vec3
    requires 0 <= i < 3
  {
    if i == 0 then v.(x := value) else if i == 1 then v.(y := value) else v.(z := value)
  }

  // ---------------------------------------------------------------- scalars

  function Abs(x: real): real { if x < 0.0 then -x else x }

  /** float.Max / Math.Max. */
  function Max(a: real, b: real): real { if a > b then a else b }

  function Min(a: real, b: real): real { if a < b then a else b }

  /** Math.Clamp / float.Clamp (both throw when min > max). */
  function Clamp(value: real, min: real, max: real): (r: real)
    requires min <= max
    ensures min <= r <= max
    ensures min <= value <= max ==> r == value
    ensures value <= min ==> r == min
    ensures value >= max ==> r == max
  {
    if value < min then min else if value > max then max else value
  }

  /** Math.Sign / float.Sign. */
  function Sign(x: real): int { if x > 0.0 then 1 else if x < 0.0 then -1 else 0 }

  /** Truncation toward zero, as a cast from float to int does. */
  function Trunc(x: real): int { if x >= 0.0 then x.Floor else -((-x).Floor) }

  /** The C# remainder `x % y` on floats: the sign follows the dividend. */
  function Rem(x: real, y: real): real
    requires y != 0.0
  {
    x - y * (Trunc(x / y) as real)
  }

  /** Math.CopySign(x, y): the magnitude of x with the sign of y. */
  function CopySign(x: real, y: real): real { if y < 0.0 then -Abs(x) else Abs(x) }

  /** The C# integer division, which truncates toward zero. */
  function IntDiv(a: int, b: int): int
    requires b != 0
  {
    if (a >= 0) == (b > 0) then Abs'(a) / Abs'(b) else -(Abs'(a) / Abs'(b))
  }

  function Abs'(a: int): nat { if a < 0 then -a else a }

  /** float.Round: to the nearest integer, ties to the even neighbour. */
  function RoundHalfEven(x: real): int {
    var f := x.Floor;
    var frac := x - f as real;
    if frac < 0.5 then f
    else if frac > 0.5 then f + 1
    else if f % 2 == 0 then f else f + 1
  }

  /** n whole copies of d. */
  function Times(n: int, d: real): real { (n as real) * d }

  // ---------------------------------------------------------------- lemmas

  /** Scaling by a sum is the sum of the two scalings. */
  lemma ScaleDistributes(v: Vec3, a: real, b: real)
    ensures Scale(v, a + b) == Add(Scale(v, a), Scale(v, b))
  {
    assert v.x * (a + b) == v.x * a + v.x * b;
    assert v.y * (a + b) == v.y * a + v.y * b;
    assert v.z * (a + b) == v.z * a + v.z * b;
  }

  /** A quotient of 0 <= s <= d by a positive d lies in [0, 1]. */
  lemma FractionInUnit(s: real, d: real)
    requires 0.0 <= s <= d && d > 0.0
    ensures 0.0 <= s / d <= 1.0
  {
    var x := s / d;
    assert x * d == s;
  }

  lemma RemBounds(x: real, y: real)
    requires y != 0.0
    ensures Abs(Rem(x, y)) < Abs(y)
    ensures x >= 0.0 ==> Rem(x, y) >= 0.0
    ensures x <= 0.0 ==> Rem(x, y) <= 0.0
  {
    var q := x / y;
    var f := q - (Trunc(q) as real);
    TruncFraction(q);
    assert x == y * q;
    assert Rem(x, y) == y * f;
    ProductBounds(y, f);
    if x >= 0.0 {
      if y > 0.0 { assert q >= 0.0; } else { assert q <= 0.0; }
    }
    if x <= 0.0 {
      if y > 0.0 { assert q <= 0.0; } else { assert q >= 0.0; }
    }
  }

  /** A non-negative dividend one larger leaves the same remainder by 1. */
  lemma RemStepOne(q: real)
    requires q >= 0.0
    ensures Rem(q + 1.0, 1.0) == Rem(q, 1.0)
  {
    assert (q + 1.0).Floor == q.Floor + 1;
  }

  /** The remainder of a negated dividend is the negated remainder. */
  lemma RemNegate(x: real, y: real)
    requires y != 0.0
    ensures Rem(-x, y) == -Rem(x, y)
  {
    var q := x / y;
    assert (-x) / y == -q by { assert q * y == x; assert (-q) * y == -x; }
    var n := Trunc(q);
    if q > 0.0 { assert Trunc(-q) == -n; }
    else if q < 0.0 { assert Trunc(-q) == -n; }
    else { assert Trunc(-q) == 0 == n; }
    var m := y * (n as real);
    assert Rem(-x, y) == -x - y * ((-n) as real) == -x + m;
  }

  lemma TruncFraction(q: real)
    ensures q >= 0.0 ==> 0.0 <= q - (Trunc(q) as real) < 1.0
    ensures q <= 0.0 ==> -1.0 < q - (Trunc(q) as real) <= 0.0
  {
  }

  lemma ProductBounds(y: real, f: real)
    requires -1.0 < f < 1.0
    ensures Abs(y * f) < Abs(y) || y == 0.0
    ensures y > 0.0 && f >= 0.0 ==> y * f >= 0.0
    ensures y < 0.0 && f <= 0.0 ==> y * f >= 0.0
    ensures y > 0.0 && f <= 0.0 ==> y * f <= 0.0
    ensures y < 0.0 && f >= 0.0 ==> y * f <= 0.0
  {
    if y > 0.0 {
      assert y * f < y * 1.0;
      assert y * f > y * -1.0;
    } else if y < 0.0 {
      assert y * f > y * 1.0;
      assert y * f < y * -1.0;
    }
  }

  /** A fraction t in [0, 1] of a non-negative d lies in [0, d]. */
  lemma FractionOf(d: real, t: real)
    requires d >= 0.0 && 0.0 <= t <= 1.0
    ensures 0.0 <= d * t <= d
  {
    assert d * (1.0 - t) >= 0.0;
  }

  /** Round-half-even never decreases when its argument grows. */
  lemma RoundHalfEvenMonotone(a: real, b: real)
    requires a <= b
    ensures RoundHalfEven(a) <= RoundHalfEven(b)
  {
    var fa, fb := a.Floor, b.Floor;
    if fa < fb {
      assert RoundHalfEven(a) <= fa + 1 <= fb <= RoundHalfEven(b);
    }
  }

  lemma RoundHalfEvenOfInt(n: int)
    ensures RoundHalfEven(n as real) == n
  {
    assert (n as real).Floor == n;
  }

  // ---------------------------------------------------------------- transcendental functions

  /**
   * Square root, sine, cosine, tangent, arcsine, two-argument arctangent, power and
   * Vector3.Normalize as opaque function values.
   */
  datatype Maths = Maths(
    sqrt: real -> real,
    sin: real -> real,
    cos: real -> real,
    tan: real -> real,
    asin: real -> real,
    atan2: (real, real) -> real,
    pow: (real, real) -> real,
    normalize: Vec3 -> Vec3
  )

  /** The only fact assumed about a square root: it is non-negative on non-negative input. */
  ghost predicate SqrtNonNegative(m: Maths) {
    forall v: real {:trigger m.sqrt(v)} :: 0.0 <= v ==> 0.0 <= m.sqrt(v)
  }

  /** Square root undoes squaring on non-negative input. */
  ghost predicate SqrtSquares(m: Maths) {
    forall v: real {:trigger m.sqrt(v)} :: 0.0 <= v ==> m.sqrt(v) * m.sqrt(v) == v
  }

  /** The facts assumed about `pow(x, p)` for a positive exponent: 0 and 1 are fixed points. */
  ghost predicate PowFixesEnds(m: Maths) {
    forall p: real {:trigger m.pow(0.0, p)} {:trigger m.pow(1.0, p)} :: 0.0 < p ==> m.pow(0.0, p) == 0.0 && m.pow(1.0, p) == 1.0
  }
}
