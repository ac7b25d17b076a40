/** src/Animation/Motion.cs: motions map an interpolated fraction to a float or a vector. */
module SrcMotion {
  import opened Numerics
  import SrcPrimitives

  /** LinearMotion(Motion).GetValue(x) = Motion * x. */
  function LinearMotion(motion: real, x: real): (r: real)
    ensures x == 0.0 ==> r == 0.0
    ensures x == 1.0 ==> r == motion
  {
    motion * x
  }

  /** LinearPath(Path).GetValue(x) = Path * x. */
  function LinearPath(path: Vec3, x: real): (r: Vec3)
    ensures x == 0.0 ==> r == Zero
    ensures x == 1.0 ==> r == path
  {
    Scale(path, x)
  }

  /** Both linear motions are additive in the fraction. */
  lemma LinearAdditive(motion: real, path: Vec3, a: real, b: real)
    ensures LinearMotion(motion, a + b) == LinearMotion(motion, a) + LinearMotion(motion, b)
    ensures LinearPath(path, a + b) == Add(LinearPath(path, a), LinearPath(path, b))
  {
  }

  /** CircularPath(Axis, Radius): Axis.Apply((0, cos θ, sin θ)) * Radius with θ = Tau * x. */
  function CircularPath(axis: SrcPrimitives.Axis, radius: real, m: Maths, x: real): (r: Vec3) {
    var theta := FloatTau * x;
    Scale(SrcPrimitives.Apply(axis, Vec3(0.0, m.cos(theta), m.sin(theta))), radius)
  }

  /** The circle lies in the plane across the axis: no axis component, R cos θ on main and R sin θ on secondary. */
  lemma CircularPathInPlane(axis: SrcPrimitives.Axis, radius: real, m: Maths, x: real)
    ensures SrcPrimitives.GetAxis(axis, CircularPath(axis, radius, m, x)) == 0.0
    ensures SrcPrimitives.GetMain(axis, CircularPath(axis, radius, m, x)) == radius * m.cos(FloatTau * x)
    ensures SrcPrimitives.GetSecondary(axis, CircularPath(axis, radius, m, x)) == radius * m.sin(FloatTau * x)
  {
  }
}
