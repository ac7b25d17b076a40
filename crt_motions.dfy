/**
 * ConsoleRayTracer/Animation/Motions.cs: the motions of the middle generation. The linear
 * motions are those of the newest generation (SrcMotion); the circular path here writes the
 * cosine and the sine straight into the axis's main and secondary components of a zero
 * vector, with the angle 2π·x computed in double precision.
 */
module CrtMotions {
  import opened Numerics
  import opened SrcPrimitives
  import SrcMotion

  /** Math.PI * 2f. */
  const DoubleTau: real := DoublePi * 2.0

  /** CircularPath(Radius, Axis).GetValue(x): R cos(2πx) on the main component, R sin(2πx) on the secondary one. */
  function CircularPath(radius: real, axis: Axis, m: Maths, x: real): Vec3 {
    var angle := DoubleTau * x;
    var point := WithAt(Zero, MainIndex(axis), m.cos(angle) * radius);
    WithAt(point, SecondaryIndex(axis), m.sin(angle) * radius)
  }

  /** The circle lies in the plane across the axis, centred on the origin. */
  lemma CircularPathInPlane(radius: real, axis: Axis, m: Maths, x: real)
    ensures var p := CircularPath(radius, axis, m, x);
      && GetAxis(axis, p) == 0.0
      && GetMain(axis, p) == radius * m.cos(DoubleTau * x)
      && GetSecondary(axis, p) == radius * m.sin(DoubleTau * x)
  {
  }

  /**
   * The path written component by component is the path of Motion.cs, which rotates
   * (0, cos, sin) onto the axis and scales it: at equal angles the two give the same point.
   * They differ only in how 2π is rounded.
   */
  lemma CircularPathsAgree(radius: real, axis: Axis, m: Maths, x: real, y: real)
    requires FloatTau * y == DoubleTau * x
    ensures CircularPath(radius, axis, m, x) == SrcMotion.CircularPath(axis, radius, m, y)
  {
  }
}
