/**
 * RayTracer/Animation/Motions.cs: the motions of the oldest generation. LinearMotion and
 * LinearPath are those of the newest generation (SrcMotion). The circular path scales the
 * cosine and the sine by the radius first and then places (0, R cos, R sin) on the axis;
 * its angle 2π·x is computed in double precision, as in the middle generation.
 */
module RtMotions {
  import opened Numerics
  import opened SrcPrimitives
  import SrcMotion
  import CrtMotions

  /** CircularPath(Radius, Axis).GetValue(x). */
  function CircularPath(radius: real, axis: Axis, m: Maths, x: real): Vec3 {
    var angle := CrtMotions.DoubleTau * x;
    Apply(axis, Vec3(0.0, m.cos(angle) * radius, m.sin(angle) * radius))
  }

  /** The circle lies in the plane across the axis: nothing on the axis, R cos on main, R sin on secondary. */
  lemma CircularPathInPlane(radius: real, axis: Axis, m: Maths, x: real)
    ensures var p := CircularPath(radius, axis, m, x);
      && GetAxis(axis, p) == 0.0
      && GetMain(axis, p) == radius * m.cos(CrtMotions.DoubleTau * x)
      && GetSecondary(axis, p) == radius * m.sin(CrtMotions.DoubleTau * x)
  {
  }

  /**
   * Scaling before placing on the axis gives the point the other generations compute: the
   * middle generation's, which writes the components one by one at the same angle, and the
   * newest one's, which scales after placing, wherever the two angles agree.
   */
  lemma SameCircleAsOtherGenerations(radius: real, axis: Axis, m: Maths, x: real, y: real)
    ensures CircularPath(radius, axis, m, x) == CrtMotions.CircularPath(radius, axis, m, x)
    ensures FloatTau * y == CrtMotions.DoubleTau * x ==>
      CircularPath(radius, axis, m, x) == SrcMotion.CircularPath(axis, radius, m, y)
  {
    var c, s := m.cos(CrtMotions.DoubleTau * x), m.sin(CrtMotions.DoubleTau * x);
    assert Scale(Apply(axis, Vec3(0.0, c, s)), radius) == Apply(axis, Vec3(0.0, c * radius, s * radius));
  }
}
