/**
 * ConsoleRayTracer/Entity/Shapes.cs: an earlier file of the middle generation with World,
 * And, Plane, Circle and Rect. World is the group scan, And, Plane and Circle compute what
 * the newest generation's do (SrcEntity); Rect is centred and closed, keeping a hit with
 * |main| <= W/2 and |secondary| <= H/2.
 */
module CrtShapes {
  import opened Wrappers
  import opened Numerics
  import opened HitSearch
  import opened SrcPrimitives
  import opened SrcIEntity
  import opened SrcEntity
  import CrtEntities

  /** Rect<A>(Width, Height) drops a plane hit outside the centred, closed rectangle. */
  function InClosedRect(axis: Axis, width: real, height: real): HitRecord -> bool {
    (rec: HitRecord) =>
      !(GetMain(axis, rec.point) < -(width / 2.0) || GetMain(axis, rec.point) > width / 2.0
        || GetSecondary(axis, rec.point) < -(height / 2.0) || GetSecondary(axis, rec.point) > height / 2.0)
  }

  function RectHit(axis: Axis, width: real, height: real, ray: Ray, tMin: real, tMax: real): (r: Option<HitRecord>)
    ensures r.Some? <==>
      var p := PlaneHit(axis, ray, tMin, tMax);
      && p.Some?
      && Abs(GetMain(axis, p.value.point)) <= width / 2.0
      && Abs(GetSecondary(axis, p.value.point)) <= height / 2.0
    ensures r.Some? ==> r == PlaneHit(axis, ray, tMin, tMax)
  {
    Filter(PlaneHit(axis, ray, tMin, tMax), InClosedRect(axis, width, height))
  }

  function RectProbe(axis: Axis, width: real, height: real): HitTest {
    (ray: Ray, tMin: real, tMax: real) => RectHit(axis, width, height, ray, tMin, tMax)
  }

  lemma RectNearest(axis: Axis, width: real, height: real)
    ensures Nearest(RectProbe(axis, width, height), TimeOf)
  {
    PlaneNearest(axis);
    FilterNearest(PlaneProbe(axis), InClosedRect(axis, width, height), TimeOf);
    NearestByAgreement(FilterProbe(PlaneProbe(axis), InClosedRect(axis, width, height)), RectProbe(axis, width, height), TimeOf);
  }

  /**
   * The closed rectangle of this file and the half-open one of Entities.cs agree except on
   * the far edges: every hit of the half-open one is a hit of the closed one, and a hit
   * only the closed one reports lies on main = W/2 or secondary = H/2.
   */
  lemma RectVersionsDifferOnFarEdges(axis: Axis, width: real, height: real, ray: Ray, tMin: real, tMax: real)
    ensures CrtEntities.RectHit(axis, width, height, ray, tMin, tMax).Some? ==>
      RectHit(axis, width, height, ray, tMin, tMax) == CrtEntities.RectHit(axis, width, height, ray, tMin, tMax)
    ensures RectHit(axis, width, height, ray, tMin, tMax).Some? && CrtEntities.RectHit(axis, width, height, ray, tMin, tMax).None? ==>
      var p := RectHit(axis, width, height, ray, tMin, tMax).value.point;
      GetMain(axis, p) == width / 2.0 || GetSecondary(axis, p) == height / 2.0
  {
  }
}
