/**
 * ConsoleRayTracer/Entity/Entities.cs: the entity combinators and flat shapes of the middle
 * generation. Group, Lights, LightSource, And, Plane and Circle compute what the newest
 * generation's do (SrcEntity); Rect differs: it is centred on the origin and half-open,
 * keeping a hit with -W/2 <= main < W/2 and -H/2 <= secondary < H/2.
 */
module CrtEntities {
  import opened Wrappers
  import opened HitSearch
  import opened SrcPrimitives
  import opened SrcIEntity
  import opened SrcEntity

  /** Rect<A>(Width, Height) keeps a plane hit inside the centred, half-open rectangle. */
  function InHalfOpenRect(axis: Axis, width: real, height: real): HitRecord -> bool {
    (rec: HitRecord) =>
      GetMain(axis, rec.point) >= -(width / 2.0) && GetMain(axis, rec.point) < width / 2.0
      && GetSecondary(axis, rec.point) >= -(height / 2.0) && GetSecondary(axis, rec.point) < height / 2.0
  }

  function RectHit(axis: Axis, width: real, height: real, ray: Ray, tMin: real, tMax: real): (r: Option<HitRecord>)
    ensures r.Some? <==>
      var p := PlaneHit(axis, ray, tMin, tMax);
      && p.Some?
      && -(width / 2.0) <= GetMain(axis, p.value.point) < width / 2.0
      && -(height / 2.0) <= GetSecondary(axis, p.value.point) < height / 2.0
    ensures r.Some? ==> r == PlaneHit(axis, ray, tMin, tMax)
  {
    Filter(PlaneHit(axis, ray, tMin, tMax), InHalfOpenRect(axis, width, height))
  }

  function RectProbe(axis: Axis, width: real, height: real): HitTest {
    (ray: Ray, tMin: real, tMax: real) => RectHit(axis, width, height, ray, tMin, tMax)
  }

  /** The rectangle reports the plane's hit or nothing, so it is a nearest-hit entity. */
  lemma RectNearest(axis: Axis, width: real, height: real)
    ensures Nearest(RectProbe(axis, width, height), TimeOf)
  {
    PlaneNearest(axis);
    FilterNearest(PlaneProbe(axis), InHalfOpenRect(axis, width, height), TimeOf);
    NearestByAgreement(FilterProbe(PlaneProbe(axis), InHalfOpenRect(axis, width, height)), RectProbe(axis, width, height), TimeOf);
  }

  /**
   * Two rectangles of this kind placed side by side (the second moved by W along the main
   * direction) never both report the same plane point: the shared edge belongs to the
   * second one only.
   */
  lemma SharedEdgeOnce(axis: Axis, width: real, height: real, rec: HitRecord, shifted: HitRecord)
    requires GetMain(axis, shifted.point) == GetMain(axis, rec.point) - width
    requires GetSecondary(axis, shifted.point) == GetSecondary(axis, rec.point)
    ensures !(InHalfOpenRect(axis, width, height)(rec) && InHalfOpenRect(axis, width, height)(shifted))
  {
  }
}
