/**
 * RayTracer/Renderer/RayTracer.cs: the recursive trace of the oldest generation, where one
 * entity is the scene, the occluder and the light at once. It is the middle generation's
 * trace with the entity as its own light (the lemma SelfLit).
 */
module RtRenderer {
  import opened Numerics
  import opened SrcPrimitives
  import opened SrcIEntity
  import CrtRenderer
  import SrcRayTracer

  const DefaultDepth: int := 50
  const TMin: real := 0.001
  /** float.PositiveInfinity, modelled as the largest float. */
  const TMax: real := FloatMax

  /**
   * RayTrace(entity, ray, depth): 0 once the depth is spent or when nothing is hit;
   * otherwise the normal is turned against the ray, the reflected ray leaves the hit point,
   * and the result is the clamped blend of the reflected trace and the entity's own light.
   */
  function RayTrace(entity: Entity, ray: Ray, depth: int): (r: real)
    ensures 0.0 <= r <= 1.0
    ensures depth <= 0 ==> r == 0.0
    ensures entity.hit(ray, TMin, TMax).None? ==> r == 0.0
    decreases depth
  {
    var h := entity.hit(ray, TMin, TMax);
    if depth > 0 && h.Some? then
      var rec := h.value.(normal := Opposite(ray, h.value.normal));
      var reflected := Ray(rec.point, Reflect(ray.direction, rec.normal));
      var diffused := entity.illuminate(entity.hit, rec);
      var k := rec.reflectance;
      Clamp(CrtRenderer.Blend(k, RayTrace(entity, reflected, depth - 1), diffused), 0.0, 1.0)
    else 0.0
  }

  /**
   * The entity lights itself: at every depth the trace is the middle generation's, and so the
   * newest one's, with the entity passed as the light too.
   */
  lemma SelfLit(entity: Entity, ray: Ray, depth: int)
    ensures RayTrace(entity, ray, depth) == CrtRenderer.RayTrace(entity, entity, ray, depth)
    ensures RayTrace(entity, ray, depth) == SrcRayTracer.Trace(entity, entity, ray, depth)
  {
    SelfLitMiddle(entity, ray, depth);
    CrtRenderer.SameAsNewerTrace(entity, entity, ray, depth);
  }

  lemma {:induction false} SelfLitMiddle(entity: Entity, ray: Ray, depth: int)
    ensures RayTrace(entity, ray, depth) == CrtRenderer.RayTrace(entity, entity, ray, depth)
    decreases depth
  {
    var h := entity.hit(ray, TMin, TMax);
    if depth > 0 && h.Some? {
      var rec := h.value.(normal := Opposite(ray, h.value.normal));
      SelfLitMiddle(entity, Ray(rec.point, Reflect(ray.direction, rec.normal)), depth - 1);
    }
  }

  /**
   * A hit whose reflectance is 0 shows the entity's light at the hit, with the normal
   * turned against the ray, clamped to [0, 1]; a hit whose reflectance is 1 shows what the
   * reflected ray sees one level down.
   */
  lemma HitShading(entity: Entity, ray: Ray, depth: int)
    requires depth > 0 && entity.hit(ray, TMin, TMax).Some?
    ensures var rec := entity.hit(ray, TMin, TMax).value.(normal := Opposite(ray, entity.hit(ray, TMin, TMax).value.normal));
      && (rec.reflectance == 0.0 ==> RayTrace(entity, ray, depth) == Clamp(entity.illuminate(entity.hit, rec), 0.0, 1.0))
      && (rec.reflectance == 1.0 ==>
            RayTrace(entity, ray, depth) == RayTrace(entity, Ray(rec.point, Reflect(ray.direction, rec.normal)), depth - 1))
  {
  }

  /**
   * PixelColor(entity, camera, s, t, aspectRatio): the trace, from the default depth, of the
   * ray camera.GetRay(s, t, aspectRatio), the camera being the function getRay.
   */
  function PixelColor(entity: Entity, getRay: (real, real, real) -> Ray, s: real, t: real, aspectRatio: real): (r: real)
    ensures 0.0 <= r <= 1.0
    ensures entity.hit(getRay(s, t, aspectRatio), TMin, TMax).None? ==> r == 0.0
  {
    RayTrace(entity, getRay(s, t, aspectRatio), DefaultDepth)
  }

  /** The pixel is the newest generation's Render, with the entity as its own light and depth 50. */
  lemma PixelIsRender(entity: Entity, getRay: (real, real, real) -> Ray, s: real, t: real, aspectRatio: real)
    ensures PixelColor(entity, getRay, s, t, aspectRatio)
      == SrcRayTracer.Render(entity, entity, (s', t') => getRay(s', t', aspectRatio), 50, s, t)
  {
    SelfLit(entity, getRay(s, t, aspectRatio), DefaultDepth);
  }
}
