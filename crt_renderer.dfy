/**
 * ConsoleRayTracer/Renderer/RayTracer.cs: the recursive trace of the middle generation over
 * an entity and a light entity. It computes what src/Renderer/RayTracer.cs computes (the
 * lemma SameAsNewerTrace): the blend is written k * reflected + (1 - k) * diffused instead
 * of a Lerp, and the depth starts at 50.
 */
module CrtRenderer {
  import opened Numerics
  import opened SrcPrimitives
  import opened SrcIEntity
  import SrcRayTracer

  const DefaultDepth: int := 50
  const TMin: real := 0.001
  /** float.PositiveInfinity, modelled as the largest float. */
  const TMax: real := FloatMax

  /** The blend k * reflected + (1 - k) * diffused of the trace's last line. */
  function Blend(k: real, reflected: real, diffused: real): real {
    k * reflected + (1.0 - k) * diffused
  }

  /**
   * RayTrace: 0 once the depth is spent or when nothing is hit; otherwise the normal is
   * turned against the ray, the reflected ray leaves the hit point, and the result is the
   * clamped blend of the reflected trace and the light's illumination.
   */
  function RayTrace(entity: Entity, light: Entity, ray: Ray, depth: int): (r: real)
    ensures 0.0 <= r <= 1.0
    ensures depth <= 0 ==> r == 0.0
    ensures entity.hit(ray, TMin, TMax).None? ==> r == 0.0
    decreases depth
  {
    var h := entity.hit(ray, TMin, TMax);
    if depth > 0 && h.Some? then
      var rec := h.value.(normal := Opposite(ray, h.value.normal));
      var reflected := Ray(rec.point, Reflect(ray.direction, rec.normal));
      var diffused := light.illuminate(entity.hit, rec);
      var k := rec.reflectance;
      Clamp(Blend(k, RayTrace(entity, light, reflected, depth - 1), diffused), 0.0, 1.0)
    else 0.0
  }

  /** At every depth the trace equals the newer generation's, level by level. */
  lemma {:induction false} SameAsNewerTrace(entity: Entity, light: Entity, ray: Ray, depth: int)
    ensures RayTrace(entity, light, ray, depth) == SrcRayTracer.Trace(entity, light, ray, depth)
    decreases depth
  {
    var h := entity.hit(ray, TMin, TMax);
    if depth > 0 && h.Some? {
      var rec := SrcRayTracer.Facing(ray, h.value);
      var bounce := SrcRayTracer.Bounce(ray, rec);
      SameAsNewerTrace(entity, light, bounce, depth - 1);
      var x := RayTrace(entity, light, bounce, depth - 1);
      var d := light.illuminate(entity.hit, rec);
      var k := rec.reflectance;
      BlendIsLerp(k, x, d);
    }
  }

  /** The blend k * x + (1 - k) * d is the newer generation's Lerp from d to x. */
  lemma BlendIsLerp(k: real, x: real, d: real)
    ensures Blend(k, x, d) == SrcRayTracer.Lerp(d, x, k)
  {
  }

  /** Color(scene, s, t): the trace of the camera's ray through (s, t), from the default depth. */
  function Color(entity: Entity, light: Entity, getRay: (real, real) -> Ray, s: real, t: real): (r: real)
    ensures 0.0 <= r <= 1.0
    ensures entity.hit(getRay(s, t), TMin, TMax).None? ==> r == 0.0
  {
    RayTrace(entity, light, getRay(s, t), DefaultDepth)
  }

  /** Color is the newer Render with a depth of 50. */
  lemma ColorIsRender(entity: Entity, light: Entity, getRay: (real, real) -> Ray, s: real, t: real)
    ensures Color(entity, light, getRay, s, t) == SrcRayTracer.Render(entity, light, getRay, 50, s, t)
  {
    SameAsNewerTrace(entity, light, getRay(s, t), DefaultDepth);
  }
}
