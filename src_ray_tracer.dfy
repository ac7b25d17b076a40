/**
 * src/Renderer/RayTracer.cs: the recursive trace. A ray that hits something is shaded by
 * the light's illumination of the hit, blended with the trace of the reflected ray by the
 * hit's reflectance, and clamped to [0, 1].
 */
module SrcRayTracer {
  import opened Wrappers
  import opened Numerics
  import opened SrcPrimitives
  import opened SrcIEntity

  /** Traces start just off the surface; float.PositiveInfinity is modelled as the largest float. */
  const TMin: real := 0.001
  const TMax: real := FloatMax

  /** a·(1 − t) + b·t. */
  function Lerp(a: real, b: real, t: real): real {
    a * (1.0 - t) + b * t
  }

  /** Lerp runs from a at 0 to b at 1 and stays between them in between. */
  lemma LerpBetween(a: real, b: real, t: real)
    ensures Lerp(a, b, 0.0) == a && Lerp(a, b, 1.0) == b
    ensures 0.0 <= t <= 1.0 ==> Min(a, b) <= Lerp(a, b, t) <= Max(a, b)
  {
    if 0.0 <= t <= 1.0 {
      var d := b - a;
      var dt := d * t;
      assert Lerp(a, b, t) == a + dt by {
        assert a * (1.0 - t) == a - a * t;
        assert b * t - a * t == dt;
      }
      if a <= b {
        FractionOf(d, t);
      } else {
        FractionOf(-d, t);
        assert (-d) * t == -dt;
      }
    }
  }

  /** The hit record with its normal turned to face against the ray. */
  function Facing(ray: Ray, rec: HitRecord): (r: HitRecord)
    ensures Dot(r.normal, ray.direction) <= 0.0
    ensures r.normal == rec.normal || r.normal == Neg(rec.normal) || r.normal == Zero
    ensures r.t == rec.t && r.point == rec.point
    ensures r.brightness == rec.brightness && r.reflectance == rec.reflectance
  {
    rec.(normal := Opposite(ray, rec.normal))
  }

  /** The reflected ray leaves the hit point. */
  function Bounce(ray: Ray, rec: HitRecord): Ray {
    Ray(rec.point, Reflect(ray.direction, rec.normal))
  }

  /**
   * Trace: 0 once the depth is spent or when nothing is hit; otherwise the clamped blend of
   * the diffuse light and the reflected trace.
   */
  function Trace(entity: Entity, light: Entity, ray: Ray, depth: int): (r: real)
    ensures 0.0 <= r <= 1.0
    ensures depth <= 0 ==> r == 0.0
    ensures entity.hit(ray, TMin, TMax).None? ==> r == 0.0
    decreases depth
  {
    var h := entity.hit(ray, TMin, TMax);
    if depth > 0 && h.Some? then
      var rec := Facing(ray, h.value);
      var diffused := light.illuminate(entity.hit, rec);
      var reflected := Trace(entity, light, Bounce(ray, rec), depth - 1);
      Clamp(Lerp(diffused, reflected, rec.reflectance), 0.0, 1.0)
    else 0.0
  }

  /** A hit on a surface that does not reflect shows only its clamped diffuse light. */
  lemma MatteSurface(entity: Entity, light: Entity, ray: Ray, depth: int)
    requires depth > 0
    requires entity.hit(ray, TMin, TMax).Some? && entity.hit(ray, TMin, TMax).value.reflectance == 0.0
    ensures Trace(entity, light, ray, depth)
         == Clamp(light.illuminate(entity.hit, Facing(ray, entity.hit(ray, TMin, TMax).value)), 0.0, 1.0)
  {
    var rec := Facing(ray, entity.hit(ray, TMin, TMax).value);
    LerpBetween(light.illuminate(entity.hit, rec), Trace(entity, light, Bounce(ray, rec), depth - 1), 0.0);
  }

  /** A fully reflective surface shows only the clamped trace of the reflected ray. */
  lemma MirrorSurface(entity: Entity, light: Entity, ray: Ray, depth: int)
    requires depth > 0
    requires entity.hit(ray, TMin, TMax).Some? && entity.hit(ray, TMin, TMax).value.reflectance == 1.0
    ensures var rec := Facing(ray, entity.hit(ray, TMin, TMax).value);
      Trace(entity, light, ray, depth) == Trace(entity, light, Bounce(ray, rec), depth - 1)
  {
    var rec := Facing(ray, entity.hit(ray, TMin, TMax).value);
    LerpBetween(light.illuminate(entity.hit, rec), Trace(entity, light, Bounce(ray, rec), depth - 1), 1.0);
  }

  /** The number of hit tests a trace makes: one per level until a miss or the depth runs out. */
  function HitTestCount(entity: Entity, ray: Ray, depth: int): nat
    decreases depth
  {
    if depth <= 0 then 0
    else
      var h := entity.hit(ray, TMin, TMax);
      if h.Some? then 1 + HitTestCount(entity, Bounce(ray, Facing(ray, h.value)), depth - 1) else 1
  }

  /** Each level lowers the depth by one, so a trace makes at most `depth` hit tests. */
  lemma {:induction false} HitTestCountBound(entity: Entity, ray: Ray, depth: int)
    ensures depth <= 0 ==> HitTestCount(entity, ray, depth) == 0
    ensures depth > 0 ==> 1 <= HitTestCount(entity, ray, depth) <= depth
    decreases depth
  {
    if depth > 0 {
      var h := entity.hit(ray, TMin, TMax);
      if h.Some? {
        HitTestCountBound(entity, Bounce(ray, Facing(ray, h.value)), depth - 1);
      }
    }
  }

  /** Render: the trace of the camera's ray through (s, t), at the renderer's depth. */
  function Render(entity: Entity, light: Entity, castRay: (real, real) -> Ray, depth: int, s: real, t: real): (r: real)
    ensures 0.0 <= r <= 1.0
    ensures depth <= 0 || entity.hit(castRay(s, t), TMin, TMax).None? ==> r == 0.0
  {
    Trace(entity, light, castRay(s, t), depth)
  }
}
