/**
 * src/Entity/IEntity.cs: what every scene entity offers (a hit test and an illumination
 * of a hit record, both with defaults), the hit record, and the `Apply` wrapper that moves
 * an entity by an offset and gives it its own material.
 */
module SrcIEntity {
  import opened Wrappers
  import opened Numerics
  import opened HitSearch
  import opened SrcPrimitives

  datatype HitRecord = HitRecord(t: real, point: Vec3, normal: Vec3, brightness: real, reflectance: real)

  /** new HitRecord(T, Point, Normal) with the default material. */
  function NewRecord(t: real, point: Vec3, normal: Vec3): (r: HitRecord)
    ensures r.brightness == 1.0 && r.reflectance == 0.0
    ensures r.t == t && r.point == point && r.normal == normal
  {
    HitRecord(t, point, normal, 1.0, 0.0)
  }

  function TimeOf(r: HitRecord): real { r.t }

  /** Hit(ray, tMin, tMax). */
  type HitTest = Probe<Ray, HitRecord>

  /** Illuminate(target, record): the light reaching a hit, given the hit test of the scene that may cast shadows. */
  type Illumination = (HitTest, HitRecord) -> real

  /** An entity: its two IEntity members, and whether it is also an IAnimatedEntity. */
  datatype Entity = Entity(hit: HitTest, illuminate: Illumination, animated: bool)

  /** The default members: Hit misses, Illuminate gives 0. */
  function DefaultEntity(): (e: Entity)
    ensures !e.animated
  {
    Entity((ray: Ray, lo: real, hi: real) => None, (target: HitTest, rec: HitRecord) => 0.0, false)
  }

  lemma DefaultsDoNothing(ray: Ray, lo: real, hi: real, target: HitTest, rec: HitRecord)
    ensures DefaultEntity().hit(ray, lo, hi) == None
    ensures DefaultEntity().illuminate(target, rec) == 0.0
  {
  }

  /** The default hit test is a (trivially) nearest one. */
  lemma DefaultHitNearest()
    ensures Nearest(DefaultEntity().hit, TimeOf)
  {
  }

  // ---------------------------------------------------------------- Apply

  /** The ray moved into the frame of an entity placed at `offset`. */
  function ShiftBy(offset: Vec3): Ray -> Ray {
    (ray: Ray) => Ray(Sub(ray.origin, offset), ray.direction)
  }

  /** A hit moved back out of that frame and given a material. */
  function Restyle(offset: Vec3, brightness: real, reflectance: real): HitRecord -> HitRecord {
    (r: HitRecord) => r.(point := Add(r.point, offset), brightness := brightness, reflectance := reflectance)
  }

  /** Apply<E>.Hit: query the entity in its own frame, move the hit back and give it Apply's material. */
  function ApplyHit(hit: HitTest, offset: Vec3, brightness: real, reflectance: real): HitTest {
    MapProbe(hit, ShiftBy(offset), Restyle(offset, brightness, reflectance))
  }

  /** Apply(entity, Offset, Brightness, Reflectance). */
  function Apply(e: Entity, offset: Vec3, brightness: real, reflectance: real): (a: Entity)
    ensures !a.animated
  {
    Entity(
      ApplyHit(e.hit, offset, brightness, reflectance),
      (target: HitTest, rec: HitRecord) =>
        e.illuminate(ApplyHit(target, Neg(offset), 1.0, 0.0), rec.(point := Sub(rec.point, offset))) * brightness,
      false)
  }

  /**
   * Apply's hit: a miss when the entity misses the ray moved by -Offset; otherwise the
   * entity's T and normal, its point moved by +Offset, and Apply's own material.
   */
  lemma ApplyHitRecord(e: Entity, offset: Vec3, b: real, rf: real, ray: Ray, lo: real, hi: real)
    ensures var h := e.hit(Ray(Sub(ray.origin, offset), ray.direction), lo, hi);
      var a := Apply(e, offset, b, rf).hit(ray, lo, hi);
      && (a.None? <==> h.None?)
      && (a.Some? ==> a.value.t == h.value.t && a.value.normal == h.value.normal
                      && a.value.point == Add(h.value.point, offset)
                      && a.value.brightness == b && a.value.reflectance == rf)
  {
  }

  /** With no offset the entity's hit point passes through unchanged. */
  lemma ApplyZeroOffset(e: Entity, b: real, rf: real, ray: Ray, lo: real, hi: real)
    ensures var a := Apply(e, Zero, b, rf).hit(ray, lo, hi);
      var h := e.hit(ray, lo, hi);
      (a.Some? <==> h.Some?) && (a.Some? ==> a.value.point == h.value.point && a.value.t == h.value.t)
  {
    assert Sub(ray.origin, Zero) == ray.origin;
    assert Ray(Sub(ray.origin, Zero), ray.direction) == ray;
  }

  /** Moving an entity keeps its hit test a nearest one. */
  lemma ApplyNearest(hit: HitTest, offset: Vec3, b: real, rf: real)
    requires Nearest(hit, TimeOf)
    ensures Nearest(ApplyHit(hit, offset, b, rf), TimeOf)
  {
    MapNearest(hit, ShiftBy(offset), Restyle(offset, b, rf), TimeOf);
  }

  /**
   * The occluder handed to the wrapped entity answers a ray of the entity's frame as the
   * original occluder answers the same ray in the scene's frame, with the hit point
   * carried into the entity's frame: the two offsets cancel.
   */
  lemma OccluderInEntityFrame(target: HitTest, offset: Vec3, ray: Ray, lo: real, hi: real)
    ensures var local := ApplyHit(target, Neg(offset), 1.0, 0.0)(Ray(Sub(ray.origin, offset), ray.direction), lo, hi);
      var world := target(ray, lo, hi);
      (local.Some? <==> world.Some?)
      && (local.Some? ==> local.value.t == world.value.t && local.value.point == Sub(world.value.point, offset))
  {
    assert Sub(Sub(ray.origin, offset), Neg(offset)) == ray.origin;
    assert Ray(Sub(Sub(ray.origin, offset), Neg(offset)), ray.direction) == ray;
  }

  /** Apply's illumination is the wrapped entity's scaled by Brightness: zero at 0, and linear in it. */
  lemma ApplyIlluminationScales(e: Entity, offset: Vec3, b: real, rf: real, target: HitTest, rec: HitRecord)
    ensures Apply(e, offset, b, rf).illuminate(target, rec) == b * Apply(e, offset, 1.0, rf).illuminate(target, rec)
    ensures b == 0.0 ==> Apply(e, offset, b, rf).illuminate(target, rec) == 0.0
  {
  }
}
