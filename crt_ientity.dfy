/**
 * ConsoleRayTracer/Entity/IEntity.cs: the entity interface, the hit record and the Apply
 * wrapper of the middle generation. The interface defaults, the record and Apply's hit are
 * those of the newest generation (SrcIEntity); Apply's illumination differs: it does not
 * scale the wrapped entity's light by Brightness, it hands its material down inside the
 * hit record instead.
 */
module CrtIEntity {
  import opened Wrappers
  import opened Numerics
  import opened HitSearch
  import opened SrcPrimitives
  import opened SrcIEntity
  import SrcEntity

  /** The record handed to the wrapped entity: moved into its frame and given Apply's material. */
  function Localize(offset: Vec3, brightness: real, reflectance: real): HitRecord -> HitRecord {
    (r: HitRecord) => r.(point := Sub(r.point, offset), brightness := brightness, reflectance := reflectance)
  }

  /** Apply's Illuminate: the wrapped entity lights the localized record, the occluder moved by -Offset. */
  function ApplyIlluminate(e: Entity, offset: Vec3, brightness: real, reflectance: real, target: HitTest, rec: HitRecord): real {
    e.illuminate(ApplyHit(target, Neg(offset), 1.0, 0.0), Localize(offset, brightness, reflectance)(rec))
  }

  /** Apply(entity, Offset, Brightness, Reflectance) of this generation. */
  function Apply(e: Entity, offset: Vec3, brightness: real, reflectance: real): (a: Entity)
    ensures !a.animated
  {
    Entity(
      ApplyHit(e.hit, offset, brightness, reflectance),
      (target: HitTest, rec: HitRecord) => ApplyIlluminate(e, offset, brightness, reflectance, target, rec),
      false)
  }

  /**
   * Apply's hit: a miss when the entity misses the ray moved by -Offset; otherwise the
   * entity's T and normal, its point moved by +Offset, and Apply's own material. It is the
   * hit of the newest generation's Apply.
   */
  lemma ApplyHitRecord(e: Entity, offset: Vec3, b: real, rf: real, ray: Ray, lo: real, hi: real)
    ensures var h := e.hit(Ray(Sub(ray.origin, offset), ray.direction), lo, hi);
      var a := Apply(e, offset, b, rf).hit(ray, lo, hi);
      && (a.None? <==> h.None?)
      && (a.Some? ==> a.value.t == h.value.t && a.value.normal == h.value.normal
                      && a.value.point == Add(h.value.point, offset)
                      && a.value.brightness == b && a.value.reflectance == rf)
      && a == SrcIEntity.Apply(e, offset, b, rf).hit(ray, lo, hi)
  {
  }

  /** Moving an entity keeps its hit test a nearest one. */
  lemma ApplyNearest(e: Entity, offset: Vec3, b: real, rf: real)
    requires Nearest(e.hit, TimeOf)
    ensures Nearest(Apply(e, offset, b, rf).hit, TimeOf)
  {
    SrcIEntity.ApplyNearest(e.hit, offset, b, rf);
  }

  /**
   * The material of the incoming record plays no part: the wrapped entity always sees
   * Apply's Brightness and Reflectance.
   */
  lemma ApplyIlluminateOverridesMaterial(e: Entity, offset: Vec3, b: real, rf: real, target: HitTest, rec: HitRecord, b': real, rf': real)
    ensures Apply(e, offset, b, rf).illuminate(target, rec)
         == Apply(e, offset, b, rf).illuminate(target, rec.(brightness := b', reflectance := rf'))
  {
    assert Localize(offset, b, rf)(rec) == Localize(offset, b, rf)(rec.(brightness := b', reflectance := rf'));
  }

  /**
   * A light source wrapped by Apply acts as a light at Offset whose brightness is Apply's:
   * the shadow ray leaves the hit point towards Offset and is tested against the scene's own
   * occluder; a shadowed point gets 0, otherwise Brightness times the cosine term, never
   * negative. Brightness is used once, inside the cosine term, and does not scale the
   * result a second time.
   */
  lemma LightSourceAtOffset(m: Maths, offset: Vec3, b: real, rf: real, target: HitTest, rec: HitRecord)
    ensures var r := Apply(SrcEntity.LightSource(m), offset, b, rf).illuminate(target, rec);
      var toLight := Ray(rec.point, m.normalize(Neg(Sub(rec.point, offset))));
      && r >= 0.0
      && (target(toLight, 0.001, FloatMax).Some? ==> r == 0.0)
      && (target(toLight, 0.001, FloatMax).None? ==>
            r == Max(b * Dot(rec.normal, toLight.direction), 0.0))
  {
    var local := Localize(offset, b, rf)(rec);
    var occluder := ApplyHit(target, Neg(offset), 1.0, 0.0);
    var lightRay := SrcEntity.LightRay(m, local);
    assert Sub(Sub(rec.point, offset), Neg(offset)) == rec.point;
    assert Ray(Sub(lightRay.origin, Neg(offset)), lightRay.direction)
        == Ray(rec.point, m.normalize(Neg(Sub(rec.point, offset))));
    assert occluder(lightRay, 0.001, FloatMax).Some?
       <==> target(Ray(rec.point, m.normalize(Neg(Sub(rec.point, offset)))), 0.001, FloatMax).Some?;
  }
}
