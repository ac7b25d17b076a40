/**
 * src/Animation/IAnimatedEntity.cs: `Animated` wraps an entity with three animations (an
 * offset, a brightness and a reflectance), caches their samples, and re-samples them on
 * Update. Hits are moved by the cached offset and the cached material is added to the
 * entity's own.
 */
module SrcAnimatedEntity {
  import opened Wrappers
  import opened Numerics
  import opened HitSearch
  import opened SrcPrimitives
  import opened SrcIEntity
  import opened SrcAnimation

  /** GetValue of an animation whose samples are always defined. */
  function Sample<T>(a: Timeline<T>, t: real, sum: Sum<T>): (v: T)
    requires Sampleable(a)
    ensures TimelineValue(a, t, sum) == Some(v)
  {
    SampleableAlwaysDefined(a, t, sum);
    TimelineValue(a, t, sum).value
  }

  /** The child's hit moved out of the wrapper's frame, with the cached material added. */
  function AddMaterial(offset: Vec3, brightness: real, reflectance: real): HitRecord -> HitRecord {
    (r: HitRecord) => r.(point := Add(r.point, offset), brightness := r.brightness + brightness,
                         reflectance := r.reflectance + reflectance)
  }

  class Animated {
    const entity: Entity
    const offset: Timeline<Vec3>
    const brightness: Timeline<real>
    const reflectance: Timeline<real>
    /** _offset, _brightness and _reflectance. */
    var offsetValue: Vec3
    var brightnessValue: real
    var reflectanceValue: real

    /** The cache holds the three samples at time t, brightness shifted by 1. */
    ghost predicate SampledAt(t: real)
      reads this
    {
      && Sampleable(offset) && Sampleable(brightness) && Sampleable(reflectance)
      && offsetValue == Sample(offset, t, VectorSum)
      && brightnessValue == 1.0 + Sample(brightness, t, FloatSum)
      && reflectanceValue == Sample(reflectance, t, FloatSum)
    }

    /** Construction samples every animation at time 0. */
    constructor(entity: Entity, offset: Timeline<Vec3>, brightness: Timeline<real>, reflectance: Timeline<real>)
      requires Sampleable(offset) && Sampleable(brightness) && Sampleable(reflectance)
      ensures this.entity == entity && this.offset == offset
      ensures this.brightness == brightness && this.reflectance == reflectance
      ensures SampledAt(0.0)
    {
      this.entity := entity;
      this.offset := offset;
      this.brightness := brightness;
      this.reflectance := reflectance;
      offsetValue := Sample(offset, 0.0, VectorSum);
      brightnessValue := 1.0 + Sample(brightness, 0.0, FloatSum);
      reflectanceValue := Sample(reflectance, 0.0, FloatSum);
    }

    /** Update re-samples at the absolute time given; the new cache depends on that time only. */
    method Update(timeElapsed: real)
      requires Sampleable(offset) && Sampleable(brightness) && Sampleable(reflectance)
      modifies this
      ensures SampledAt(timeElapsed)
    {
      offsetValue := Sample(offset, timeElapsed, VectorSum);
      brightnessValue := 1.0 + Sample(brightness, timeElapsed, FloatSum);
      reflectanceValue := Sample(reflectance, timeElapsed, FloatSum);
    }

    /** Hit: the child queried from origin - offset; its hit moved by +offset with the cached material added. */
    function Hit(ray: Ray, tMin: real, tMax: real): (r: Option<HitRecord>)
      reads this
      ensures var h := entity.hit(Ray(Sub(ray.origin, offsetValue), ray.direction), tMin, tMax);
        && (r.None? <==> h.None?)
        && (r.Some? ==> r.value.t == h.value.t && r.value.normal == h.value.normal
                        && Sub(r.value.point, offsetValue) == h.value.point
                        && r.value.brightness - h.value.brightness == brightnessValue
                        && r.value.reflectance - h.value.reflectance == reflectanceValue)
    {
      MapProbe(entity.hit, ShiftBy(offsetValue), AddMaterial(offsetValue, brightnessValue, reflectanceValue))(ray, tMin, tMax)
    }

    /** Illuminate: the child's light, seen through the occluder moved into its frame, times the cached brightness. */
    function Illuminate(target: HitTest, rec: HitRecord): real
      reads this
    {
      entity.illuminate(ApplyHit(target, Neg(offsetValue), 1.0, 0.0), rec.(point := Sub(rec.point, offsetValue)))
        * brightnessValue
    }

    /** The entity the wrapper is until its next Update. */
    function Snapshot(): (e: Entity)
      reads this
      ensures e.animated
      ensures forall ray: Ray, tMin: real, tMax: real :: e.hit(ray, tMin, tMax) == Hit(ray, tMin, tMax)
      ensures forall target: HitTest, rec: HitRecord :: e.illuminate(target, rec) == Illuminate(target, rec)
    {
      var o, b, rf := offsetValue, brightnessValue, reflectanceValue;
      Entity(MapProbe(entity.hit, ShiftBy(o), AddMaterial(o, b, rf)),
             (target: HitTest, rec: HitRecord) => entity.illuminate(ApplyHit(target, Neg(o), 1.0, 0.0), rec.(point := Sub(rec.point, o))) * b,
             true)
    }
  }

  /** Two wrappers of the same animations updated to the same time hold the same cache: Update(t) twice is Update(t). */
  lemma UpdateIdempotent(a: Animated, b: Animated, t: real)
    requires a.offset == b.offset && a.brightness == b.brightness && a.reflectance == b.reflectance
    requires a.SampledAt(t) && b.SampledAt(t)
    ensures a.offsetValue == b.offsetValue && a.brightnessValue == b.brightnessValue
    ensures a.reflectanceValue == b.reflectanceValue
  {
  }

  /** An animated wrapper of a nearest-hit entity is, between updates, a nearest-hit entity. */
  lemma AnimatedNearest(a: Animated)
    requires Nearest(a.entity.hit, TimeOf)
    ensures Nearest(a.Snapshot().hit, TimeOf)
  {
    MapNearest(a.entity.hit, ShiftBy(a.offsetValue), AddMaterial(a.offsetValue, a.brightnessValue, a.reflectanceValue), TimeOf);
  }

  /**
   * While the offset animation samples to zero, the wrapper passes the child's hit points
   * through, and its brightness is added on top of the child's.
   */
  lemma NeutralOffsetHit(a: Animated, t: real, ray: Ray, tMin: real, tMax: real)
    requires a.SampledAt(t) && Sample(a.offset, t, VectorSum) == Zero
    ensures var r := a.Hit(ray, tMin, tMax);
      var h := a.entity.hit(ray, tMin, tMax);
      && (r.Some? <==> h.Some?)
      && (r.Some? ==> r.value.point == h.value.point
                      && r.value.brightness == h.value.brightness + 1.0 + Sample(a.brightness, t, FloatSum))
  {
    assert Ray(Sub(ray.origin, Zero), ray.direction) == ray;
  }

  /**
   * While the cached offset is zero and the cached brightness 1 (offset and brightness
   * animations sampling to zero), the wrapper's light is the child's, seen through the
   * same occluder.
   */
  lemma NeutralIlluminate(a: Animated, target: HitTest, rec: HitRecord)
    requires a.offsetValue == Zero && a.brightnessValue == 1.0
    ensures a.Illuminate(target, rec) == a.entity.illuminate(ApplyHit(target, Zero, 1.0, 0.0), rec)
  {
    var x := a.entity.illuminate(ApplyHit(target, Neg(a.offsetValue), 1.0, 0.0), rec.(point := Sub(rec.point, a.offsetValue)));
    assert a.Illuminate(target, rec) == x * 1.0;
    assert Neg(Zero) == Zero;
    assert rec.(point := Sub(rec.point, Zero)) == rec;
  }
}
