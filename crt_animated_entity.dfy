/**
 * ConsoleRayTracer/Animation/IAnimatedEntity.cs: `Animated` wraps an entity with up to three
 * optional animations (an offset, a brightness and a reflectance). Each Update adds the
 * time step to the time elapsed and samples every animation there, a missing one giving the
 * default (no offset, brightness 1, reflectance 0). Hits are moved by the sampled offset
 * and take the sampled material; the light is the child's, scaled by the sampled
 * brightness. Between updates the wrapper behaves as the newest generation's Apply wrapper
 * with the sampled values.
 */
module CrtAnimatedEntity {
  import opened Wrappers
  import opened Numerics
  import opened HitSearch
  import opened SrcPrimitives
  import opened SrcIEntity
  import opened CrtAnimations

  /** `Animation?.GetValue(t) ?? fallback` for an animation whose samples are defined. */
  function SampleOr<T>(a: Option<Animation<T>>, t: real, fallback: T): (v: T)
    requires a.Some? ==> Defined(a.value)
    ensures a.None? ==> v == fallback
    ensures a.Some? ==> a.value.getValue(t) == Returned(Some(v))
  {
    if a.None? then fallback else a.value.getValue(t).value.value
  }

  /** Every animation present is defined. */
  ghost predicate AllDefined(offset: Option<Animation<Vec3>>, brightness: Option<Animation<real>>,
                             reflectance: Option<Animation<real>>) {
    && (offset.Some? ==> Defined(offset.value))
    && (brightness.Some? ==> Defined(brightness.value))
    && (reflectance.Some? ==> Defined(reflectance.value))
  }

  class Animated {
    const entity: Entity
    const offset: Option<Animation<Vec3>>
    const brightness: Option<Animation<real>>
    const reflectance: Option<Animation<real>>
    /** _timeElapsed, _offset, _brightness and _reflectance. */
    var timeElapsed: real
    var offsetValue: Vec3
    var brightnessValue: real
    var reflectanceValue: real

    /** The cache holds the samples at the time elapsed. */
    ghost predicate Synced()
      reads this
    {
      && AllDefined(offset, brightness, reflectance)
      && offsetValue == SampleOr(offset, timeElapsed, Zero)
      && brightnessValue == SampleOr(brightness, timeElapsed, 1.0)
      && reflectanceValue == SampleOr(reflectance, timeElapsed, 0.0)
    }

    /** Construction samples nothing: the cache starts at the defaults and the clock at 0. */
    constructor(entity: Entity, offset: Option<Animation<Vec3>>, brightness: Option<Animation<real>>,
                reflectance: Option<Animation<real>>)
      requires AllDefined(offset, brightness, reflectance)
      ensures this.entity == entity && this.offset == offset
      ensures this.brightness == brightness && this.reflectance == reflectance
      ensures timeElapsed == 0.0 && offsetValue == Zero && brightnessValue == 1.0 && reflectanceValue == 0.0
    {
      this.entity := entity;
      this.offset := offset;
      this.brightness := brightness;
      this.reflectance := reflectance;
      timeElapsed := 0.0;
      offsetValue := Zero;
      brightnessValue := 1.0;
      reflectanceValue := 0.0;
    }

    /** Update(dt): the clock moves by dt and every animation is sampled at the new time. */
    method Update(dt: real)
      requires AllDefined(offset, brightness, reflectance)
      modifies this
      ensures timeElapsed == old(timeElapsed) + dt
      ensures Synced()
    {
      timeElapsed := timeElapsed + dt;
      offsetValue := SampleOr(offset, timeElapsed, Zero);
      brightnessValue := SampleOr(brightness, timeElapsed, 1.0);
      reflectanceValue := SampleOr(reflectance, timeElapsed, 0.0);
    }

    /** Hit: the child queried from origin - offset, its hit moved by +offset and given the cached material. */
    function Hit(ray: Ray, tMin: real, tMax: real): (r: Option<HitRecord>)
      reads this
      ensures var h := entity.hit(Ray(Sub(ray.origin, offsetValue), ray.direction), tMin, tMax);
        && (r.None? <==> h.None?)
        && (r.Some? ==> r.value.t == h.value.t && r.value.normal == h.value.normal
                        && Sub(r.value.point, offsetValue) == h.value.point
                        && r.value.brightness == brightnessValue && r.value.reflectance == reflectanceValue)
    {
      ApplyHit(entity.hit, offsetValue, brightnessValue, reflectanceValue)(ray, tMin, tMax)
    }

    /** Illuminate: the child's light at the point moved into its frame, the occluder moved too, times the brightness. */
    function Illuminate(target: HitTest, rec: HitRecord): real
      reads this
    {
      entity.illuminate(ApplyHit(target, Neg(offsetValue), 1.0, 0.0), rec.(point := Sub(rec.point, offsetValue)))
        * brightnessValue
    }

    /** The entity the wrapper is until its next Update. */
    function Snapshot(): (e: Entity)
      reads this
      ensures e.animated
      ensures forall ray: Ray, tMin: real, tMax: real :: e.hit(ray, tMin, tMax) == Hit(ray, tMin, tMax)
      ensures forall target: HitTest, rec: HitRecord :: e.illuminate(target, rec) == Illuminate(target, rec)
    {
      var a := SrcIEntity.Apply(entity, offsetValue, brightnessValue, reflectanceValue);
      Entity(a.hit, a.illuminate, true)
    }
  }

  /**
   * Between updates the wrapper hits and lights exactly as the newest generation's Apply
   * wrapper with the cached offset, brightness and reflectance.
   */
  lemma SnapshotIsApply(a: Animated, ray: Ray, tMin: real, tMax: real, target: HitTest, rec: HitRecord)
    ensures var w := SrcIEntity.Apply(a.entity, a.offsetValue, a.brightnessValue, a.reflectanceValue);
      && a.Hit(ray, tMin, tMax) == w.hit(ray, tMin, tMax)
      && a.Illuminate(target, rec) == w.illuminate(target, rec)
  {
  }

  /** Two wrappers of the same animations whose clocks agree hold the same cache once synced. */
  lemma CacheFollowsClock(a: Animated, b: Animated)
    requires a.offset == b.offset && a.brightness == b.brightness && a.reflectance == b.reflectance
    requires a.Synced() && b.Synced() && a.timeElapsed == b.timeElapsed
    ensures a.offsetValue == b.offsetValue && a.brightnessValue == b.brightnessValue
    ensures a.reflectanceValue == b.reflectanceValue
  {
  }

  /** Without animations a synced wrapper holds the defaults: no offset, brightness 1, reflectance 0. */
  lemma NoAnimationsKeepDefaults(a: Animated)
    requires a.offset.None? && a.brightness.None? && a.reflectance.None?
    requires a.Synced()
    ensures a.offsetValue == Zero && a.brightnessValue == 1.0 && a.reflectanceValue == 0.0
  {
  }

  /** An animated wrapper of a nearest-hit entity is, between updates, a nearest-hit entity. */
  lemma AnimatedNearest(a: Animated)
    requires Nearest(a.entity.hit, TimeOf)
    ensures Nearest(a.Snapshot().hit, TimeOf)
  {
    SrcIEntity.ApplyNearest(a.entity.hit, a.offsetValue, a.brightnessValue, a.reflectanceValue);
  }
}
