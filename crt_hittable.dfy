/**
 * ConsoleRayTracer/Shape.cs, ConsoleRayTracer/Hittable/World.cs and
 * ConsoleRayTracer/Hittable/Wrapper.cs: the hittable shapes of the oldest files of the
 * middle generation. Shape.cs and Hittable/World.cs hold the same World, Plane and Sphere,
 * and Translate appears in both Shape.cs and Hittable/Wrapper.cs, so each is modelled once.
 * Their hit record says which face of the surface was hit and carries the material.
 */
module CrtHittable {
  import opened Wrappers
  import opened Numerics
  import opened HitSearch
  import opened SrcPrimitives
  import opened CrtRay
  import SrcIEntity

  datatype HitRecord = HitRecord(t: real, point: Vec3, normal: Vec3, frontFace: bool, brightness: real, reflection: real)

  function TimeOf(r: HitRecord): real { r.t }

  /** IHittable.Hit(ray, tMin, tMax). */
  type Hittable = Probe<Ray, HitRecord>

  // ---------------------------------------------------------------- World

  /** World.Hit: each hittable is tested with the upper bound lowered to the last hit's T. */
  method WorldHit(hittables: seq<Hittable>, ray: Ray, tMin: real, tMax: real) returns (hitRecord: Option<HitRecord>)
    ensures hitRecord == Scan(hittables, ray, tMin, tMax, TimeOf)
  {
    var closest := tMax;
    hitRecord := None;
    var i := 0;
    while i < |hittables|
      invariant 0 <= i <= |hittables|
      invariant Continue(hitRecord, Scan(hittables[i..], ray, tMin, closest, TimeOf)) == Scan(hittables, ray, tMin, tMax, TimeOf)
      invariant hitRecord.Some? ==> closest == hitRecord.value.t
    {
      ScanStep(hittables, i, ray, tMin, closest, hitRecord, TimeOf);
      var record := hittables[i](ray, tMin, closest);
      if record.Some? {
        closest := record.value.t;
        hitRecord := record;
      }
      i := i + 1;
    }
  }

  /**
   * World.Hit over hittables that report their nearest hits: null iff none of them hits the
   * full range; otherwise one of their hits, with a T no larger than any of theirs.
   */
  lemma WorldHitNearest(hittables: seq<Hittable>, ray: Ray, tMin: real, tMax: real)
    requires AllNearest(hittables, TimeOf)
    ensures var r := Scan(hittables, ray, tMin, tMax, TimeOf);
      && (r.None? <==> forall i :: 0 <= i < |hittables| ==> hittables[i](ray, tMin, tMax).None?)
      && (r.Some? ==>
           && (exists i :: 0 <= i < |hittables| && hittables[i](ray, tMin, tMax) == r)
           && forall i :: 0 <= i < |hittables| && hittables[i](ray, tMin, tMax).Some? ==>
                r.value.t <= hittables[i](ray, tMin, tMax).value.t)
  {
    ScanFindsNearest(hittables, ray, tMin, tMax, TimeOf);
  }

  // ---------------------------------------------------------------- Translate

  /** The child's hit moved back by the offset; T, normal, face and material are kept. */
  function MovedBy(offset: Vec3): HitRecord -> HitRecord {
    (r: HitRecord) => r.(point := Add(r.point, offset))
  }

  /** Translate<H>(Hittable, Offset): the child queried with its origin moved by -Offset. */
  function Translate(h: Hittable, offset: Vec3): Hittable {
    MapProbe(h, SrcIEntity.ShiftBy(offset), MovedBy(offset))
  }

  /**
   * Translate queries the child with origin - Offset and the same direction and bounds; it
   * misses iff the child misses, and otherwise returns the child's record with only the
   * point moved, by +Offset.
   */
  lemma TranslateRecord(h: Hittable, offset: Vec3, ray: Ray, lo: real, hi: real)
    ensures var c := h(Ray(Sub(ray.origin, offset), ray.direction), lo, hi);
      var r := Translate(h, offset)(ray, lo, hi);
      && (r.None? <==> c.None?)
      && (r.Some? ==> r.value == c.value.(point := Add(c.value.point, offset)))
  {
  }

  /** A zero offset leaves the child's answers unchanged. */
  lemma TranslateZero(h: Hittable, ray: Ray, lo: real, hi: real)
    ensures Translate(h, Zero)(ray, lo, hi) == h(ray, lo, hi)
  {
    assert Ray(Sub(ray.origin, Zero), ray.direction) == ray;
    var c := h(ray, lo, hi);
    if c.Some? {
      assert Add(c.value.point, Zero) == c.value.point;
    }
  }

  /** Translating twice is translating once by the sum of the offsets. */
  lemma TranslateTwice(h: Hittable, a: Vec3, b: Vec3, ray: Ray, lo: real, hi: real)
    ensures Translate(Translate(h, a), b)(ray, lo, hi) == Translate(h, Add(a, b))(ray, lo, hi)
  {
    assert Sub(Sub(ray.origin, b), a) == Sub(ray.origin, Add(a, b));
    var c := h(Ray(Sub(ray.origin, Add(a, b)), ray.direction), lo, hi);
    if c.Some? {
      assert Add(Add(c.value.point, a), b) == Add(c.value.point, Add(a, b));
    }
  }

  /** Translating keeps a hittable a nearest one. */
  lemma TranslateNearest(h: Hittable, offset: Vec3)
    requires Nearest(h, TimeOf)
    ensures Nearest(Translate(h, offset), TimeOf)
  {
    MapNearest(h, SrcIEntity.ShiftBy(offset), MovedBy(offset), TimeOf);
  }

  // ---------------------------------------------------------------- Plane

  /** A plane through the origin with the given normal and material. */
  datatype Plane = Plane(normal: Vec3, brightness: real, reflection: real)

  /** Where the ray crosses the plane: Dot(-Origin, Normal) / Dot(Direction, Normal). */
  function PlaneT(p: Plane, ray: Ray): real
    requires Dot(ray.direction, p.normal) != 0.0
  {
    Dot(Neg(ray.origin), p.normal) / Dot(ray.direction, p.normal)
  }

  /**
   * Plane.Hit: a miss for a ray parallel to the plane or a crossing outside [tMin, tMax];
   * otherwise the crossing point, which lies on the plane, with the plane's normal turned
   * against the ray, the face flag, and the plane's material.
   */
  function PlaneHit(p: Plane, ray: Ray, tMin: real, tMax: real): (r: Option<HitRecord>)
    ensures r.Some? <==> Dot(ray.direction, p.normal) != 0.0 && tMin <= PlaneT(p, ray) <= tMax
    ensures r.Some? ==>
      && r.value.t == PlaneT(p, ray)
      && r.value.point == PointAt(ray, r.value.t)
      && Dot(r.value.point, p.normal) == 0.0
      && (r.value.frontFace <==> Dot(ray.direction, p.normal) < 0.0)
      && (r.value.normal == p.normal || r.value.normal == Neg(p.normal))
      && Dot(ray.direction, r.value.normal) < 0.0
      && r.value.brightness == p.brightness && r.value.reflection == p.reflection
  {
    var denom := Dot(ray.direction, p.normal);
    if denom == 0.0 then None
    else
      var t := PlaneT(p, ray);
      if t < tMin || t > tMax then None
      else
        PlaneThrough(p, ray);
        var faced := OppositeNormal(ray, p.normal);
        Some(HitRecord(t, PointAt(ray, t), faced.1, faced.0, p.brightness, p.reflection))
  }

  /** The crossing point lies on the plane. */
  lemma PlaneThrough(p: Plane, ray: Ray)
    requires Dot(ray.direction, p.normal) != 0.0
    ensures Dot(PointAt(ray, PlaneT(p, ray)), p.normal) == 0.0
  {
    var o, d, n := ray.origin, ray.direction, p.normal;
    var t := PlaneT(p, ray);
    assert Dot(Neg(o), n) == -Dot(o, n);
    assert t * Dot(d, n) == -Dot(o, n);
    DotAlong(o, d, n, t);
  }

  /** Dot(Origin + Direction·t, n) = Dot(Origin, n) + t·Dot(Direction, n). */
  lemma DotAlong(o: Vec3, d: Vec3, n: Vec3, t: real)
    ensures Dot(Add(o, Scale(d, t)), n) == Dot(o, n) + t * Dot(d, n)
  {
  }

  function PlaneProbe(p: Plane): Hittable {
    (ray: Ray, tMin: real, tMax: real) => PlaneHit(p, ray, tMin, tMax)
  }

  lemma PlaneNearest(p: Plane)
    ensures Nearest(PlaneProbe(p), TimeOf)
  {
  }

  // ---------------------------------------------------------------- Sphere

  /** A sphere centred on the origin with the given radius and material. */
  datatype Sphere = Sphere(radius: real, brightness: real, reflection: real)

  /** |Origin + t·Direction|² = Radius² written as a·t² + 2b·t + c = 0. */
  function QuadA(ray: Ray): real { Dot(ray.direction, ray.direction) }
  function QuadB(ray: Ray): real { Dot(ray.origin, ray.direction) }
  function QuadC(s: Sphere, ray: Ray): real { Dot(ray.origin, ray.origin) - s.radius * s.radius }

  function Discriminant(s: Sphere, ray: Ray): real {
    QuadB(ray) * QuadB(ray) - QuadA(ray) * QuadC(s, ray)
  }

  /** The nearer and the farther root, (-b ∓ sqrt(D)) / a. */
  function NearRoot(m: Maths, s: Sphere, ray: Ray): real
    requires QuadA(ray) != 0.0
  {
    (-QuadB(ray) - m.sqrt(Discriminant(s, ray))) / QuadA(ray)
  }

  function FarRoot(m: Maths, s: Sphere, ray: Ray): real
    requires QuadA(ray) != 0.0
  {
    (-QuadB(ray) + m.sqrt(Discriminant(s, ray))) / QuadA(ray)
  }

  /**
   * The root Sphere.Hit settles on: none for a negative discriminant; the near root when it
   * lies in [tMin, tMax], else the far root when that does, else none. A ray with a zero
   * direction makes the source divide 0 by 0; the model reports a miss there.
   */
  function SphereRoot(m: Maths, s: Sphere, ray: Ray, tMin: real, tMax: real): (r: Option<real>)
    ensures Discriminant(s, ray) < 0.0 ==> r.None?
    ensures r.Some? ==> tMin <= r.value <= tMax
    ensures r.Some? ==> QuadA(ray) != 0.0 && Discriminant(s, ray) >= 0.0
    ensures QuadA(ray) != 0.0 && Discriminant(s, ray) >= 0.0 ==>
      var near, far := NearRoot(m, s, ray), FarRoot(m, s, ray);
      && (tMin <= near <= tMax ==> r == Some(near))
      && (!(tMin <= near <= tMax) && tMin <= far <= tMax ==> r == Some(far))
      && (!(tMin <= near <= tMax) && !(tMin <= far <= tMax) ==> r.None?)
  {
    if Discriminant(s, ray) < 0.0 || QuadA(ray) == 0.0 then None
    else
      var root := NearRoot(m, s, ray);
      if root < tMin || root > tMax then
        var root' := FarRoot(m, s, ray);
        if root' < tMin || root' > tMax then None else Some(root')
      else Some(root)
  }

  /**
   * Sphere.Hit: the chosen root, the point there, the outward normal Point / Radius turned
   * against the ray with its face flag, and the sphere's material. A sphere of radius 0
   * makes the source divide by zero for the normal; the model reports a miss there.
   */
  function SphereHit(m: Maths, s: Sphere, ray: Ray, tMin: real, tMax: real): (r: Option<HitRecord>)
    ensures r.Some? <==> SphereRoot(m, s, ray, tMin, tMax).Some? && s.radius != 0.0
    ensures r.Some? ==>
      var outward := Scale(r.value.point, 1.0 / s.radius);
      && r.value.t == SphereRoot(m, s, ray, tMin, tMax).value
      && r.value.point == PointAt(ray, r.value.t)
      && (r.value.frontFace <==> Dot(ray.direction, outward) < 0.0)
      && (r.value.normal == outward || r.value.normal == Neg(outward))
      && Dot(ray.direction, r.value.normal) <= 0.0
      && r.value.brightness == s.brightness && r.value.reflection == s.reflection
  {
    var root := SphereRoot(m, s, ray, tMin, tMax);
    if root.None? || s.radius == 0.0 then None
    else
      var point := PointAt(ray, root.value);
      var faced := OppositeNormal(ray, Scale(point, 1.0 / s.radius));
      Some(HitRecord(root.value, point, faced.1, faced.0, s.brightness, s.reflection))
  }

  function SphereProbe(m: Maths, s: Sphere): Hittable {
    (ray: Ray, tMin: real, tMax: real) => SphereHit(m, s, ray, tMin, tMax)
  }

  /** With a non-negative square root the near root is never beyond the far one. */
  lemma RootsOrdered(m: Maths, s: Sphere, ray: Ray)
    requires SqrtNonNegative(m)
    requires QuadA(ray) != 0.0 && Discriminant(s, ray) >= 0.0
    ensures NearRoot(m, s, ray) <= FarRoot(m, s, ray)
  {
    var a, b, q := QuadA(ray), QuadB(ray), m.sqrt(Discriminant(s, ray));
    assert 0.0 <= q;
    assert a > 0.0 by {
      assert a == ray.direction.x * ray.direction.x + ray.direction.y * ray.direction.y + ray.direction.z * ray.direction.z;
    }
    assert FarRoot(m, s, ray) - NearRoot(m, s, ray) == (2.0 * q) / a;
  }

  /**
   * Narrowing the range keeps the chosen root when it still fits and otherwise finds none:
   * the sphere reports its nearest hit.
   */
  lemma SphereRootNarrow(m: Maths, s: Sphere, ray: Ray, lo: real, hi: real, hi2: real)
    requires SqrtNonNegative(m)
    requires hi2 <= hi
    ensures var r, r2 := SphereRoot(m, s, ray, lo, hi), SphereRoot(m, s, ray, lo, hi2);
      r2 == if r.Some? && r.value <= hi2 then r else None
  {
    if QuadA(ray) != 0.0 && Discriminant(s, ray) >= 0.0 {
      RootsOrdered(m, s, ray);
    }
  }

  /** With a non-negative square root a sphere reports its nearest hit, so it can sit in a World. */
  lemma SphereNearest(m: Maths, s: Sphere)
    requires SqrtNonNegative(m)
    ensures Nearest(SphereProbe(m, s), TimeOf)
  {
    var p := SphereProbe(m, s);
    forall ray: Ray, lo: real, hi: real, hi2: real | hi2 <= hi
      ensures p(ray, lo, hi2) == Narrow(p(ray, lo, hi), TimeOf, hi2)
    {
      SphereRootNarrow(m, s, ray, lo, hi, hi2);
    }
  }

  /**
   * With an exact square root the chosen root solves the sphere's equation: the hit point
   * lies on the sphere.
   */
  lemma SphereRootOnSurface(m: Maths, s: Sphere, ray: Ray, tMin: real, tMax: real)
    requires SqrtSquares(m)
    requires SphereRoot(m, s, ray, tMin, tMax).Some?
    ensures var p := PointAt(ray, SphereRoot(m, s, ray, tMin, tMax).value);
      Dot(p, p) == s.radius * s.radius
  {
    ChosenRootSolves(m, s, ray, tMin, tMax);
    RootOnSphere(s, ray, SphereRoot(m, s, ray, tMin, tMax).value);
  }

  /** A root of the sphere's quadratic is a time at which the ray is on the sphere. */
  lemma RootOnSphere(s: Sphere, ray: Ray, t: real)
    requires QuadA(ray) * t * t + 2.0 * QuadB(ray) * t + QuadC(s, ray) == 0.0
    ensures var p := PointAt(ray, t); Dot(p, p) == s.radius * s.radius
  {
    PointSquare(s, ray, t);
    var p := PointAt(ray, t);
    OnSurface(Dot(p, p), QuadA(ray), QuadB(ray), QuadC(s, ray), t, s.radius);
  }

  /** The squared distance of the ray's point at t, in the sphere's coefficients. */
  lemma PointSquare(s: Sphere, ray: Ray, t: real)
    ensures var p := PointAt(ray, t);
      Dot(p, p) == (QuadC(s, ray) + s.radius * s.radius) + 2.0 * t * QuadB(ray) + t * t * QuadA(ray)
  {
    var o, d := ray.origin, ray.direction;
    SquareAlong(o.x, d.x, t);
    SquareAlong(o.y, d.y, t);
    SquareAlong(o.z, d.z, t);
  }

  /** With an exact square root the chosen root solves a·t² + 2b·t + c = 0. */
  lemma ChosenRootSolves(m: Maths, s: Sphere, ray: Ray, tMin: real, tMax: real)
    requires SqrtSquares(m)
    requires SphereRoot(m, s, ray, tMin, tMax).Some?
    ensures var t := SphereRoot(m, s, ray, tMin, tMax).value;
      QuadA(ray) * t * t + 2.0 * QuadB(ray) * t + QuadC(s, ray) == 0.0
  {
    var a, b, c := QuadA(ray), QuadB(ray), QuadC(s, ray);
    var q := m.sqrt(Discriminant(s, ray));
    assert q * q == b * b - a * c;
    RootSolves(a, b, c, q, SphereRoot(m, s, ray, tMin, tMax).value);
  }

  /** A root (-b ± q) / a of the quadratic, with q² = b² - a·c, solves it. */
  lemma RootSolves(a: real, b: real, c: real, q: real, t: real)
    requires a != 0.0 && q * q == b * b - a * c
    requires t == (-b - q) / a || t == (-b + q) / a
    ensures a * t * t + 2.0 * b * t + c == 0.0
  {
    TimesQuotient(a, -b - q);
    TimesQuotient(a, -b + q);
    QuadraticRoot(a, b, c, q, t);
  }

  lemma TimesQuotient(a: real, x: real)
    requires a != 0.0
    ensures a * (x / a) == x
  {
  }

  /** At a root of the quadratic the squared distance is the radius squared. */
  lemma OnSurface(pp: real, a: real, b: real, c: real, t: real, r: real)
    requires pp == (c + r * r) + 2.0 * t * b + t * t * a
    requires a * t * t + 2.0 * b * t + c == 0.0
    ensures pp == r * r
  {
  }

  /** A root (-b ± q) / a with q² = b² - a·c solves a·t² + 2b·t + c = 0. */
  lemma QuadraticRoot(a: real, b: real, c: real, q: real, t: real)
    requires a != 0.0 && q * q == b * b - a * c
    requires a * t == -b - q || a * t == -b + q
    ensures a * t * t + 2.0 * b * t + c == 0.0
  {
    var u := a * t;
    assert u * u + 2.0 * b * u + a * c == 0.0;
    assert a * (a * t * t + 2.0 * b * t + c) == u * u + 2.0 * b * u + a * c;
  }

  lemma SquareAlong(o: real, d: real, t: real)
    ensures (o + d * t) * (o + d * t) == o * o + 2.0 * t * (o * d) + t * t * (d * d)
  {
  }
}
