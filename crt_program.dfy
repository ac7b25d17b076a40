/**
 * ConsoleRayTracer/Program.cs: the oldest renderer of the middle generation. RayTrace
 * follows a ray through a World of hittables lit by a Light (Light.Enlighten), reflecting
 * it off each hit; PixelColor traces the camera ray through a pixel of the 120 by 100
 * screen; RandomInRange stretches a uniform sample onto an interval.
 */
module CrtProgram {
  import opened Wrappers
  import opened Numerics
  import opened HitSearch
  import opened SrcPrimitives
  import opened CrtHittable
  import CrtLight
  import CrtCamera
  import CrtRenderer

  /** Screen.WIDTH and Screen.HEIGHT. */
  const Width: int := 120
  const Height: int := 100
  const DefaultDepth: nat := 50
  const TMin: real := 0.001
  /** float.MaxValue. */
  const TMax: real := FloatMax

  /** A World as a hittable: the nearest hit over its hittables (CrtHittable.WorldHit). */
  function WorldProbe(world: seq<Hittable>): Hittable {
    ScanProbe(world, TimeOf)
  }

  /** The scene RayTrace reads: the world, the light's sources, and the maths library. */
  datatype Scene = Scene(world: seq<Hittable>, sources: seq<CrtLight.LightSource>, m: Maths)

  function Hit(sc: Scene, ray: Ray): Option<HitRecord> {
    Scan(sc.world, ray, TMin, TMax, TimeOf)
  }

  /** light.Enlighten(world, record). */
  function Diffused(sc: Scene, rec: HitRecord): (r: real)
    ensures r >= 0.0
  {
    CrtLight.Total(sc.m, WorldProbe(sc.world), rec, sc.sources)
  }

  /** The reflected ray: from the hit point, the direction mirrored in the hit's normal. */
  function Bounce(ray: Ray, rec: HitRecord): Ray {
    Ray(rec.point, Reflect(ray.direction, rec.normal))
  }

  /**
   * RayTrace(world, light, ray, depth): 0 at depth 0 and on a miss; otherwise the clamped
   * blend of the reflected trace, one level down, and the light at the hit point.
   */
  function RayTrace(sc: Scene, ray: Ray, depth: nat): (r: real)
    ensures 0.0 <= r <= 1.0
    ensures depth == 0 ==> r == 0.0
    ensures Hit(sc, ray).None? ==> r == 0.0
    decreases depth
  {
    if depth == 0 then 0.0
    else match Hit(sc, ray)
      case None => 0.0
      case Some(record) =>
        var diffused := Diffused(sc, record);
        var k := record.reflection;
        Clamp(CrtRenderer.Blend(k, RayTrace(sc, Bounce(ray, record), depth - 1), diffused), 0.0, 1.0)
  }

  /**
   * A hit on a surface with reflection 0 shows its light, capped at 1; a hit on a surface
   * with reflection 1 shows what the reflected ray sees one level down.
   */
  lemma HitShading(sc: Scene, ray: Ray, depth: nat)
    requires depth > 0 && Hit(sc, ray).Some?
    ensures var rec := Hit(sc, ray).value;
      && (rec.reflection == 0.0 ==> RayTrace(sc, ray, depth) == Min(Diffused(sc, rec), 1.0))
      && (rec.reflection == 1.0 ==> RayTrace(sc, ray, depth) == RayTrace(sc, Bounce(ray, rec), depth - 1))
  {
  }

  /**
   * For a unit normal the reflection flips the component along the normal, so the reflected
   * direction has the length of the incoming one.
   */
  lemma ReflectMirrors(d: Vec3, n: Vec3)
    requires Dot(n, n) == 1.0
    ensures Dot(Reflect(d, n), n) == -Dot(d, n)
    ensures Dot(Reflect(d, n), Reflect(d, n)) == Dot(d, d)
  {
    var k := Dot(d, n);
    var r := Reflect(d, n);
    assert r == Sub(d, Scale(n, 2.0 * k));
    assert Dot(r, n) == k - 2.0 * k * Dot(n, n);
    assert Dot(r, r) == Dot(d, d) - 4.0 * k * k + 4.0 * k * k * Dot(n, n);
  }

  /** The pixel's coordinates on the screen: s = x / WIDTH and t = y / HEIGHT. */
  function PixelCoordinates(x: int, y: int): (st: (real, real))
    ensures 0 <= x < Width && 0 <= y < Height ==> 0.0 <= st.0 < 1.0 && 0.0 <= st.1 < 1.0
    ensures st.0 * (Width as real) == x as real && st.1 * (Height as real) == y as real
  {
    ((x as real) / (Width as real), (y as real) / (Height as real))
  }

  /** PixelColor(x, y, world, camera, light): the trace of the camera's ray through the pixel. */
  function PixelColor(x: int, y: int, sc: Scene, camera: CrtCamera.Camera): (r: real)
    reads camera
    ensures 0.0 <= r <= 1.0
    ensures var (s, t) := PixelCoordinates(x, y); Hit(sc, camera.GetRay(s, t)).None? ==> r == 0.0
  {
    var (s, t) := PixelCoordinates(x, y);
    RayTrace(sc, camera.GetRay(s, t), DefaultDepth)
  }

  /** RandomInRange(start, end) for the sample r that random.NextDouble() returned. */
  function RandomInRange(start: real, end: real, r: real): real {
    start + r * (end - start)
  }

  /** For a sample in [0, 1) and start < end, the result lies in [start, end). */
  lemma RandomInRangeBounds(start: real, end: real, r: real)
    requires 0.0 <= r < 1.0 && start < end
    ensures start <= RandomInRange(start, end, r) < end
  {
    var len := end - start;
    var x := r * len;
    PositiveProduct(r, len);
    PositiveProduct(1.0 - r, len);
    assert (1.0 - r) * len == len - x;
    assert len - x > 0.0;
    assert x < len;
    assert start + x < end;
    assert RandomInRange(start, end, r) == start + x;
  }

  /** The sample is recovered from the result whenever the interval is not empty. */
  lemma RandomInRangeInverse(start: real, end: real, r: real)
    requires start != end
    ensures (RandomInRange(start, end, r) - start) / (end - start) == r
  {
    Cancel(r, end - start);
  }

  lemma PositiveProduct(a: real, b: real)
    requires a >= 0.0 && b > 0.0
    ensures a * b >= 0.0
    ensures a > 0.0 ==> a * b > 0.0
  {
  }

  lemma Cancel(a: real, b: real)
    requires b != 0.0
    ensures (a * b) / b == a
  {
  }
}
