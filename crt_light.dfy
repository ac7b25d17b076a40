/**
 * ConsoleRayTracer/Light.cs (Light.Enlighten over a World) and
 * ConsoleRayTracer/Light/Light.cs (Light.Illuminate over any hittable): point light
 * sources with an intensity. Both loops are the same: each source that the occluder does
 * not shadow contributes intensity times the hit's brightness times the cosine between the
 * way to the light and the normal; a negative contribution is dropped; the rest are added.
 * The occluder is a hit test, so one model serves both (a World is
 * CrtProgram.WorldProbe of its hittables).
 */
module CrtLight {
  import opened Numerics
  import opened SrcPrimitives
  import opened CrtHittable

  datatype LightSource = LightSource(source: Vec3, intensity: real)

  const ShadowTMin: real := 0.001
  /** float.MaxValue. */
  const ShadowTMax: real := FloatMax

  /** The ray from the hit point towards the source. */
  function ToLight(m: Maths, rec: HitRecord, s: LightSource): Ray {
    Ray(rec.point, m.normalize(Sub(s.source, rec.point)))
  }

  function Shadowed(m: Maths, occluder: Hittable, rec: HitRecord, s: LightSource): bool {
    occluder(ToLight(m, rec, s), ShadowTMin, ShadowTMax).Some?
  }

  /** `diffused` for one source: 0 in shadow, else intensity * brightness * cosine. */
  function Diffused(m: Maths, occluder: Hittable, rec: HitRecord, s: LightSource): real {
    if Shadowed(m, occluder, rec, s) then 0.0
    else s.intensity * rec.brightness * Dot(ToLight(m, rec, s).direction, rec.normal)
  }

  /** What one source adds to the total: its diffused light when that is not negative. */
  function Kept(d: real): (r: real)
    ensures r >= 0.0
    ensures d >= 0.0 ==> r == d
    ensures d < 0.0 ==> r == 0.0
  {
    if d >= 0.0 then d else 0.0
  }

  /** The light from the sources, added up in order. */
  function Total(m: Maths, occluder: Hittable, rec: HitRecord, sources: seq<LightSource>): (r: real)
    ensures r >= 0.0
    ensures |sources| == 0 ==> r == 0.0
    decreases |sources|
  {
    if |sources| == 0 then 0.0
    else Total(m, occluder, rec, sources[..|sources| - 1]) + Kept(Diffused(m, occluder, rec, sources[|sources| - 1]))
  }

  /** Enlighten / Illuminate: the loop over the sources. */
  method Illuminate(m: Maths, occluder: Hittable, rec: HitRecord, sources: seq<LightSource>) returns (light: real)
    ensures light == Total(m, occluder, rec, sources)
  {
    light := 0.0;
    var i := 0;
    while i < |sources|
      invariant 0 <= i <= |sources|
      invariant light == Total(m, occluder, rec, sources[..i])
    {
      var s := sources[i];
      var toLight := Ray(rec.point, m.normalize(Sub(s.source, rec.point)));
      var diffused := 0.0;
      if occluder(toLight, ShadowTMin, ShadowTMax).None? {
        diffused := diffused + s.intensity * rec.brightness * Dot(toLight.direction, rec.normal);
      }
      if diffused >= 0.0 {
        light := light + diffused;
      }
      assert sources[..i + 1][..i] == sources[..i];
      i := i + 1;
    }
    assert sources[..|sources|] == sources;
  }

  /** Splitting the sources splits the light: the total over a + b is the total over a plus that over b. */
  lemma {:induction false} TotalAppend(m: Maths, occluder: Hittable, rec: HitRecord, a: seq<LightSource>, b: seq<LightSource>)
    ensures Total(m, occluder, rec, a + b) == Total(m, occluder, rec, a) + Total(m, occluder, rec, b)
    decreases |b|
  {
    if |b| > 0 {
      var b' := b[..|b| - 1];
      assert (a + b)[..|a + b| - 1] == a + b';
      assert (a + b)[|a + b| - 1] == b[|b| - 1];
      TotalAppend(m, occluder, rec, a, b');
    } else {
      assert a + b == a;
    }
  }

  /** One source on its own: nothing in shadow, else its cosine-weighted light when not negative. */
  lemma SingleSource(m: Maths, occluder: Hittable, rec: HitRecord, s: LightSource)
    ensures Shadowed(m, occluder, rec, s) ==> Total(m, occluder, rec, [s]) == 0.0
    ensures !Shadowed(m, occluder, rec, s) ==>
      Total(m, occluder, rec, [s]) == Max(s.intensity * rec.brightness * Dot(ToLight(m, rec, s).direction, rec.normal), 0.0)
  {
    assert [s][..0] == [];
  }

  /**
   * Adding a source that is shadowed changes nothing, and a source's share grows in
   * proportion to its intensity: scaling the intensity by c >= 0 scales its share by c.
   */
  lemma ShadowedAddsNothing(m: Maths, occluder: Hittable, rec: HitRecord, sources: seq<LightSource>, s: LightSource)
    requires Shadowed(m, occluder, rec, s)
    ensures Total(m, occluder, rec, sources + [s]) == Total(m, occluder, rec, sources)
  {
    assert (sources + [s])[..|sources|] == sources;
  }

  lemma IntensityScales(m: Maths, occluder: Hittable, rec: HitRecord, s: LightSource, c: real)
    requires c >= 0.0
    ensures Kept(Diffused(m, occluder, rec, s.(intensity := c * s.intensity)))
         == c * Kept(Diffused(m, occluder, rec, s))
  {
    var d := Diffused(m, occluder, rec, s);
    assert ToLight(m, rec, s.(intensity := c * s.intensity)) == ToLight(m, rec, s);
    if !Shadowed(m, occluder, rec, s) {
      var cosine := Dot(ToLight(m, rec, s).direction, rec.normal);
      assert Diffused(m, occluder, rec, s.(intensity := c * s.intensity)) == c * d by {
        assert (c * s.intensity) * rec.brightness * cosine == c * (s.intensity * rec.brightness * cosine);
      }
      if d < 0.0 && c > 0.0 {
        NegativeScaled(c, d);
      }
    }
  }

  lemma NegativeScaled(c: real, d: real)
    requires c > 0.0 && d < 0.0
    ensures c * d < 0.0
  {
  }
}
