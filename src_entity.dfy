/**
 * src/Entity/Entity.cs: the entity combinators (Group, Lights, And), the light source and
 * the flat shapes (Plane, Circle, Rect) of the newest generation.
 */
module SrcEntity {
  import opened Wrappers
  import opened Numerics
  import opened HitSearch
  import opened SrcPrimitives
  import opened SrcIEntity

  /** The hit tests of a list of entities, in order. */
  function HitTests(es: seq<Entity>): (ps: seq<HitTest>)
    ensures |ps| == |es|
    ensures forall i :: 0 <= i < |es| ==> ps[i] == es[i].hit
  {
    seq(|es|, i requires 0 <= i < |es| => es[i].hit)
  }

  /**
   * The cache `[.. entities.OfType<IAnimatedEntity>()]` built at construction, as the
   * positions of the animated members: every animated member, only those, in order.
   */
  function AnimatedOf(es: seq<Entity>): (idx: seq<nat>)
    ensures forall k :: 0 <= k < |idx| ==> idx[k] < |es| && es[idx[k]].animated
    ensures forall i :: 0 <= i < |es| && es[i].animated ==> i in idx
    ensures forall k, l :: 0 <= k < l < |idx| ==> idx[k] < idx[l]
  {
    if |es| == 0 then []
    else AnimatedOf(es[..|es| - 1]) + (if es[|es| - 1].animated then [|es| - 1] else [])
  }

  /** A call `member.Update(timeElapsed)` made on the member at `index`. */
  datatype UpdateCall = UpdateCall(index: nat, timeElapsed: real)

  /** The calls an Update loop over a cache makes. */
  ghost predicate UpdatesExactly(es: seq<Entity>, calls: seq<UpdateCall>, timeElapsed: real) {
    && (forall k :: 0 <= k < |calls| ==>
          calls[k].index < |es| && es[calls[k].index].animated && calls[k].timeElapsed == timeElapsed)
    && (forall i :: 0 <= i < |es| && es[i].animated ==> exists k :: 0 <= k < |calls| && calls[k].index == i)
    && (forall k, l :: 0 <= k < l < |calls| ==> calls[k].index < calls[l].index)
  }

  // ---------------------------------------------------------------- Group

  datatype Group = Group(entities: seq<Entity>)

  /** Group.Hit: each child is tested with tMax lowered to the last hit's T. */
  method GroupHit(g: Group, ray: Ray, tMin: real, tMax0: real) returns (hitRecord: Option<HitRecord>)
    ensures hitRecord == Scan(HitTests(g.entities), ray, tMin, tMax0, TimeOf)
  {
    var ps := HitTests(g.entities);
    var tMax := tMax0;
    hitRecord := None;
    var i := 0;
    while i < |g.entities|
      invariant 0 <= i <= |g.entities|
      invariant Continue(hitRecord, Scan(ps[i..], ray, tMin, tMax, TimeOf)) == Scan(ps, ray, tMin, tMax0, TimeOf)
      invariant hitRecord.Some? ==> tMax == hitRecord.value.t
    {
      ScanStep(ps, i, ray, tMin, tMax, hitRecord, TimeOf);
      var h := g.entities[i].hit(ray, tMin, tMax);
      if h.Some? {
        hitRecord := h;
        tMax := h.value.t;
      }
      i := i + 1;
    }
  }

  /**
   * Group.Hit with children that report their nearest hits: null iff no child hits the full
   * range; otherwise one child's hit whose T is no larger than any child's.
   */
  lemma GroupHitNearest(g: Group, ray: Ray, tMin: real, tMax: real)
    requires forall i :: 0 <= i < |g.entities| ==> Nearest(g.entities[i].hit, TimeOf)
    ensures var r := Scan(HitTests(g.entities), ray, tMin, tMax, TimeOf);
      && (r.None? <==> forall i :: 0 <= i < |g.entities| ==> g.entities[i].hit(ray, tMin, tMax).None?)
      && (r.Some? ==>
           && (exists i :: 0 <= i < |g.entities| && g.entities[i].hit(ray, tMin, tMax) == r)
           && forall i :: 0 <= i < |g.entities| && g.entities[i].hit(ray, tMin, tMax).Some? ==>
                r.value.t <= g.entities[i].hit(ray, tMin, tMax).value.t)
  {
    var ps := HitTests(g.entities);
    ScanFindsNearest(ps, ray, tMin, tMax, TimeOf);
  }

  /** A tie goes to the later child: its hit replaces an earlier one with the same T. */
  lemma GroupLaterWinsTie(g: Group, ray: Ray, tMin: real, tMax: real, i: nat)
    requires forall k :: 0 <= k < |g.entities| ==> Nearest(g.entities[k].hit, TimeOf)
    requires i < |g.entities| && g.entities[i].hit(ray, tMin, tMax).Some?
    requires forall k :: 0 <= k < |g.entities| && g.entities[k].hit(ray, tMin, tMax).Some? ==>
               g.entities[i].hit(ray, tMin, tMax).value.t <= g.entities[k].hit(ray, tMin, tMax).value.t
    requires forall k :: i < k < |g.entities| ==> g.entities[k].hit(ray, tMin, tMax).None?
    ensures Scan(HitTests(g.entities), ray, tMin, tMax, TimeOf) == g.entities[i].hit(ray, tMin, tMax)
  {
    var ps := HitTests(g.entities);
    ScanIsBest(ps, ray, tMin, tMax, TimeOf);
    var hs := FullHits(ps, ray, tMin, tMax);
    if Best(None, hs[..i], TimeOf).Some? {
      BestIsNearest(None, hs[..i], TimeOf);
      var j :| 0 <= j < i && hs[..i][j] == Best(None, hs[..i], TimeOf);
      assert hs[j] == g.entities[j].hit(ray, tMin, tMax);
    }
    BestLaterWinsTie(None, hs, TimeOf, i);
    assert hs == hs[..i + 1] + hs[i + 1..];
    BestSuffixMisses(Best(None, hs[..i + 1], TimeOf), hs[..i + 1], hs[i + 1..]);
  }

  /** Skipping candidates that all miss leaves the best hit unchanged. */
  lemma {:induction false} BestSuffixMisses(acc: Option<HitRecord>, prefix: seq<Option<HitRecord>>, rest: seq<Option<HitRecord>>)
    requires acc == Best(None, prefix, TimeOf)
    requires forall k :: 0 <= k < |rest| ==> rest[k].None?
    ensures Best(None, prefix + rest, TimeOf) == acc
    decreases |rest|
  {
    if |rest| > 0 {
      var front := prefix + rest[..|rest| - 1];
      BestSnoc(None, front, rest[|rest| - 1], TimeOf);
      assert prefix + rest == front + [rest[|rest| - 1]];
      BestSuffixMisses(acc, prefix, rest[..|rest| - 1]);
      assert rest[|rest| - 1].None?;
    } else {
      assert prefix + rest == prefix;
    }
  }

  /** Group.Update: calls Update on the cached animated children, in order. */
  method GroupUpdate(g: Group, timeElapsed: real) returns (calls: seq<UpdateCall>)
    ensures UpdatesExactly(g.entities, calls, timeElapsed)
  {
    var animatedEntities := AnimatedOf(g.entities);
    calls := [];
    var k := 0;
    while k < |animatedEntities|
      invariant 0 <= k <= |animatedEntities|
      invariant |calls| == k
      invariant forall j :: 0 <= j < k ==> calls[j] == UpdateCall(animatedEntities[j], timeElapsed)
    {
      calls := calls + [UpdateCall(animatedEntities[k], timeElapsed)];
      k := k + 1;
    }
    forall i | 0 <= i < |g.entities| && g.entities[i].animated
      ensures exists j :: 0 <= j < |calls| && calls[j].index == i
    {
      var j :| 0 <= j < |animatedEntities| && animatedEntities[j] == i;
      assert calls[j].index == i;
    }
  }

  /** A group as an entity: its hit is the scan, its illumination the default. */
  function GroupEntity(g: Group): (e: Entity)
    ensures e.animated
  {
    Entity(ScanProbe(HitTests(g.entities), TimeOf), DefaultEntity().illuminate, true)
  }

  /** A group of nearest-hit children is itself a nearest-hit entity (groups nest). */
  lemma GroupEntityNearest(g: Group)
    requires forall i :: 0 <= i < |g.entities| ==> Nearest(g.entities[i].hit, TimeOf)
    ensures Nearest(GroupEntity(g).hit, TimeOf)
  {
    ScanNearest(HitTests(g.entities), TimeOf);
  }

  // ---------------------------------------------------------------- Lights

  datatype Lights = Lights(sources: seq<Entity>)

  /** The sum of the first sources' contributions, accumulated left to right. */
  function LightSum(sources: seq<Entity>, target: HitTest, rec: HitRecord): real {
    if |sources| == 0 then 0.0
    else LightSum(sources[..|sources| - 1], target, rec) + sources[|sources| - 1].illuminate(target, rec)
  }

  /** Lights.Illuminate: acc += source.Illuminate(target, record) over every source. */
  method LightsIlluminate(l: Lights, target: HitTest, rec: HitRecord) returns (acc: real)
    ensures acc == LightSum(l.sources, target, rec)
  {
    acc := 0.0;
    var i := 0;
    while i < |l.sources|
      invariant 0 <= i <= |l.sources|
      invariant acc == LightSum(l.sources[..i], target, rec)
    {
      assert l.sources[..i + 1][..i] == l.sources[..i];
      acc := acc + l.sources[i].illuminate(target, rec);
      i := i + 1;
    }
    assert l.sources[..i] == l.sources;
  }

  /** No sources give 0; sources that each give at least 0 give at least 0 together. */
  lemma {:induction false} LightSumNonNegative(sources: seq<Entity>, target: HitTest, rec: HitRecord)
    requires forall i :: 0 <= i < |sources| ==> sources[i].illuminate(target, rec) >= 0.0
    ensures LightSum(sources, target, rec) >= 0.0
    ensures |sources| == 0 ==> LightSum(sources, target, rec) == 0.0
    decreases |sources|
  {
    if |sources| > 0 {
      LightSumNonNegative(sources[..|sources| - 1], target, rec);
    }
  }

  /** Adding a source adds its contribution: the sum does not depend on how the list was split. */
  lemma {:induction false} LightSumAppend(a: seq<Entity>, b: seq<Entity>, target: HitTest, rec: HitRecord)
    ensures LightSum(a + b, target, rec) == LightSum(a, target, rec) + LightSum(b, target, rec)
    decreases |b|
  {
    if |b| > 0 {
      assert (a + b)[..|a + b| - 1] == a + b[..|b| - 1];
      LightSumAppend(a, b[..|b| - 1], target, rec);
    } else {
      assert a + b == a;
    }
  }

  /** Lights.Update: calls Update on the cached animated sources, in order. */
  method LightsUpdate(l: Lights, timeElapsed: real) returns (calls: seq<UpdateCall>)
    ensures UpdatesExactly(l.sources, calls, timeElapsed)
  {
    var animatedSources := AnimatedOf(l.sources);
    calls := [];
    var k := 0;
    while k < |animatedSources|
      invariant 0 <= k <= |animatedSources|
      invariant |calls| == k
      invariant forall j :: 0 <= j < k ==> calls[j] == UpdateCall(animatedSources[j], timeElapsed)
    {
      calls := calls + [UpdateCall(animatedSources[k], timeElapsed)];
      k := k + 1;
    }
    forall i | 0 <= i < |l.sources| && l.sources[i].animated
      ensures exists j :: 0 <= j < |calls| && calls[j].index == i
    {
      var j :| 0 <= j < |animatedSources| && animatedSources[j] == i;
      assert calls[j].index == i;
    }
  }

  /** Lights as an entity: no hit, illumination the sum. */
  function LightsEntity(l: Lights): (e: Entity)
    ensures e.animated
  {
    Entity(DefaultEntity().hit, (target: HitTest, rec: HitRecord) => LightSum(l.sources, target, rec), true)
  }

  // ---------------------------------------------------------------- LightSource

  /** The shadow ray from the hit point towards the light at the origin. */
  function LightRay(m: Maths, rec: HitRecord): Ray {
    Ray(rec.point, m.normalize(Neg(rec.point)))
  }

  /**
   * LightSource.Illuminate: nothing when the occluder blocks the light ray in
   * [0.001, float.MaxValue]; otherwise brightness times the cosine term, never negative.
   */
  function LightSourceIlluminate(m: Maths, target: HitTest, rec: HitRecord): (r: real)
    ensures r >= 0.0
    ensures target(LightRay(m, rec), 0.001, FloatMax).Some? ==> r == 0.0
    ensures target(LightRay(m, rec), 0.001, FloatMax).None? ==>
      var lit := rec.brightness * Dot(rec.normal, LightRay(m, rec).direction);
      r >= lit && (r == lit || r == 0.0)
  {
    var lightRay := LightRay(m, rec);
    if target(lightRay, 0.001, FloatMax).None?
    then Max(rec.brightness * Dot(rec.normal, lightRay.direction), 0.0)
    else 0.0
  }

  function LightSource(m: Maths): (e: Entity)
    ensures !e.animated
  {
    Entity(DefaultEntity().hit, (target: HitTest, rec: HitRecord) => LightSourceIlluminate(m, target, rec), false)
  }

  /** Lights made only of light sources never give negative light. */
  lemma LightSourcesNonNegative(m: Maths, sources: seq<Entity>, target: HitTest, rec: HitRecord)
    requires forall i :: 0 <= i < |sources| ==> sources[i] == LightSource(m)
    ensures LightSum(sources, target, rec) >= 0.0
  {
    LightSumNonNegative(sources, target, rec);
  }

  // ---------------------------------------------------------------- And

  /** And.Hit: right is searched up to left's T when left hits, over the full range otherwise. */
  function AndHit(left: HitTest, right: HitTest, ray: Ray, tMin: real, tMax: real): Option<HitRecord> {
    var l := left(ray, tMin, tMax);
    if l.Some? then
      var r := right(ray, tMin, l.value.t);
      if r.Some? then r else l
    else right(ray, tMin, tMax)
  }

  /** And is the two-child group scan. */
  lemma AndIsScan(left: HitTest, right: HitTest, ray: Ray, tMin: real, tMax: real)
    ensures AndHit(left, right, ray, tMin, tMax) == Scan([left, right], ray, tMin, tMax, TimeOf)
  {
    var l := left(ray, tMin, tMax);
    var hi := if l.Some? then l.value.t else tMax;
    assert [left, right][1..] == [right];
    assert [right][1..] == [];
    assert Scan([right], ray, tMin, hi, TimeOf) == Continue(right(ray, tMin, hi), Scan([], ray, tMin, hi, TimeOf));
  }

  function And(left: Entity, right: Entity): (e: Entity)
    ensures !e.animated
  {
    Entity(
      (ray: Ray, tMin: real, tMax: real) => AndHit(left.hit, right.hit, ray, tMin, tMax),
      (target: HitTest, rec: HitRecord) => left.illuminate(target, rec) + right.illuminate(target, rec),
      false)
  }

  /**
   * And of two nearest-hit entities: it misses iff both miss, otherwise it returns the
   * nearer hit, the right one on a tie; And is itself a nearest-hit entity.
   */
  lemma AndNearest(left: Entity, right: Entity, ray: Ray, tMin: real, tMax: real)
    requires Nearest(left.hit, TimeOf) && Nearest(right.hit, TimeOf)
    ensures var l := left.hit(ray, tMin, tMax);
      var r := right.hit(ray, tMin, tMax);
      var a := And(left, right).hit(ray, tMin, tMax);
      && (a.None? <==> l.None? && r.None?)
      && (l.None? ==> a == r)
      && (r.None? ==> a == l)
      && (l.Some? && r.Some? ==> a == if r.value.t <= l.value.t then r else l)
    ensures Nearest(And(left, right).hit, TimeOf)
  {
    var ps := [left.hit, right.hit];
    assert AllNearest(ps, TimeOf);
    AndIsScan(left.hit, right.hit, ray, tMin, tMax);
    ScanIsBest(ps, ray, tMin, tMax, TimeOf);
    assert FullHits(ps, ray, tMin, tMax)[1..][1..] == [];
    ScanNearest(ps, TimeOf);
    forall q: Ray, lo: real, hi: real ensures And(left, right).hit(q, lo, hi) == ScanProbe(ps, TimeOf)(q, lo, hi) {
      AndIsScan(left.hit, right.hit, q, lo, hi);
    }
    NearestByAgreement(ScanProbe(ps, TimeOf), And(left, right).hit, TimeOf);
  }

  // ---------------------------------------------------------------- flat shapes

  /** The ray parameter at which the ray crosses the plane through the origin normal to the axis. */
  function PlaneT(axis: Axis, ray: Ray): real
    requires GetAxis(axis, ray.direction) != 0.0
  {
    -GetAxis(axis, ray.origin) / GetAxis(axis, ray.direction)
  }

  /**
   * Plane<A>.Hit. A ray parallel to the plane makes the source divide by zero; the model
   * reports a miss there.
   */
  function PlaneHit(axis: Axis, ray: Ray, tMin: real, tMax: real): (r: Option<HitRecord>)
    ensures r.Some? <==> GetAxis(axis, ray.direction) != 0.0 && tMin <= PlaneT(axis, ray) <= tMax
    ensures r.Some? ==>
      && r.value.t == PlaneT(axis, ray)
      && Sub(r.value.point, ray.origin) == Scale(ray.direction, r.value.t)
      && GetAxis(axis, r.value.point) == 0.0
      && r.value.normal == Unit(axis)
      && r.value.brightness == 1.0 && r.value.reflectance == 0.0
  {
    if GetAxis(axis, ray.direction) == 0.0 then None
    else
      var t := PlaneT(axis, ray);
      if t < tMin || t > tMax then None
      else
        PlaneOnAxis(axis, ray);
        Some(NewRecord(t, PointAt(ray, t), Unit(axis)))
  }

  /** The crossing point has axis component 0. */
  lemma PlaneOnAxis(axis: Axis, ray: Ray)
    requires GetAxis(axis, ray.direction) != 0.0
    ensures GetAxis(axis, PointAt(ray, PlaneT(axis, ray))) == 0.0
  {
    var o := GetAxis(axis, ray.origin);
    var d := GetAxis(axis, ray.direction);
    assert GetAxis(axis, PointAt(ray, PlaneT(axis, ray))) == o + d * (-o / d);
  }

  function PlaneProbe(axis: Axis): HitTest {
    (ray: Ray, tMin: real, tMax: real) => PlaneHit(axis, ray, tMin, tMax)
  }

  lemma PlaneNearest(axis: Axis)
    ensures Nearest(PlaneProbe(axis), TimeOf)
  {
  }

  /** Circle<A>(radius) keeps a plane hit whose point is at most `radius` from the origin. */
  function InDisc(m: Maths, radius: real): HitRecord -> bool {
    (rec: HitRecord) => !(m.sqrt(Dot(rec.point, rec.point)) > radius)
  }

  function CircleHit(axis: Axis, radius: real, m: Maths, ray: Ray, tMin: real, tMax: real): (r: Option<HitRecord>)
    ensures r.Some? <==> PlaneHit(axis, ray, tMin, tMax).Some?
                         && m.sqrt(Dot(PlaneHit(axis, ray, tMin, tMax).value.point, PlaneHit(axis, ray, tMin, tMax).value.point)) <= radius
    ensures r.Some? ==> r == PlaneHit(axis, ray, tMin, tMax)
  {
    Filter(PlaneHit(axis, ray, tMin, tMax), InDisc(m, radius))
  }

  function CircleProbe(axis: Axis, radius: real, m: Maths): HitTest {
    (ray: Ray, tMin: real, tMax: real) => CircleHit(axis, radius, m, ray, tMin, tMax)
  }

  lemma CircleNearest(axis: Axis, radius: real, m: Maths)
    ensures Nearest(CircleProbe(axis, radius, m), TimeOf)
  {
    PlaneNearest(axis);
    FilterNearest(PlaneProbe(axis), InDisc(m, radius), TimeOf);
    NearestByAgreement(FilterProbe(PlaneProbe(axis), InDisc(m, radius)), CircleProbe(axis, radius, m), TimeOf);
  }

  /** Rect<A>(width, height) keeps a plane hit whose main and secondary components lie in [0, width] and [0, height]. */
  function InRect(axis: Axis, width: real, height: real): HitRecord -> bool {
    (rec: HitRecord) =>
      !(GetMain(axis, rec.point) < 0.0 || GetMain(axis, rec.point) > width
        || GetSecondary(axis, rec.point) < 0.0 || GetSecondary(axis, rec.point) > height)
  }

  function RectHit(axis: Axis, width: real, height: real, ray: Ray, tMin: real, tMax: real): (r: Option<HitRecord>)
    ensures r.Some? <==>
      var p := PlaneHit(axis, ray, tMin, tMax);
      p.Some? && 0.0 <= GetMain(axis, p.value.point) <= width && 0.0 <= GetSecondary(axis, p.value.point) <= height
    ensures r.Some? ==> r == PlaneHit(axis, ray, tMin, tMax)
  {
    Filter(PlaneHit(axis, ray, tMin, tMax), InRect(axis, width, height))
  }

  function RectProbe(axis: Axis, width: real, height: real): HitTest {
    (ray: Ray, tMin: real, tMax: real) => RectHit(axis, width, height, ray, tMin, tMax)
  }

  lemma RectNearest(axis: Axis, width: real, height: real)
    ensures Nearest(RectProbe(axis, width, height), TimeOf)
  {
    PlaneNearest(axis);
    FilterNearest(PlaneProbe(axis), InRect(axis, width, height), TimeOf);
    NearestByAgreement(FilterProbe(PlaneProbe(axis), InRect(axis, width, height)), RectProbe(axis, width, height), TimeOf);
  }
}
