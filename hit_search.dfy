/**
 * The nearest-hit search shared by every generation of the ray tracer.
 *
 * An entity's hit test is a probe: given a query (a ray), a lower bound tMin and an upper
 * bound tMax it either misses or reports a record whose ray parameter `t` lies in
 * [tMin, tMax]. Groups and worlds scan their children in order and lower tMax to the best
 * `t` found so far, so that a later child only reports a hit that is at least as near.
 * This module states that scan once, gives an independent reference definition of its
 * answer (the smallest `t`, with a later child winning a tie), and proves the two agree
 * when every child itself reports its nearest hit.
 */
module HitSearch {
  import opened Wrappers

  /** A hit test: query, tMin, tMax. */
  type Probe<-Q, R> = (Q, real, real) -> Option<R>

  /** Every reported hit lies in the searched range. */
  ghost predicate Bounded<Q(!new), R>(p: Probe<Q, R>, t: R -> real) {
    forall q: Q, lo: real, hi: real :: p(q, lo, hi).Some? ==> lo <= t(p(q, lo, hi).value) <= hi
  }

  /** Drop a hit that lies beyond `hi`. */
  function Narrow<R>(h: Option<R>, t: R -> real, hi: real): (r: Option<R>)
    ensures r.Some? ==> r == h && t(r.value) <= hi
    ensures h.Some? && t(h.value) <= hi ==> r == h
  {
    if h.Some? && t(h.value) <= hi then h else None
  }

  /**
   * A probe reports its nearest hit: searching a smaller range [lo, hi2] gives exactly the
   * answer for [lo, hi] when that answer is within hi2, and a miss otherwise.
   */
  ghost predicate Nearest<Q(!new), R>(p: Probe<Q, R>, t: R -> real) {
    && Bounded(p, t)
    && forall q: Q, lo: real, hi: real, hi2: real {:trigger p(q, lo, hi), p(q, lo, hi2)} ::
         hi2 <= hi ==> p(q, lo, hi2) == Narrow(p(q, lo, hi), t, hi2)
  }

  ghost predicate AllNearest<Q(!new), R>(ps: seq<Probe<Q, R>>, t: R -> real) {
    forall i :: 0 <= i < |ps| ==> Nearest(ps[i], t)
  }

  // ---------------------------------------------------------------- the scan

  /** The later answer if there is one, the earlier one otherwise. */
  function Continue<R>(earlier: Option<R>, later: Option<R>): (r: Option<R>)
    ensures r.Some? <==> earlier.Some? || later.Some?
    ensures later.Some? ==> r == later
  {
    if later.Some? then later else earlier
  }

  /**
   * The scan of Group.Hit / World.Hit: each child is queried with tMax lowered to the
   * `t` of the last hit found; the last hit found is the answer.
   */
  function Scan<Q(!new), R>(ps: seq<Probe<Q, R>>, q: Q, lo: real, hi: real, t: R -> real): Option<R>
    decreases |ps|
  {
    if |ps| == 0 then None
    else
      var h := ps[0](q, lo, hi);
      Continue(h, Scan(ps[1..], q, lo, if h.Some? then t(h.value) else hi, t))
  }

  /**
   * One step of a loop that computes the scan from the front: with `hit` the answer so
   * far and `hi` lowered to its `t`, querying child i and keeping its hit leaves the
   * remaining scan unchanged.
   */
  lemma ScanStep<Q(!new), R>(ps: seq<Probe<Q, R>>, i: nat, q: Q, lo: real, hi: real, hit: Option<R>, t: R -> real)
    requires i < |ps|
    ensures var h := ps[i](q, lo, hi);
      Continue(hit, Scan(ps[i..], q, lo, hi, t))
      == Continue(Continue(hit, h), Scan(ps[i + 1..], q, lo, if h.Some? then t(h.value) else hi, t))
  {
    assert ps[i..][1..] == ps[i + 1..];
  }

  /** The children's answers to the full query. */
  function FullHits<Q(!new), R>(ps: seq<Probe<Q, R>>, q: Q, lo: real, hi: real): (hs: seq<Option<R>>)
    ensures |hs| == |ps|
    ensures forall i :: 0 <= i < |ps| ==> hs[i] == ps[i](q, lo, hi)
  {
    seq(|ps|, i requires 0 <= i < |ps| => ps[i](q, lo, hi))
  }

  // ---------------------------------------------------------------- the reference answer

  /** Keep the nearer of two candidates; the newer one wins a tie. */
  function Pick<R>(best: Option<R>, next: Option<R>, t: R -> real): (r: Option<R>)
    ensures r == best || r == next
    ensures r.Some? <==> best.Some? || next.Some?
    ensures r.Some? && best.Some? ==> t(r.value) <= t(best.value)
    ensures r.Some? && next.Some? ==> t(r.value) <= t(next.value)
    ensures next.Some? && best.Some? && t(next.value) <= t(best.value) ==> r == next
  {
    if next.None? then best
    else if best.None? || t(next.value) <= t(best.value) then next
    else best
  }

  /** The nearest of a list of candidate hits, a later one winning a tie. */
  function Best<R>(acc: Option<R>, hs: seq<Option<R>>, t: R -> real): Option<R>
    decreases |hs|
  {
    if |hs| == 0 then acc else Best(Pick(acc, hs[0], t), hs[1..], t)
  }

  /** Best misses exactly when the start and every candidate miss. */
  lemma {:induction false} BestMisses<R>(acc: Option<R>, hs: seq<Option<R>>, t: R -> real)
    ensures Best(acc, hs, t).None? <==> acc.None? && forall i :: 0 <= i < |hs| ==> hs[i].None?
    decreases |hs|
  {
    if |hs| > 0 {
      BestMisses(Pick(acc, hs[0], t), hs[1..], t);
      assert forall i :: 1 <= i < |hs| ==> hs[i] == hs[1..][i - 1];
    }
  }

  /**
   * Best is one of the candidates (or the start), no candidate is strictly nearer, and
   * every candidate after the one chosen is strictly farther.
   */
  lemma {:induction false} BestIsNearest<R>(acc: Option<R>, hs: seq<Option<R>>, t: R -> real)
    requires Best(acc, hs, t).Some?
    ensures var b := Best(acc, hs, t).value;
      && (Best(acc, hs, t) == acc || exists i :: 0 <= i < |hs| && hs[i] == Best(acc, hs, t))
      && (acc.Some? ==> t(b) <= t(acc.value))
      && (forall i :: 0 <= i < |hs| && hs[i].Some? ==> t(b) <= t(hs[i].value))
    decreases |hs|
  {
    if |hs| > 0 {
      var p := Pick(acc, hs[0], t);
      BestIsNearest(p, hs[1..], t);
      var b := Best(acc, hs, t);
      assert forall i :: 1 <= i < |hs| ==> hs[i] == hs[1..][i - 1];
      if b != p {
        var j :| 0 <= j < |hs[1..]| && hs[1..][j] == b;
        assert hs[j + 1] == b;
      } else if p == hs[0] {
        assert hs[0] == b;
      }
    }
  }

  /** A later candidate replaces the current best when it is at least as near. */
  lemma {:induction false} BestLaterWinsTie<R>(acc: Option<R>, hs: seq<Option<R>>, t: R -> real, i: int)
    requires 0 <= i < |hs| && hs[i].Some?
    requires Best(acc, hs[..i], t).None? || t(hs[i].value) <= t(Best(acc, hs[..i], t).value)
    ensures Best(acc, hs[..i + 1], t) == hs[i]
  {
    BestSnoc(acc, hs[..i], hs[i], t);
    assert hs[..i + 1] == hs[..i] + [hs[i]];
  }

  /** Best over a list extended by one candidate picks between the old best and it. */
  lemma {:induction false} BestSnoc<R>(acc: Option<R>, hs: seq<Option<R>>, h: Option<R>, t: R -> real)
    ensures Best(acc, hs + [h], t) == Pick(Best(acc, hs, t), h, t)
    decreases |hs|
  {
    if |hs| == 0 {
      assert Best(Pick(acc, h, t), [], t) == Pick(acc, h, t);
    } else {
      assert (hs + [h])[1..] == hs[1..] + [h];
      BestSnoc(Pick(acc, hs[0], t), hs[1..], h, t);
    }
  }

  // ---------------------------------------------------------------- the scan finds the nearest

  /** The scan misses exactly when every child misses the full query; no child need be nearest. */
  lemma {:induction false} ScanMisses<Q(!new), R>(ps: seq<Probe<Q, R>>, q: Q, lo: real, hi: real, t: R -> real)
    ensures Scan(ps, q, lo, hi, t).None? <==> forall i :: 0 <= i < |ps| ==> ps[i](q, lo, hi).None?
    decreases |ps|
  {
    if |ps| > 0 {
      var h := ps[0](q, lo, hi);
      ScanMisses(ps[1..], q, lo, if h.Some? then t(h.value) else hi, t);
      assert forall i :: 1 <= i < |ps| ==> ps[i] == ps[1..][i - 1];
    }
  }

  lemma {:induction false} ScanIsBestFrom<Q(!new), R>(ps: seq<Probe<Q, R>>, q: Q, lo: real, H: real,
                                                acc: Option<R>, hi: real, t: R -> real)
    requires AllNearest(ps, t)
    requires acc.None? ==> hi == H
    requires acc.Some? ==> hi == t(acc.value) <= H
    ensures Continue(acc, Scan(ps, q, lo, hi, t)) == Best(acc, FullHits(ps, q, lo, H), t)
    decreases |ps|
  {
    if |ps| > 0 {
      var full := ps[0](q, lo, H);
      var h := ps[0](q, lo, hi);
      assert Nearest(ps[0], t);
      assert h == Narrow(full, t, hi);
      var acc' := Pick(acc, full, t);
      assert Continue(acc, h) == acc';
      var hi' := if h.Some? then t(h.value) else hi;
      assert AllNearest(ps[1..], t) by {
        forall i | 0 <= i < |ps[1..]| ensures Nearest(ps[1..][i], t) {
          assert ps[1..][i] == ps[i + 1];
        }
      }
      ScanIsBestFrom(ps[1..], q, lo, H, acc', hi', t);
      assert FullHits(ps, q, lo, H)[1..] == FullHits(ps[1..], q, lo, H);
    }
  }

  /** With nearest children, the scan's answer is the reference nearest hit. */
  lemma ScanIsBest<Q(!new), R>(ps: seq<Probe<Q, R>>, q: Q, lo: real, hi: real, t: R -> real)
    requires AllNearest(ps, t)
    ensures Scan(ps, q, lo, hi, t) == Best(None, FullHits(ps, q, lo, hi), t)
  {
    ScanIsBestFrom(ps, q, lo, hi, None, hi, t);
  }

  /**
   * With nearest children, the scan reports a hit iff some child hits, that hit comes from
   * some child, and its `t` is no larger than any child's hit.
   */
  lemma ScanFindsNearest<Q(!new), R>(ps: seq<Probe<Q, R>>, q: Q, lo: real, hi: real, t: R -> real)
    requires AllNearest(ps, t)
    ensures Scan(ps, q, lo, hi, t).None? <==> forall i :: 0 <= i < |ps| ==> ps[i](q, lo, hi).None?
    ensures Scan(ps, q, lo, hi, t).Some? ==>
      && (exists i :: 0 <= i < |ps| && ps[i](q, lo, hi) == Scan(ps, q, lo, hi, t))
      && forall i :: 0 <= i < |ps| && ps[i](q, lo, hi).Some? ==>
           t(Scan(ps, q, lo, hi, t).value) <= t(ps[i](q, lo, hi).value)
  {
    ScanMisses(ps, q, lo, hi, t);
    ScanIsBest(ps, q, lo, hi, t);
    var hs := FullHits(ps, q, lo, hi);
    if Best(None, hs, t).Some? {
      BestIsNearest(None, hs, t);
    }
  }

  // ---------------------------------------------------------------- closure

  lemma {:induction false} BestNarrow<R>(acc: Option<R>, hs: seq<Option<R>>, t: R -> real, hi2: real)
    ensures Best(Narrow(acc, t, hi2), seq(|hs|, i requires 0 <= i < |hs| => Narrow(hs[i], t, hi2)), t)
         == Narrow(Best(acc, hs, t), t, hi2)
    decreases |hs|
  {
    var ns := seq(|hs|, i requires 0 <= i < |hs| => Narrow(hs[i], t, hi2));
    if |hs| > 0 {
      assert Pick(Narrow(acc, t, hi2), ns[0], t) == Narrow(Pick(acc, hs[0], t), t, hi2);
      BestNarrow(Pick(acc, hs[0], t), hs[1..], t, hi2);
      assert ns[1..] == seq(|hs[1..]|, i requires 0 <= i < |hs[1..]| => Narrow(hs[1..][i], t, hi2));
    }
  }

  /** The scan as a probe of its own (a group is an entity too). */
  function ScanProbe<Q(!new), R>(ps: seq<Probe<Q, R>>, t: R -> real): Probe<Q, R> {
    (q: Q, lo: real, hi: real) => Scan(ps, q, lo, hi, t)
  }

  /** A scan over nearest children is itself a nearest probe. */
  lemma ScanNearest<Q(!new), R>(ps: seq<Probe<Q, R>>, t: R -> real)
    requires AllNearest(ps, t)
    ensures Nearest(ScanProbe(ps, t), t)
  {
    var s := ScanProbe(ps, t);
    forall q: Q, lo: real, hi: real | s(q, lo, hi).Some?
      ensures lo <= t(s(q, lo, hi).value) <= hi
    {
      ScanFindsNearest(ps, q, lo, hi, t);
      var i :| 0 <= i < |ps| && ps[i](q, lo, hi) == Scan(ps, q, lo, hi, t);
      assert Nearest(ps[i], t);
    }
    forall q: Q, lo: real, hi: real, hi2: real | hi2 <= hi
      ensures s(q, lo, hi2) == Narrow(s(q, lo, hi), t, hi2)
    {
      ScanIsBest(ps, q, lo, hi, t);
      ScanIsBest(ps, q, lo, hi2, t);
      var hs := FullHits(ps, q, lo, hi);
      assert FullHits(ps, q, lo, hi2) == seq(|hs|, i requires 0 <= i < |hs| => Narrow(hs[i], t, hi2)) by {
        forall i | 0 <= i < |ps| ensures ps[i](q, lo, hi2) == Narrow(hs[i], t, hi2) {
          assert Nearest(ps[i], t);
        }
      }
      BestNarrow(None, hs, t, hi2);
    }
  }

  /** Keep a hit only when it satisfies `keep` (the shape filters of Circle and Rect). */
  function Filter<R>(h: Option<R>, keep: R -> bool): (r: Option<R>)
    ensures r.Some? <==> h.Some? && keep(h.value)
    ensures r.Some? ==> r == h
  {
    if h.Some? && keep(h.value) then h else None
  }

  /** A probe that answers every query like a nearest probe is nearest. */
  lemma NearestByAgreement<Q(!new), R>(p: Probe<Q, R>, p': Probe<Q, R>, t: R -> real)
    requires Nearest(p, t)
    requires forall q: Q, lo: real, hi: real :: p'(q, lo, hi) == p(q, lo, hi)
    ensures Nearest(p', t)
  {
  }

  /** A probe whose hits are kept only when they satisfy `keep`. */
  function FilterProbe<Q, R>(p: Probe<Q, R>, keep: R -> bool): Probe<Q, R> {
    (q: Q, lo: real, hi: real) => Filter(p(q, lo, hi), keep)
  }

  /** Filtering the hits of a nearest probe gives a nearest probe. */
  lemma FilterNearest<Q(!new), R>(p: Probe<Q, R>, keep: R -> bool, t: R -> real)
    requires Nearest(p, t)
    ensures Nearest(FilterProbe(p, keep), t)
  {
    var f := FilterProbe(p, keep);
    forall q: Q, lo: real, hi: real, hi2: real | hi2 <= hi
      ensures f(q, lo, hi2) == Narrow(f(q, lo, hi), t, hi2)
    {
      assert p(q, lo, hi2) == Narrow(p(q, lo, hi), t, hi2);
    }
  }

  /**
   * A probe queried through a change of query, whose hits are then transformed (the frame
   * shifts of Apply, Translate and Animated).
   */
  function MapProbe<Q, R>(p: Probe<Q, R>, shift: Q -> Q, f: R -> R): Probe<Q, R> {
    (q: Q, lo: real, hi: real) =>
      var h := p(shift(q), lo, hi); if h.Some? then Some(f(h.value)) else None
  }

  /** Mapping keeps a probe nearest when the transformation keeps each hit's T. */
  lemma MapNearest<Q(!new), R>(p: Probe<Q, R>, shift: Q -> Q, f: R -> R, t: R -> real)
    requires Nearest(p, t)
    requires forall r :: t(f(r)) == t(r)
    ensures Nearest(MapProbe(p, shift, f), t)
  {
    var m := MapProbe(p, shift, f);
    forall q: Q, lo: real, hi: real | m(q, lo, hi).Some?
      ensures lo <= t(m(q, lo, hi).value) <= hi
    {
      assert p(shift(q), lo, hi).Some?;
    }
    forall q: Q, lo: real, hi: real, hi2: real | hi2 <= hi
      ensures m(q, lo, hi2) == Narrow(m(q, lo, hi), t, hi2)
    {
      assert p(shift(q), lo, hi2) == Narrow(p(shift(q), lo, hi), t, hi2);
    }
  }
}
