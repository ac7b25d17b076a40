/**
 * src/Animation/Animation.cs: animations sampled by elapsed time.
 *
 * `GetValue` wraps the elapsed time into [0, Duration] and hands it to
 * `GetValueUnchecked`. An `Animation` feeds time / Duration through an interpolator and a
 * motion; a `Constant` always gives its value; a `MotionChain` (floats) or `PathChain`
 * (vectors) plays its legs one after the other, adding up the end values of the legs it
 * has passed. Floating-point NaN has no counterpart among the reals: a sample that would
 * be NaN (a zero duration) or that would throw (a time past the end of a chain) is `None`.
 */
module SrcAnimation {
  import opened Wrappers
  import opened Numerics

  /** The elements of a chain: Animation<T, M, I>(motion, interpolator, duration) and Constant<T>(value, duration). */
  datatype Leg<T> =
    | Animation(motion: real -> T, interpolator: real -> real, duration: real)
    | Constant(value: T, duration: real)

  /** MotionChain (T = float) and PathChain (T = Vector3). */
  datatype Chain<T> = Chain(legs: seq<Leg<T>>)

  /** Any IAnimation: a single animation or a chain. */
  datatype Timeline<T> = Single(leg: Leg<T>) | Chained(chain: Chain<T>)

  /** How a chain adds values up: 0 and + for floats, Vector3.Zero and + for vectors. */
  datatype Sum<!T> = Sum(zero: T, add: (T, T) -> T)

  const FloatSum: Sum<real> := Sum(0.0, (a: real, b: real) => a + b)
  const VectorSum: Sum<Vec3> := Sum(Zero, Add)

  // ---------------------------------------------------------------- the time wrap

  /**
   * The switch of IAnimation.GetValue over (t, t % Duration): a positive exact multiple
   * of the duration maps to Duration, a non-positive one to 0, any other time to its
   * remainder, shifted up by Duration when t is negative. A zero duration makes the
   * remainder NaN (None).
   */
  function WrapTime(t: real, d: real): Option<real> {
    if d == 0.0 then None
    else
      var r := Rem(t, d);
      if t > 0.0 && r == 0.0 then Some(d)
      else if t <= 0.0 && r == 0.0 then Some(0.0)
      else if t >= 0.0 then Some(r)
      else Some(r + d)
  }

  /** For a positive duration the wrapped time lies in [0, Duration] and differs from t by a whole number of durations. */
  lemma WrapTimeInRange(t: real, d: real)
    requires d > 0.0
    ensures WrapTime(t, d).Some?
    ensures 0.0 <= WrapTime(t, d).value <= d
    ensures exists n: int :: WrapTime(t, d).value == t - Times(n, d)
  {
    RemBounds(t, d);
    var q := Trunc(t / d);
    var r := Rem(t, d);
    assert r == t - (q as real) * d;
    if t > 0.0 && r == 0.0 {
      assert d == t - Times(q - 1, d);
    } else if t <= 0.0 && r == 0.0 {
      assert 0.0 == t - Times(q, d);
    } else if t >= 0.0 {
      assert r == t - Times(q, d);
    } else {
      assert r + d == t - Times(q - 1, d);
    }
  }

  /** Times already in [0, Duration] are not moved. */
  lemma WrapTimeKeepsRange(t: real, d: real)
    requires 0.0 <= t <= d && d > 0.0
    ensures WrapTime(t, d) == Some(t)
  {
    var q := t / d;
    FractionInUnit(t, d);
    if t == d {
      assert q == 1.0;
      assert (1.0).Floor == 1;
      assert Rem(t, d) == 0.0;
    } else {
      assert q < 1.0 by {
        assert q * d == t;
      }
      assert Trunc(q) == 0;
    }
  }

  // ---------------------------------------------------------------- single animations

  /** GetValueUnchecked of an Animation (motion(interpolator(t / Duration))) or a Constant. */
  function LegUnchecked<T>(leg: Leg<T>, t: real): (r: Option<T>)
    ensures leg.Constant? ==> r == Some(leg.value)
    ensures leg.Animation? ==> (r.Some? <==> leg.duration != 0.0)
  {
    match leg
    case Constant(v, _) => Some(v)
    case Animation(motion, interpolator, d) => if d == 0.0 then None else Some(motion(interpolator(t / d)))
  }

  /** GetValue: a Constant overrides it and ignores the time; an Animation wraps the time first. */
  function LegValue<T>(leg: Leg<T>, t: real): Option<T> {
    match leg
    case Constant(v, _) => Some(v)
    case Animation(_, _, d) =>
      var s := WrapTime(t, d);
      if s.Some? then LegUnchecked(leg, s.value) else None
  }

  /** A Constant gives its value at every time, through both GetValue and GetValueUnchecked. */
  lemma ConstantEverywhere<T>(v: T, d: real, t: real)
    ensures LegValue(Constant(v, d), t) == Some(v)
    ensures LegUnchecked(Constant(v, d), t) == Some(v)
  {
  }

  /** An Animation with a positive duration samples motion(interpolator(x)) at some x in [0, 1]. */
  lemma AnimationSamplesUnitInterval<T>(motion: real -> T, interpolator: real -> real, d: real, t: real)
    requires d > 0.0
    ensures exists x :: 0.0 <= x <= 1.0 && LegValue(Animation(motion, interpolator, d), t) == Some(motion(interpolator(x)))
  {
    WrapTimeInRange(t, d);
    var s := WrapTime(t, d).value;
    FractionInUnit(s, d);
    assert LegValue(Animation(motion, interpolator, d), t) == Some(motion(interpolator(s / d)));
  }

  // ---------------------------------------------------------------- chains

  /** Duration of a chain: the sum of its legs' durations. */
  function Duration<T>(legs: seq<Leg<T>>): real
    decreases |legs|
  {
    if |legs| == 0 then 0.0 else Duration(legs[..|legs| - 1]) + legs[|legs| - 1].duration
  }

  /** The chain of two lists of legs lasts as long as both together. */
  lemma {:induction false} DurationAppend<T>(a: seq<Leg<T>>, b: seq<Leg<T>>)
    ensures Duration(a + b) == Duration(a) + Duration(b)
    decreases |b|
  {
    if |b| > 0 {
      assert (a + b)[..|a + b| - 1] == a + b[..|b| - 1];
      DurationAppend(a, b[..|b| - 1]);
    } else {
      assert a + b == a;
    }
  }

  /** Leg k has been passed at time t: more than its duration has elapsed since it started. */
  ghost predicate PassedBefore<T>(legs: seq<Leg<T>>, t: real, k: int)
    requires 0 <= k <= |legs|
  {
    forall j :: 0 <= j < k ==> t - Duration(legs[..j]) > legs[j].duration
  }

  /** Option-lifted addition. */
  function Plus<T>(a: Option<T>, b: Option<T>, sum: Sum<T>): (r: Option<T>)
    ensures r.Some? <==> a.Some? && b.Some?
  {
    if a.Some? && b.Some? then Some(sum.add(a.value, b.value)) else None
  }

  /** zero + the end value of each of the first k legs, added left to right. */
  function EndValues<T>(legs: seq<Leg<T>>, k: int, sum: Sum<T>): Option<T>
    requires 0 <= k <= |legs|
    decreases k
  {
    if k == 0 then Some(sum.zero)
    else Plus(EndValues(legs, k - 1, sum), LegUnchecked(legs[k - 1], legs[k - 1].duration), sum)
  }

  /** The first leg not yet passed at time t (|legs| when all are). */
  function CurrentLeg<T>(legs: seq<Leg<T>>, t: real, from: nat): (k: int)
    requires from <= |legs|
    requires PassedBefore(legs, t, from)
    ensures from <= k <= |legs|
    ensures PassedBefore(legs, t, k)
    ensures k < |legs| ==> t - Duration(legs[..k]) <= legs[k].duration
    decreases |legs| - from
  {
    if from == |legs| then from
    else if t - Duration(legs[..from]) > legs[from].duration then CurrentLeg(legs, t, from + 1)
    else from
  }

  /**
   * The value of a chain at time t, stated without the loop: the end values of the passed
   * legs plus the current leg at the time since it started; None when every leg has been
   * passed (the UnreachableException).
   */
  function ChainValue<T>(legs: seq<Leg<T>>, t: real, sum: Sum<T>): Option<T> {
    var k := CurrentLeg(legs, t, 0);
    if k == |legs| then None
    else Plus(EndValues(legs, k, sum), LegUnchecked(legs[k], t - Duration(legs[..k])), sum)
  }

  /** The foreach loop of MotionChain/PathChain.GetValueUnchecked. */
  method ChainUnchecked<T>(chain: Chain<T>, t: real, sum: Sum<T>) returns (r: Option<T>)
    ensures r == ChainValue(chain.legs, t, sum)
  {
    var legs := chain.legs;
    var acc := Some(sum.zero);
    var elapsed := 0.0;
    var i := 0;
    while i < |legs|
      invariant 0 <= i <= |legs|
      invariant elapsed == Duration(legs[..i])
      invariant acc == EndValues(legs, i, sum)
      invariant PassedBefore(legs, t, i)
      invariant CurrentLeg(legs, t, 0) == CurrentLeg(legs, t, i)
    {
      var leg := legs[i];
      var dt := t - elapsed;
      if dt > leg.duration {
        PassLeg(legs, t, i, sum);
        acc := Plus(acc, LegUnchecked(leg, leg.duration), sum);
        elapsed := elapsed + leg.duration;
        i := i + 1;
      } else {
        return Plus(acc, LegUnchecked(leg, dt), sum);
      }
    }
    return None;
  }

  /** One iteration of the loop that passes leg i. */
  lemma PassLeg<T>(legs: seq<Leg<T>>, t: real, i: nat, sum: Sum<T>)
    requires i < |legs|
    requires PassedBefore(legs, t, i)
    requires t - Duration(legs[..i]) > legs[i].duration
    ensures Duration(legs[..i + 1]) == Duration(legs[..i]) + legs[i].duration
    ensures PassedBefore(legs, t, i + 1)
    ensures CurrentLeg(legs, t, i) == CurrentLeg(legs, t, i + 1)
  {
    assert legs[..i + 1][..i] == legs[..i];
  }

  /** If every leg has been passed, t lies beyond the chain's total duration. */
  lemma {:induction false} PassedAllMeansPastEnd<T>(legs: seq<Leg<T>>, t: real)
    requires |legs| > 0
    requires PassedBefore(legs, t, |legs|)
    ensures t > Duration(legs)
  {
    var n := |legs| - 1;
    assert legs[..n + 1] == legs;
  }

  /** With non-negative leg durations, past the total duration every leg has been passed. */
  lemma {:induction false} PastEndPassesAll<T>(legs: seq<Leg<T>>, t: real, k: nat)
    requires forall j :: 0 <= j < |legs| ==> legs[j].duration >= 0.0
    requires t > Duration(legs) && k <= |legs|
    ensures PassedBefore(legs, t, k)
    decreases k
  {
    if k > 0 {
      PastEndPassesAll(legs, t, k - 1);
      DurationPrefixBound(legs, k);
    }
  }

  /** With non-negative leg durations, the legs up to and including k - 1 last no longer than the chain. */
  lemma {:induction false} DurationPrefixBound<T>(legs: seq<Leg<T>>, k: nat)
    requires forall j :: 0 <= j < |legs| ==> legs[j].duration >= 0.0
    requires 0 < k <= |legs|
    ensures Duration(legs[..k - 1]) + legs[k - 1].duration <= Duration(legs)
    decreases |legs|
  {
    assert legs[..k][..k - 1] == legs[..k - 1];
    if k < |legs| {
      DurationPrefixBound(legs[..|legs| - 1], k);
      assert legs[..|legs| - 1][..k - 1] == legs[..k - 1];
    } else {
      assert legs[..k] == legs;
    }
  }

  /**
   * The UnreachableException fires for every time in an empty chain and, with non-negative
   * leg durations, exactly for the times past the total duration.
   */
  lemma ChainThrowsOnlyPastEnd<T>(legs: seq<Leg<T>>, t: real, sum: Sum<T>)
    requires forall j :: 0 <= j < |legs| ==> legs[j].duration >= 0.0
    ensures CurrentLeg(legs, t, 0) == |legs| <==> |legs| == 0 || t > Duration(legs)
  {
    if |legs| > 0 {
      if CurrentLeg(legs, t, 0) == |legs| {
        PassedAllMeansPastEnd(legs, t);
      }
      if t > Duration(legs) {
        PastEndPassesAll(legs, t, |legs|);
        CurrentLegAllPassed(legs, t, 0);
      }
    }
  }

  lemma {:induction false} CurrentLegAllPassed<T>(legs: seq<Leg<T>>, t: real, from: nat)
    requires from <= |legs|
    requires PassedBefore(legs, t, |legs|)
    ensures CurrentLeg(legs, t, from) == |legs|
    decreases |legs| - from
  {
    if from < |legs| {
      CurrentLegAllPassed(legs, t, from + 1);
    }
  }

  /**
   * A time exactly at the end of leg k (after passing the legs before it) belongs to leg k,
   * which is sampled at its full duration, not to leg k + 1.
   */
  lemma BoundaryBelongsToEarlierLeg<T>(legs: seq<Leg<T>>, t: real, k: nat, sum: Sum<T>)
    requires k < |legs|
    requires PassedBefore(legs, t, k)
    requires t - Duration(legs[..k]) == legs[k].duration
    ensures CurrentLeg(legs, t, 0) == k
    ensures ChainValue(legs, t, sum) == Plus(EndValues(legs, k, sum), LegUnchecked(legs[k], legs[k].duration), sum)
  {
    CurrentLegStopsAt(legs, t, 0, k);
  }

  lemma {:induction false} CurrentLegStopsAt<T>(legs: seq<Leg<T>>, t: real, from: nat, k: nat)
    requires from <= k < |legs|
    requires PassedBefore(legs, t, k)
    requires t - Duration(legs[..k]) <= legs[k].duration
    ensures PassedBefore(legs, t, from) && CurrentLeg(legs, t, from) == k
    decreases k - from
  {
    if from < k {
      CurrentLegStopsAt(legs, t, from + 1, k);
    }
  }

  // ---------------------------------------------------------------- any animation

  function TimelineDuration<T>(a: Timeline<T>): real {
    match a
    case Single(leg) => leg.duration
    case Chained(c) => Duration(c.legs)
  }

  /** IAnimation.GetValue for any animation. */
  function TimelineValue<T>(a: Timeline<T>, t: real, sum: Sum<T>): Option<T> {
    match a
    case Single(leg) => LegValue(leg, t)
    case Chained(c) =>
      var s := WrapTime(t, Duration(c.legs));
      if s.Some? then ChainValue(c.legs, s.value, sum) else None
  }

  /**
   * The animations whose samples are always defined: a Constant, an Animation with a
   * non-zero duration, or a non-empty chain of non-negative legs whose Animation legs last
   * a positive time and whose total duration is positive.
   */
  ghost predicate Sampleable<T>(a: Timeline<T>) {
    match a
    case Single(leg) => leg.Constant? || leg.duration != 0.0
    case Chained(c) =>
      && |c.legs| > 0
      && Duration(c.legs) > 0.0
      && forall j :: 0 <= j < |c.legs| ==>
           c.legs[j].duration >= 0.0 && (c.legs[j].Animation? ==> c.legs[j].duration > 0.0)
  }

  lemma {:induction false} EndValuesDefined<T>(legs: seq<Leg<T>>, k: nat, sum: Sum<T>)
    requires k <= |legs|
    requires forall j :: 0 <= j < |legs| ==> (legs[j].Animation? ==> legs[j].duration > 0.0)
    ensures EndValues(legs, k, sum).Some?
    decreases k
  {
    if k > 0 {
      EndValuesDefined(legs, k - 1, sum);
    }
  }

  /** A sampleable animation never yields NaN and never throws, whatever the time. */
  lemma SampleableAlwaysDefined<T>(a: Timeline<T>, t: real, sum: Sum<T>)
    requires Sampleable(a)
    ensures TimelineValue(a, t, sum).Some?
  {
    match a
    case Single(leg) =>
    case Chained(c) =>
      var legs := c.legs;
      WrapTimeInRange(t, Duration(legs));
      var s := WrapTime(t, Duration(legs)).value;
      ChainThrowsOnlyPastEnd(legs, s, sum);
      var k := CurrentLeg(legs, s, 0);
      EndValuesDefined(legs, k, sum);
  }
}
