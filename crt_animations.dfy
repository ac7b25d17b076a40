/**
 * ConsoleRayTracer/Animation/Animations.cs: animations of the middle generation.
 *
 * An `Animation` samples motion(interpolator((t / Duration) % 1)) with the C# remainder,
 * so negative times give negative fractions. A `Chain` plays its animations one after the
 * other: it wraps the time with `%= Duration`, walks the animations with the magnitude of
 * that time, adds up the values of the animations it has passed (each sampled 1e-4 before
 * its end) and adds the current one at the time since it started; the first animation,
 * reached with nothing accumulated, receives the signed time instead. Floating-point NaN
 * has no counterpart among the reals: a sample that would be NaN (a zero duration) is `None`.
 * The `dynamic` accumulator of the source adds floats or vectors; here the addition is the
 * `Sum` the chain is built with.
 */
module CrtAnimations {
  import opened Wrappers
  import opened Numerics
  import SrcAnimation

  /** Animation<T, M, I>(Motion, Interpolator, Duration). */
  datatype Leg<T> = Leg(motion: real -> T, interpolator: real -> real, duration: real)

  /** What GetValue can do: return a sample (None for NaN) or throw InvalidOperationException. */
  datatype Outcome<T> = Returned(value: Option<T>) | Thrown

  /** IAnimation<T>: a duration and a sampling function; a chain is one too, so chains nest. */
  datatype Animation<T> = Animation(duration: real, getValue: real -> Outcome<T>)

  /** The offset the chain subtracts from a passed animation's duration before sampling it. */
  const EndMargin: real := 0.0001

  // ---------------------------------------------------------------- a single animation

  /** (t / Duration) % 1: strictly between -1 and 1, with the sign of t / Duration. */
  function Fraction(t: real, d: real): (f: real)
    requires d != 0.0
    ensures -1.0 < f < 1.0
    ensures t / d >= 0.0 ==> f >= 0.0
    ensures t / d <= 0.0 ==> f <= 0.0
  {
    RemBounds(t / d, 1.0);
    Rem(t / d, 1.0)
  }

  /** Animation.GetValue; a zero duration makes the fraction NaN. */
  function LegValue<T>(leg: Leg<T>, t: real): Option<T> {
    if leg.duration == 0.0 then None
    else Some(leg.motion(leg.interpolator(Fraction(t, leg.duration))))
  }

  /** At every whole number of durations, t = Duration included, the animation is back at its start. */
  lemma AnimationStartsOver<T>(leg: Leg<T>, n: int)
    requires leg.duration != 0.0
    ensures LegValue(leg, Times(n, leg.duration)) == Some(leg.motion(leg.interpolator(0.0)))
  {
    var d := leg.duration;
    assert Times(n, d) / d == n as real;
    assert Trunc(n as real) == n;
  }

  /** Past zero, one more duration gives the same sample: the animation repeats. */
  lemma AnimationRepeats<T>(leg: Leg<T>, t: real)
    requires leg.duration != 0.0 && t / leg.duration >= 0.0
    ensures LegValue(leg, t + leg.duration) == LegValue(leg, t)
  {
    var d := leg.duration;
    QuotientStep(t, d);
    RemStepOne(t / d);
  }

  lemma QuotientStep(t: real, d: real)
    requires d != 0.0
    ensures (t + d) / d == t / d + 1.0
  {
    assert d / d == 1.0;
    assert (t + d) / d == t / d + d / d;
  }

  /** An Animation record as an IAnimation; a zero duration gives NaN at every time. */
  function FromLeg<T>(leg: Leg<T>): (a: Animation<T>)
    ensures a.duration == leg.duration
  {
    Animation(leg.duration, (t: real) => Returned(LegValue(leg, t)))
  }

  /** Every sample is a value: neither NaN nor an exception. */
  ghost predicate Defined<T>(a: Animation<T>) {
    forall t: real :: a.getValue(t).Returned? && a.getValue(t).value.Some?
  }

  /** GetValue never throws. */
  ghost predicate NeverThrows<T>(a: Animation<T>) {
    forall t: real :: a.getValue(t).Returned?
  }

  /** A single animation never throws, and its samples are defined exactly when its duration is not zero. */
  lemma LegDefined<T>(leg: Leg<T>)
    ensures NeverThrows(FromLeg(leg))
    ensures Defined(FromLeg(leg)) <==> leg.duration != 0.0
  {
    if leg.duration == 0.0 {
      assert FromLeg(leg).getValue(0.0) == Returned(None);
    }
  }

  // ---------------------------------------------------------------- chains

  /** _duration: the sum of the animations' durations. */
  function Duration<T>(parts: seq<Animation<T>>): real
    decreases |parts|
  {
    if |parts| == 0 then 0.0 else Duration(parts[..|parts| - 1]) + parts[|parts| - 1].duration
  }

  /** Animations of positive durations make a chain of positive duration. */
  lemma {:induction false} DurationPositive<T>(parts: seq<Animation<T>>)
    requires |parts| > 0
    requires forall j :: 0 <= j < |parts| ==> parts[j].duration > 0.0
    ensures Duration(parts) > 0.0
    decreases |parts|
  {
    if |parts| > 1 {
      DurationPositive(parts[..|parts| - 1]);
    }
  }

  lemma {:induction false} NonNegativeDuration<T>(parts: seq<Animation<T>>)
    requires forall j :: 0 <= j < |parts| ==> parts[j].duration >= 0.0
    ensures Duration(parts) >= 0.0
    decreases |parts|
  {
    if |parts| > 0 {
      NonNegativeDuration(parts[..|parts| - 1]);
    }
  }

  /** Animation k has been passed at (unsigned) time a: more than its duration lies between its start and a. */
  ghost predicate PassedBefore<T>(parts: seq<Animation<T>>, a: real, k: int)
    requires 0 <= k <= |parts|
  {
    forall j :: 0 <= j < k ==> a - Duration(parts[..j]) > parts[j].duration
  }

  /** The first animation not yet passed at time a (|parts| when all are). */
  function CurrentLeg<T>(parts: seq<Animation<T>>, a: real, from: nat): (k: int)
    requires from <= |parts|
    requires PassedBefore(parts, a, from)
    ensures from <= k <= |parts|
    ensures PassedBefore(parts, a, k)
    ensures k < |parts| ==> a - Duration(parts[..k]) <= parts[k].duration
    decreases |parts| - from
  {
    if from == |parts| then from
    else if a - Duration(parts[..from]) > parts[from].duration then CurrentLeg(parts, a, from + 1)
    else from
  }

  /** accum + value: an exception on either side propagates, NaN on either side gives NaN. */
  function Combine<T>(a: Outcome<T>, b: Outcome<T>, sum: SrcAnimation.Sum<T>): (r: Outcome<T>)
    ensures r.Thrown? <==> a.Thrown? || b.Thrown?
    ensures r.Returned? ==> (r.value.Some? <==> a.value.Some? && b.value.Some?)
  {
    if a.Thrown? || b.Thrown? then Thrown else Returned(SrcAnimation.Plus(a.value, b.value, sum))
  }

  /** The accumulated end values of the first k (k >= 1) animations, each sampled EndMargin before its end. */
  function EndValues<T>(parts: seq<Animation<T>>, k: int, sum: SrcAnimation.Sum<T>): Outcome<T>
    requires 1 <= k <= |parts|
    decreases k
  {
    var end := parts[k - 1].getValue(parts[k - 1].duration - EndMargin);
    if k == 1 then end else Combine(EndValues(parts, k - 1, sum), end, sum)
  }

  /**
   * Chain.GetValue after the wrap, at wrapped time w: the current animation is found by the
   * magnitude of w, and the end values of the passed animations are added to the current
   * one's sample; the first animation, reached with nothing accumulated, gets the signed time.
   */
  function ChainAt<T>(parts: seq<Animation<T>>, w: real, sum: SrcAnimation.Sum<T>): Outcome<T> {
    var k := CurrentLeg(parts, Abs(w), 0);
    if k == |parts| then Thrown
    else
      var dt := Abs(w) - Duration(parts[..k]);
      if k == 0 then parts[0].getValue(CopySign(dt, w))
      else Combine(EndValues(parts, k, sum), parts[k].getValue(dt), sum)
  }

  /**
   * Chain.GetValue stated without the loop. A chain of zero duration makes `%=` give NaN:
   * an empty chain then throws, any other samples its first animation at NaN. Otherwise the
   * time is wrapped to timeElapsed % Duration.
   */
  function ChainValue<T>(parts: seq<Animation<T>>, t: real, sum: SrcAnimation.Sum<T>): Outcome<T> {
    var d := Duration(parts);
    if d == 0.0 then (if |parts| == 0 then Thrown else Returned(None))
    else ChainAt(parts, Rem(t, d), sum)
  }

  /** Chain<T>(Animations) as an IAnimation. */
  function Chain<T>(parts: seq<Animation<T>>, sum: SrcAnimation.Sum<T>): (a: Animation<T>)
    ensures a.duration == Duration(parts)
  {
    Animation(Duration(parts), (t: real) => ChainValue(parts, t, sum))
  }

  /** Chain.GetValue: the wrap, then the walk over the animations. */
  method ChainGetValue<T>(parts: seq<Animation<T>>, timeElapsed: real, sum: SrcAnimation.Sum<T>) returns (r: Outcome<T>)
    ensures r == ChainValue(parts, timeElapsed, sum)
  {
    var duration := Duration(parts);
    if duration == 0.0 {
      // the remainder by zero is NaN: no comparison holds, so the first animation (if any) is sampled at NaN
      return if |parts| == 0 then Thrown else Returned(None);
    }
    r := ChainWalk(parts, Rem(timeElapsed, duration), sum);
  }

  /** The foreach loop of Chain.GetValue, from the wrapped time on. */
  method ChainWalk<T>(parts: seq<Animation<T>>, timeElapsed: real, sum: SrcAnimation.Sum<T>) returns (r: Outcome<T>)
    ensures r == ChainAt(parts, timeElapsed, sum)
  {
    var magnitude := Abs(timeElapsed);
    var start := 0.0;
    var accum: Option<Option<T>> := None;
    var i := 0;
    while i < |parts|
      invariant Walked(parts, magnitude, i, start, accum, sum)
    {
      var animation := parts[i];
      var dt := magnitude - start;
      if dt > animation.duration {
        var end := animation.getValue(animation.duration - EndMargin);
        if end.Thrown? {
          PassLeg(parts, magnitude, i);
          AddEnd(parts, i, sum);
          ThrowWhilePassing(parts, timeElapsed, i + 1, sum);
          return Thrown;
        }
        PassStep(parts, magnitude, i, start, accum, sum);
        start := start + animation.duration;
        accum := Some(Accumulated(accum, end.value, sum));
        i := i + 1;
      } else {
        StopAtLeg(parts, timeElapsed, i, sum);
        if accum.None? {
          r := animation.getValue(CopySign(dt, timeElapsed));
        } else {
          r := Combine(Returned(accum.value), animation.getValue(dt), sum);
        }
        return;
      }
    }
    return Thrown;
  }

  /** `acc is null ? end : acc + end` on the loop's accumulator. */
  function Accumulated<T>(accum: Option<Option<T>>, end: Option<T>, sum: SrcAnimation.Sum<T>): Option<T> {
    if accum.None? then end else SrcAnimation.Plus(accum.value, end, sum)
  }

  /**
   * The state of ChainWalk's loop after passing i animations at magnitude a: start is their
   * total duration and accum holds their added end values (nothing before the first).
   */
  ghost predicate Walked<T>(parts: seq<Animation<T>>, a: real, i: int, start: real, accum: Option<Option<T>>,
                            sum: SrcAnimation.Sum<T>)
  {
    && 0 <= i <= |parts|
    && start == Duration(parts[..i])
    && (i == 0 <==> accum.None?)
    && (i > 0 ==> EndValues(parts, i, sum) == Returned(accum.value))
    && PassedBefore(parts, a, i)
    && CurrentLeg(parts, a, 0) == CurrentLeg(parts, a, i)
  }

  /** Passing animation i whose end value is defined keeps the loop's state. */
  lemma PassStep<T>(parts: seq<Animation<T>>, a: real, i: int, start: real, accum: Option<Option<T>>,
                    sum: SrcAnimation.Sum<T>)
    requires Walked(parts, a, i, start, accum, sum)
    requires i < |parts| && a - start > parts[i].duration
    requires parts[i].getValue(parts[i].duration - EndMargin).Returned?
    ensures var end := parts[i].getValue(parts[i].duration - EndMargin);
      Walked(parts, a, i + 1, start + parts[i].duration, Some(Accumulated(accum, end.value, sum)), sum)
  {
    PassLeg(parts, a, i);
    AddEnd(parts, i, sum);
  }

  /** The iteration of the loop that stops at animation i gives the chain's value. */
  lemma StopAtLeg<T>(parts: seq<Animation<T>>, w: real, i: nat, sum: SrcAnimation.Sum<T>)
    requires i < |parts|
    requires PassedBefore(parts, Abs(w), i)
    requires CurrentLeg(parts, Abs(w), 0) == CurrentLeg(parts, Abs(w), i)
    requires Abs(w) - Duration(parts[..i]) <= parts[i].duration
    ensures var dt := Abs(w) - Duration(parts[..i]);
      ChainAt(parts, w, sum) ==
        if i == 0 then parts[i].getValue(CopySign(dt, w))
        else Combine(EndValues(parts, i, sum), parts[i].getValue(dt), sum)
  {
  }

  /** Passing animation i adds its end value to the accumulation. */
  lemma AddEnd<T>(parts: seq<Animation<T>>, i: nat, sum: SrcAnimation.Sum<T>)
    requires i < |parts|
    ensures var end := parts[i].getValue(parts[i].duration - EndMargin);
      EndValues(parts, i + 1, sum) == if i == 0 then end else Combine(EndValues(parts, i, sum), end, sum)
  {
  }

  /** One iteration of the loop that passes animation i. */
  lemma PassLeg<T>(parts: seq<Animation<T>>, a: real, i: nat)
    requires i < |parts|
    requires PassedBefore(parts, a, i)
    requires a - Duration(parts[..i]) > parts[i].duration
    ensures Duration(parts[..i + 1]) == Duration(parts[..i]) + parts[i].duration
    ensures PassedBefore(parts, a, i + 1)
    ensures CurrentLeg(parts, a, i) == CurrentLeg(parts, a, i + 1)
  {
    assert parts[..i + 1][..i] == parts[..i];
  }

  /** An exception while adding up the passed animations is the chain's exception. */
  lemma {:induction false} ThrowWhilePassing<T>(parts: seq<Animation<T>>, w: real, i: nat, sum: SrcAnimation.Sum<T>)
    requires 1 <= i <= |parts|
    requires PassedBefore(parts, Abs(w), i)
    requires EndValues(parts, i, sum).Thrown?
    ensures ChainAt(parts, w, sum).Thrown?
  {
    var k := CurrentLeg(parts, Abs(w), i);
    assert CurrentLeg(parts, Abs(w), 0) == k by {
      CurrentLegFrom(parts, Abs(w), 0, i);
    }
    if k < |parts| {
      EndValuesThrowLater(parts, i, k, sum);
    }
  }

  /** Where the search starts makes no difference as long as the animations before it are passed. */
  lemma {:induction false} CurrentLegFrom<T>(parts: seq<Animation<T>>, a: real, from: nat, i: nat)
    requires from <= i <= |parts|
    requires PassedBefore(parts, a, i)
    ensures CurrentLeg(parts, a, from) == CurrentLeg(parts, a, i)
    decreases i - from
  {
    if from < i {
      CurrentLegFrom(parts, a, from + 1, i);
    }
  }

  /** Once the accumulated end values throw, every longer accumulation throws. */
  lemma {:induction false} EndValuesThrowLater<T>(parts: seq<Animation<T>>, i: int, k: int, sum: SrcAnimation.Sum<T>)
    requires 1 <= i <= k <= |parts|
    requires EndValues(parts, i, sum).Thrown?
    ensures EndValues(parts, k, sum).Thrown?
    decreases k - i
  {
    if i < k {
      EndValuesThrowLater(parts, i + 1, k, sum);
    }
  }

  /** If every animation has been passed, a lies beyond the chain's total duration. */
  lemma {:induction false} PassedAllMeansPastEnd<T>(parts: seq<Animation<T>>, a: real)
    requires |parts| > 0
    requires PassedBefore(parts, a, |parts|)
    ensures a > Duration(parts)
  {
    var n := |parts| - 1;
    assert parts[..n + 1] == parts;
  }

  /** The end values of animations that never throw do not throw either. */
  lemma {:induction false} EndValuesReturn<T>(parts: seq<Animation<T>>, k: int, sum: SrcAnimation.Sum<T>)
    requires 1 <= k <= |parts|
    requires forall j :: 0 <= j < |parts| ==> NeverThrows(parts[j])
    ensures EndValues(parts, k, sum).Returned?
    decreases k
  {
    assert NeverThrows(parts[k - 1]);
    if k > 1 {
      EndValuesReturn(parts, k - 1, sum);
    }
  }

  /**
   * With non-negative durations and animations that never throw, the
   * InvalidOperationException is thrown exactly for the empty chain: the wrapped time is
   * always shorter than the chain.
   */
  lemma ChainThrowsOnlyWhenEmpty<T>(parts: seq<Animation<T>>, t: real, sum: SrcAnimation.Sum<T>)
    requires forall j :: 0 <= j < |parts| ==> parts[j].duration >= 0.0 && NeverThrows(parts[j])
    ensures ChainValue(parts, t, sum).Thrown? <==> |parts| == 0
  {
    var d := Duration(parts);
    if |parts| > 0 && d != 0.0 {
      var w := Rem(t, d);
      RemBounds(t, d);
      NonNegativeDuration(parts);
      var k := CurrentLeg(parts, Abs(w), 0);
      if k == |parts| {
        PassedAllMeansPastEnd(parts, Abs(w));
        assert false;
      }
      assert ChainValue(parts, t, sum) == ChainAt(parts, w, sum);
      assert NeverThrows(parts[k]);
      if k > 0 {
        EndValuesReturn(parts, k, sum);
      }
    }
  }

  /** A negated time wraps to the negated wrapped time. */
  lemma WrapNegated<T>(parts: seq<Animation<T>>, t: real, sum: SrcAnimation.Sum<T>)
    requires Duration(parts) != 0.0
    ensures ChainValue(parts, -t, sum) == ChainAt(parts, -Rem(t, Duration(parts)), sum)
  {
    RemNegate(t, Duration(parts));
  }

  /**
   * Within the first animation the chain samples it at the wrapped time itself, sign
   * included; from the second animation on the sign of the wrapped time is lost, so w and
   * -w give the same sample.
   */
  lemma ChainAtSign<T>(parts: seq<Animation<T>>, w: real, sum: SrcAnimation.Sum<T>)
    requires |parts| > 0
    ensures var k := CurrentLeg(parts, Abs(w), 0);
      && (k == 0 ==> ChainAt(parts, w, sum) == parts[0].getValue(w))
      && (k > 0 ==> ChainAt(parts, -w, sum) == ChainAt(parts, w, sum))
  {
    assert Abs(-w) == Abs(w);
    if CurrentLeg(parts, Abs(w), 0) == 0 {
      assert parts[..0] == [];
      assert CopySign(Abs(w) - 0.0, w) == w;
    }
  }

  lemma {:induction false} EndValuesDefined<T>(parts: seq<Animation<T>>, k: int, sum: SrcAnimation.Sum<T>)
    requires 1 <= k <= |parts|
    requires forall j :: 0 <= j < |parts| ==> Defined(parts[j])
    ensures EndValues(parts, k, sum).Returned? && EndValues(parts, k, sum).value.Some?
    decreases k
  {
    assert Defined(parts[k - 1]);
    if k > 1 {
      EndValuesDefined(parts, k - 1, sum);
    }
  }

  /**
   * A non-empty chain of defined animations of positive durations is defined: it never
   * throws and never yields NaN, whatever the time. Chains built this way nest.
   */
  lemma ChainDefined<T>(parts: seq<Animation<T>>, sum: SrcAnimation.Sum<T>)
    requires |parts| > 0
    requires forall j :: 0 <= j < |parts| ==> parts[j].duration > 0.0 && Defined(parts[j])
    ensures Defined(Chain(parts, sum))
  {
    DurationPositive(parts);
    forall t: real
      ensures ChainValue(parts, t, sum).Returned? && ChainValue(parts, t, sum).value.Some?
    {
      ChainDefinedAt(parts, t, sum);
    }
  }

  lemma ChainDefinedAt<T>(parts: seq<Animation<T>>, t: real, sum: SrcAnimation.Sum<T>)
    requires |parts| > 0 && Duration(parts) > 0.0
    requires forall j :: 0 <= j < |parts| ==> parts[j].duration > 0.0 && Defined(parts[j])
    ensures ChainValue(parts, t, sum).Returned? && ChainValue(parts, t, sum).value.Some?
  {
    var d := Duration(parts);
    var w := Rem(t, d);
    RemBounds(t, d);
    var k := CurrentLeg(parts, Abs(w), 0);
    if k == |parts| {
      PassedAllMeansPastEnd(parts, Abs(w));
      assert false;
    }
    assert ChainValue(parts, t, sum) == ChainAt(parts, w, sum);
    assert Defined(parts[k]);
    if k > 0 {
      EndValuesDefined(parts, k, sum);
    }
  }
}
