/**
 * ConsoleRayTracer/Animation/Animator.cs: the two-stage clock of the middle generation. A
 * first switch works the pause latch; a second, on the running flag it left, adjusts the
 * speed or picks a paused rate of change. No elapsed time is kept here: the entity and the
 * light (animated entities that add up what they are given) are handed a time delta.
 */
module CrtAnimationAnimator {
  import opened Wrappers
  import opened ConsoleKeys
  import CrtAnimator
  import opened CrtAnimatedEntity

  /** Speed, running flag and pause latch. */
  datatype Controls = Controls(speed: real, running: bool, acceptPause: bool)

  /** `_changeRate`: the paused rate of change, a hundred times the sensitivity. */
  function ChangeRate(sensitivity: real): real {
    sensitivity * 100.0
  }

  /** The first switch: the pause latch. */
  function Latch(key: Option<ConsoleKey>, c: Controls): Controls {
    if key == Some(P) && c.acceptPause then c.(running := !c.running, acceptPause := false)
    else if key == Some(P) then c.(acceptPause := false)
    else c.(acceptPause := true)
  }

  /** What one Update does: the new controls and the delta handed to the entity and the light. */
  datatype Stepped = Stepped(controls: Controls, delta: real)

  /** Update: the latch, then the speed switch on the new running flag, then the delta. */
  function Step(c: Controls, key: Option<ConsoleKey>, sensitivity: real, dt: real): Stepped {
    var l := Latch(key, c);
    var (speed, change) :=
      if key == Some(K) && l.running then (l.speed - sensitivity, 0.0)
      else if key == Some(L) && l.running then (l.speed + sensitivity, 0.0)
      else if key == Some(K) then (l.speed, -ChangeRate(sensitivity))
      else if key == Some(L) then (l.speed, ChangeRate(sensitivity))
      else (l.speed, 0.0);
    Stepped(l.(speed := speed), if l.running then dt * speed else change)
  }

  /** The tuple-switch clock whose controls are these, at the given elapsed time. */
  function AsClock(c: Controls, timeElapsed: real): CrtAnimator.Clock {
    CrtAnimator.Clock(c.speed, c.running, c.acceptPause, timeElapsed)
  }

  /**
   * The two switches together move the controls exactly as the single table of
   * ConsoleRayTracer/Animator.cs does: the same latch, the same speed changes. While the
   * clock runs the delta is the time that clock adds, dt times the new speed.
   */
  lemma AgreesWithTupleSwitch(c: Controls, key: Option<ConsoleKey>, sensitivity: real, dt: real, t: real)
    ensures var s := Step(c, key, sensitivity, dt);
      var c' := CrtAnimator.Tick(AsClock(c, t), key, sensitivity, dt);
      && AsClock(s.controls, c'.timeElapsed) == c'
      && (s.controls.running ==> c'.timeElapsed == t + s.delta)
  {
  }

  /**
   * While paused after the latch, the speed is left alone and the delta does not depend on
   * the time step: minus or plus the change rate for K or L, nothing otherwise.
   */
  lemma PausedDelta(c: Controls, key: Option<ConsoleKey>, sensitivity: real, dt: real)
    requires !Latch(key, c).running
    ensures var s := Step(c, key, sensitivity, dt);
      && s.controls.speed == c.speed
      && s.delta == (if key == Some(K) then -100.0 * sensitivity
                     else if key == Some(L) then 100.0 * sensitivity
                     else 0.0)
  {
  }

  class Animator {
    const sensitivity: real
    const changeRate: real
    var speed: real
    var isRunning: bool
    var acceptPause: bool

    function State(): Controls
      reads this
    {
      Controls(speed, isRunning, acceptPause)
    }

    constructor (sensitivity: real, speed: real, isRunning: bool)
      ensures this.sensitivity == sensitivity && changeRate == ChangeRate(sensitivity)
      ensures State() == Controls(speed, isRunning, true)
    {
      this.sensitivity := sensitivity;
      changeRate := sensitivity * 100.0;
      this.speed := speed;
      this.isRunning := isRunning;
      acceptPause := true;
    }

    /** The two switches of Update; the result is the delta handed on. */
    method Switch(key: Option<ConsoleKey>, dt: real) returns (delta: real)
      requires changeRate == ChangeRate(sensitivity)
      modifies this
      ensures State() == Step(old(State()), key, sensitivity, dt).controls
      ensures delta == Step(old(State()), key, sensitivity, dt).delta
    {
      if key == Some(P) && acceptPause {
        isRunning, acceptPause := !isRunning, false;
      } else if key == Some(P) {
        acceptPause := false;
      } else {
        acceptPause := true;
      }
      var change := 0.0;
      if key == Some(K) && isRunning {
        speed := speed - sensitivity;
      } else if key == Some(L) && isRunning {
        speed := speed + sensitivity;
      } else if key == Some(K) {
        change := -changeRate;
      } else if key == Some(L) {
        change := changeRate;
      }
      delta := if isRunning then dt * speed else change;
    }

    /**
     * Update(key, entity, light, dt): both animated entities move on by the delta. When the
     * entity and the light are one object it moves on twice.
     */
    method Update(key: Option<ConsoleKey>, entity: Animated, light: Animated, dt: real)
      requires changeRate == ChangeRate(sensitivity)
      requires AllDefined(entity.offset, entity.brightness, entity.reflectance)
      requires AllDefined(light.offset, light.brightness, light.reflectance)
      modifies this, entity, light
      ensures State() == Step(old(State()), key, sensitivity, dt).controls
      ensures var d := Step(old(State()), key, sensitivity, dt).delta;
        && (entity != light ==> entity.timeElapsed == old(entity.timeElapsed) + d
                                && light.timeElapsed == old(light.timeElapsed) + d)
        && (entity == light ==> entity.timeElapsed == old(entity.timeElapsed) + d + d)
      ensures entity.Synced() && light.Synced()
    {
      var delta := Switch(key, dt);
      entity.Update(delta);
      light.Update(delta);
    }
  }
}
