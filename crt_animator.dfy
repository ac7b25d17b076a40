/**
 * ConsoleRayTracer/Animator.cs: the tuple-switch clock of the middle generation. One table
 * maps the key, the running flag and the pause latch to a new speed, running flag, latch
 * and a rate of change used while paused; the elapsed time then advances, and the entity
 * and the light are both handed the new elapsed time.
 *
 * The same table and the same time step drive the animators of ConsoleRayTracer/World
 * and of RayTracer/Essential, which import it from here.
 */
module CrtAnimator {
  import opened Wrappers
  import opened ConsoleKeys

  /** The clock: speed, running flag, pause latch (`_acceptPause`) and elapsed time. */
  datatype Clock = Clock(speed: real, running: bool, acceptPause: bool, timeElapsed: real)

  /** One row of the switch: the new speed, running flag and latch, and the paused rate of change. */
  datatype Switched = Switched(speed: real, running: bool, acceptPause: bool, change: real)

  /** The tuple switch, its arms tried in order. */
  function Switch(key: Option<ConsoleKey>, c: Clock, sensitivity: real): Switched {
    if key == Some(P) && c.acceptPause then Switched(c.speed, !c.running, false, 0.0)
    else if key == Some(P) then Switched(c.speed, c.running, false, 0.0)
    else if key == Some(K) && c.running then Switched(c.speed - sensitivity, c.running, true, 0.0)
    else if key == Some(L) && c.running then Switched(c.speed + sensitivity, c.running, true, 0.0)
    else if key == Some(K) then Switched(c.speed, c.running, true, -c.speed)
    else if key == Some(L) then Switched(c.speed, c.running, true, c.speed)
    else Switched(c.speed, c.running, true, 0.0)
  }

  /** The clock after Update: the switch, then the time step with the new speed and flag. */
  function Tick(c: Clock, key: Option<ConsoleKey>, sensitivity: real, dt: real): Clock {
    var s := Switch(key, c, sensitivity);
    Clock(s.speed, s.running, s.acceptPause,
          c.timeElapsed + (if s.running then dt * s.speed else dt * s.change))
  }

  /**
   * The pause latch: P toggles the running flag only when the latch is set, and always
   * clears it; every other key, and no key, sets it again and leaves the flag alone.
   */
  lemma PauseDebounce(c: Clock, key: Option<ConsoleKey>, sensitivity: real, dt: real)
    ensures var c' := Tick(c, key, sensitivity, dt);
      && (c'.acceptPause <==> key != Some(P))
      && (c'.running <==> (if key == Some(P) && c.acceptPause then !c.running else c.running))
  {
  }

  /**
   * Speed changes only on K or L while running, by minus or plus the sensitivity, once
   * per call whatever the time step.
   */
  lemma SpeedOnlyWhileRunning(c: Clock, key: Option<ConsoleKey>, sensitivity: real, dt: real)
    ensures Tick(c, key, sensitivity, dt).speed
         == c.speed + (if c.running && key == Some(K) then -sensitivity
                       else if c.running && key == Some(L) then sensitivity
                       else 0.0)
  {
  }

  /**
   * When the clock runs after the switch, time advances by dt times the new speed. While it
   * stays paused, K and L scrub it back and forth by dt times the speed, and any other key
   * leaves it where it is.
   */
  lemma TimeStep(c: Clock, key: Option<ConsoleKey>, sensitivity: real, dt: real)
    ensures var c' := Tick(c, key, sensitivity, dt);
      && (c'.running ==> c'.timeElapsed == c.timeElapsed + dt * c'.speed)
      && (!c'.running && key == Some(K) ==> c'.timeElapsed == c.timeElapsed - dt * c.speed)
      && (!c'.running && key == Some(L) ==> c'.timeElapsed == c.timeElapsed + dt * c.speed)
      && (!c'.running && key != Some(K) && key != Some(L) ==> c'.timeElapsed == c.timeElapsed)
  {
  }

  /** A frame of input: the key read in it (if any) and the time step. */
  datatype Frame = Frame(key: Option<ConsoleKey>, dt: real)

  /** The clock after Update has been called once per frame, in order. */
  function Replay(c: Clock, frames: seq<Frame>, sensitivity: real): Clock
    decreases |frames|
  {
    if |frames| == 0 then c
    else Replay(Tick(c, frames[0].key, sensitivity, frames[0].dt), frames[1..], sensitivity)
  }

  /**
   * Holding P over any number of frames toggles the running flag at most once: once when
   * the latch was set at the start, not at all otherwise. The speed does not change and the
   * latch stays cleared.
   */
  lemma {:induction false} HeldPauseTogglesOnce(c: Clock, frames: seq<Frame>, sensitivity: real)
    requires |frames| > 0
    requires forall i :: 0 <= i < |frames| ==> frames[i].key == Some(P)
    ensures var c' := Replay(c, frames, sensitivity);
      && c'.running == (if c.acceptPause then !c.running else c.running)
      && !c'.acceptPause
      && c'.speed == c.speed
    decreases |frames|
  {
    var c1 := Tick(c, frames[0].key, sensitivity, frames[0].dt);
    if |frames| > 1 {
      HeldPauseTogglesOnce(c1, frames[1..], sensitivity);
    }
  }

  /** The calls Update makes on the entity and the light. */
  datatype Call = EntityUpdate(time: real) | LightUpdate(time: real)

  class Animator {
    const sensitivity: real
    var speed: real
    var isRunning: bool
    var acceptPause: bool
    var timeElapsed: real

    function State(): Clock
      reads this
    {
      Clock(speed, isRunning, acceptPause, timeElapsed)
    }

    /** Animator(sensitivity, speed = 1, isRunning = true): the latch set, no time elapsed. */
    constructor (sensitivity: real, speed: real, isRunning: bool)
      ensures this.sensitivity == sensitivity
      ensures State() == Clock(speed, isRunning, true, 0.0)
    {
      this.sensitivity := sensitivity;
      this.speed := speed;
      this.isRunning := isRunning;
      acceptPause := true;
      timeElapsed := 0.0;
    }

    /** Update(key, entity, light, dt): the entity and the light both get the new elapsed time. */
    method Update(key: Option<ConsoleKey>, dt: real) returns (calls: seq<Call>)
      modifies this
      ensures State() == Tick(old(State()), key, sensitivity, dt)
      ensures calls == [EntityUpdate(timeElapsed), LightUpdate(timeElapsed)]
    {
      var change := 0.0;
      if key == Some(P) && acceptPause {
        isRunning, acceptPause := !isRunning, false;
      } else if key == Some(P) {
        acceptPause := false;
      } else if key == Some(K) && isRunning {
        speed, acceptPause := speed - sensitivity, true;
      } else if key == Some(L) && isRunning {
        speed, acceptPause := speed + sensitivity, true;
      } else if key == Some(K) {
        acceptPause, change := true, -speed;
      } else if key == Some(L) {
        acceptPause, change := true, speed;
      } else {
        acceptPause := true;
      }
      timeElapsed := timeElapsed + if isRunning then dt * speed else dt * change;
      calls := [EntityUpdate(timeElapsed), LightUpdate(timeElapsed)];
    }
  }
}
