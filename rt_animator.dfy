/**
 * RayTracer/Essential/Animator.cs: the tuple-switch clock of the oldest generation. The
 * switch and the time step are those of the middle generation (CrtAnimator.Tick); here one
 * entity is updated per call, with the absolute elapsed time, and that entity is the
 * absolute-time Animated wrapper (SrcAnimatedEntity.Animated, which is also the code of
 * RayTracer/Animation/IAnimatedEntity.cs).
 */
module RtAnimator {
  import opened Wrappers
  import opened ConsoleKeys
  import CrtAnimator
  import SrcAnimation
  import SrcAnimatedEntity

  class Animator {
    const sensitivity: real
    var speed: real
    var isRunning: bool
    var acceptPause: bool
    var timeElapsed: real

    function State(): CrtAnimator.Clock
      reads this
    {
      CrtAnimator.Clock(speed, isRunning, acceptPause, timeElapsed)
    }

    /** A new clock: the given speed and running flag, the latch set, no time elapsed. */
    constructor(sensitivity: real, speed: real, isRunning: bool)
      ensures this.sensitivity == sensitivity
      ensures State() == CrtAnimator.Clock(speed, isRunning, true, 0.0)
    {
      this.sensitivity := sensitivity;
      this.speed := speed;
      this.isRunning := isRunning;
      acceptPause := true;
      timeElapsed := 0.0;
    }

    /**
     * Update(entity, key, dt): the clock ticks as the switch says, and the entity is
     * re-sampled at the new elapsed time.
     */
    method Update(entity: SrcAnimatedEntity.Animated, key: Option<ConsoleKey>, dt: real)
      requires SrcAnimation.Sampleable(entity.offset) && SrcAnimation.Sampleable(entity.brightness)
      requires SrcAnimation.Sampleable(entity.reflectance)
      modifies this, entity
      ensures State() == CrtAnimator.Tick(old(State()), key, sensitivity, dt)
      ensures entity.SampledAt(timeElapsed)
    {
      var s := CrtAnimator.Switch(key, State(), sensitivity);
      speed, isRunning, acceptPause := s.speed, s.running, s.acceptPause;
      var change := s.change;
      timeElapsed := timeElapsed + dt * (if isRunning then speed else change);
      entity.Update(timeElapsed);
    }
  }
}
