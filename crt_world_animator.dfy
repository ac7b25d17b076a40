/**
 * ConsoleRayTracer/World/Animator.cs: the tuple-switch clock over one entity, plus the
 * camera update and the scene update. The switch and the time step are those of
 * ConsoleRayTracer/Animator.cs (CrtAnimator.Tick); the time step is written here as
 * dt * (running ? speed : change), which comes to the same.
 */
module CrtWorldAnimator {
  import opened Wrappers
  import opened ConsoleKeys
  import CrtAnimator

  /** The calls the animator makes on the entity and on the camera. */
  datatype SceneCall =
    | EntityUpdate(time: real)
    | CameraAdjust(aspectRatio: real)
    | CameraMove(key: Option<ConsoleKey>, dt: real)
    | CameraRotate(key: Option<ConsoleKey>, dr: real)

  /** The camera update: Adjust, then Move, then Rotate, each with the frame's own inputs. */
  function CameraCalls(key: Option<ConsoleKey>, dt: real, aspectRatio: real): (calls: seq<SceneCall>)
    ensures |calls| == 3
    ensures calls[0].CameraAdjust? && calls[0].aspectRatio == aspectRatio
    ensures calls[1].CameraMove? && calls[1].key == key && calls[1].dt == dt
    ensures calls[2].CameraRotate? && calls[2].key == key && calls[2].dr == dt
  {
    [CameraAdjust(aspectRatio), CameraMove(key, dt), CameraRotate(key, dt)]
  }

  class WorldAnimator {
    const sensitivity: real
    var speed: real
    var isRunning: bool
    var acceptPause: bool
    var timeElapsed: real

    function State(): CrtAnimator.Clock
      reads this
    {
      CrtAnimator.Clock(speed, isRunning, acceptPause, timeElapsed)
    }

    constructor (sensitivity: real, speed: real, isRunning: bool)
      ensures this.sensitivity == sensitivity
      ensures State() == CrtAnimator.Clock(speed, isRunning, true, 0.0)
    {
      this.sensitivity := sensitivity;
      this.speed := speed;
      this.isRunning := isRunning;
      acceptPause := true;
      timeElapsed := 0.0;
    }

    /** Update(entity, key, dt): the entity is handed the absolute elapsed time. */
    method UpdateEntity(key: Option<ConsoleKey>, dt: real) returns (calls: seq<SceneCall>)
      modifies this
      ensures State() == CrtAnimator.Tick(old(State()), key, sensitivity, dt)
      ensures calls == [EntityUpdate(timeElapsed)]
    {
      var change := 0.0;
      if key == Some(P) && acceptPause {
        isRunning, acceptPause := !isRunning, false;
      } else if key == Some(P) {
        acceptPause := false;
      } else if key == Some(K) && isRunning {
        speed, acceptPause := speed - sensitivity, true;
      } else if key == Some(L) && isRunning {
        speed, acceptPause := speed + sensitivity, true;
      } else if key == Some(K) {
        acceptPause, change := true, -speed;
      } else if key == Some(L) {
        acceptPause, change := true, speed;
      } else {
        acceptPause := true;
      }
      timeElapsed := timeElapsed + dt * (if isRunning then speed else change);
      calls := [EntityUpdate(timeElapsed)];
    }

    /** Update(camera, key, dt, aspectRatio): the clock is not touched. */
    method UpdateCamera(key: Option<ConsoleKey>, dt: real, aspectRatio: real) returns (calls: seq<SceneCall>)
      ensures calls == CameraCalls(key, dt, aspectRatio)
    {
      calls := [CameraAdjust(aspectRatio), CameraMove(key, dt), CameraRotate(key, dt)];
    }

    /** Update(scene, key, dt, aspectRatio): the entity first, then the camera. */
    method UpdateScene(key: Option<ConsoleKey>, dt: real, aspectRatio: real) returns (calls: seq<SceneCall>)
      modifies this
      ensures State() == CrtAnimator.Tick(old(State()), key, sensitivity, dt)
      ensures calls == [EntityUpdate(timeElapsed)] + CameraCalls(key, dt, aspectRatio)
    {
      var entityCalls := UpdateEntity(key, dt);
      var cameraCalls := UpdateCamera(key, dt, aspectRatio);
      calls := entityCalls + cameraCalls;
    }
  }
}
