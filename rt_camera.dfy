/**
 * RayTracer/Camera/Camera.cs: the camera of the oldest generation. Speed and sensitivity are
 * given per second and kept per millisecond. Six keys translate the origin along the level
 * forward vector, the right vector and world up, and change nothing else; every other key,
 * no key included, goes to Rotate, which turns the angles for an arrow, wraps the yaw into
 * (-2 pi, 2 pi), clamps the pitch just short of a quarter turn, rebuilds the view vectors
 * and adds nothing to the origin.
 */
module RtCamera {
  import opened Wrappers
  import opened Numerics
  import opened SrcPrimitives
  import opened ConsoleKeys
  import CrtCamera

  /** SAFE_FRAC_PI_2: the float pi over 2, less 0.0001. */
  const SafeFracPi2: real := FloatPi / 2.0 - 0.0001

  /** The camera's mutable state. */
  datatype View = View(origin: Vec3, forward: Vec3, right: Vec3, up: Vec3, yaw: real, pitch: real)

  const TranslationKeys: set<ConsoleKey> := {W, A, S, D, Spacebar, Z}
  const ArrowKeys: set<ConsoleKey> := {LeftArrow, RightArrow, UpArrow, DownArrow}

  /** Whether Move translates for this key rather than calling Rotate. */
  predicate Translates(key: Option<ConsoleKey>) {
    key.Some? && key.value in TranslationKeys
  }

  /**
   * The arms of Move's switch for the six translation keys: dp along the forward vector
   * with its height dropped and renormalised, along right, or along world up.
   */
  function Translation(m: Maths, v: View, key: ConsoleKey, dp: real): Vec3 {
    var forward := m.normalize(v.forward.(y := 0.0));
    if key == W then Scale(forward, dp)
    else if key == A then Scale(v.right, -dp)
    else if key == S then Scale(forward, -dp)
    else if key == D then Scale(v.right, dp)
    else if key == Spacebar then Scale(UnitY, dp)
    else if key == Z then Scale(UnitY, -dp)
    else Zero
  }

  /** Rotate's switch: the yaw and pitch before the wrap and the clamp. */
  function Turn(key: Option<ConsoleKey>, dr: real, yaw: real, pitch: real): (real, real) {
    if key == Some(LeftArrow) then (yaw + dr, pitch)
    else if key == Some(RightArrow) then (yaw - dr, pitch)
    else if key == Some(UpArrow) then (yaw, pitch + dr)
    else if key == Some(DownArrow) then (yaw, pitch - dr)
    else (yaw, pitch)
  }

  /** The forward vector of the angles, from their sines and cosines. */
  function Facing(m: Maths, yaw: real, pitch: real): Vec3 {
    Vec3(m.cos(yaw) * m.cos(pitch), m.sin(pitch), m.sin(yaw) * m.cos(pitch))
  }

  /** The state after Rotate(key, dt), with dr = sensitivity * dt. */
  function Rotated(m: Maths, v: View, key: Option<ConsoleKey>, dr: real): View {
    var (yaw0, pitch0) := Turn(key, dr, v.yaw, v.pitch);
    var yaw := Rem(yaw0, FloatTau);
    var pitch := Clamp(pitch0, -SafeFracPi2, SafeFracPi2);
    var forward := Facing(m, yaw, pitch);
    var right := m.normalize(Vec3(forward.z, 0.0, -forward.x));
    View(v.origin, forward, right, Cross(forward, right), yaw, pitch)
  }

  /** The state after Move(key, dt). */
  function Moved(m: Maths, v: View, key: Option<ConsoleKey>, speed: real, sensitivity: real, dt: real): View {
    if Translates(key) then v.(origin := Add(v.origin, Translation(m, v, key.value, speed * dt)))
    else Rotated(m, v, key, sensitivity * dt)
  }

  /**
   * An arrow changes exactly one angle, by dr in one direction or the other: Left and
   * Right the yaw, Up and Down the pitch. Every other key, and no key, changes neither.
   * Opposite arrows undo each other.
   */
  lemma TurnRules(key: Option<ConsoleKey>, dr: real, yaw: real, pitch: real)
    ensures key == Some(LeftArrow) || key == Some(RightArrow) ==>
      Turn(key, dr, yaw, pitch).1 == pitch && Abs(Turn(key, dr, yaw, pitch).0 - yaw) == Abs(dr)
    ensures key == Some(UpArrow) || key == Some(DownArrow) ==>
      Turn(key, dr, yaw, pitch).0 == yaw && Abs(Turn(key, dr, yaw, pitch).1 - pitch) == Abs(dr)
    ensures !(key.Some? && key.value in ArrowKeys) ==> Turn(key, dr, yaw, pitch) == (yaw, pitch)
    ensures var (y, p) := Turn(Some(LeftArrow), dr, yaw, pitch); Turn(Some(RightArrow), dr, y, p) == (yaw, pitch)
    ensures var (y, p) := Turn(Some(UpArrow), dr, yaw, pitch); Turn(Some(DownArrow), dr, y, p) == (yaw, pitch)
  {
  }

  /**
   * A translation key moves only the origin, the angles and the view vectors staying as
   * they were. Any other key, or none, leaves the origin where it was, the yaw inside
   * (-2 pi, 2 pi) and the pitch inside the safe quarter turn.
   */
  lemma MoveSeparates(m: Maths, v: View, key: Option<ConsoleKey>, speed: real, sensitivity: real, dt: real)
    ensures var r := Moved(m, v, key, speed, sensitivity, dt);
      && (Translates(key) ==>
            && r.forward == v.forward && r.right == v.right && r.up == v.up
            && r.yaw == v.yaw && r.pitch == v.pitch
            && r.origin == Add(v.origin, Translation(m, v, key.value, speed * dt)))
      && (!Translates(key) ==>
            && r.origin == v.origin
            && Abs(r.yaw) < FloatTau
            && -SafeFracPi2 <= r.pitch <= SafeFracPi2)
  {
    if !Translates(key) {
      var (yaw0, pitch0) := Turn(key, sensitivity * dt, v.yaw, v.pitch);
      RemBounds(yaw0, FloatTau);
    }
  }

  /**
   * A key that is neither a translation key nor an arrow still goes through Rotate: the
   * yaw becomes its remainder by 2 pi and the pitch its clamped value.
   */
  lemma OtherKeysNormalise(m: Maths, v: View, key: Option<ConsoleKey>, speed: real, sensitivity: real, dt: real)
    requires !Translates(key) && !(key.Some? && key.value in ArrowKeys)
    ensures Moved(m, v, key, speed, sensitivity, dt).yaw == Rem(v.yaw, FloatTau)
    ensures Moved(m, v, key, speed, sensitivity, dt).pitch == Clamp(v.pitch, -SafeFracPi2, SafeFracPi2)
  {
    TurnRules(key, sensitivity * dt, v.yaw, v.pitch);
  }

  /**
   * Opposite translation keys move by opposite amounts; Space and Z move only the height
   * of the origin, by dp up or down.
   */
  lemma TranslationRules(m: Maths, v: View, dp: real)
    ensures Translation(m, v, S, dp) == Neg(Translation(m, v, W, dp))
    ensures Translation(m, v, A, dp) == Neg(Translation(m, v, D, dp))
    ensures Translation(m, v, Z, dp) == Neg(Translation(m, v, Spacebar, dp))
    ensures Translation(m, v, Spacebar, dp) == Vec3(0.0, dp, 0.0)
  {
  }

  class Camera {
    const m: Maths
    const width: real
    const height: real
    const speed: real
    const sensitivity: real
    var forward: Vec3
    var right: Vec3
    var up: Vec3
    var origin: Vec3
    var yaw: real
    var pitch: real

    function State(): View
      reads this
    {
      View(origin, forward, right, up, yaw, pitch)
    }

    /**
     * The screen is tan(fov / 2) high and that times the aspect ratio wide; speed and
     * sensitivity are kept divided by 1000; the view vectors come from lookFrom and
     * lookAt, the angles from the forward vector.
     */
    constructor(lookFrom: Vec3, lookAt: Vec3, vFov: real, aspectRatio: real,
                speed: real, sensitivity: real, m: Maths)
      ensures this.m == m
      ensures height == m.tan(vFov * DoublePi / 360.0) && width == height * aspectRatio
      ensures this.speed * 1000.0 == speed && this.sensitivity * 1000.0 == sensitivity
      ensures origin == lookFrom
      ensures forward == m.normalize(Sub(lookAt, lookFrom))
      ensures right == m.normalize(m.normalize(Vec3(forward.z, 0.0, -forward.x)))
      ensures up == Cross(forward, right)
      ensures yaw == m.atan2(forward.z, forward.x) && pitch == m.asin(forward.y)
    {
      this.m := m;
      height := m.tan(vFov * DoublePi / 360.0);
      width := m.tan(vFov * DoublePi / 360.0) * aspectRatio;
      this.speed := speed / 1000.0;
      this.sensitivity := sensitivity / 1000.0;
      origin := lookFrom;
      var f := m.normalize(Sub(lookAt, lookFrom));
      var r := m.normalize(m.normalize(Vec3(f.z, 0.0, -f.x)));
      forward := f;
      right := r;
      up := Cross(f, r);
      yaw := m.atan2(f.z, f.x);
      pitch := m.asin(f.y);
    }

    /** GetRay(s, t): from the origin through the screen point (s, t), with t = 0 at the top. */
    function GetRay(s: real, t: real): Ray
      reads this
    {
      var px := (2.0 * s - 1.0) * width;
      var py := (1.0 - 2.0 * t) * height;
      Ray(origin, Add(Add(Scale(right, px), Scale(up, py)), forward))
    }

    /** Move(key, dt): a translation for the six keys, otherwise Rotate. */
    method Move(key: Option<ConsoleKey>, dt: real)
      modifies this
      ensures State() == Moved(m, old(State()), key, speed, sensitivity, dt)
    {
      var dp := speed * dt;
      var level := m.normalize(forward.(y := 0.0));
      var offset: Vec3;
      if key == Some(W) {
        offset := Scale(level, dp);
      } else if key == Some(A) {
        offset := Scale(right, -dp);
      } else if key == Some(S) {
        offset := Scale(level, -dp);
      } else if key == Some(D) {
        offset := Scale(right, dp);
      } else if key == Some(Spacebar) {
        offset := Scale(UnitY, dp);
      } else if key == Some(Z) {
        offset := Scale(UnitY, -dp);
      } else {
        offset := Rotate(key, dt);
      }
      origin := Add(origin, offset);
    }

    /** Rotate(key, dt): turns, wraps and clamps the angles, rebuilds the view, moves nothing. */
    method Rotate(key: Option<ConsoleKey>, dt: real) returns (offset: Vec3)
      modifies this
      ensures offset == Zero
      ensures State() == Rotated(m, old(State()), key, sensitivity * dt)
    {
      var dr := sensitivity * dt;
      var turned := Turn(key, dr, yaw, pitch);
      yaw, pitch := turned.0, turned.1;
      yaw := Rem(yaw, FloatTau);
      pitch := Clamp(pitch, -SafeFracPi2, SafeFracPi2);
      forward := Facing(m, yaw, pitch);
      right := m.normalize(Vec3(forward.z, 0.0, -forward.x));
      up := Cross(forward, right);
      offset := Zero;
    }
  }

  /**
   * The centre of the screen looks along forward from the origin; t = 0 is the top edge,
   * height above the centre line, and s = 0 the left edge, width to the left of it.
   */
  lemma GetRayEdges(c: Camera, s: real, t: real)
    ensures c.GetRay(0.5, 0.5) == Ray(c.origin, c.forward)
    ensures c.GetRay(s, 0.0).direction == Add(Add(Scale(c.right, (2.0 * s - 1.0) * c.width), Scale(c.up, c.height)), c.forward)
    ensures c.GetRay(0.0, t).direction == Add(Add(Scale(c.right, -c.width), Scale(c.up, (1.0 - 2.0 * t) * c.height)), c.forward)
  {
    assert Scale(c.right, 0.0) == Zero && Scale(c.up, 0.0) == Zero;
    assert Add(Add(Zero, Zero), c.forward) == c.forward;
  }

  /**
   * The oldest camera's screen is upside down against the middle generation's: for equal
   * view vectors and sizes, its ray through (s, t) is the middle camera's ray through
   * (s, 1 - t).
   */
  lemma FlippedAgainstMiddle(c: Camera, s: real, t: real)
    ensures c.GetRay(s, t).direction == CrtCamera.ScreenDirection(c.forward, c.right, c.up, c.width, c.height, s, 1.0 - t)
  {
  }
}
