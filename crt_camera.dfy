/**
 * ConsoleRayTracer/Camera/Camera.cs: the camera of the middle generation. One key per call
 * moves it: six keys translate the origin along the level forward, right and world-up
 * vectors, four arrows turn it; then the yaw is wrapped into (-2 pi, 2 pi), the pitch is
 * clamped just short of a quarter turn, and the view vectors are rebuilt from the angles.
 */
module CrtCamera {
  import opened Numerics
  import opened SrcPrimitives
  import opened ConsoleKeys

  /** SAFE_FRAC_PI_2: a quarter turn less 0.0001 (the rounding to float is not modelled). */
  const SafeFracPi2: real := DoublePi / 2.0 - 0.0001

  /**
   * The direction GetRay gives through the screen point (s, t) of a w by h screen spanned by
   * right and up in front of forward, with t = 1 at the top.
   */
  function ScreenDirection(forward: Vec3, right: Vec3, up: Vec3, w: real, h: real, s: real, t: real): Vec3 {
    Add(Add(forward, Scale(right, (s * 2.0 - 1.0) * w)), Scale(up, (t * 2.0 - 1.0) * h))
  }

  /** The camera's mutable state. */
  datatype View = View(origin: Vec3, forward: Vec3, right: Vec3, up: Vec3,
                       vForward: Vec3, vUp: Vec3, yaw: real, pitch: real)

  /** The first switch of Move: how far the key moves the origin. */
  function Translation(key: ConsoleKey, speed: real, dt: real, v: View): Vec3 {
    var k := speed * dt;
    if key == W then Scale(v.vForward, k)
    else if key == A then Scale(Neg(v.right), k)
    else if key == S then Scale(Neg(v.vForward), k)
    else if key == D then Scale(v.right, k)
    else if key == Spacebar then Scale(v.vUp, k)
    else if key == Z then Scale(Neg(v.vUp), k)
    else Zero
  }

  /** The second switch: how far the key turns the yaw. */
  function YawStep(key: ConsoleKey, sensitivity: real, dt: real): real {
    if key == LeftArrow then sensitivity * dt
    else if key == RightArrow then -sensitivity * dt
    else 0.0
  }

  /** The third switch: how far the key tilts the pitch. */
  function PitchStep(key: ConsoleKey, sensitivity: real, dt: real): real {
    if key == UpArrow then sensitivity * dt
    else if key == DownArrow then -sensitivity * dt
    else 0.0
  }

  /** The forward vector of the angles. */
  function Facing(m: Maths, yaw: real, pitch: real): Vec3 {
    Vec3(m.cos(yaw) * m.cos(pitch), m.sin(pitch), m.sin(yaw) * m.cos(pitch))
  }

  /**
   * The state after Move(key, dt): the origin moves by the translation taken from the old
   * view vectors; the angles are stepped, the yaw wrapped and the pitch clamped; the view
   * vectors are rebuilt, world-up staying as it was.
   */
  function Moved(m: Maths, v: View, key: ConsoleKey, speed: real, sensitivity: real, dt: real): (r: View)
    ensures Abs(r.yaw) < FloatTau
    ensures -SafeFracPi2 <= r.pitch <= SafeFracPi2
    ensures r.vUp == v.vUp
  {
    var yaw := Rem(v.yaw + YawStep(key, sensitivity, dt), FloatTau);
    var pitch := Clamp(v.pitch + PitchStep(key, sensitivity, dt), -SafeFracPi2, SafeFracPi2);
    var forward := Facing(m, yaw, pitch);
    var right := m.normalize(Cross(v.vUp, forward));
    RemBounds(v.yaw + YawStep(key, sensitivity, dt), FloatTau);
    View(Add(v.origin, Translation(key, speed, dt, v)), forward, right, Cross(forward, right),
         m.normalize(forward.(y := 0.0)), v.vUp, yaw, pitch)
  }

  const TranslationKeys: set<ConsoleKey> := {W, A, S, D, Spacebar, Z}
  const ArrowKeys: set<ConsoleKey> := {LeftArrow, RightArrow, UpArrow, DownArrow}

  /**
   * A translation key turns nothing, an arrow moves nothing, and any other key does
   * neither; Left and Right turn only the yaw, Up and Down only the pitch.
   */
  lemma KeyRoles(key: ConsoleKey, speed: real, sensitivity: real, dt: real, v: View)
    ensures key in TranslationKeys ==> YawStep(key, sensitivity, dt) == 0.0 && PitchStep(key, sensitivity, dt) == 0.0
    ensures key !in TranslationKeys ==> Translation(key, speed, dt, v) == Zero
    ensures key !in ArrowKeys ==> YawStep(key, sensitivity, dt) == 0.0 && PitchStep(key, sensitivity, dt) == 0.0
    ensures key in {LeftArrow, RightArrow} ==> PitchStep(key, sensitivity, dt) == 0.0 && Abs(YawStep(key, sensitivity, dt)) == Abs(sensitivity * dt)
    ensures key in {UpArrow, DownArrow} ==> YawStep(key, sensitivity, dt) == 0.0 && Abs(PitchStep(key, sensitivity, dt)) == Abs(sensitivity * dt)
  {
  }

  /** Opposite keys move and turn by opposite amounts. */
  lemma OppositeKeys(speed: real, sensitivity: real, dt: real, v: View)
    ensures Translation(S, speed, dt, v) == Neg(Translation(W, speed, dt, v))
    ensures Translation(A, speed, dt, v) == Neg(Translation(D, speed, dt, v))
    ensures Translation(Z, speed, dt, v) == Neg(Translation(Spacebar, speed, dt, v))
    ensures YawStep(RightArrow, sensitivity, dt) == -YawStep(LeftArrow, sensitivity, dt)
    ensures PitchStep(DownArrow, sensitivity, dt) == -PitchStep(UpArrow, sensitivity, dt)
  {
  }

  /**
   * A key that does not translate leaves the origin where it was; a key that does not
   * turn leaves the yaw at its remainder by 2 pi and the pitch at its clamped value.
   */
  lemma MoveSeparates(m: Maths, v: View, key: ConsoleKey, speed: real, sensitivity: real, dt: real)
    ensures key !in TranslationKeys ==> Moved(m, v, key, speed, sensitivity, dt).origin == v.origin
    ensures key !in ArrowKeys ==>
      && Moved(m, v, key, speed, sensitivity, dt).yaw == Rem(v.yaw, FloatTau)
      && Moved(m, v, key, speed, sensitivity, dt).pitch == Clamp(v.pitch, -SafeFracPi2, SafeFracPi2)
  {
    KeyRoles(key, speed, sensitivity, dt, v);
  }

  class Camera {
    const m: Maths
    const w: real
    const h: real
    const speed: real
    const sensitivity: real
    var origin: Vec3
    var forward: Vec3
    var right: Vec3
    var up: Vec3
    var vForward: Vec3
    var vUp: Vec3
    var yaw: real
    var pitch: real

    function State(): View
      reads this
    {
      View(origin, forward, right, up, vForward, vUp, yaw, pitch)
    }

    /**
     * The screen is 2 tan(fov / 2) high, and as wide as that times the aspect ratio; the
     * view vectors come from lookFrom and lookAt, the angles from the forward vector.
     */
    constructor(lookFrom: Vec3, lookAt: Vec3, vUp: Vec3, vFov: real, aspectRatio: real,
                speed: real, sensitivity: real, m: Maths)
      ensures this.m == m && this.speed == speed && this.sensitivity == sensitivity
      ensures h == m.tan(vFov * FloatPi / 180.0 / 2.0) * 2.0 && w == h * aspectRatio
      ensures origin == lookFrom && this.vUp == vUp
      ensures forward == m.normalize(Sub(lookAt, lookFrom))
      ensures right == m.normalize(Cross(vUp, forward)) && up == Cross(forward, right)
      ensures vForward == m.normalize(forward.(y := 0.0))
      ensures yaw == m.atan2(forward.z, forward.x) && pitch == m.asin(forward.y)
    {
      var theta := vFov * FloatPi / 180.0;
      var height := m.tan(theta / 2.0) * 2.0;
      h := height;
      w := height * aspectRatio;
      var f := m.normalize(Sub(lookAt, lookFrom));
      var r := m.normalize(Cross(vUp, f));
      forward := f;
      right := r;
      up := Cross(f, r);
      vForward := m.normalize(f.(y := 0.0));
      this.vUp := vUp;
      yaw := m.atan2(f.z, f.x);
      pitch := m.asin(f.y);
      origin := lookFrom;
      this.speed := speed;
      this.sensitivity := sensitivity;
      this.m := m;
    }

    /** GetRay(s, t): from the origin through the screen point (s, t), with t = 1 at the top. */
    function GetRay(s: real, t: real): Ray
      reads this
    {
      Ray(origin, ScreenDirection(forward, right, up, w, h, s, t))
    }

    /** Move(key, dt). */
    method Move(key: ConsoleKey, dt: real)
      modifies this
      ensures State() == Moved(m, old(State()), key, speed, sensitivity, dt)
    {
      origin := Add(origin, Translation(key, speed, dt, State()));
      yaw := yaw + YawStep(key, sensitivity, dt);
      pitch := pitch + PitchStep(key, sensitivity, dt);
      yaw := Rem(yaw, FloatTau);
      pitch := Clamp(pitch, -SafeFracPi2, SafeFracPi2);
      forward := Facing(m, yaw, pitch);
      right := m.normalize(Cross(vUp, forward));
      up := Cross(forward, right);
      vForward := m.normalize(forward.(y := 0.0));
    }
  }

  /**
   * The centre of the screen looks along forward; t = 0 is the bottom edge, h below the
   * centre line, and s = 0 the left edge, w to the left of it.
   */
  lemma GetRayEdges(c: Camera, s: real, t: real)
    ensures c.GetRay(0.5, 0.5) == Ray(c.origin, c.forward)
    ensures c.GetRay(s, 0.0).direction == Add(Add(c.forward, Scale(c.right, (s * 2.0 - 1.0) * c.w)), Scale(c.up, -c.h))
    ensures c.GetRay(0.0, t).direction == Add(Add(c.forward, Scale(c.right, -c.w)), Scale(c.up, (t * 2.0 - 1.0) * c.h))
  {
    assert Scale(c.right, 0.0) == Zero && Scale(c.up, 0.0) == Zero;
    assert Add(Add(c.forward, Zero), Zero) == c.forward;
  }

  /** Every ray starts at the origin, and its direction is affine in s and t. */
  lemma GetRayAffine(c: Camera, s: real, t: real, ds: real, dt: real)
    ensures c.GetRay(s + ds, t + dt).origin == c.origin
    ensures c.GetRay(s + ds, t + dt).direction
         == Add(Add(c.GetRay(s, t).direction, Scale(c.right, 2.0 * ds * c.w)), Scale(c.up, 2.0 * dt * c.h))
  {
    var a, da := (s * 2.0 - 1.0) * c.w, 2.0 * ds * c.w;
    var b, db := (t * 2.0 - 1.0) * c.h, 2.0 * dt * c.h;
    assert ((s + ds) * 2.0 - 1.0) * c.w == a + da;
    assert ((t + dt) * 2.0 - 1.0) * c.h == b + db;
    ScaleDistributes(c.right, a, da);
    ScaleDistributes(c.up, b, db);
  }
}
