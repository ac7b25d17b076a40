/**
 * src/Camera/Camera.cs: the first-person camera and its key controller.
 *
 * The controller keeps two 16-bit masks: the keys whose effect applies now (relevant) and
 * the keys held down (history). Pressing a key makes it relevant and cancels its opposite;
 * releasing it hands control back to the opposite key if that one is still held. Each
 * frame the relevant keys rotate and move the camera, and a pending aspect ratio from a
 * resize event is applied once.
 */
module SrcCamera {
  import opened Wrappers
  import opened Numerics
  import opened SrcPrimitives
  import opened SrcEvent
  import ConsoleKeys

  // ---------------------------------------------------------------- the Keys enum

  /** The flags of the Keys enum; a mask is the set of its flags that are on. */
  datatype KeyFlag = W | A | S | D | Spacebar | Z | UpArrow | LeftArrow | DownArrow | RightArrow
  type Keys = set<KeyFlag>

  /** The opposite of each flag. */
  function OppositeFlag(k: KeyFlag): (o: KeyFlag)
    ensures o != k
  {
    match k
    case W => S case S => W
    case A => D case D => A
    case Spacebar => Z case Z => Spacebar
    case UpArrow => DownArrow case DownArrow => UpArrow
    case LeftArrow => RightArrow case RightArrow => LeftArrow
  }

  lemma OppositeInvolution(k: KeyFlag)
    ensures OppositeFlag(OppositeFlag(k)) == k
  {
  }

  /** The flag of each key the camera listens to. */
  function FlagOf(key: ConsoleKeys.ConsoleKey): Option<KeyFlag> {
    if key == ConsoleKeys.W then Some(W)
    else if key == ConsoleKeys.A then Some(A)
    else if key == ConsoleKeys.S then Some(S)
    else if key == ConsoleKeys.D then Some(D)
    else if key == ConsoleKeys.Spacebar then Some(Spacebar)
    else if key == ConsoleKeys.Z then Some(Z)
    else if key == ConsoleKeys.UpArrow then Some(UpArrow)
    else if key == ConsoleKeys.LeftArrow then Some(LeftArrow)
    else if key == ConsoleKeys.DownArrow then Some(DownArrow)
    else if key == ConsoleKeys.RightArrow then Some(RightArrow)
    else None
  }

  /** KeyPair: a mapped key's flag and its opposite's; the empty mask twice for any other key. */
  function KeyPair(key: ConsoleKeys.ConsoleKey): (p: (Keys, Keys))
    ensures FlagOf(key).None? ==> p == ({}, {})
    ensures FlagOf(key).Some? ==> p == ({FlagOf(key).value}, {OppositeFlag(FlagOf(key).value)})
  {
    var f := FlagOf(key);
    if f.Some? then ({f.value}, {OppositeFlag(f.value)}) else ({}, {})
  }

  /** The table of pairs: W/S, A/D, Space/Z, Up/Down and Left/Right, each way round; nothing else is mapped. */
  lemma KeyPairTable(key: ConsoleKeys.ConsoleKey)
    ensures KeyPair(ConsoleKeys.W) == ({W}, {S}) && KeyPair(ConsoleKeys.S) == ({S}, {W})
    ensures KeyPair(ConsoleKeys.A) == ({A}, {D}) && KeyPair(ConsoleKeys.D) == ({D}, {A})
    ensures KeyPair(ConsoleKeys.Spacebar) == ({Spacebar}, {Z}) && KeyPair(ConsoleKeys.Z) == ({Z}, {Spacebar})
    ensures KeyPair(ConsoleKeys.UpArrow) == ({UpArrow}, {DownArrow}) && KeyPair(ConsoleKeys.DownArrow) == ({DownArrow}, {UpArrow})
    ensures KeyPair(ConsoleKeys.LeftArrow) == ({LeftArrow}, {RightArrow})
    ensures KeyPair(ConsoleKeys.RightArrow) == ({RightArrow}, {LeftArrow})
    ensures KeyPair(key) != ({}, {}) <==> key in {ConsoleKeys.W, ConsoleKeys.A, ConsoleKeys.S, ConsoleKeys.D, ConsoleKeys.Spacebar,
                                                 ConsoleKeys.Z, ConsoleKeys.UpArrow, ConsoleKeys.LeftArrow, ConsoleKeys.DownArrow,
                                                 ConsoleKeys.RightArrow}
  {
  }

  /** The controller's invariant: relevant keys are held keys, and no flag is relevant with its opposite. */
  predicate KeysValid(relevant: Keys, history: Keys) {
    relevant <= history && forall k :: k in relevant ==> OppositeFlag(k) !in relevant
  }

  /** The masks after a press (or a release) of `key`, whose opposite is `oppositeKey`. */
  function MaskStep(relevant: Keys, history: Keys, key: Keys, oppositeKey: Keys, pressed: bool): (Keys, Keys) {
    if pressed then
      ((relevant + key) - oppositeKey, history + key)
    else
      var r := relevant - key;
      (if history * oppositeKey != {} then r + oppositeKey else r, history - key)
  }

  /** OnKeyEvent on the two masks: a press, or (any other state) a release. */
  function KeyStep(relevant: Keys, history: Keys, e: KeyEvent): (Keys, Keys) {
    var p := KeyPair(e.key);
    MaskStep(relevant, history, p.0, p.1, e.state == Pressed)
  }

  /** Every key event keeps the controller's invariant. */
  lemma KeyStepKeepsValid(relevant: Keys, history: Keys, e: KeyEvent)
    requires KeysValid(relevant, history)
    ensures var (r, h) := KeyStep(relevant, history, e); KeysValid(r, h)
  {
    if FlagOf(e.key).Some? {
      var k := FlagOf(e.key).value;
      var (r, h) := KeyStep(relevant, history, e);
      OppositeInvolution(k);
      forall j | j in r ensures OppositeFlag(j) !in r {
        OppositeInvolution(j);
        if j != k && j != OppositeFlag(k) {
          assert j in relevant;
        }
      }
    } else {
      UnmappedKeyIgnored(relevant, history, e);
    }
  }

  /** A press makes the key relevant and held, and its opposite not relevant. */
  lemma PressTakesOver(relevant: Keys, history: Keys, e: KeyEvent)
    requires e.state == Pressed && KeyPair(e.key) != ({}, {})
    ensures var (key, opposite) := KeyPair(e.key);
      var (r, h) := KeyStep(relevant, history, e);
      key <= r && key <= h && r * opposite == {}
  {
    assert FlagOf(e.key).Some?;
  }

  /** A release drops the key from both masks, and gives control back to a still-held opposite. */
  lemma ReleaseRestoresOpposite(relevant: Keys, history: Keys, e: KeyEvent)
    requires e.state != Pressed && KeyPair(e.key) != ({}, {})
    ensures var (key, opposite) := KeyPair(e.key);
      var (r, h) := KeyStep(relevant, history, e);
      && r * key == {} && h * key == {}
      && (history * opposite != {} ==> opposite <= r)
      && (history * opposite == {} ==> r * opposite == relevant * opposite)
  {
    assert FlagOf(e.key).Some?;
  }

  /** W down, S down, S up: W is relevant again. */
  lemma HoldBothReleaseOne()
    ensures var s1 := KeyStep({}, {}, KeyEvent(ConsoleKeys.W, Pressed));
      var s2 := KeyStep(s1.0, s1.1, KeyEvent(ConsoleKeys.S, Pressed));
      var s3 := KeyStep(s2.0, s2.1, KeyEvent(ConsoleKeys.S, Released));
      s2.0 == {S} && s3 == ({W}, {W})
  {
    KeyPairTable(ConsoleKeys.W);
    assert ({} + {W}) - {S} == {W} && {} + {W} == {W};
    var s1 := KeyStep({}, {}, KeyEvent(ConsoleKeys.W, Pressed));
    assert s1 == ({W}, {W});
    assert ({W} + {S}) - {W} == {S} && {W} + {S} == {W, S};
    var s2 := KeyStep(s1.0, s1.1, KeyEvent(ConsoleKeys.S, Pressed));
    assert s2 == ({S}, {W, S});
    assert {S} - {S} == {} && {W, S} * {W} == {W} && {} + {W} == {W} && {W, S} - {S} == {W};
  }

  /** A key the controller does not map changes neither mask. */
  lemma UnmappedKeyIgnored(relevant: Keys, history: Keys, e: KeyEvent)
    requires KeyPair(e.key) == ({}, {})
    ensures KeyStep(relevant, history, e) == (relevant, history)
  {
    assert (relevant + {}) - {} == relevant && history + {} == history && history - {} == history;
    assert relevant - {} == relevant;
  }

  // ---------------------------------------------------------------- rotation and movement

  /** VERTICAL_BOUND: just under a quarter turn (float rounding of the constant not modelled). */
  const VerticalBound: real := FloatPi * 0.5 - 0.0000001

  /** ApplyRotation on (yaw, pitch): Up beats Down, Left beats Right, then wrap yaw and clamp pitch. */
  function Rotated(keys: Keys, yaw: real, pitch: real, dr: real): (r: (real, real))
    ensures Abs(r.0) < FloatTau
    ensures -VerticalBound <= r.1 <= VerticalBound
  {
    var pitch' := if UpArrow in keys then pitch + dr else if DownArrow in keys then pitch - dr else pitch;
    var yaw' := if LeftArrow in keys then yaw + dr else if RightArrow in keys then yaw - dr else yaw;
    RemBounds(yaw', FloatTau);
    (Rem(yaw', FloatTau), Clamp(pitch', -VerticalBound, VerticalBound))
  }

  const ArrowKeys: Keys := {UpArrow, LeftArrow, DownArrow, RightArrow}
  const MoveKeys: Keys := {W, A, S, D, Spacebar, Z}

  /**
   * Only the arrow keys rotate; in particular a single arrow changes exactly one of yaw and
   * pitch, by dr, before wrapping and clamping.
   */
  lemma RotationUsesArrowsOnly(keys: Keys, yaw: real, pitch: real, dr: real)
    ensures Rotated(keys, yaw, pitch, dr) == Rotated(keys * ArrowKeys, yaw, pitch, dr)
    ensures Rotated({UpArrow}, yaw, pitch, dr) == Rotated({}, yaw, pitch + dr, dr)
    ensures Rotated({DownArrow}, yaw, pitch, dr) == Rotated({}, yaw, pitch - dr, dr)
    ensures Rotated({LeftArrow}, yaw, pitch, dr) == Rotated({}, yaw + dr, pitch, dr)
    ensures Rotated({RightArrow}, yaw, pitch, dr) == Rotated({}, yaw - dr, pitch, dr)
  {
  }

  /** Forward(yaw, pitch). */
  function Forward(m: Maths, yaw: real, pitch: real): Vec3 {
    Vec3(m.cos(yaw) * m.cos(pitch), m.sin(pitch), m.sin(yaw) * m.cos(pitch))
  }

  /** Right(forward). */
  function RightOf(m: Maths, forward: Vec3): Vec3 {
    m.normalize(Cross(UnitY, forward))
  }

  /** ApplyMovement's direction: W beats S along the level forward, A beats D along right, Space beats Z along Y. */
  function MoveDirection(keys: Keys, right: Vec3): Vec3 {
    var forward := Cross(right, UnitY);
    var d1 := if W in keys then Add(Zero, forward) else if S in keys then Sub(Zero, forward) else Zero;
    var d2 := if A in keys then Sub(d1, right) else if D in keys then Add(d1, right) else d1;
    if Spacebar in keys then d2.(y := d2.y + 1.0)
    else if Z in keys then d2.(y := d2.y - 1.0)
    else d2
  }

  /** Only the movement keys move: no movement key, no direction. */
  lemma MovementUsesMoveKeysOnly(keys: Keys, right: Vec3)
    ensures MoveDirection(keys, right) == MoveDirection(keys * MoveKeys, right)
    ensures keys * MoveKeys == {} ==> MoveDirection(keys, right) == Zero
  {
  }

  /** The origin after ApplyMovement. */
  function Moved(m: Maths, keys: Keys, origin: Vec3, right: Vec3, speed: real, dt: real): Vec3 {
    var direction := MoveDirection(keys, right);
    if direction != Zero then Add(origin, Scale(Scale(m.normalize(direction), speed), dt)) else origin
  }

  // ---------------------------------------------------------------- the camera

  /** Where the camera is and where it looks. */
  datatype Pose = Pose(origin: Vec3, forward: Vec3, right: Vec3, up: Vec3, yaw: real, pitch: real)

  /** ApplyRotation on a pose: new yaw and pitch, and the view vectors recomputed from them. */
  function Turned(m: Maths, keys: Keys, p: Pose, dr: real): (q: Pose)
    ensures q.origin == p.origin
    ensures Abs(q.yaw) < FloatTau && -VerticalBound <= q.pitch <= VerticalBound
  {
    var (yaw, pitch) := Rotated(keys, p.yaw, p.pitch, dr);
    var forward := Forward(m, yaw, pitch);
    var right := RightOf(m, forward);
    Pose(p.origin, forward, right, Cross(forward, right), yaw, pitch)
  }

  /** The camera width after ApplyUpdates: a pending ratio (non-zero) rescales the height, none keeps it. */
  function Resized(width: real, height: real, aspectRatio: real): (w: real)
    ensures aspectRatio == 0.0 ==> w == width
    ensures aspectRatio != 0.0 ==> w == height * aspectRatio
  {
    if aspectRatio != 0.0 then height * aspectRatio else width
  }

  /** ApplyMovement on a pose: only the origin moves. */
  function Walked(m: Maths, keys: Keys, p: Pose, speed: real, dt: real): (q: Pose)
    ensures q.forward == p.forward && q.right == p.right && q.up == p.up && q.yaw == p.yaw && q.pitch == p.pitch
  {
    p.(origin := Moved(m, keys, p.origin, p.right, speed, dt))
  }

  /** ApplyRotation then ApplyMovement, the movement using the new right vector. */
  function Steered(m: Maths, keys: Keys, p: Pose, speed: real, sensitivity: real, dt: real): (q: Pose)
    ensures Abs(q.yaw) < FloatTau && -VerticalBound <= q.pitch <= VerticalBound
  {
    Walked(m, keys, Turned(m, keys, p, sensitivity * dt), speed, dt)
  }

  /** The key masks after Controller.Handle: a key event steps them, any other event keeps them. */
  function HandledKeys(relevant: Keys, history: Keys, ev: Option<Event>): (Keys, Keys) {
    if ev.Some? && KeyEventOf(ev.value).Some? then KeyStep(relevant, history, KeyEventOf(ev.value).value)
    else (relevant, history)
  }

  /**
   * The pending aspect ratio after Controller.Handle: a resize event (that is not a key event)
   * with a non-zero height stores its ratio; anything else keeps the pending one.
   */
  function HandledRatio(ratio: real, ev: Option<Event>): real {
    if ev.Some? && KeyEventOf(ev.value).None? && ResizeEventOf(ev.value).Some?
       && AspectRatio(ResizeEventOf(ev.value).value).Some?
    then AspectRatio(ResizeEventOf(ev.value).value).value
    else ratio
  }

  class Controller {
    const speed: real
    const sensitivity: real
    var relevantKeys: Keys
    var keyHistory: Keys
    /** A pending aspect ratio; 0 means none. */
    var aspectRatio: real

    ghost predicate Valid()
      reads this
    {
      KeysValid(relevantKeys, keyHistory)
    }

    constructor(speed: real, sensitivity: real)
      ensures this.speed == speed && this.sensitivity == sensitivity
      ensures relevantKeys == {} && keyHistory == {} && aspectRatio == 0.0
      ensures Valid()
    {
      this.speed := speed;
      this.sensitivity := sensitivity;
      relevantKeys := {};
      keyHistory := {};
      aspectRatio := 0.0;
    }

    method OnKeyEvent(e: KeyEvent)
      modifies this
      ensures (relevantKeys, keyHistory) == KeyStep(old(relevantKeys), old(keyHistory), e)
      ensures aspectRatio == old(aspectRatio)
    {
      var p := KeyPair(e.key);
      var key, oppositeKey := p.0, p.1;
      if e.state == Pressed {
        relevantKeys := relevantKeys + key;
        relevantKeys := relevantKeys - oppositeKey;
        keyHistory := keyHistory + key;
      } else {
        relevantKeys := relevantKeys - key;
        if keyHistory * oppositeKey != {} {
          relevantKeys := relevantKeys + oppositeKey;
        }
        keyHistory := keyHistory - key;
      }
    }

    /**
     * Handle: a key event steps the masks; a resize event stores its aspect ratio (one with
     * a zero height, whose ratio is not finite, is not modelled and leaves it pending).
     */
    method Handle(ev: Option<Event>)
      requires Valid()
      modifies this
      ensures Valid()
      ensures ev.Some? && KeyEventOf(ev.value).Some? ==>
        (relevantKeys, keyHistory) == KeyStep(old(relevantKeys), old(keyHistory), KeyEventOf(ev.value).value)
        && aspectRatio == old(aspectRatio)
      ensures (ev.None? || KeyEventOf(ev.value).None?) ==>
        relevantKeys == old(relevantKeys) && keyHistory == old(keyHistory)
      ensures ev.Some? && KeyEventOf(ev.value).None? && ResizeEventOf(ev.value).Some?
              && AspectRatio(ResizeEventOf(ev.value).value).Some? ==>
        aspectRatio == AspectRatio(ResizeEventOf(ev.value).value).value
      ensures (ev.None? || (KeyEventOf(ev.value).None? && ResizeEventOf(ev.value).None?)) ==>
        aspectRatio == old(aspectRatio)
      ensures (relevantKeys, keyHistory) == HandledKeys(old(relevantKeys), old(keyHistory), ev)
      ensures aspectRatio == HandledRatio(old(aspectRatio), ev)
    {
      if ev.Some? && KeyEventOf(ev.value).Some? {
        KeyStepKeepsValid(relevantKeys, keyHistory, KeyEventOf(ev.value).value);
        OnKeyEvent(KeyEventOf(ev.value).value);
      } else if ev.Some? && ResizeEventOf(ev.value).Some? {
        var ratio := AspectRatio(ResizeEventOf(ev.value).value);
        if ratio.Some? {
          aspectRatio := ratio.value;
        }
      }
    }

    /**
     * ApplyUpdates: with some relevant key, rotate then move (with the new right vector);
     * then apply a pending aspect ratio once and clear it.
     */
    method ApplyUpdates(camera: Camera, dt: real)
      modifies this, camera
      ensures relevantKeys == old(relevantKeys) && keyHistory == old(keyHistory)
      ensures relevantKeys == {} ==> camera.pose == old(camera.pose)
      ensures relevantKeys != {} ==> camera.pose == Steered(camera.m, relevantKeys, old(camera.pose), speed, sensitivity, dt)
      ensures aspectRatio == 0.0
      ensures camera.width == Resized(old(camera.width), camera.height, old(aspectRatio))
    {
      if relevantKeys != {} {
        ApplyRotation(camera, dt);
        ApplyMovement(camera, dt);
      }
      ApplyAspectRatio(camera);
    }

    /** A pending aspect ratio sets the camera width from its height, once. */
    method ApplyAspectRatio(camera: Camera)
      modifies this, camera
      ensures relevantKeys == old(relevantKeys) && keyHistory == old(keyHistory)
      ensures camera.pose == old(camera.pose) && aspectRatio == 0.0
      ensures camera.width == Resized(old(camera.width), camera.height, old(aspectRatio))
    {
      if aspectRatio != 0.0 {
        camera.width := camera.height * aspectRatio;
        aspectRatio := 0.0;
      }
    }

    method ApplyRotation(camera: Camera, dt: real)
      modifies camera
      ensures camera.pose == Turned(camera.m, relevantKeys, old(camera.pose), sensitivity * dt)
      ensures camera.width == old(camera.width)
    {
      var dr := sensitivity * dt;
      var yaw, pitch := camera.pose.yaw, camera.pose.pitch;
      if UpArrow in relevantKeys {
        pitch := pitch + dr;
      } else if DownArrow in relevantKeys {
        pitch := pitch - dr;
      }
      if LeftArrow in relevantKeys {
        yaw := yaw + dr;
      } else if RightArrow in relevantKeys {
        yaw := yaw - dr;
      }
      yaw := Rem(yaw, FloatTau);
      pitch := Clamp(pitch, -VerticalBound, VerticalBound);
      var forward := Forward(camera.m, yaw, pitch);
      var right := RightOf(camera.m, forward);
      camera.pose := camera.pose.(yaw := yaw, pitch := pitch, forward := forward, right := right, up := Cross(forward, right));
    }

    method ApplyMovement(camera: Camera, dt: real)
      modifies camera
      ensures camera.pose == Walked(camera.m, relevantKeys, old(camera.pose), speed, dt)
      ensures camera.width == old(camera.width)
    {
      var direction := Zero;
      var right := camera.pose.right;
      var forward := Cross(right, UnitY);
      if W in relevantKeys {
        direction := Add(direction, forward);
      } else if S in relevantKeys {
        direction := Sub(direction, forward);
      }
      if A in relevantKeys {
        direction := Sub(direction, right);
      } else if D in relevantKeys {
        direction := Add(direction, right);
      }
      if Spacebar in relevantKeys {
        direction := direction.(y := direction.y + 1.0);
      } else if Z in relevantKeys {
        direction := direction.(y := direction.y - 1.0);
      }
      assert direction == MoveDirection(relevantKeys, right);
      if direction != Zero {
        camera.pose := camera.pose.(origin := Add(camera.pose.origin, Scale(Scale(camera.m.normalize(direction), speed), dt)));
      }
    }
  }

  class Camera {
    const m: Maths
    /** The origin, the three view vectors and the two angles, kept together. */
    var pose: Pose
    var width: real
    const height: real
    const controller: Controller

    constructor(lookFrom: Vec3, lookAt: Vec3, verticalFov: real, aspectRatio: real, speed: real, sensitivity: real, m: Maths)
      ensures this.m == m && pose.origin == lookFrom
      ensures pose.forward == m.normalize(Sub(lookAt, lookFrom))
      ensures pose.right == RightOf(m, pose.forward) && pose.up == Cross(pose.forward, pose.right)
      ensures pose.yaw == m.atan2(pose.forward.z, pose.forward.x) && pose.pitch == m.asin(pose.forward.y)
      ensures height == m.tan(verticalFov * FloatPi / 360.0 * 0.5) && width == height * aspectRatio
      ensures fresh(controller) && controller.Valid()
      ensures controller.speed == speed && controller.sensitivity == sensitivity
      ensures controller.relevantKeys == {} && controller.keyHistory == {} && controller.aspectRatio == 0.0
    {
      this.m := m;
      var f := m.normalize(Sub(lookAt, lookFrom));
      var r := RightOf(m, f);
      pose := Pose(lookFrom, f, r, Cross(f, r), m.atan2(f.z, f.x), m.asin(f.y));
      var h := m.tan(verticalFov * FloatPi / 360.0 * 0.5);
      height := h;
      width := h * aspectRatio;
      controller := new Controller(speed, sensitivity);
    }

    /** CastRay(s, t): from the origin through the screen point (s, t). */
    function CastRay(s: real, t: real): Ray
      reads this
    {
      var screenX := (-1.0 + s * 2.0) * width;
      var screenY := (1.0 - t * 2.0) * height;
      Ray(pose.origin, Add(Add(pose.forward, Scale(pose.right, screenX)), Scale(pose.up, screenY)))
    }

    /** Handle: the controller takes the event, then applies its updates to this camera. */
    method Handle(ev: Option<Event>, dt: real)
      requires controller.Valid()
      modifies this, controller
      ensures controller.Valid()
      ensures (controller.relevantKeys, controller.keyHistory)
              == HandledKeys(old(controller.relevantKeys), old(controller.keyHistory), ev)
      ensures controller.aspectRatio == 0.0
      ensures controller.relevantKeys == {} ==> pose == old(pose)
      ensures controller.relevantKeys != {} ==>
        pose == Steered(m, controller.relevantKeys, old(pose), controller.speed, controller.sensitivity, dt)
      ensures width == Resized(old(width), height, HandledRatio(old(controller.aspectRatio), ev))
    {
      controller.Handle(ev);
      controller.ApplyUpdates(this, dt);
    }
  }

  /**
   * A resize of a window with a non-zero width and height, handled and then applied, gives the
   * camera the window's aspect ratio, whatever ratio was pending before.
   */
  lemma ResizeFollowsWindow(width: real, height: real, pending: real, r: ResizeEvent)
    requires r.width != 0 && r.height != 0
    ensures Resized(width, height, HandledRatio(pending, Some(FromResizeEvent(r)))) * (r.height as real)
            == height * (r.width as real)
  {
    var q := (r.width as real) / (r.height as real);
    assert HandledRatio(pending, Some(FromResizeEvent(r))) == q;
    assert q * (r.height as real) == r.width as real;
    assert q != 0.0;
    assert (height * q) * (r.height as real) == height * (q * (r.height as real));
  }

  /** A key event leaves a pending aspect ratio pending, and a resize event leaves the key masks. */
  lemma HandleSeparatesEvents(relevant: Keys, history: Keys, pending: real, k: KeyEvent, r: ResizeEvent)
    ensures HandledRatio(pending, Some(FromKeyEvent(k))) == pending
    ensures HandledKeys(relevant, history, Some(FromResizeEvent(r))) == (relevant, history)
    ensures HandledKeys(relevant, history, Some(FromKeyEvent(k))) == KeyStep(relevant, history, k)
    ensures HandledKeys(relevant, history, None) == (relevant, history) && HandledRatio(pending, None) == pending
  {
    SrcEvent.ConstructorsRoundTrip(k, r);
  }

  /** The screen centre looks straight along forward from the origin. */
  lemma CastRayCentre(c: Camera)
    ensures c.CastRay(0.5, 0.5) == Ray(c.pose.origin, c.pose.forward)
  {
    assert Scale(c.pose.right, 0.0) == Zero && Scale(c.pose.up, 0.0) == Zero;
    assert Add(Add(c.pose.forward, Zero), Zero) == c.pose.forward;
  }

  /** The ray direction is affine in s and t: moving s (or t) moves it along right (or up) in proportion. */
  lemma CastRayAffine(c: Camera, s: real, t: real, ds: real, dt: real)
    ensures c.CastRay(s + ds, t + dt).origin == c.pose.origin
    ensures c.CastRay(s + ds, t + dt).direction
         == Add(Add(c.CastRay(s, t).direction, Scale(c.pose.right, 2.0 * ds * c.width)), Scale(c.pose.up, -2.0 * dt * c.height))
  {
  }

  /** Repeated key events keep the controller valid: the invariant holds after any sequence of them. */
  lemma {:induction false} KeyStepsKeepValid(relevant: Keys, history: Keys, es: seq<KeyEvent>)
    requires KeysValid(relevant, history)
    ensures var (r, h) := KeySteps(relevant, history, es); KeysValid(r, h)
    decreases |es|
  {
    if |es| > 0 {
      KeyStepKeepsValid(relevant, history, es[0]);
      var (r, h) := KeyStep(relevant, history, es[0]);
      KeyStepsKeepValid(r, h, es[1..]);
    }
  }

  function KeySteps(relevant: Keys, history: Keys, es: seq<KeyEvent>): (Keys, Keys)
    decreases |es|
  {
    if |es| == 0 then (relevant, history)
    else
      var (r, h) := KeyStep(relevant, history, es[0]);
      KeySteps(r, h, es[1..])
  }
}
