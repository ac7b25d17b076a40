/**
 * src/Animation/Animator.cs: the animation clock and its key controller.
 *
 * The controller keeps a relevant-key mask and a key-history mask over three flags. P
 * pauses and resumes, debounced by the history mask so that holding P toggles once; L and
 * K are opposites that speed the clock up or down while it runs, and scrub the elapsed
 * time forwards or backwards while it is paused. Durations are real seconds; the
 * millisecond count of a duration `dt` is `dt * 1000`.
 */
module SrcAnimator {
  import opened Wrappers
  import opened SrcEvent
  import opened SrcAnimation
  import opened SrcAnimatedEntity
  import SrcEntity
  import ConsoleKeys

  /** The flags of the controller's Keys enum; a mask is the set of its flags that are on. */
  datatype KeyFlag = P | L | K
  type Keys = set<KeyFlag>

  /**
   * KeyPair: P maps to itself (with no opposite) when it is released, or pressed while not
   * already held; L and K map to each other in any state; everything else maps to nothing.
   */
  function KeyPair(history: Keys, e: KeyEvent): (p: (Keys, Keys))
    ensures p.1 <= {L, K}
    ensures e.key == ConsoleKeys.P && e.state == Pressed && P in history ==> p == ({}, {})
    ensures e.key != ConsoleKeys.P && e.key != ConsoleKeys.L && e.key != ConsoleKeys.K ==> p == ({}, {})
  {
    if e.key == ConsoleKeys.P && e.state == Pressed && P !in history then ({P}, {})
    else if e.key == ConsoleKeys.P && e.state == Released then ({P}, {})
    else if e.key == ConsoleKeys.L then ({L}, {K})
    else if e.key == ConsoleKeys.K then ({K}, {L})
    else ({}, {})
  }

  /** The clock state kept by the controller, plus the animator's elapsed time. */
  datatype Clock = Clock(relevant: Keys, history: Keys, running: bool, speed: real)

  /** The controller's invariant: relevant keys are held keys, and L and K are never both relevant. */
  predicate Valid(c: Clock) {
    c.relevant <= c.history && !(L in c.relevant && K in c.relevant)
  }

  /** OnKeyEvent: a press sets the key and clears its opposite; a release hands over to a held opposite. */
  function KeyStep(c: Clock, e: KeyEvent): Clock {
    var (key, opposite) := KeyPair(c.history, e);
    if e.state == Pressed then
      c.(relevant := (c.relevant + key) - opposite, history := c.history + key)
    else if e.state == Released then
      var r := c.relevant - key;
      c.(relevant := if c.history * opposite != {} then r + opposite else r, history := c.history - key)
    else c
  }

  /** Handle: only key events reach OnKeyEvent; resize events and null are ignored. */
  function Handled(c: Clock, ev: Option<Event>): Clock {
    if ev.Some? && KeyEventOf(ev.value).Some? then KeyStep(c, KeyEventOf(ev.value).value) else c
  }

  /** The first half of ApplyUpdates: a relevant P toggles running and is consumed. */
  function Toggled(c: Clock): Clock {
    if P in c.relevant then c.(running := !c.running, relevant := c.relevant - {P}) else c
  }

  /** Continue's new speed: L beats K, each moving the speed by `ds`. */
  function Accelerated(keys: Keys, speed: real, ds: real): real {
    if L in keys then speed + ds else if K in keys then speed - ds else speed
  }

  /** TimeTravel's change to the elapsed time: forwards on L, backwards on K, none otherwise. */
  function Scrubbed(keys: Keys, de: real): real {
    if L in keys then de else if K in keys then -de else 0.0
  }

  /** The millisecond count of a duration given in seconds, times a speed. */
  function Milliseconds(dt: real, speed: real): real {
    dt * 1000.0 * speed
  }

  /**
   * ApplyUpdates as a function: the new clock, and the amount added to the elapsed time.
   * Continue uses the speed it has just changed; TimeTravel leaves the speed alone.
   */
  function Tick(c: Clock, sensitivity: real, dt: real): (Clock, real) {
    var t := Toggled(c);
    if t.running then
      var speed := Accelerated(t.relevant, t.speed, sensitivity * dt);
      (t.(speed := speed), Milliseconds(dt, speed))
    else
      (t, Scrubbed(t.relevant, Milliseconds(dt, t.speed)))
  }

  // ---------------------------------------------------------------- properties of the clock

  /** Every key event keeps the invariant. */
  lemma KeyStepKeepsValid(c: Clock, e: KeyEvent)
    requires Valid(c)
    ensures Valid(KeyStep(c, e))
  {
    var (key, opposite) := KeyPair(c.history, e);
    if e.key == ConsoleKeys.L {
      assert (key, opposite) == ({L}, {K});
    } else if e.key == ConsoleKeys.K {
      assert (key, opposite) == ({K}, {L});
    }
  }

  /** ApplyUpdates keeps the invariant and never changes the history. */
  lemma TickKeepsValid(c: Clock, sensitivity: real, dt: real)
    requires Valid(c)
    ensures Valid(Tick(c, sensitivity, dt).0)
    ensures Tick(c, sensitivity, dt).0.history == c.history
  {
  }

  /** A press of P while P is held changes nothing: the debounce. */
  lemma HeldPressIgnored(c: Clock, e: KeyEvent)
    requires e.key == ConsoleKeys.P && e.state == Pressed && P in c.history
    ensures KeyStep(c, e) == c
  {
    assert (c.relevant + {}) - {} == c.relevant && c.history + {} == c.history;
  }

  /**
   * One physical press, one toggle: after a press of P (not held before) and one
   * ApplyUpdates, running has flipped and P is no longer relevant; any number of repeated
   * presses while it is held then leave the masks alone, so the next ApplyUpdates does not
   * flip it back.
   */
  lemma OnePressOneToggle(c: Clock, e: KeyEvent, sensitivity: real, dt: real)
    requires Valid(c) && P !in c.history
    requires e.key == ConsoleKeys.P && e.state == Pressed
    ensures var c1 := Tick(KeyStep(c, e), sensitivity, dt).0;
      && c1.running == !c.running && P !in c1.relevant && P in c1.history
      && KeyStep(c1, e) == c1
      && Tick(c1, sensitivity, dt).0.running == c1.running
  {
    var c0 := KeyStep(c, e);
    assert KeyPair(c.history, e) == ({P}, {});
    assert P in c0.relevant;
    var c1 := Tick(c0, sensitivity, dt).0;
    HeldPressIgnored(c1, e);
  }

  /** L and K: a press takes over from the opposite, a release gives control back to a held opposite. */
  lemma SpeedKeysOpposite(c: Clock, e: KeyEvent)
    requires e.key == ConsoleKeys.L || e.key == ConsoleKeys.K
    ensures var k := if e.key == ConsoleKeys.L then L else K;
      var o := if e.key == ConsoleKeys.L then K else L;
      var c' := KeyStep(c, e);
      && (e.state == Pressed ==> k in c'.relevant && o !in c'.relevant && k in c'.history)
      && (e.state == Released ==> k !in c'.relevant && k !in c'.history
                                  && (o in c'.relevant <==> o in c.history || o in c.relevant))
  {
    var (k, o) := if e.key == ConsoleKeys.L then (L, K) else (K, L);
    assert KeyPair(c.history, e) == ({k}, {o});
    if o in c.history {
      assert o in c.history * {o};
    }
  }

  /**
   * While running, the speed moves by sensitivity·dt (up on L, else down on K) and then the
   * elapsed time advances by the milliseconds times the new speed.
   */
  lemma RunningClock(c: Clock, sensitivity: real, dt: real)
    requires Toggled(c).running
    ensures var (c', delta) := Tick(c, sensitivity, dt);
      && (L in c.relevant ==> c'.speed == c.speed + sensitivity * dt)
      && (L !in c.relevant && K in c.relevant ==> c'.speed == c.speed - sensitivity * dt)
      && (L !in c.relevant && K !in c.relevant ==> c'.speed == c.speed)
      && delta == Milliseconds(dt, c'.speed)
  {
  }

  /**
   * While paused, the speed never changes; L scrubs forward by the milliseconds times the
   * speed, K backwards by the same, and with neither the elapsed time stays.
   */
  lemma PausedClock(c: Clock, sensitivity: real, dt: real)
    requires !Toggled(c).running
    ensures var (c', delta) := Tick(c, sensitivity, dt);
      && c'.speed == c.speed
      && (L in c.relevant ==> delta == Milliseconds(dt, c.speed))
      && (L !in c.relevant && K in c.relevant ==> delta == -Milliseconds(dt, c.speed))
      && (L !in c.relevant && K !in c.relevant ==> delta == 0.0)
  {
  }

  /** Resize events and null events leave the clock alone. */
  lemma NonKeyEventsIgnored(c: Clock, ev: Option<Event>)
    requires ev.None? || ev.value.variant == Resize
    ensures Handled(c, ev) == c
  {
  }

  // ---------------------------------------------------------------- the objects

  class Controller {
    var relevantKeys: Keys
    var keyHistory: Keys
    var isRunning: bool
    var speed: real
    const sensitivity: real

    function State(): Clock
      reads this
    {
      Clock(relevantKeys, keyHistory, isRunning, speed)
    }

    constructor(speed: real, sensitivity: real, isRunning: bool)
      ensures State() == Clock({}, {}, isRunning, speed) && this.sensitivity == sensitivity
      ensures Valid(State())
    {
      relevantKeys := {};
      keyHistory := {};
      this.isRunning := isRunning;
      this.speed := speed;
      this.sensitivity := sensitivity;
    }

    method Handle(ev: Option<Event>)
      modifies this
      ensures State() == Handled(old(State()), ev)
    {
      if ev.Some? && KeyEventOf(ev.value).Some? {
        OnKeyEvent(KeyEventOf(ev.value).value);
      }
    }

    method OnKeyEvent(e: KeyEvent)
      modifies this
      ensures State() == KeyStep(old(State()), e)
    {
      var (key, oppositeKey) := KeyPair(keyHistory, e);
      if e.state == Pressed {
        relevantKeys := relevantKeys + key;
        relevantKeys := relevantKeys - oppositeKey;
        keyHistory := keyHistory + key;
      } else if e.state == Released {
        relevantKeys := relevantKeys - key;
        if keyHistory * oppositeKey != {} {
          relevantKeys := relevantKeys + oppositeKey;
        }
        keyHistory := keyHistory - key;
      }
    }

    method ApplyUpdates(animator: Animator, dt: real)
      modifies this, animator
      ensures State() == Tick(old(State()), sensitivity, dt).0
      ensures animator.timeElapsed == old(animator.timeElapsed) + Tick(old(State()), sensitivity, dt).1
    {
      if P in relevantKeys {
        isRunning := !isRunning;
        relevantKeys := relevantKeys - {P};
      }
      if isRunning {
        Continue(animator, dt);
      } else {
        TimeTravel(animator, dt);
      }
    }

    method Continue(animator: Animator, dt: real)
      modifies this, animator
      ensures relevantKeys == old(relevantKeys) && keyHistory == old(keyHistory) && isRunning == old(isRunning)
      ensures speed == Accelerated(relevantKeys, old(speed), sensitivity * dt)
      ensures animator.timeElapsed == old(animator.timeElapsed) + Milliseconds(dt, speed)
    {
      var ds := sensitivity * dt;
      if L in relevantKeys {
        speed := speed + ds;
      } else if K in relevantKeys {
        speed := speed - ds;
      }
      animator.timeElapsed := animator.timeElapsed + Milliseconds(dt, speed);
    }

    method TimeTravel(animator: Animator, dt: real)
      modifies animator
      ensures animator.timeElapsed == old(animator.timeElapsed) + Scrubbed(relevantKeys, Milliseconds(dt, speed))
    {
      var de := Milliseconds(dt, speed);
      if L in relevantKeys {
        animator.timeElapsed := animator.timeElapsed + de;
      } else if K in relevantKeys {
        animator.timeElapsed := animator.timeElapsed - de;
      }
    }
  }

  class Animator {
    var timeElapsed: real
    const controller: Controller

    constructor(speed: real, sensitivity: real, isRunning: bool)
      ensures timeElapsed == 0.0 && fresh(controller)
      ensures controller.State() == Clock({}, {}, isRunning, speed) && controller.sensitivity == sensitivity
    {
      timeElapsed := 0.0;
      controller := new Controller(speed, sensitivity, isRunning);
    }

    method Handle(ev: Option<Event>, dt: real)
      modifies this, controller
      ensures controller.State() == Tick(Handled(old(controller.State()), ev), controller.sensitivity, dt).0
      ensures timeElapsed == old(timeElapsed) + Tick(Handled(old(controller.State()), ev), controller.sensitivity, dt).1
    {
      controller.Handle(ev);
      controller.ApplyUpdates(this, dt);
    }

    /** MoveForward: the animated entity is brought to the current elapsed time; the clock is untouched. */
    method MoveForward(entity: Animated)
      requires Sampleable(entity.offset) && Sampleable(entity.brightness) && Sampleable(entity.reflectance)
      modifies entity
      ensures entity.SampledAt(timeElapsed)
    {
      entity.Update(timeElapsed);
    }

    /**
     * MoveForward(Scene.Entity) on a Group: its Update is called with the current elapsed time,
     * and the calls it makes are those of Group.Update; the clock is untouched.
     */
    method MoveForwardGroup(g: SrcEntity.Group) returns (calls: seq<SrcEntity.UpdateCall>)
      ensures SrcEntity.UpdatesExactly(g.entities, calls, timeElapsed)
    {
      calls := SrcEntity.GroupUpdate(g, timeElapsed);
    }

    /** MoveForward(Scene.Light) on a Lights: the calls Lights.Update makes at the current elapsed time. */
    method MoveForwardLights(l: SrcEntity.Lights) returns (calls: seq<SrcEntity.UpdateCall>)
      ensures SrcEntity.UpdatesExactly(l.sources, calls, timeElapsed)
    {
      calls := SrcEntity.LightsUpdate(l, timeElapsed);
    }
  }
}
