/**
 * src/Drawable/Tutorial.cs: a walk through twelve stages, each with a caption (the last
 * one with none). A fresh key press moves the walk on when it is the key the stage waits
 * for; holding a key does not move it twice in a row.
 */
module SrcTutorial {
  import opened Wrappers
  import opened ConsoleKeys
  import opened SrcEvent
  import opened Surface
  import SrcLabel

  /** The caption of each stage; stage 11 has none. */
  const Captions: seq<Option<string>> := [
    Some("Created by Damyan Slavov, Petar Dobrev, Simeon Obretenov, 11d"),
    Some("Do you want to go through the tutorial?    Y/n"),
    Some("Move around    W,A,S,D"),
    Some("Look around    ArrowUp,Left,Down,Right"),
    Some("Go up/down     Space,Z"),
    Some("Slow down/speed up time    K,L"),
    Some("Stop time      P"),
    Some("Go back/forward in time    K,L"),
    Some("Start time     P"),
    Some("Tutorial completed"),
    Some("Feel free to resize the window"),
    None
  ]

  const Last: int := 11

  /** The stage after a fresh press of key at the given stage. */
  function Next(stage: int, key: ConsoleKey): int {
    if stage == 0 then 1
    else if stage == 1 && key == Y then 2
    else if stage == 1 && key == N then 11
    else if stage == 2 && key in {W, A, S, D} then 3
    else if stage == 3 && key in {UpArrow, LeftArrow, DownArrow, RightArrow} then 4
    else if stage == 4 && key in {Spacebar, Z} then 5
    else if stage == 5 && key in {K, L} then 6
    else if stage == 6 && key == P then 7
    else if stage == 7 && key in {K, L} then 8
    else if stage == 8 && key == P then 9
    else if stage == 9 then 10
    else if stage == 10 then 11
    else stage
  }

  /** The keys stage s waits for: any key on the welcome stage and on 9 and 10, none at the end. */
  function Awaited(stage: int): set<ConsoleKey> {
    if stage == 1 then {Y, N}
    else if stage == 2 then {W, A, S, D}
    else if stage == 3 then {UpArrow, LeftArrow, DownArrow, RightArrow}
    else if stage == 4 then {Spacebar, Z}
    else if stage == 5 || stage == 7 then {K, L}
    else if stage == 6 || stage == 8 then {P}
    else {}
  }

  /**
   * The walk never goes back and never leaves [0, 11]. Stages 0, 9 and 10 move on for any
   * key; stages 1 to 8 move on exactly for the keys they wait for, by one stage, except
   * that N on stage 1 skips to the end; stage 11 is final.
   */
  lemma NextRules(stage: int, key: ConsoleKey)
    requires 0 <= stage <= Last
    ensures stage <= Next(stage, key) <= Last
    ensures stage in {0, 9, 10} ==> Next(stage, key) == stage + 1
    ensures 1 <= stage <= 8 ==> (Next(stage, key) != stage <==> key in Awaited(stage))
    ensures 1 <= stage <= 8 && key in Awaited(stage) ==>
      Next(stage, key) == if stage == 1 && key == N then Last else stage + 1
    ensures stage == Last ==> Next(stage, key) == Last
  {
  }

  /** The stage and the last key pressed. */
  datatype Walk = Walk(stage: int, lastKey: Option<ConsoleKey>)

  predicate Valid(w: Walk) {
    0 <= w.stage <= Last
  }

  /** Handle on the walk: only key events count; a fresh press moves on, anything else forgets the key. */
  function Step(w: Walk, ev: Option<Event>): Walk {
    if ev.Some? && KeyEventOf(ev.value).Some? then
      var e := KeyEventOf(ev.value).value;
      var pressed := PressedKey(e);
      if pressed.Some? && Some(pressed.value) != w.lastKey then Walk(Next(w.stage, pressed.value), pressed)
      else Walk(w.stage, None)
    else w
  }

  /** The stage stays a valid index into the captions and never decreases; stage 11 is final. */
  lemma StepKeepsValid(w: Walk, ev: Option<Event>)
    requires Valid(w)
    ensures Valid(Step(w, ev)) && w.stage <= Step(w, ev).stage
    ensures w.stage == Last ==> Step(w, ev).stage == Last
    ensures 0 <= Step(w, ev).stage < |Captions|
  {
    if ev.Some? && KeyEventOf(ev.value).Some? {
      var e := KeyEventOf(ev.value).value;
      if PressedKey(e).Some? {
        NextRules(w.stage, PressedKey(e).value);
      }
    }
  }

  /** Missing events and resize events change nothing. */
  lemma NonKeyEventsIgnored(w: Walk, ev: Option<Event>)
    requires ev.None? || ev.value.variant == Resize
    ensures Step(w, ev) == w
  {
  }

  /**
   * A press of the key pressed last, or a release, does not move the walk and forgets the
   * key; a fresh press moves the walk and remembers the key.
   */
  lemma RepeatedPress(w: Walk, e: KeyEvent)
    ensures var w' := Step(w, Some(FromKeyEvent(e)));
      && (e.state != Pressed || w.lastKey == Some(e.key) ==> w' == Walk(w.stage, None))
      && (e.state == Pressed && w.lastKey != Some(e.key) ==> w' == Walk(Next(w.stage, e.key), Some(e.key)))
  {
    assert KeyEventOf(FromKeyEvent(e)) == Some(e);
  }

  /**
   * Repeated presses of one key (as a held key produces) alternate: the first moves the
   * walk, the second only forgets the key, the third moves the walk again.
   */
  lemma HeldKeyAlternates(w: Walk, e: KeyEvent)
    requires e.state == Pressed && w.lastKey != Some(e.key)
    ensures var ev := Some(FromKeyEvent(e));
      var w1 := Step(w, ev);
      var w2 := Step(w1, ev);
      var w3 := Step(w2, ev);
      && w1.stage == Next(w.stage, e.key)
      && w2 == Walk(w1.stage, None)
      && w3.stage == Next(Next(w.stage, e.key), e.key)
  {
    var ev := Some(FromKeyEvent(e));
    RepeatedPress(w, e);
    RepeatedPress(Step(w, ev), e);
    RepeatedPress(Step(Step(w, ev), ev), e);
  }

  /** The calls Draw makes: the stage's caption as a label, or nothing on the last stage. */
  function TutorialWrites(stage: int, width: int, height: int): seq<Write>
    requires 0 <= stage < |Captions|
  {
    match Captions[stage]
    case Some(text) => SrcLabel.LabelWrites(text, width, height)
    case None => []
  }

  lemma NothingDrawnAtTheEnd(width: int, height: int)
    ensures TutorialWrites(Last, width, height) == []
    ensures forall s :: 0 <= s < Last ==> Captions[s].Some?
  {
  }

  class Tutorial {
    var stage: int
    var lastKey: Option<ConsoleKey>

    function State(): Walk
      reads this
    {
      Walk(stage, lastKey)
    }

    constructor ()
      ensures State() == Walk(0, None) && Valid(State())
    {
      stage := 0;
      lastKey := None;
    }

    method Draw(canvas: Canvas)
      requires Valid(State())
      modifies canvas
      ensures canvas.writes == old(canvas.writes) + TutorialWrites(stage, canvas.width, canvas.height)
    {
      var caption := Captions[stage];
      if caption.Some? {
        SrcLabel.Draw(SrcLabel.Label(caption.value), canvas);
      }
    }

    /** Handle(ev, dt); the time step is not used. */
    method Handle(ev: Option<Event>, dt: real)
      modifies this
      ensures State() == Step(old(State()), ev)
    {
      if ev.Some? && KeyEventOf(ev.value).Some? {
        var keyEvent := KeyEventOf(ev.value).value;
        var pressed := PressedKey(keyEvent);
        if pressed.Some? && Some(pressed.value) != lastKey {
          stage := Next(stage, pressed.value);
          lastKey := Some(pressed.value);
        } else {
          lastKey := None;
        }
      }
    }
  }
}
