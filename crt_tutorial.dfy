/**
 * ConsoleRayTracer/Drawable/Tutorial.cs: the twelve-stage walk of the middle generation. The
 * stage table and the captions are those of src/Drawable/Tutorial.cs (SrcTutorial.Next,
 * SrcTutorial.Captions); the captions are drawn as labels with a one-cell border and two
 * cells of padding. Unlike the newer walk, the last key is overwritten on every update,
 * with no key included, so a key held over many frames moves the walk once.
 */
module CrtTutorial {
  import opened Wrappers
  import opened ConsoleKeys
  import opened Surface
  import SrcTutorial
  import CrtLabel

  const BorderWidth: int := 1
  const Padding: int := 2

  /** The stage (`_step`) and the key read on the previous update. */
  datatype Walk = Walk(step: int, lastKey: Option<ConsoleKey>)

  predicate Valid(w: Walk) {
    0 <= w.step <= SrcTutorial.Last
  }

  /** Update(key): a key other than the last one moves the walk by the stage table; the key is kept. */
  function Advance(w: Walk, key: Option<ConsoleKey>): Walk {
    Walk(if key.Some? && key != w.lastKey then SrcTutorial.Next(w.step, key.value) else w.step, key)
  }

  /**
   * The stage stays a valid index into the captions, never decreases, and stays at 11 once
   * there; it moves only for a key that differs from the last one, and the key read is
   * always the one remembered.
   */
  lemma UpdateRules(w: Walk, key: Option<ConsoleKey>)
    requires Valid(w)
    ensures var w' := Advance(w, key);
      && Valid(w') && w.step <= w'.step && 0 <= w'.step < |SrcTutorial.Captions|
      && (w.step == SrcTutorial.Last ==> w'.step == SrcTutorial.Last)
      && (w'.step != w.step ==> key.Some? && key != w.lastKey)
      && w'.lastKey == key
  {
    if key.Some? {
      SrcTutorial.NextRules(w.step, key.value);
    }
  }

  /** The walk after n updates that all read the same key. */
  function Hold(w: Walk, key: Option<ConsoleKey>, n: nat): Walk
    decreases n
  {
    if n == 0 then w else Hold(Advance(w, key), key, n - 1)
  }

  /**
   * Holding a key over n >= 1 frames moves the walk at most once: once by the stage table
   * if the key was not the last one read, not at all if it was.
   */
  lemma {:induction false} HeldKeyMovesOnce(w: Walk, k: ConsoleKey, n: nat)
    requires n >= 1
    ensures Hold(w, Some(k), n)
         == Walk(if w.lastKey == Some(k) then w.step else SrcTutorial.Next(w.step, k), Some(k))
    decreases n
  {
    if n > 1 {
      HeldKeyMovesOnce(Advance(w, Some(k)), k, n - 1);
    }
  }

  /** The label of a stage: its caption framed by the tutorial's border and padding. */
  function StageLabel(step: int): Option<CrtLabel.Label>
    requires 0 <= step < |SrcTutorial.Captions|
  {
    match SrcTutorial.Captions[step]
    case Some(text) => Some(CrtLabel.Label(text, BorderWidth, Padding))
    case None => None
  }

  /** The calls Draw makes: the stage's label, or nothing. */
  function TutorialWrites(step: int, cw: int, ch: int): seq<Write>
    requires 0 <= step < |SrcTutorial.Captions|
  {
    match StageLabel(step)
    case Some(l) => CrtLabel.LabelWrites(l, cw, ch)
    case None => []
  }

  /** Nothing is drawn on the last stage; every other stage has a label. */
  lemma NothingDrawnAtTheEnd(cw: int, ch: int)
    ensures TutorialWrites(SrcTutorial.Last, cw, ch) == []
    ensures forall s :: 0 <= s < SrcTutorial.Last ==> StageLabel(s).Some?
  {
    SrcTutorial.NothingDrawnAtTheEnd(cw, ch);
  }

  class Tutorial {
    var step: int
    var lastKey: Option<ConsoleKey>

    function State(): Walk
      reads this
    {
      Walk(step, lastKey)
    }

    constructor ()
      ensures State() == Walk(0, None) && Valid(State())
    {
      step := 0;
      lastKey := None;
    }

    method Draw(canvas: Canvas)
      requires Valid(State())
      modifies canvas
      ensures canvas.writes == old(canvas.writes) + TutorialWrites(step, canvas.width, canvas.height)
    {
      var stageLabel := StageLabel(step);
      if stageLabel.Some? {
        CrtLabel.Draw(stageLabel.value, canvas);
      }
    }

    method Update(key: Option<ConsoleKey>)
      modifies this
      ensures State() == Advance(old(State()), key)
    {
      if key.Some? && key != lastKey {
        step := SrcTutorial.Next(step, key.value);
      }
      lastKey := key;
    }
  }
}
