/**
 * RayTracer/Tutorial.cs: the ten-stage walk of the oldest generation. A key other than the
 * one read on the previous update moves the walk by the stage table; the key read, or no
 * key, is always remembered, so a key held over several frames moves the walk at most once.
 */
module RtTutorial {
  import opened Wrappers
  import opened ConsoleKeys

  /** `_labels`: the caption of each stage; the last stage has none. */
  const Labels: seq<Option<string>> := [
    Some("Do you want to go through the tutorial?    Y/n"),
    Some("Move around    W,A,S,D"),
    Some("Look around    ArrowUp,Left,Down,Right"),
    Some("Go up/down     Space,Z"),
    Some("Slow down/speed up time    K,L"),
    Some("Stop time      P"),
    Some("Go back/forward in time    K,L"),
    Some("Tutorial completed"),
    Some("Feel free to resize the window"),
    None
  ]

  const Last: int := 9

  /** The switch on (stage, key), its arms tried in order. */
  function Next(step: int, key: ConsoleKey): int {
    if step == 0 && key == Y then 1
    else if step == 0 && key == N then 9
    else if step == 1 && key in {W, A, S, D} then 2
    else if step == 2 && key in {UpArrow, LeftArrow, DownArrow, RightArrow} then 3
    else if step == 3 && key in {Spacebar, Z} then 4
    else if step == 4 && key in {K, L} then 5
    else if step == 5 && key == P then 6
    else if step == 6 && key in {K, L} then 7
    else if step == 7 then 8
    else if step == 8 then 9
    else step
  }

  /** The keys a stage waits for; stages 7 and 8 take any key, stage 9 none. */
  function Awaited(step: int): set<ConsoleKey> {
    if step == 0 then {Y, N}
    else if step == 1 then {W, A, S, D}
    else if step == 2 then {UpArrow, LeftArrow, DownArrow, RightArrow}
    else if step == 3 then {Spacebar, Z}
    else if step == 4 || step == 6 then {K, L}
    else if step == 5 then {P}
    else {}
  }

  /**
   * The walk never goes back and never leaves [0, 9]. Stages 0 to 6 move on exactly for
   * the keys they wait for, by one stage, except that N on stage 0 skips to the end;
   * stages 7 and 8 move on for any key; stage 9 is final.
   */
  lemma NextRules(step: int, key: ConsoleKey)
    requires 0 <= step <= Last
    ensures step <= Next(step, key) <= Last
    ensures 0 <= step <= 6 ==> (Next(step, key) != step <==> key in Awaited(step))
    ensures 0 <= step <= 6 && key in Awaited(step) ==>
      Next(step, key) == if step == 0 && key == N then Last else step + 1
    ensures step in {7, 8} ==> Next(step, key) == step + 1
    ensures step == Last ==> Next(step, key) == Last
  {
  }

  /** The stage (`_step`) and the key read on the previous update (`_lastKey`). */
  datatype Walk = Walk(step: int, lastKey: Option<ConsoleKey>)

  predicate Valid(w: Walk) {
    0 <= w.step <= Last
  }

  /** Update(key). */
  function Advance(w: Walk, key: Option<ConsoleKey>): Walk {
    Walk(if key.Some? && key != w.lastKey then Next(w.step, key.value) else w.step, key)
  }

  /**
   * The stage stays a valid index into the labels and never decreases; it moves only for a
   * key that differs from the last one, and the key read is always remembered.
   */
  lemma UpdateRules(w: Walk, key: Option<ConsoleKey>)
    requires Valid(w)
    ensures var w' := Advance(w, key);
      && Valid(w') && w.step <= w'.step && 0 <= w'.step < |Labels|
      && (w.step == Last ==> w'.step == Last)
      && (w'.step != w.step ==> key.Some? && key != w.lastKey)
      && w'.lastKey == key
  {
    if key.Some? {
      NextRules(w.step, key.value);
    }
  }

  /** The walk after n updates that all read the same key. */
  function Hold(w: Walk, key: Option<ConsoleKey>, n: nat): Walk
    decreases n
  {
    if n == 0 then w else Hold(Advance(w, key), key, n - 1)
  }

  /**
   * Holding a key over n >= 1 frames moves the walk at most once: once by the stage table
   * if the key was not the last one read, not at all if it was.
   */
  lemma {:induction false} HeldKeyMovesOnce(w: Walk, k: ConsoleKey, n: nat)
    requires n >= 1
    ensures Hold(w, Some(k), n) == Walk(if w.lastKey == Some(k) then w.step else Next(w.step, k), Some(k))
    decreases n
  {
    if n > 1 {
      HeldKeyMovesOnce(Advance(w, Some(k)), k, n - 1);
    }
  }

  class Tutorial {
    var step: int
    var lastKey: Option<ConsoleKey>

    function State(): Walk
      reads this
    {
      Walk(step, lastKey)
    }

    constructor ()
      ensures State() == Walk(0, None) && Valid(State())
    {
      step := 0;
      lastKey := None;
    }

    /** Label: the stage's caption, which is missing exactly on the last stage. */
    function Label(): (l: Option<string>)
      reads this
      requires Valid(State())
      ensures l.None? <==> step == Last
    {
      Labels[step]
    }

    method Update(key: Option<ConsoleKey>)
      modifies this
      ensures State() == Advance(old(State()), key)
    {
      if key.Some? && key != lastKey {
        step := Next(step, key.value);
      }
      lastKey := key;
    }
  }
}
