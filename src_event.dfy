/**
 * src/Event/Event.cs: an input event is a tag (`Variant`) plus an explicit-layout union
 * (`Data`) holding either a key event or a resize event; the derived fields read the
 * payload that matches the tag.
 */
module SrcEvent {
  import opened Wrappers
  import opened ConsoleKeys

  datatype Variant = Key | Resize

  /** `KeyState` is a byte-sized enum: any byte may occur, two of them are named. */
  type KeyState = b: int | 0 <= b < 256
  const Pressed: KeyState := 1
  const Released: KeyState := 0

  datatype KeyEvent = KeyEvent(key: ConsoleKey, state: KeyState)

  /** The key when the event is a press, null otherwise. */
  function PressedKey(e: KeyEvent): (r: Option<ConsoleKey>)
    ensures r.Some? <==> e.state == Pressed
    ensures r.Some? ==> r.value == e.key
  {
    if e.state == Pressed then Some(e.key) else None
  }

  /** The key when the event is a release, null otherwise. */
  function ReleasedKey(e: KeyEvent): (r: Option<ConsoleKey>)
    ensures r.Some? <==> e.state == Released
    ensures r.Some? ==> r.value == e.key
  {
    if e.state == Released then Some(e.key) else None
  }

  /** Exactly one of PressedKey and ReleasedKey is set iff the state is one of the two named values. */
  lemma PressedOrReleased(e: KeyEvent)
    ensures (PressedKey(e).Some? != ReleasedKey(e).Some?) <==> e.state == Pressed || e.state == Released
    ensures PressedKey(e).Some? ==> ReleasedKey(e).None?
  {
  }

  datatype ResizeEvent = ResizeEvent(width: int, height: int)

  /** (float)Width / Height; a zero height gives a non-finite float, shown as None. */
  function AspectRatio(e: ResizeEvent): (r: Option<real>)
    ensures r.None? <==> e.height == 0
    ensures r.Some? ==> r.value * (e.height as real) == e.width as real
  {
    if e.height == 0 then None else Some((e.width as real) / (e.height as real))
  }

  /** The overlapping fields of the union: the one last written. */
  datatype Data = KeyData(keyEvent: KeyEvent) | ResizeData(resizeEvent: ResizeEvent)

  datatype Event = Event(variant: Variant, data: Data)

  /** Event(KeyEvent): tags the event as a key event. */
  function FromKeyEvent(k: KeyEvent): (e: Event)
    ensures e.variant == Key
  {
    Event(Key, KeyData(k))
  }

  /** Event(ResizeEvent): tags the event as a resize event. */
  function FromResizeEvent(r: ResizeEvent): (e: Event)
    ensures e.variant == Resize
  {
    Event(Resize, ResizeData(r))
  }

  /** The derived KeyEvent field: the key payload when the tag says Key, null otherwise. */
  function KeyEventOf(e: Event): (r: Option<KeyEvent>)
    ensures r.Some? ==> e.variant == Key
    ensures e.variant == Key && e.data.KeyData? ==> r == Some(e.data.keyEvent)
  {
    if e.variant == Key && e.data.KeyData? then Some(e.data.keyEvent) else None
  }

  /** The derived ResizeEvent field: the resize payload when the tag says Resize, null otherwise. */
  function ResizeEventOf(e: Event): (r: Option<ResizeEvent>)
    ensures r.Some? ==> e.variant == Resize
    ensures e.variant == Resize && e.data.ResizeData? ==> r == Some(e.data.resizeEvent)
  {
    if e.variant == Resize && e.data.ResizeData? then Some(e.data.resizeEvent) else None
  }

  /** An event made by a one-argument constructor reads back its payload, and only that payload. */
  lemma ConstructorsRoundTrip(k: KeyEvent, r: ResizeEvent)
    ensures KeyEventOf(FromKeyEvent(k)) == Some(k) && ResizeEventOf(FromKeyEvent(k)) == None
    ensures ResizeEventOf(FromResizeEvent(r)) == Some(r) && KeyEventOf(FromResizeEvent(r)) == None
  {
  }
}
