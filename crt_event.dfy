/** ConsoleRayTracer/Event/Event.cs: the older tagged event union, without the one-argument constructors. */
module CrtEvent {
  import opened Wrappers
  import opened ConsoleKeys

  datatype EventVariant = Key | Resize

  /** `KeyState` is a byte-sized enum with Released = 0 and Pressed = 1. */
  type KeyState = b: int | 0 <= b < 256
  const Released: KeyState := 0
  const Pressed: KeyState := 1

  datatype KeyEvent = KeyEvent(key: ConsoleKey, state: KeyState)

  function PressedKey(e: KeyEvent): (r: Option<ConsoleKey>)
    ensures r.Some? <==> e.state == Pressed
    ensures r.Some? ==> r.value == e.key
  {
    if e.state == Pressed then Some(e.key) else None
  }

  function ReleasedKey(e: KeyEvent): (r: Option<ConsoleKey>)
    ensures r.Some? <==> e.state == Released
    ensures r.Some? ==> r.value == e.key
  {
    if e.state == Released then Some(e.key) else None
  }

  /** The terminal builds the state from a Win32 BOOL; for 0 or 1 exactly one of the two keys is set. */
  lemma ExactlyOneKeySet(e: KeyEvent)
    requires e.state == Released || e.state == Pressed
    ensures PressedKey(e).Some? != ReleasedKey(e).Some?
    ensures PressedKey(e).Some? <==> e.state == 1
  {
  }

  datatype ResizeEvent = ResizeEvent(width: int, height: int)

  /** (float)Width / Height; a zero height gives a non-finite float, shown as None. */
  function AspectRatio(e: ResizeEvent): (r: Option<real>)
    ensures r.None? <==> e.height == 0
    ensures r.Some? ==> r.value * (e.height as real) == e.width as real
  {
    if e.height == 0 then None else Some((e.width as real) / (e.height as real))
  }

  datatype EventData = KeyData(keyEvent: KeyEvent) | ResizeData(resizeEvent: ResizeEvent)

  datatype Event = Event(variant: EventVariant, data: EventData)

  function KeyEventOf(e: Event): (r: Option<KeyEvent>)
    ensures r.Some? ==> e.variant == Key
    ensures e.variant == Key && e.data.KeyData? ==> r == Some(e.data.keyEvent)
  {
    if e.variant == Key && e.data.KeyData? then Some(e.data.keyEvent) else None
  }

  function ResizeEventOf(e: Event): (r: Option<ResizeEvent>)
    ensures r.Some? ==> e.variant == Resize
    ensures e.variant == Resize && e.data.ResizeData? ==> r == Some(e.data.resizeEvent)
  {
    if e.variant == Resize && e.data.ResizeData? then Some(e.data.resizeEvent) else None
  }

  /** At most one of the two derived fields is set. */
  lemma AtMostOnePayload(e: Event)
    ensures KeyEventOf(e).None? || ResizeEventOf(e).None?
  {
  }
}
