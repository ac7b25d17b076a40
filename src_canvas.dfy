/**
 * src/Canvas/ICanvas.cs: the two default methods of the canvas interface. `Set(x, y, float)`
 * turns a luminance into one of the seven characters of " .:+%#@" and sets that character;
 * `Set(color)` sets every cell of the canvas to the luminance the function gives it.
 */
module SrcCanvas {
  import opened Surface
  import opened Numerics

  /** The luminance ramp, darkest first. */
  const Ramp: string := " .:+%#@"

  /** The clamped luminance scaled to the ramp: 0 for black, 6 for full light. */
  function Level(color: real): (v: real)
    ensures 0.0 <= v <= (|Ramp| - 1) as real
  {
    Clamp(color, 0.0, 1.0) * (|Ramp| - 1) as real
  }

  /** The position in the ramp: the level rounded half to even. */
  function RampIndex(color: real): (i: int)
    ensures 0 <= i < |Ramp|
  {
    var v := Level(color);
    RoundHalfEvenMonotone(0.0, v);
    RoundHalfEvenMonotone(v, 6.0);
    RoundHalfEvenOfInt(0);
    RoundHalfEvenOfInt(6);
    RoundHalfEven(v)
  }

  /** The character the default `Set(x, y, float)` writes for a luminance. */
  function Quantise(color: real): char {
    Ramp[RampIndex(color)]
  }

  /** No light or less gives a blank; full light or more gives '@'. */
  lemma QuantiseExtremes(color: real)
    ensures color <= 0.0 ==> Quantise(color) == ' '
    ensures color >= 1.0 ==> Quantise(color) == '@'
  {
    if color <= 0.0 {
      assert Level(color) == 0.0;
      RoundHalfEvenOfInt(0);
    }
    if color >= 1.0 {
      assert Level(color) == 6.0;
      RoundHalfEvenOfInt(6);
    }
  }

  lemma LevelMonotone(a: real, b: real)
    requires a <= b
    ensures Level(a) <= Level(b)
  {
  }

  /** A brighter colour never moves down the ramp. */
  lemma QuantiseMonotone(a: real, b: real)
    requires a <= b
    ensures RampIndex(a) <= RampIndex(b)
  {
    LevelMonotone(a, b);
    RoundHalfEvenMonotone(Level(a), Level(b));
  }

  /** Exact ramp levels k / 6 come back as their own character. */
  lemma QuantiseLevels(k: int)
    requires 0 <= k < |Ramp|
    ensures Quantise(k as real / 6.0) == Ramp[k]
  {
    assert Level(k as real / 6.0) == k as real;
    RoundHalfEvenOfInt(k);
  }

  /** The default `Set(x, y, float)`: quantise, then set the character. */
  method SetColor(canvas: Canvas, x: int, y: int, color: real)
    modifies canvas
    ensures canvas.writes == old(canvas.writes) + [Write(x, y, Glyph(Quantise(color)))]
  {
    var index := RoundHalfEven(Clamp(color, 0.0, 1.0) * (|Ramp| - 1) as real);
    canvas.SetGlyph(x, y, Ramp[index]);
  }

  // ---------------------------------------------------------------- the full-canvas sweep

  /** The call for cell (x, y) of row y. */
  function SweepCell(color: (int, int) -> real, y: int): int -> Write {
    x => Write(x, y, Shade(color(x, y)))
  }

  /** Row y of the sweep: cells 0 .. width - 1, left to right. */
  function SweepRow(color: (int, int) -> real, width: int): int -> seq<Write> {
    y => Run(width, SweepCell(color, y))
  }

  /** The calls `Set(color)` makes, row by row. */
  function Sweep(color: (int, int) -> real, width: int, height: int): seq<Write> {
    Rows(0, height, SweepRow(color, width))
  }

  /**
   * Set(color) writes every cell (x, y) with 0 <= x < W and 0 <= y < H exactly once, nothing
   * else, and gives each the luminance color(x, y).
   */
  lemma SweepCoversOnce(color: (int, int) -> real, width: nat, height: nat)
    ensures var ws := Sweep(color, width, height);
      && CoversOnce(ws, 0, 0, width, height)
      && forall i :: 0 <= i < |ws| ==> ws[i].cell == Shade(color(ws[i].x, ws[i].y))
  {
    var ws := Sweep(color, width, height);
    forall i | 0 <= i < |ws|
      ensures 0 <= ws[i].x < width && 0 <= ws[i].y < height
      ensures ws[i].cell == Shade(color(ws[i].x, ws[i].y))
    {
      SweepCallInside(color, width, height, ws[i]);
    }
    forall q ensures q in Positions(ws) <==> q in Box(0, 0, width, height) {
      BoxContains(0, 0, width, height, q);
      if q in Box(0, 0, width, height) {
        SweepCellWritten(color, width, height, q.0, q.1);
      }
      if q in Positions(ws) {
        var i :| 0 <= i < |ws| && Positions(ws)[i] == q;
      }
    }
    RowsLength(0, height, SweepRow(color, width), width);
    CountedCover(ws, 0, 0, width, height);
  }

  /** Each call of the sweep writes a cell of the canvas with that cell's colour. */
  lemma SweepCallInside(color: (int, int) -> real, width: int, height: int, wr: Write)
    requires wr in Sweep(color, width, height)
    ensures 0 <= wr.x < width && 0 <= wr.y < height
    ensures wr.cell == Shade(color(wr.x, wr.y))
  {
    RowsContains(0, height, SweepRow(color, width), wr);
    var y :| 0 <= y < height && wr in SweepRow(color, width)(y);
    RunContains(width, SweepCell(color, y), wr);
  }

  /** Each cell of the canvas is written by the sweep. */
  lemma SweepCellWritten(color: (int, int) -> real, width: int, height: int, x: int, y: int)
    requires 0 <= x < width && 0 <= y < height
    ensures (x, y) in Positions(Sweep(color, width, height))
  {
    var wr := SweepCell(color, y)(x);
    RunContains(width, SweepCell(color, y), wr);
    assert wr in SweepRow(color, width)(y);
    RowsContains(0, height, SweepRow(color, width), wr);
    var ws := Sweep(color, width, height);
    var i :| 0 <= i < |ws| && ws[i] == wr;
    assert Positions(ws)[i] == (x, y);
  }

  /**
   * `Set(color)`. The source sweeps the rows, and the cells of each row, with parallel
   * loops; here the same calls are made one after the other, row by row.
   */
  method SetAll(canvas: Canvas, color: (int, int) -> real)
    modifies canvas
    ensures canvas.writes == old(canvas.writes) + Sweep(color, canvas.width, canvas.height)
  {
    var y := 0;
    while y < canvas.height
      invariant 0 <= y <= canvas.height
      invariant canvas.writes == old(canvas.writes) + Rows(0, y, SweepRow(color, canvas.width))
    {
      ghost var before := canvas.writes;
      var x := 0;
      while x < canvas.width
        invariant 0 <= x <= canvas.width
        invariant canvas.writes == before + Run(x, SweepCell(color, y))
      {
        canvas.SetShade(x, y, color(x, y));
        x := x + 1;
      }
      RowsSnoc(0, y, SweepRow(color, canvas.width));
      y := y + 1;
    }
  }
}
