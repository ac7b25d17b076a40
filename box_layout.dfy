/**
 * The framed text box that every version of the label draws.
 *
 * A box around a text of length n, with a border b cells thick and a padding p cells
 * thick, is w = n + 2(b + p) wide and h = 1 + 2(b + p) tall. Its top-left corner is
 * (x0, y0). The drawing loops first walk the columns writing the b top and b bottom
 * border rows, then walk the middle rows writing, per row, the left and right border
 * cells, the left and right padding cells (in one of two orders), and a row of text cells
 * that holds the text on the middle row and blanks elsewhere.
 *
 * The sequences below are the calls those loops make, built from the loop shapes of the
 * Surface module; the lemma BoxCoversOnce shows that they write every cell of the box
 * exactly once, nothing outside it, and each with the intended content.
 */
module BoxLayout {
  import opened Surface

  function BoxWidth(n: int, b: int, p: int): int { n + (b + p) * 2 }
  function BoxHeight(b: int, p: int): int { 1 + (b + p) * 2 }

  /** What the finished box holds at (dx, dy) relative to its corner. */
  function Intended(text: string, b: int, p: int, dx: int, dy: int): Cell {
    var w, h := BoxWidth(|text|, b, p), BoxHeight(b, p);
    if dx < b || dx >= w - b || dy < b || dy >= h - b then Shade(1.0)
    else if dy == b + p && b + p <= dx < b + p + |text| then Glyph(text[dx - b - p])
    else Shade(0.0)
  }

  // ---------------------------------------------------------------- the calls, loop by loop

  /** Top border cell (x0 + dx, y0 + dy). */
  function TopCell(x0: int, y0: int, dx: int): int -> Write {
    dy => Write(x0 + dx, y0 + dy, Shade(1.0))
  }

  /** Bottom border cell (x0 + dx, y0 + h - b + dy). */
  function BottomCell(x0: int, y0: int, h: int, b: int, dx: int): int -> Write {
    dy => Write(x0 + dx, y0 + h - b + dy, Shade(1.0))
  }

  /** One column of the first loop: the b top cells and the b bottom cells, interleaved. */
  function Column(x0: int, y0: int, h: int, b: int): int -> seq<Write> {
    dx => Pairs(b, TopCell(x0, y0, dx), BottomCell(x0, y0, h, b, dx))
  }

  function LeftBorder(x0: int, y: int): int -> Write {
    dx => Write(x0 + dx, y, Shade(1.0))
  }

  function RightBorder(x0: int, y: int, w: int, b: int): int -> Write {
    dx => Write(x0 + w - b + dx, y, Shade(1.0))
  }

  function LeftPad(x0: int, y: int, b: int): int -> Write {
    dx => Write(x0 + b + dx, y, Shade(0.0))
  }

  function RightPad(x0: int, y: int, w: int, b: int, p: int): int -> Write {
    dx => Write(x0 + w - b - p + dx, y, Shade(0.0))
  }

  /** A text cell: the character on the text row, a blank on the others. */
  function TextCell(text: string, x0: int, y0: int, b: int, p: int, dy: int): int -> Write {
    dx => Write(x0 + b + p + dx, y0 + dy, if dy == b + p && 0 <= dx < |text| then Glyph(text[dx]) else Shade(0.0))
  }

  /** The border pairs of middle row dy. */
  function Borders(x0: int, y0: int, w: int, b: int, dy: int): seq<Write> {
    Pairs(b, LeftBorder(x0, y0 + dy), RightBorder(x0, y0 + dy, w, b))
  }

  /** The padding pairs of middle row dy. */
  function Pads(x0: int, y0: int, w: int, b: int, p: int, dy: int): seq<Write> {
    Pairs(p, LeftPad(x0, y0 + dy, b), RightPad(x0, y0 + dy, w, b, p))
  }

  /** Middle row dy: borders then padding (or padding then borders), then the text cells. */
  function MiddleRowWrites(text: string, x0: int, y0: int, b: int, p: int, borderFirst: bool, dy: int): seq<Write> {
    var w := BoxWidth(|text|, b, p);
    (if borderFirst then Borders(x0, y0, w, b, dy) + Pads(x0, y0, w, b, p, dy)
     else Pads(x0, y0, w, b, p, dy) + Borders(x0, y0, w, b, dy))
    + Run(|text|, TextCell(text, x0, y0, b, p, dy))
  }

  /** The second loop's body, as a function of the row. */
  function MiddleRow(text: string, x0: int, y0: int, b: int, p: int, borderFirst: bool): int -> seq<Write> {
    dy => MiddleRowWrites(text, x0, y0, b, p, borderFirst, dy)
  }

  /** All the calls of one box drawing. */
  function BoxWrites(text: string, b: int, p: int, x0: int, y0: int, borderFirst: bool): seq<Write> {
    var w, h := BoxWidth(|text|, b, p), BoxHeight(b, p);
    Rows(0, w, Column(x0, y0, h, b)) + Rows(b, h - b, MiddleRow(text, x0, y0, b, p, borderFirst))
  }

  // ---------------------------------------------------------------- what the calls write

  /** Every call of the first loop is a border cell of the box. */
  lemma ColumnsCells(text: string, b: int, p: int, x0: int, y0: int, wr: Write)
    requires b >= 0 && p >= 0
    requires wr in Rows(0, BoxWidth(|text|, b, p), Column(x0, y0, BoxHeight(b, p), b))
    ensures 0 <= wr.x - x0 < BoxWidth(|text|, b, p) && 0 <= wr.y - y0 < BoxHeight(b, p)
    ensures wr.cell == Intended(text, b, p, wr.x - x0, wr.y - y0)
  {
    var w, h := BoxWidth(|text|, b, p), BoxHeight(b, p);
    RowsContains(0, w, Column(x0, y0, h, b), wr);
    var dx :| 0 <= dx < w && wr in Column(x0, y0, h, b)(dx);
    PairsContains(b, TopCell(x0, y0, dx), BottomCell(x0, y0, h, b, dx), wr);
  }

  /** A border call of middle row dy writes a side border cell. */
  lemma BorderCell(text: string, b: int, p: int, x0: int, y0: int, dy: int, wr: Write)
    requires b >= 0 && p >= 0 && b <= dy < BoxHeight(b, p) - b
    requires wr in Borders(x0, y0, BoxWidth(|text|, b, p), b, dy)
    ensures 0 <= wr.x - x0 < BoxWidth(|text|, b, p) && wr.y - y0 == dy
    ensures wr.cell == Intended(text, b, p, wr.x - x0, wr.y - y0)
  {
    var w := BoxWidth(|text|, b, p);
    PairsContains(b, LeftBorder(x0, y0 + dy), RightBorder(x0, y0 + dy, w, b), wr);
  }

  /** A padding call of middle row dy writes a blank padding cell. */
  lemma PadCell(text: string, b: int, p: int, x0: int, y0: int, dy: int, wr: Write)
    requires b >= 0 && p >= 0 && b <= dy < BoxHeight(b, p) - b
    requires wr in Pads(x0, y0, BoxWidth(|text|, b, p), b, p, dy)
    ensures 0 <= wr.x - x0 < BoxWidth(|text|, b, p) && wr.y - y0 == dy
    ensures wr.cell == Intended(text, b, p, wr.x - x0, wr.y - y0)
  {
    var w := BoxWidth(|text|, b, p);
    PairsContains(p, LeftPad(x0, y0 + dy, b), RightPad(x0, y0 + dy, w, b, p), wr);
  }

  /** A text call of middle row dy writes a character on the text row and a blank elsewhere. */
  lemma TextCellIntended(text: string, b: int, p: int, x0: int, y0: int, dy: int, wr: Write)
    requires b >= 0 && p >= 0 && b <= dy < BoxHeight(b, p) - b
    requires wr in Run(|text|, TextCell(text, x0, y0, b, p, dy))
    ensures 0 <= wr.x - x0 < BoxWidth(|text|, b, p) && wr.y - y0 == dy
    ensures wr.cell == Intended(text, b, p, wr.x - x0, wr.y - y0)
  {
    RunContains(|text|, TextCell(text, x0, y0, b, p, dy), wr);
  }

  /** Every call of middle row dy is a cell of that row, with its intended content. */
  lemma MiddleRowCell(text: string, b: int, p: int, x0: int, y0: int, borderFirst: bool, dy: int, wr: Write)
    requires b >= 0 && p >= 0 && b <= dy < BoxHeight(b, p) - b
    requires wr in MiddleRowWrites(text, x0, y0, b, p, borderFirst, dy)
    ensures 0 <= wr.x - x0 < BoxWidth(|text|, b, p) && wr.y - y0 == dy
    ensures wr.cell == Intended(text, b, p, wr.x - x0, wr.y - y0)
  {
    var w := BoxWidth(|text|, b, p);
    var borders, pads := Borders(x0, y0, w, b, dy), Pads(x0, y0, w, b, p, dy);
    var texts := Run(|text|, TextCell(text, x0, y0, b, p, dy));
    assert wr in borders || wr in pads || wr in texts;
    if wr in borders {
      BorderCell(text, b, p, x0, y0, dy, wr);
    } else if wr in pads {
      PadCell(text, b, p, x0, y0, dy, wr);
    } else {
      TextCellIntended(text, b, p, x0, y0, dy, wr);
    }
  }

  /** Every call of the second loop is a middle-row cell of the box, with its intended content. */
  lemma MiddleCells(text: string, b: int, p: int, x0: int, y0: int, borderFirst: bool, wr: Write)
    requires b >= 0 && p >= 0
    requires wr in Rows(b, BoxHeight(b, p) - b, MiddleRow(text, x0, y0, b, p, borderFirst))
    ensures 0 <= wr.x - x0 < BoxWidth(|text|, b, p) && 0 <= wr.y - y0 < BoxHeight(b, p)
    ensures wr.cell == Intended(text, b, p, wr.x - x0, wr.y - y0)
  {
    var h := BoxHeight(b, p);
    RowsContains(b, h - b, MiddleRow(text, x0, y0, b, p, borderFirst), wr);
    var dy :| b <= dy < h - b && wr in MiddleRow(text, x0, y0, b, p, borderFirst)(dy);
    MiddleRowCell(text, b, p, x0, y0, borderFirst, dy, wr);
  }

  /** A call in the list puts its cell among the list's positions. */
  lemma PositionOf(ws: seq<Write>, wr: Write)
    requires wr in ws
    ensures (wr.x, wr.y) in Positions(ws)
  {
    var i :| 0 <= i < |ws| && ws[i] == wr;
    assert Positions(ws)[i] == (wr.x, wr.y);
  }

  /** Every top or bottom border cell is written by the first loop. */
  lemma ColumnCellWritten(text: string, b: int, p: int, x0: int, y0: int, dx: int, dy: int) returns (wr: Write)
    requires b >= 0 && p >= 0
    requires 0 <= dx < BoxWidth(|text|, b, p) && 0 <= dy < BoxHeight(b, p)
    requires dy < b || dy >= BoxHeight(b, p) - b
    ensures wr in Rows(0, BoxWidth(|text|, b, p), Column(x0, y0, BoxHeight(b, p), b))
    ensures (wr.x, wr.y) == (x0 + dx, y0 + dy)
  {
    var w, h := BoxWidth(|text|, b, p), BoxHeight(b, p);
    var t, f := TopCell(x0, y0, dx), BottomCell(x0, y0, h, b, dx);
    if dy < b {
      wr := t(dy);
    } else {
      wr := f(dy - (h - b));
    }
    PairsContains(b, t, f, wr);
    assert wr in Column(x0, y0, h, b)(dx);
    RowsContains(0, w, Column(x0, y0, h, b), wr);
  }

  /** A side border cell of middle row dy is written by the row's border calls. */
  lemma BorderWritten(text: string, b: int, p: int, x0: int, y0: int, dx: int, dy: int) returns (wr: Write)
    requires b >= 0 && p >= 0
    requires 0 <= dx < b || BoxWidth(|text|, b, p) - b <= dx < BoxWidth(|text|, b, p)
    ensures wr in Borders(x0, y0, BoxWidth(|text|, b, p), b, dy)
    ensures (wr.x, wr.y) == (x0 + dx, y0 + dy)
  {
    var w := BoxWidth(|text|, b, p);
    var lb, rb := LeftBorder(x0, y0 + dy), RightBorder(x0, y0 + dy, w, b);
    wr := if dx < b then lb(dx) else rb(dx - (w - b));
    PairsContains(b, lb, rb, wr);
  }

  /** A padding cell of middle row dy is written by the row's padding calls. */
  lemma PadWritten(text: string, b: int, p: int, x0: int, y0: int, dx: int, dy: int) returns (wr: Write)
    requires b >= 0 && p >= 0
    requires b <= dx < b + p || BoxWidth(|text|, b, p) - b - p <= dx < BoxWidth(|text|, b, p) - b
    ensures wr in Pads(x0, y0, BoxWidth(|text|, b, p), b, p, dy)
    ensures (wr.x, wr.y) == (x0 + dx, y0 + dy)
  {
    var w := BoxWidth(|text|, b, p);
    var lp, rp := LeftPad(x0, y0 + dy, b), RightPad(x0, y0 + dy, w, b, p);
    wr := if dx < b + p then lp(dx - b) else rp(dx - (w - b - p));
    PairsContains(p, lp, rp, wr);
  }

  /** A text-column cell of middle row dy is written by the row's text calls. */
  lemma TextWritten(text: string, b: int, p: int, x0: int, y0: int, dx: int, dy: int) returns (wr: Write)
    requires b + p <= dx < b + p + |text|
    ensures wr in Run(|text|, TextCell(text, x0, y0, b, p, dy))
    ensures (wr.x, wr.y) == (x0 + dx, y0 + dy)
  {
    var tc := TextCell(text, x0, y0, b, p, dy);
    wr := tc(dx - b - p);
    RunContains(|text|, tc, wr);
  }

  /** Every cell of middle row dy is written by that row's calls. */
  lemma RowCellWritten(text: string, b: int, p: int, x0: int, y0: int, borderFirst: bool, dx: int, dy: int)
    returns (wr: Write)
    requires b >= 0 && p >= 0
    requires 0 <= dx < BoxWidth(|text|, b, p)
    ensures wr in MiddleRow(text, x0, y0, b, p, borderFirst)(dy)
    ensures (wr.x, wr.y) == (x0 + dx, y0 + dy)
  {
    var w := BoxWidth(|text|, b, p);
    if dx < b || dx >= w - b {
      wr := BorderWritten(text, b, p, x0, y0, dx, dy);
    } else if dx < b + p || dx >= w - b - p {
      wr := PadWritten(text, b, p, x0, y0, dx, dy);
    } else {
      wr := TextWritten(text, b, p, x0, y0, dx, dy);
    }
  }

  /** Every cell of a middle row is written by the second loop. */
  lemma MiddleCellWritten(text: string, b: int, p: int, x0: int, y0: int, borderFirst: bool, dx: int, dy: int)
    returns (wr: Write)
    requires b >= 0 && p >= 0
    requires 0 <= dx < BoxWidth(|text|, b, p) && b <= dy < BoxHeight(b, p) - b
    ensures wr in Rows(b, BoxHeight(b, p) - b, MiddleRow(text, x0, y0, b, p, borderFirst))
    ensures (wr.x, wr.y) == (x0 + dx, y0 + dy)
  {
    wr := RowCellWritten(text, b, p, x0, y0, borderFirst, dx, dy);
    RowsContains(b, BoxHeight(b, p) - b, MiddleRow(text, x0, y0, b, p, borderFirst), wr);
  }

  /** Every cell of the box is written by some call. */
  lemma BoxCellWritten(text: string, b: int, p: int, x0: int, y0: int, borderFirst: bool, dx: int, dy: int)
    requires b >= 0 && p >= 0
    requires 0 <= dx < BoxWidth(|text|, b, p) && 0 <= dy < BoxHeight(b, p)
    ensures (x0 + dx, y0 + dy) in Positions(BoxWrites(text, b, p, x0, y0, borderFirst))
  {
    var w, h := BoxWidth(|text|, b, p), BoxHeight(b, p);
    var top, middle := Rows(0, w, Column(x0, y0, h, b)), Rows(b, h - b, MiddleRow(text, x0, y0, b, p, borderFirst));
    assert BoxWrites(text, b, p, x0, y0, borderFirst) == top + middle;
    var wr: Write;
    if dy < b || dy >= h - b {
      wr := ColumnCellWritten(text, b, p, x0, y0, dx, dy);
      assert wr in top + middle;
    } else {
      wr := MiddleCellWritten(text, b, p, x0, y0, borderFirst, dx, dy);
      assert wr in top + middle;
    }
    PositionOf(top + middle, wr);
  }

  /** Each column of the first loop makes 2b calls; each middle row makes w calls. */
  lemma RowLengths(text: string, b: int, p: int, x0: int, y0: int, borderFirst: bool)
    requires b >= 0 && p >= 0
    ensures forall dx :: |Column(x0, y0, BoxHeight(b, p), b)(dx)| == 2 * b
    ensures forall dy :: |MiddleRow(text, x0, y0, b, p, borderFirst)(dy)| == BoxWidth(|text|, b, p)
  {
    var w := BoxWidth(|text|, b, p);
    forall dy ensures |MiddleRow(text, x0, y0, b, p, borderFirst)(dy)| == w {
      assert |Borders(x0, y0, w, b, dy)| == 2 * b;
      assert |Pads(x0, y0, w, b, p, dy)| == 2 * p;
    }
  }

  /** The number of calls is the number of cells of the box. */
  lemma BoxWritesLength(text: string, b: int, p: int, x0: int, y0: int, borderFirst: bool)
    requires b >= 0 && p >= 0
    ensures |BoxWrites(text, b, p, x0, y0, borderFirst)| == BoxWidth(|text|, b, p) * BoxHeight(b, p)
  {
    var w, h := BoxWidth(|text|, b, p), BoxHeight(b, p);
    RowLengths(text, b, p, x0, y0, borderFirst);
    RowsLength(0, w, Column(x0, y0, h, b), 2 * b);
    RowsLength(b, h - b, MiddleRow(text, x0, y0, b, p, borderFirst), w);
    Distribute(w, 2 * b, h - b - b);
    assert 2 * b + (h - b - b) == h;
  }

  lemma Distribute(w: int, a: int, c: int)
    ensures w * a + c * w == w * (a + c)
  {
  }

  /** Every call writes a cell of the box, with the content the box holds there. */
  lemma CallsIntended(text: string, b: int, p: int, x0: int, y0: int, borderFirst: bool)
    requires b >= 0 && p >= 0
    ensures var ws := BoxWrites(text, b, p, x0, y0, borderFirst);
      forall i :: 0 <= i < |ws| ==>
        && 0 <= ws[i].x - x0 < BoxWidth(|text|, b, p) && 0 <= ws[i].y - y0 < BoxHeight(b, p)
        && ws[i].cell == Intended(text, b, p, ws[i].x - x0, ws[i].y - y0)
  {
    var w, h := BoxWidth(|text|, b, p), BoxHeight(b, p);
    var top, middle := Rows(0, w, Column(x0, y0, h, b)), Rows(b, h - b, MiddleRow(text, x0, y0, b, p, borderFirst));
    var ws := BoxWrites(text, b, p, x0, y0, borderFirst);
    assert ws == top + middle;
    forall i | 0 <= i < |ws|
      ensures 0 <= ws[i].x - x0 < w && 0 <= ws[i].y - y0 < h
      ensures ws[i].cell == Intended(text, b, p, ws[i].x - x0, ws[i].y - y0)
    {
      if i < |top| {
        assert ws[i] in top;
        ColumnsCells(text, b, p, x0, y0, ws[i]);
      } else {
        assert ws[i] in middle;
        MiddleCells(text, b, p, x0, y0, borderFirst, ws[i]);
      }
    }
  }

  /** The cells written are exactly the cells of the box. */
  lemma PositionsAreBox(text: string, b: int, p: int, x0: int, y0: int, borderFirst: bool)
    requires b >= 0 && p >= 0
    ensures var ws := BoxWrites(text, b, p, x0, y0, borderFirst);
      forall q :: q in Positions(ws) <==> q in Box(x0, y0, BoxWidth(|text|, b, p), BoxHeight(b, p))
  {
    var w, h := BoxWidth(|text|, b, p), BoxHeight(b, p);
    var ws := BoxWrites(text, b, p, x0, y0, borderFirst);
    CallsIntended(text, b, p, x0, y0, borderFirst);
    forall q
      ensures q in Positions(ws) <==> q in Box(x0, y0, w, h)
    {
      BoxContains(x0, y0, w, h, q);
      if q in Box(x0, y0, w, h) {
        BoxCellWritten(text, b, p, x0, y0, borderFirst, q.0 - x0, q.1 - y0);
      }
      if q in Positions(ws) {
        var i :| 0 <= i < |ws| && Positions(ws)[i] == q;
        assert 0 <= ws[i].x - x0 < w && 0 <= ws[i].y - y0 < h;
      }
    }
  }

  /**
   * The box drawing writes each cell of the w-by-h box at (x0, y0) exactly once, nothing
   * outside it, and every call writes what the finished box holds at that cell.
   */
  lemma BoxCoversOnce(text: string, b: int, p: int, x0: int, y0: int, borderFirst: bool)
    requires b >= 0 && p >= 0
    ensures var ws := BoxWrites(text, b, p, x0, y0, borderFirst);
      && CoversOnce(ws, x0, y0, BoxWidth(|text|, b, p), BoxHeight(b, p))
      && forall i :: 0 <= i < |ws| ==> ws[i].cell == Intended(text, b, p, ws[i].x - x0, ws[i].y - y0)
  {
    var ws := BoxWrites(text, b, p, x0, y0, borderFirst);
    CallsIntended(text, b, p, x0, y0, borderFirst);
    PositionsAreBox(text, b, p, x0, y0, borderFirst);
    BoxWritesLength(text, b, p, x0, y0, borderFirst);
    CountedCover(ws, x0, y0, BoxWidth(|text|, b, p), BoxHeight(b, p));
  }

  /** Inside a W-by-H canvas: with the box no larger than the canvas, centring keeps every cell in range. */
  lemma CentredBoxInside(cw: int, ch: int, w: int, h: int)
    requires 0 <= w <= cw && 0 <= h <= ch
    ensures 0 <= (cw - w) / 2 && (cw - w) / 2 + w <= cw
    ensures 0 <= (ch - h) / 2 && (ch - h) / 2 + h <= ch
  {
  }

  /** Calls that cover a box lying inside the canvas all land inside the canvas. */
  lemma InsideCanvas(ws: seq<Write>, x0: int, y0: int, w: int, h: int, cw: int, ch: int)
    requires CoversOnce(ws, x0, y0, w, h)
    requires 0 <= x0 && x0 + w <= cw && 0 <= y0 && y0 + h <= ch
    ensures OnCanvas(ws, cw, ch)
  {
    forall i | 0 <= i < |ws| ensures 0 <= ws[i].x < cw && 0 <= ws[i].y < ch {
      assert Positions(ws)[i] == (ws[i].x, ws[i].y);
      BoxContains(x0, y0, w, h, (ws[i].x, ws[i].y));
    }
  }
}
