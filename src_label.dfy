/**
 * src/Drawable/Label.cs: a text framed by a one-cell outline and two cells of padding,
 * centred on the canvas, and drawn only when the canvas is large enough to hold it.
 */
module SrcLabel {
  import opened Surface
  import opened BoxLayout

  const Padding: int := 2
  const Outline: int := 1

  datatype Label = Label(text: string)

  /** The calls Draw makes: none when the canvas is too small, else the centred box, padding before outline. */
  function LabelWrites(text: string, cw: int, ch: int): seq<Write> {
    var w, h := BoxWidth(|text|, Outline, Padding), BoxHeight(Outline, Padding);
    if cw < w || ch < h then []
    else BoxWrites(text, Outline, Padding, (cw - w) / 2, (ch - h) / 2, false)
  }

  /**
   * The box is |text| + 6 wide and 7 tall. A canvas narrower or shorter than that gets no
   * call; otherwise the box sits at ((W - w) / 2, (H - h) / 2), every call lands inside the
   * canvas, every box cell is written exactly once, the outer ring with 1, the text
   * characters on row 3 from column 3, and every other cell with 0.
   */
  lemma LabelLayout(text: string, cw: int, ch: int)
    ensures BoxWidth(|text|, Outline, Padding) == |text| + 6 && BoxHeight(Outline, Padding) == 7
    ensures cw < |text| + 6 || ch < 7 ==> LabelWrites(text, cw, ch) == []
    ensures cw >= |text| + 6 && ch >= 7 ==>
      var x0, y0 := (cw - (|text| + 6)) / 2, (ch - 7) / 2;
      var ws := LabelWrites(text, cw, ch);
      && CoversOnce(ws, x0, y0, |text| + 6, 7)
      && 0 <= x0 && x0 + |text| + 6 <= cw && 0 <= y0 && y0 + 7 <= ch
      && OnCanvas(ws, cw, ch)
      && ShowsLabel(ws, text, x0, y0)
  {
    if cw >= |text| + 6 && ch >= 7 {
      var x0, y0 := (cw - (|text| + 6)) / 2, (ch - 7) / 2;
      var ws := LabelWrites(text, cw, ch);
      LabelAt(text, cw, ch);
      LabelBox(ws, text, x0, y0);
      InsideCanvas(ws, x0, y0, |text| + 6, 7, cw, ch);
    }
  }

  lemma LabelAt(text: string, cw: int, ch: int)
    requires cw >= |text| + 6 && ch >= 7
    ensures LabelWrites(text, cw, ch) == BoxWrites(text, Outline, Padding, (cw - (|text| + 6)) / 2, (ch - 7) / 2, false)
  {
  }

  /** What the finished label holds at (dx, dy) from its corner: outline 1, text on row 3, else 0. */
  function LabelCell(text: string, dx: int, dy: int): Cell {
    if dx == 0 || dx == |text| + 5 || dy == 0 || dy == 6 then Shade(1.0)
    else if dy == 3 && 3 <= dx < 3 + |text| then Glyph(text[dx - 3])
    else Shade(0.0)
  }

  /** Every call writes what the finished label, with its corner at (x0, y0), holds at that cell. */
  ghost predicate ShowsLabel(ws: seq<Write>, text: string, x0: int, y0: int) {
    forall i :: 0 <= i < |ws| ==> ws[i].cell == LabelCell(text, ws[i].x - x0, ws[i].y - y0)
  }

  lemma LabelCellIntended(text: string, dx: int, dy: int)
    requires 0 <= dx < |text| + 6 && 0 <= dy < 7
    ensures Intended(text, Outline, Padding, dx, dy) == LabelCell(text, dx, dy)
  {
  }

  /** The label's box, wherever it sits, covers its |text| + 6 by 7 cells once each with the label's cells. */
  lemma LabelBox(ws: seq<Write>, text: string, x0: int, y0: int)
    requires ws == BoxWrites(text, Outline, Padding, x0, y0, false)
    ensures && CoversOnce(ws, x0, y0, |text| + 6, 7)
      && ShowsLabel(ws, text, x0, y0)
  {
    BoxCoversOnce(text, Outline, Padding, x0, y0, false);
    LabelContents(ws, text, x0, y0);
  }

  lemma LabelContents(ws: seq<Write>, text: string, x0: int, y0: int)
    requires CoversOnce(ws, x0, y0, |text| + 6, 7)
    requires forall i :: 0 <= i < |ws| ==> ws[i].cell == Intended(text, Outline, Padding, ws[i].x - x0, ws[i].y - y0)
    ensures ShowsLabel(ws, text, x0, y0)
  {
    forall i | 0 <= i < |ws| ensures ws[i].cell == LabelCell(text, ws[i].x - x0, ws[i].y - y0) {
      assert Positions(ws)[i] == (ws[i].x, ws[i].y);
      BoxContains(x0, y0, |text| + 6, 7, (ws[i].x, ws[i].y));
      LabelCellIntended(text, ws[i].x - x0, ws[i].y - y0);
    }
  }

  /** Label.Draw: the guard, the centring, then the border rows and the middle rows, cell by cell. */
  method Draw(caption: Label, canvas: Canvas)
    modifies canvas
    ensures canvas.writes == old(canvas.writes) + LabelWrites(caption.text, canvas.width, canvas.height)
  {
    var text := caption.text;
    var width := |text| + (Padding + Outline) * 2;
    var height := 1 + (Padding + Outline) * 2;
    if canvas.width < width || canvas.height < height {
      return;
    }
    var x0 := (canvas.width - width) / 2;
    var y0 := (canvas.height - height) / 2;
    DrawBox(canvas, text, x0, y0);
  }

  /** Draw once the guard has passed: the border rows, then the middle rows. */
  method DrawBox(canvas: Canvas, text: string, x0: int, y0: int)
    modifies canvas
    ensures canvas.writes == old(canvas.writes) + BoxWrites(text, Outline, Padding, x0, y0, false)
  {
    var width := |text| + (Padding + Outline) * 2;
    var height := 1 + (Padding + Outline) * 2;
    DrawBorderRows(canvas, width, height, x0, y0);
    DrawMiddleRows(canvas, text, width, height, x0, y0);
  }

  /** The second loop of Draw, over the rows between the top and bottom outline. */
  method DrawMiddleRows(canvas: Canvas, text: string, width: int, height: int, x0: int, y0: int)
    requires width == BoxWidth(|text|, Outline, Padding) && height == BoxHeight(Outline, Padding)
    modifies canvas
    ensures canvas.writes == old(canvas.writes) + Rows(Outline, height - Outline, MiddleRow(text, x0, y0, Outline, Padding, false))
  {
    ghost var row := MiddleRow(text, x0, y0, Outline, Padding, false);
    var dy := Outline;
    while dy < height - Outline
      invariant Outline <= dy <= height - Outline
      invariant canvas.writes == old(canvas.writes) + Rows(Outline, dy, row)
    {
      ghost var before := canvas.writes;
      DrawMiddleRow(canvas, text, width, x0, y0, dy);
      assert row(dy) == MiddleRowWrites(text, x0, y0, Outline, Padding, false, dy);
      assert canvas.writes == before + row(dy);
      RowsSnoc(Outline, dy, row);
      dy := dy + 1;
    }
  }

  /** The first loop of Draw: for each column, the outline cells at the top and at the bottom. */
  method DrawBorderRows(canvas: Canvas, width: int, height: int, x0: int, y0: int)
    requires width >= 0
    modifies canvas
    ensures canvas.writes == old(canvas.writes) + Rows(0, width, Column(x0, y0, height, Outline))
  {
    var dx := 0;
    while dx < width
      invariant 0 <= dx <= width
      invariant canvas.writes == old(canvas.writes) + Rows(0, dx, Column(x0, y0, height, Outline))
    {
      ghost var before := canvas.writes;
      var dy := 0;
      while dy < Outline
        invariant 0 <= dy <= Outline
        invariant canvas.writes == before + Pairs(dy, TopCell(x0, y0, dx), BottomCell(x0, y0, height, Outline, dx))
      {
        canvas.SetShade(x0 + dx, y0 + dy, 1.0);
        canvas.SetShade(x0 + dx, y0 + height - Outline + dy, 1.0);
        dy := dy + 1;
      }
      dx := dx + 1;
    }
  }

  /** One pass of Draw's second loop: padding, outline, then the text (or blank) cells of row dy. */
  method DrawMiddleRow(canvas: Canvas, text: string, width: int, x0: int, y0: int, dy: int)
    requires width == BoxWidth(|text|, Outline, Padding)
    modifies canvas
    ensures canvas.writes == old(canvas.writes) + MiddleRowWrites(text, x0, y0, Outline, Padding, false, dy)
  {
    DrawPadding(canvas, width, x0, y0, dy);
    DrawOutline(canvas, width, x0, y0, dy);
    DrawText(canvas, text, x0, y0, dy);
  }

  method DrawPadding(canvas: Canvas, width: int, x0: int, y0: int, dy: int)
    modifies canvas
    ensures canvas.writes == old(canvas.writes) + Pads(x0, y0, width, Outline, Padding, dy)
  {
    var i := 0;
    while i < Padding
      invariant 0 <= i <= Padding
      invariant canvas.writes == old(canvas.writes) + Pairs(i, LeftPad(x0, y0 + dy, Outline), RightPad(x0, y0 + dy, width, Outline, Padding))
    {
      canvas.SetShade(x0 + Outline + i, y0 + dy, 0.0);
      canvas.SetShade(x0 + width - Padding - Outline + i, y0 + dy, 0.0);
      i := i + 1;
    }
  }

  method DrawOutline(canvas: Canvas, width: int, x0: int, y0: int, dy: int)
    modifies canvas
    ensures canvas.writes == old(canvas.writes) + Borders(x0, y0, width, Outline, dy)
  {
    var i := 0;
    while i < Outline
      invariant 0 <= i <= Outline
      invariant canvas.writes == old(canvas.writes) + Pairs(i, LeftBorder(x0, y0 + dy), RightBorder(x0, y0 + dy, width, Outline))
    {
      canvas.SetShade(x0 + i, y0 + dy, 1.0);
      canvas.SetShade(x0 + width - Outline + i, y0 + dy, 1.0);
      i := i + 1;
    }
  }

  method DrawText(canvas: Canvas, text: string, x0: int, y0: int, dy: int)
    modifies canvas
    ensures canvas.writes == old(canvas.writes) + Run(|text|, TextCell(text, x0, y0, Outline, Padding, dy))
  {
    var i := 0;
    while i < |text|
      invariant 0 <= i <= |text|
      invariant canvas.writes == old(canvas.writes) + Run(i, TextCell(text, x0, y0, Outline, Padding, dy))
    {
      if dy == Padding + Outline {
        canvas.SetGlyph(x0 + Padding + Outline + i, y0 + dy, text[i]);
      } else {
        canvas.SetShade(x0 + Padding + Outline + i, y0 + dy, 0.0);
      }
      i := i + 1;
    }
  }
}
