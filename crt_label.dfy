/**
 * ConsoleRayTracer/Drawable/Label.cs: a text in a box whose border and padding widths are
 * parameters, centred on the canvas and drawn only when the canvas can hold it. Each
 * middle row writes its border cells before its padding cells.
 */
module CrtLabel {
  import opened Surface
  import opened BoxLayout

  datatype Label = Label(text: string, borderWidth: int, padding: int)

  /** The calls Draw makes: none when the canvas is too small, else the centred box. */
  function LabelWrites(l: Label, cw: int, ch: int): seq<Write> {
    var w, h := BoxWidth(|l.text|, l.borderWidth, l.padding), BoxHeight(l.borderWidth, l.padding);
    if cw < w || ch < h then []
    else BoxWrites(l.text, l.borderWidth, l.padding, (cw - w) / 2, (ch - h) / 2, true)
  }

  /**
   * The box is |text| + 2(B + P) wide and 1 + 2(B + P) tall. A canvas narrower or shorter
   * than that gets no call. Otherwise, for B, P >= 0, the box sits at ((W - w) / 2,
   * (H - h) / 2), every call lands inside the canvas, every box cell is written exactly
   * once, and each with what the finished box holds there.
   */
  lemma LabelLayout(l: Label, cw: int, ch: int)
    requires l.borderWidth >= 0 && l.padding >= 0
    ensures var b, p := l.borderWidth, l.padding;
      var w, h := BoxWidth(|l.text|, b, p), BoxHeight(b, p);
      && w == |l.text| + 2 * (b + p) && h == 1 + 2 * (b + p)
      && (cw < w || ch < h ==> LabelWrites(l, cw, ch) == [])
      && (cw >= w && ch >= h ==>
            var x0, y0 := (cw - w) / 2, (ch - h) / 2;
            var ws := LabelWrites(l, cw, ch);
            && CoversOnce(ws, x0, y0, w, h)
            && 0 <= x0 && x0 + w <= cw && 0 <= y0 && y0 + h <= ch
            && OnCanvas(ws, cw, ch)
            && forall i :: 0 <= i < |ws| ==> ws[i].cell == Intended(l.text, b, p, ws[i].x - x0, ws[i].y - y0))
  {
    var b, p := l.borderWidth, l.padding;
    var w, h := BoxWidth(|l.text|, b, p), BoxHeight(b, p);
    if cw >= w && ch >= h {
      var x0, y0 := (cw - w) / 2, (ch - h) / 2;
      LabelAt(l, cw, ch);
      PlacedBox(l.text, b, p, x0, y0, cw, ch);
    }
  }

  /** A box that lies inside the canvas is written once per cell, on the canvas, with its intended cells. */
  lemma PlacedBox(text: string, b: int, p: int, x0: int, y0: int, cw: int, ch: int)
    requires b >= 0 && p >= 0
    requires 0 <= x0 && x0 + BoxWidth(|text|, b, p) <= cw && 0 <= y0 && y0 + BoxHeight(b, p) <= ch
    ensures var ws, w, h := BoxWrites(text, b, p, x0, y0, true), BoxWidth(|text|, b, p), BoxHeight(b, p);
      && CoversOnce(ws, x0, y0, w, h)
      && OnCanvas(ws, cw, ch)
      && forall i :: 0 <= i < |ws| ==> ws[i].cell == Intended(text, b, p, ws[i].x - x0, ws[i].y - y0)
  {
    var ws, w, h := BoxWrites(text, b, p, x0, y0, true), BoxWidth(|text|, b, p), BoxHeight(b, p);
    BoxCoversOnce(text, b, p, x0, y0, true);
    InsideCanvas(ws, x0, y0, w, h, cw, ch);
  }

  lemma LabelAt(l: Label, cw: int, ch: int)
    requires cw >= BoxWidth(|l.text|, l.borderWidth, l.padding) && ch >= BoxHeight(l.borderWidth, l.padding)
    ensures var w, h := BoxWidth(|l.text|, l.borderWidth, l.padding), BoxHeight(l.borderWidth, l.padding);
      LabelWrites(l, cw, ch) == BoxWrites(l.text, l.borderWidth, l.padding, (cw - w) / 2, (ch - h) / 2, true)
  {
  }

  /**
   * What the finished box holds: the outer B rings are 1; a character of the text only on
   * row B + P, character i at column B + P + i; every other cell, the padding included, 0.
   */
  lemma BoxCells(text: string, b: int, p: int, dx: int, dy: int)
    requires b >= 0 && p >= 0
    requires 0 <= dx < BoxWidth(|text|, b, p) && 0 <= dy < BoxHeight(b, p)
    ensures var c := Intended(text, b, p, dx, dy);
      && (c == Shade(1.0) <==> dx < b || dx >= |text| + b + 2 * p || dy < b || dy > b + 2 * p)
      && (c.Glyph? <==> (dy == b + p && b + p <= dx < b + p + |text| && !(dx < b || dy < b)))
      && (c.Glyph? ==> c.ch == text[dx - b - p])
      && ((b <= dx < |text| + b + 2 * p && b <= dy <= b + 2 * p && !(dy == b + p && b + p <= dx < b + p + |text|))
            ==> c == Shade(0.0))
  {
  }

  /** Label.Draw: the size, the centring, the guard, then the border rows and the middle rows. */
  method Draw(l: Label, canvas: Canvas)
    modifies canvas
    ensures canvas.writes == old(canvas.writes) + LabelWrites(l, canvas.width, canvas.height)
  {
    var width := |l.text| + (l.borderWidth + l.padding) * 2;
    var height := 1 + (l.borderWidth + l.padding) * 2;
    var x0 := (canvas.width - width) / 2;
    var y0 := (canvas.height - height) / 2;
    if canvas.width < width || canvas.height < height {
      return;
    }
    LabelAt(l, canvas.width, canvas.height);
    ghost var ws := LabelWrites(l, canvas.width, canvas.height);
    assert ws == BoxWrites(l.text, l.borderWidth, l.padding, x0, y0, true);
    DrawBox(canvas, l.text, l.borderWidth, l.padding, x0, y0);
  }

  /** The two loops of a box with its corner at (x0, y0): the border rows, then the middle rows. */
  method DrawBox(canvas: Canvas, text: string, b: int, p: int, x0: int, y0: int)
    modifies canvas
    ensures canvas.writes == old(canvas.writes) + BoxWrites(text, b, p, x0, y0, true)
  {
    var width := BoxWidth(|text|, b, p);
    var height := BoxHeight(b, p);
    ghost var top, middle := Rows(0, width, Column(x0, y0, height, b)), Rows(b, height - b, MiddleRow(text, x0, y0, b, p, true));
    assert BoxWrites(text, b, p, x0, y0, true) == top + middle;
    DrawBorderRows(canvas, width, height, b, x0, y0);
    DrawMiddleRows(canvas, text, b, p, width, height, x0, y0);
    AppendAssoc(old(canvas.writes), top, middle);
  }

  /** The first loop: for each column, the B top border cells and the B bottom ones. */
  method DrawBorderRows(canvas: Canvas, width: int, height: int, b: int, x0: int, y0: int)
    modifies canvas
    ensures canvas.writes == old(canvas.writes) + Rows(0, width, Column(x0, y0, height, b))
  {
    var dx := 0;
    while dx < width
      invariant 0 <= dx && (dx <= width || dx == 0)
      invariant canvas.writes == old(canvas.writes) + Rows(0, dx, Column(x0, y0, height, b))
    {
      DrawColumn(canvas, height, b, x0, y0, dx);
      dx := dx + 1;
    }
  }

  /** One pass of the first loop: the B top cells and the B bottom cells of column dx. */
  method DrawColumn(canvas: Canvas, height: int, b: int, x0: int, y0: int, dx: int)
    modifies canvas
    ensures canvas.writes == old(canvas.writes) + Column(x0, y0, height, b)(dx)
  {
    ghost var top, bottom := TopCell(x0, y0, dx), BottomCell(x0, y0, height, b, dx);
    var dy := 0;
    while dy < b
      invariant 0 <= dy && (dy <= b || dy == 0)
      invariant canvas.writes == old(canvas.writes) + Pairs(dy, top, bottom)
    {
      canvas.SetShade(x0 + dx, y0 + dy, 1.0);
      canvas.SetShade(x0 + dx, y0 + height - b + dy, 1.0);
      dy := dy + 1;
    }
  }

  /** The second loop, over the rows between the top and the bottom border. */
  method DrawMiddleRows(canvas: Canvas, text: string, b: int, p: int, width: int, height: int, x0: int, y0: int)
    requires width == BoxWidth(|text|, b, p) && height == BoxHeight(b, p)
    modifies canvas
    ensures canvas.writes == old(canvas.writes) + Rows(b, height - b, MiddleRow(text, x0, y0, b, p, true))
  {
    ghost var row := MiddleRow(text, x0, y0, b, p, true);
    var dy := b;
    while dy < height - b
      invariant b <= dy && (dy <= height - b || dy == b)
      invariant canvas.writes == old(canvas.writes) + Rows(b, dy, row)
    {
      DrawMiddleRow(canvas, text, b, p, width, x0, y0, dy);
      assert row(dy) == MiddleRowWrites(text, x0, y0, b, p, true, dy);
      RowsSnoc(b, dy, row);
      AppendAssoc(old(canvas.writes), Rows(b, dy, row), row(dy));
      dy := dy + 1;
    }
  }

  /** One pass of the second loop: border, padding, then the text (or blank) cells of row dy. */
  method DrawMiddleRow(canvas: Canvas, text: string, b: int, p: int, width: int, x0: int, y0: int, dy: int)
    requires width == BoxWidth(|text|, b, p)
    modifies canvas
    ensures canvas.writes == old(canvas.writes) + MiddleRowWrites(text, x0, y0, b, p, true, dy)
  {
    DrawBorders(canvas, width, b, x0, y0, dy);
    DrawPadding(canvas, width, b, p, x0, y0, dy);
    DrawText(canvas, text, b, p, x0, y0, dy);
  }

  method DrawBorders(canvas: Canvas, width: int, b: int, x0: int, y0: int, dy: int)
    modifies canvas
    ensures canvas.writes == old(canvas.writes) + Borders(x0, y0, width, b, dy)
  {
    var dx := 0;
    while dx < b
      invariant 0 <= dx && (dx <= b || dx == 0)
      invariant canvas.writes == old(canvas.writes) + Pairs(dx, LeftBorder(x0, y0 + dy), RightBorder(x0, y0 + dy, width, b))
    {
      canvas.SetShade(x0 + dx, y0 + dy, 1.0);
      canvas.SetShade(x0 + width - b + dx, y0 + dy, 1.0);
      dx := dx + 1;
    }
  }

  method DrawPadding(canvas: Canvas, width: int, b: int, p: int, x0: int, y0: int, dy: int)
    modifies canvas
    ensures canvas.writes == old(canvas.writes) + Pads(x0, y0, width, b, p, dy)
  {
    var dx := 0;
    while dx < p
      invariant 0 <= dx && (dx <= p || dx == 0)
      invariant canvas.writes == old(canvas.writes) + Pairs(dx, LeftPad(x0, y0 + dy, b), RightPad(x0, y0 + dy, width, b, p))
    {
      canvas.SetShade(x0 + b + dx, y0 + dy, 0.0);
      canvas.SetShade(x0 + width - b - p + dx, y0 + dy, 0.0);
      dx := dx + 1;
    }
  }

  method DrawText(canvas: Canvas, text: string, b: int, p: int, x0: int, y0: int, dy: int)
    modifies canvas
    ensures canvas.writes == old(canvas.writes) + Run(|text|, TextCell(text, x0, y0, b, p, dy))
  {
    var dx := 0;
    while dx < |text|
      invariant 0 <= dx <= |text|
      invariant canvas.writes == old(canvas.writes) + Run(dx, TextCell(text, x0, y0, b, p, dy))
    {
      if dy == b + p {
        canvas.SetGlyph(x0 + b + p + dx, y0 + dy, text[dx]);
      } else {
        canvas.SetShade(x0 + b + p + dx, y0 + dy, 0.0);
      }
      dx := dx + 1;
    }
  }
}
