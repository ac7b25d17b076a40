/**
 * RayTracer/Window/IWindow.cs, the default Draw(string? label): the label in a box with a
 * one-cell border and two cells of padding, centred on the window by C#'s truncating
 * division. A missing or empty label draws nothing, and there is no size guard: on a window
 * too small for the box the calls run off its edges. The loops are those of the middle
 * generation's Label.Draw (CrtLabel), which this Draw calls.
 */
module RtWindow {
  import opened Wrappers
  import opened Numerics
  import opened Surface
  import opened BoxLayout
  import SrcLabel
  import CrtLabel

  const BorderWidth: int := 1
  const Padding: int := 2

  /** The corner of a w-by-h box centred on a cw-by-ch window. */
  function Corner(cw: int, ch: int, w: int, h: int): (int, int) {
    (IntDiv(cw - w, 2), IntDiv(ch - h, 2))
  }

  /** The calls Draw(label) makes. */
  function LabelWrites(caption: Option<string>, cw: int, ch: int): seq<Write> {
    if caption.None? || |caption.value| == 0 then []
    else
      var text := caption.value;
      var (x0, y0) := Corner(cw, ch, BoxWidth(|text|, BorderWidth, Padding), BoxHeight(BorderWidth, Padding));
      BoxWrites(text, BorderWidth, Padding, x0, y0, true)
  }

  /**
   * A missing or empty caption draws nothing. Otherwise the box is |text| + 6 by 7, every
   * cell of it is written exactly once, the outer ring with 1, the text on row 3 from
   * column 3, every other cell with 0.
   */
  lemma LabelLayout(caption: Option<string>, cw: int, ch: int)
    ensures caption.None? || caption == Some("") ==> LabelWrites(caption, cw, ch) == []
    ensures caption.Some? && caption.value != "" ==>
      var text := caption.value;
      var (x0, y0) := Corner(cw, ch, |text| + 6, 7);
      var ws := LabelWrites(caption, cw, ch);
      && CoversOnce(ws, x0, y0, |text| + 6, 7)
      && SrcLabel.ShowsLabel(ws, text, x0, y0)
  {
    if caption.Some? && caption.value != "" {
      var text := caption.value;
      var (x0, y0) := Corner(cw, ch, |text| + 6, 7);
      LabelBox(text, x0, y0);
    }
  }

  /** Wherever it sits, the box covers its |text| + 6 by 7 cells once each with the label's cells. */
  lemma LabelBox(text: string, x0: int, y0: int)
    ensures var ws := BoxWrites(text, BorderWidth, Padding, x0, y0, true);
      && CoversOnce(ws, x0, y0, |text| + 6, 7)
      && SrcLabel.ShowsLabel(ws, text, x0, y0)
  {
    var ws := BoxWrites(text, BorderWidth, Padding, x0, y0, true);
    BoxCoversOnce(text, BorderWidth, Padding, x0, y0, true);
    SrcLabel.LabelContents(ws, text, x0, y0);
  }

  /**
   * With no size guard, the calls of a non-empty label stay on the window exactly when
   * the window is at least |text| + 6 wide and 7 tall.
   */
  lemma OnWindowExactlyWhenLargeEnough(text: string, cw: int, ch: int)
    requires |text| > 0
    ensures OnCanvas(LabelWrites(Some(text), cw, ch), cw, ch) <==> cw >= |text| + 6 && ch >= 7
  {
    var w, h := |text| + 6, 7;
    var (x0, y0) := Corner(cw, ch, w, h);
    var ws := LabelWrites(Some(text), cw, ch);
    BoxCoversOnce(text, BorderWidth, Padding, x0, y0, true);
    if cw >= w && ch >= h {
      CentredBoxInside(cw, ch, w, h);
      InsideCanvas(ws, x0, y0, w, h, cw, ch);
    } else {
      var p := if cw < w then (if x0 < 0 then (x0, y0) else (x0 + w - 1, y0))
               else (if y0 < 0 then (x0, y0) else (x0, y0 + h - 1));
      BoxContains(x0, y0, w, h, p);
      var i := IndexOf(ws, p);
      assert !(0 <= ws[i].x < cw && 0 <= ws[i].y < ch);
    }
  }

  /** The index of a call that writes cell p. */
  lemma IndexOf(ws: seq<Write>, p: (int, int)) returns (i: int)
    requires p in Positions(ws)
    ensures 0 <= i < |ws| && (ws[i].x, ws[i].y) == p
  {
    i :| 0 <= i < |ws| && Positions(ws)[i] == p;
  }

  /** On a window large enough, Draw(label) makes the calls the middle generation's Label makes. */
  lemma SameAsLabel(text: string, cw: int, ch: int)
    requires |text| > 0 && cw >= |text| + 6 && ch >= 7
    ensures LabelWrites(Some(text), cw, ch) == CrtLabel.LabelWrites(CrtLabel.Label(text, BorderWidth, Padding), cw, ch)
  {
  }

  lemma LabelAt(text: string, cw: int, ch: int)
    requires |text| > 0
    ensures var (x0, y0) := Corner(cw, ch, |text| + (BorderWidth + Padding) * 2, 1 + (BorderWidth + Padding) * 2);
      LabelWrites(Some(text), cw, ch) == BoxWrites(text, BorderWidth, Padding, x0, y0, true)
  {
  }

  /** Draw(label) on the window. */
  method Draw(caption: Option<string>, window: Canvas)
    modifies window
    ensures window.writes == old(window.writes) + LabelWrites(caption, window.width, window.height)
  {
    if caption.None? || |caption.value| == 0 {
      return;
    }
    DrawText(caption.value, window);
  }

  /** The part of Draw after the guard: the size, the centring, then the two loops. */
  method DrawText(text: string, window: Canvas)
    requires |text| > 0
    modifies window
    ensures window.writes == old(window.writes) + LabelWrites(Some(text), window.width, window.height)
  {
    var width := |text| + (BorderWidth + Padding) * 2;
    var height := 1 + (BorderWidth + Padding) * 2;
    var (topLeftX, topLeftY) := Corner(window.width, window.height, width, height);
    LabelAt(text, window.width, window.height);
    CrtLabel.DrawBox(window, text, BorderWidth, Padding, topLeftX, topLeftY);
  }
}
