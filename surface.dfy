/**
 * The drawing surface behind the ICanvas interfaces. A canvas knows its width and height
 * and records every `Set` call it receives, in order: `Set(x, y, float)` as a shade and
 * `Set(x, y, char)` as a glyph. What a terminal then does with the calls (its character
 * buffer) is not part of this model; recording the calls lets the drawables' contracts
 * say which cells they touch, how often and with what.
 *
 * The sequence builders below mirror the loops that produce the calls: `Run` is one loop
 * with one call per step, `Pairs` one loop with two calls per step, and `Rows` an outer
 * loop whose body appends a block of calls.
 */
module Surface {

  datatype Cell = Shade(color: real) | Glyph(ch: char)

  datatype Write = Write(x: int, y: int, cell: Cell)

  class Canvas {
    const width: nat
    const height: nat
    /** The Set calls received so far, oldest first. */
    var writes: seq<Write>

    constructor (width: nat, height: nat)
      ensures this.width == width && this.height == height && writes == []
    {
      this.width := width;
      this.height := height;
      writes := [];
    }

    /** `Set(x, y, float color)`. */
    method SetShade(x: int, y: int, color: real)
      modifies this
      ensures writes == old(writes) + [Write(x, y, Shade(color))]
    {
      writes := writes + [Write(x, y, Shade(color))];
    }

    /** `Set(x, y, char ch)`. */
    method SetGlyph(x: int, y: int, ch: char)
      modifies this
      ensures writes == old(writes) + [Write(x, y, Glyph(ch))]
    {
      writes := writes + [Write(x, y, Glyph(ch))];
    }
  }

  // ---------------------------------------------------------------- loop shapes

  /** The calls f(0), ..., f(n - 1). */
  function Run(n: int, f: int -> Write): (ws: seq<Write>)
    ensures |ws| == if n < 0 then 0 else n
    decreases n
  {
    if n <= 0 then [] else Run(n - 1, f) + [f(n - 1)]
  }

  /** The calls f(0), g(0), ..., f(n - 1), g(n - 1). */
  function Pairs(n: int, f: int -> Write, g: int -> Write): (ws: seq<Write>)
    ensures |ws| == if n < 0 then 0 else 2 * n
    decreases n
  {
    if n <= 0 then [] else Pairs(n - 1, f, g) + [f(n - 1), g(n - 1)]
  }

  /** The blocks row(lo), ..., row(hi - 1), one after the other. */
  function Rows(lo: int, hi: int, row: int -> seq<Write>): seq<Write>
    decreases hi - lo
  {
    if hi <= lo then [] else Rows(lo, hi - 1, row) + row(hi - 1)
  }

  /** Appending two runs of calls one after the other appends their concatenation. */
  lemma AppendAssoc(a: seq<Write>, b: seq<Write>, c: seq<Write>)
    ensures (a + b) + c == a + (b + c)
  {
  }

  /** One more block at the end of Rows. */
  lemma RowsSnoc(lo: int, hi: int, row: int -> seq<Write>)
    requires lo <= hi
    ensures Rows(lo, hi + 1, row) == Rows(lo, hi, row) + row(hi)
  {
  }

  lemma {:induction false} RunContains(n: int, f: int -> Write, w: Write)
    ensures w in Run(n, f) <==> exists i :: 0 <= i < n && w == f(i)
    decreases n
  {
    if n > 0 {
      RunContains(n - 1, f, w);
    }
  }

  lemma {:induction false} PairsContains(n: int, f: int -> Write, g: int -> Write, w: Write)
    ensures w in Pairs(n, f, g) <==> exists i :: 0 <= i < n && (w == f(i) || w == g(i))
    decreases n
  {
    if n > 0 {
      PairsContains(n - 1, f, g, w);
    }
  }

  lemma {:induction false} RowsContains(lo: int, hi: int, row: int -> seq<Write>, w: Write)
    ensures w in Rows(lo, hi, row) <==> exists r :: lo <= r < hi && w in row(r)
    decreases hi - lo
  {
    if lo < hi {
      RowsContains(lo, hi - 1, row, w);
    }
  }

  lemma {:induction false} RowsLength(lo: int, hi: int, row: int -> seq<Write>, m: nat)
    requires lo <= hi
    requires forall r :: lo <= r < hi ==> |row(r)| == m
    ensures |Rows(lo, hi, row)| == (hi - lo) * m
    decreases hi - lo
  {
    if lo < hi {
      RowsLength(lo, hi - 1, row, m);
      assert (hi - lo) * m == (hi - 1 - lo) * m + m;
    }
  }

  // ---------------------------------------------------------------- cells and counting

  /** The cells a list of calls touches, in call order. */
  function Positions(ws: seq<Write>): (ps: seq<(int, int)>)
    ensures |ps| == |ws|
    ensures forall i :: 0 <= i < |ws| ==> ps[i] == (ws[i].x, ws[i].y)
  {
    seq(|ws|, i requires 0 <= i < |ws| => (ws[i].x, ws[i].y))
  }

  ghost predicate Distinct<P>(ps: seq<P>) {
    forall i, j :: 0 <= i < j < |ps| ==> ps[i] != ps[j]
  }

  /**
   * The calls write each cell of the box exactly once and nothing outside it: their cells
   * are pairwise distinct and are exactly the box.
   */
  ghost predicate CoversOnce(ws: seq<Write>, x0: int, y0: int, w: int, h: int) {
    && Distinct(Positions(ws))
    && (forall p :: p in Positions(ws) <==> p in Box(x0, y0, w, h))
  }

  /** Every call lands on the W-by-H canvas. */
  ghost predicate OnCanvas(ws: seq<Write>, cw: int, ch: int) {
    forall i :: 0 <= i < |ws| ==> 0 <= ws[i].x < cw && 0 <= ws[i].y < ch
  }

  /** The cells x0 <= x < x0 + w of row y. */
  ghost function Row(x0: int, y: int, w: int): set<(int, int)> {
    set x: int | x0 <= x < x0 + w :: (x, y)
  }

  /** The cells x0 <= x < x0 + w, y0 <= y < y0 + h, built row by row. */
  ghost function Box(x0: int, y0: int, w: int, h: int): set<(int, int)>
    decreases h
  {
    if h <= 0 then {} else Box(x0, y0, w, h - 1) + Row(x0, y0 + h - 1, w)
  }

  lemma {:induction false} BoxContains(x0: int, y0: int, w: int, h: int, p: (int, int))
    ensures p in Box(x0, y0, w, h) <==> x0 <= p.0 < x0 + w && y0 <= p.1 < y0 + h
    decreases h
  {
    if h > 0 {
      BoxContains(x0, y0, w, h - 1, p);
    }
  }

  lemma {:induction false} RowSize(x0: int, y: int, w: nat)
    ensures |Row(x0, y, w)| == w
    decreases w
  {
    if w > 0 {
      RowSize(x0, y, w - 1);
      assert Row(x0, y, w) == Row(x0, y, w - 1) + {(x0 + w - 1, y)};
    }
  }

  lemma {:induction false} BoxSize(x0: int, y0: int, w: nat, h: nat)
    ensures |Box(x0, y0, w, h)| == w * h
    decreases h
  {
    if h > 0 {
      var lower, row := Box(x0, y0, w, h - 1), Row(x0, y0 + h - 1, w);
      BoxSize(x0, y0, w, h - 1);
      RowSize(x0, y0 + h - 1, w);
      LastRowIsNew(x0, y0, w, h);
      assert |lower + row| == |lower| + |row|;
      GrowByRow(w, h);
    }
  }

  /** The last row of a box shares no cell with the rows below it. */
  lemma LastRowIsNew(x0: int, y0: int, w: int, h: int)
    requires h > 0
    ensures Box(x0, y0, w, h - 1) * Row(x0, y0 + h - 1, w) == {}
  {
    var lower, row := Box(x0, y0, w, h - 1), Row(x0, y0 + h - 1, w);
    forall p | p in lower ensures p !in row {
      BoxContains(x0, y0, w, h - 1, p);
    }
  }

  lemma GrowByRow(w: int, h: int)
    ensures w * h == w * (h - 1) + w
  {
  }

  /** A sequence with as many distinct elements as entries has no repeated entry. */
  lemma {:induction false} ElementsBound<P>(ps: seq<P>)
    ensures |set p | p in ps| <= |ps|
    ensures |set p | p in ps| == |ps| ==> Distinct(ps)
    decreases |ps|
  {
    if |ps| > 0 {
      var pre := ps[..|ps| - 1];
      var last := ps[|ps| - 1];
      ElementsBound(pre);
      assert ps == pre + [last];
      assert (set p | p in ps) == (set p | p in pre) + {last};
      if last !in pre && |set p | p in ps| == |ps| {
        forall i, j | 0 <= i < j < |ps| ensures ps[i] != ps[j] {
          if j == |ps| - 1 {
            assert ps[i] in pre;
          } else {
            assert pre[i] != pre[j];
          }
        }
      }
    }
  }

  /** Writing w * h calls whose cells are exactly the w-by-h box touches each cell once. */
  lemma CountedCover(ws: seq<Write>, x0: int, y0: int, w: nat, h: nat)
    requires |ws| == w * h
    requires forall p :: p in Positions(ws) <==> p in Box(x0, y0, w, h)
    ensures CoversOnce(ws, x0, y0, w, h)
  {
    var ps := Positions(ws);
    assert (set p | p in ps) == Box(x0, y0, w, h);
    BoxSize(x0, y0, w, h);
    ElementsBound(ps);
  }
}
