/**
 * ConsoleRayTracer/Drawable/Crosshair.cs: the same five cells as src/Drawable/Crosshair.cs,
 * set in another order: left, top, right, bottom, then the centre.
 */
module CrtCrosshair {
  import opened Surface
  import SrcCrosshair

  /** The calls Draw makes on a width-by-height canvas. */
  function CrosshairWrites(width: int, height: int): seq<Write> {
    if width < 3 || height < 3 then []
    else
      var cx, cy := width / 2, height / 2;
      [ Write(cx - 1, cy, Shade(1.0)), Write(cx, cy - 1, Shade(1.0)), Write(cx + 1, cy, Shade(1.0)),
        Write(cx, cy + 1, Shade(1.0)), Write(cx, cy, Shade(1.0)) ]
  }

  /**
   * Nothing is written on a canvas smaller than 3 by 3. Otherwise every call sets full
   * shade, the cells written are exactly the centre (W / 2, H / 2) and its four
   * neighbours, none twice, and all of them lie on the canvas.
   */
  lemma CrosshairShape(width: int, height: int)
    ensures width < 3 || height < 3 ==> CrosshairWrites(width, height) == []
    ensures width >= 3 && height >= 3 ==>
      var ws, cx, cy := CrosshairWrites(width, height), width / 2, height / 2;
      && |ws| == 5
      && Distinct(Positions(ws))
      && (forall p :: p in Positions(ws) <==> SrcCrosshair.NextTo(p, cx, cy))
      && (forall i :: 0 <= i < |ws| ==> ws[i].cell == Shade(1.0))
      && OnCanvas(ws, width, height)
  {
    if width >= 3 && height >= 3 {
      var ws, cx, cy := CrosshairWrites(width, height), width / 2, height / 2;
      var ps := Positions(ws);
      assert ps == [(cx - 1, cy), (cx, cy - 1), (cx + 1, cy), (cx, cy + 1), (cx, cy)];
      forall p ensures p in ps <==> SrcCrosshair.NextTo(p, cx, cy) {
        if SrcCrosshair.NextTo(p, cx, cy) {
          if p.0 == cx {
            assert p == ps[1] || p == ps[3] || p == ps[4];
          } else {
            assert p == ps[0] || p == ps[2];
          }
        }
      }
    }
  }

  /** The same calls as the newer crosshair, only in another order. */
  lemma SameCallsAsNewer(width: int, height: int)
    ensures multiset(CrosshairWrites(width, height)) == multiset(SrcCrosshair.CrosshairWrites(width, height))
  {
  }

  /** Crosshair.Draw. */
  method Draw(canvas: Canvas)
    modifies canvas
    ensures canvas.writes == old(canvas.writes) + CrosshairWrites(canvas.width, canvas.height)
  {
    if canvas.width < 3 || canvas.height < 3 {
      return;
    }
    var centerX := canvas.width / 2;
    var centerY := canvas.height / 2;
    canvas.SetShade(centerX - 1, centerY, 1.0);
    canvas.SetShade(centerX, centerY - 1, 1.0);
    canvas.SetShade(centerX + 1, centerY, 1.0);
    canvas.SetShade(centerX, centerY + 1, 1.0);
    canvas.SetShade(centerX, centerY, 1.0);
  }
}
