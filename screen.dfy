/** The world-to-screen transform: the data square [0,10] x [0,10] drawn
    inside a canvas with a fixed padding on every side, y pointing down. */
module Screen {
  import opened Domain

  /** Padding, in pixels, between the canvas edge and the plot frame. */
  const Pad: real := 40.0

  /** Canvas size in pixels, as read at drawing time. */
  datatype Canvas = Canvas(width: nat, height: nat)

  /** A position on the canvas; not rounded to whole pixels. */
  datatype Pixel = Pixel(sx: real, sy: real)

  /** Width of the plot frame; negative when the canvas is narrower than both pads. */
  function PlotWidth(c: Canvas): real
  {
    c.width as real - 2.0 * Pad
  }

  function PlotHeight(c: Canvas): real
  {
    c.height as real - 2.0 * Pad
  }

  /** World coordinates to canvas coordinates: x scales linearly into the
      frame from the left pad, y is flipped so YMax is at the top pad. */
  function WorldToScreen(c: Canvas, x: real, y: real): Pixel
  {
    Pixel(Pad + (x - XMin) / (XMax - XMin) * PlotWidth(c),
          Pad + (1.0 - (y - YMin) / (YMax - YMin)) * PlotHeight(c))
  }

  /** Reference inverse of the transform, defined when the frame is not degenerate. */
  function ScreenToWorld(c: Canvas, p: Pixel): (w: Point)
    requires PlotWidth(c) > 0.0 && PlotHeight(c) > 0.0
    ensures WorldToScreen(c, w.x, w.y) == p
  {
    var x := XMin + (p.sx - Pad) / PlotWidth(c) * (XMax - XMin);
    var y := YMin + (1.0 - (p.sy - Pad) / PlotHeight(c)) * (YMax - YMin);
    ScaleBack(p.sx - Pad, PlotWidth(c));
    ScaleBack(p.sy - Pad, PlotHeight(c));
    Point(x, y)
  }

  lemma ScaleBack(d: real, w: real)
    requires w > 0.0
    ensures (d / w * 10.0) / 10.0 * w == d
    ensures (1.0 - (1.0 - d / w) * 10.0 / 10.0) * w == d
  {
  }

  lemma DivCancel(a: real, w: real)
    requires w > 0.0
    ensures (a * w) / w == a
  {
  }

  lemma ProductNonnegative(a: real, b: real)
    requires a >= 0.0 && b >= 0.0
    ensures a * b >= 0.0
  {
    if a > 0.0 && b > 0.0 {
      PositiveProduct(a, b);
    }
  }

  /** Mapping a world point to the screen and back gives the point again. */
  lemma WorldScreenRoundTrip(c: Canvas, x: real, y: real)
    requires PlotWidth(c) > 0.0 && PlotHeight(c) > 0.0
    ensures ScreenToWorld(c, WorldToScreen(c, x, y)) == Point(x, y)
  {
    var p, w, h := WorldToScreen(c, x, y), PlotWidth(c), PlotHeight(c);
    var u, v := x / 10.0, 1.0 - y / 10.0;
    assert p.sx - Pad == u * w && p.sy - Pad == v * h;
    DivCancel(u, w);
    DivCancel(v, h);
  }

  /** The four corners of the world domain land on the four corners of the frame. */
  lemma CornersMapToFrame(c: Canvas)
    ensures WorldToScreen(c, XMin, YMin) == Pixel(Pad, Pad + PlotHeight(c))
    ensures WorldToScreen(c, XMax, YMax) == Pixel(Pad + PlotWidth(c), Pad)
    ensures WorldToScreen(c, XMin, YMax) == Pixel(Pad, Pad)
    ensures WorldToScreen(c, XMax, YMin) == Pixel(Pad + PlotWidth(c), Pad + PlotHeight(c))
  {
  }

  /** The horizontal screen coordinate depends on x alone, so a residual
      drawn from a point to the line at the same x is a vertical segment. */
  lemma ScreenXIgnoresY(c: Canvas, x: real, y1: real, y2: real)
    ensures WorldToScreen(c, x, y1).sx == WorldToScreen(c, x, y2).sx
  {
  }

  /** With a frame of positive width, larger x is further right; with a frame
      of positive height, larger y is higher up (smaller screen y). */
  lemma WorldToScreenMonotone(c: Canvas, x1: real, y1: real, x2: real, y2: real)
    ensures PlotWidth(c) > 0.0 && x1 < x2 ==> WorldToScreen(c, x1, y1).sx < WorldToScreen(c, x2, y2).sx
    ensures PlotHeight(c) > 0.0 && y1 < y2 ==> WorldToScreen(c, x1, y1).sy > WorldToScreen(c, x2, y2).sy
  {
    var w, h := PlotWidth(c), PlotHeight(c);
    var dx, dy := (x2 - x1) / 10.0, (y2 - y1) / 10.0;
    assert WorldToScreen(c, x2, y2).sx - WorldToScreen(c, x1, y1).sx == dx * w;
    assert WorldToScreen(c, x1, y1).sy - WorldToScreen(c, x2, y2).sy == dy * h;
    if w > 0.0 && x1 < x2 {
      PositiveProduct(dx, w);
    }
    if h > 0.0 && y1 < y2 {
      PositiveProduct(dy, h);
    }
  }

  /** Every point of the world domain is drawn inside the plot frame. */
  lemma DomainInsideFrame(c: Canvas, x: real, y: real)
    requires PlotWidth(c) >= 0.0 && PlotHeight(c) >= 0.0
    requires XMin <= x <= XMax && YMin <= y <= YMax
    ensures Pad <= WorldToScreen(c, x, y).sx <= Pad + PlotWidth(c)
    ensures Pad <= WorldToScreen(c, x, y).sy <= Pad + PlotHeight(c)
  {
    var w, h := PlotWidth(c), PlotHeight(c);
    var u, v := x / 10.0, 1.0 - y / 10.0;
    var u', v' := 1.0 - u, 1.0 - v;
    ProductNonnegative(u, w);
    ProductNonnegative(u', w);
    ProductNonnegative(v, h);
    ProductNonnegative(v', h);
    assert WorldToScreen(c, x, y) == Pixel(Pad + u * w, Pad + v * h);
    assert w - u * w == u' * w;
    assert h - v * h == v' * h;
  }
}
