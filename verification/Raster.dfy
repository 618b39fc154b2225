/**
 * Drawing into a band of big-endian RGB565 bytes, as src/render.rs does it: loops that write two
 * bytes a pixel, proved against pictures described layer by layer.
 */
module Raster {
  import opened Arithmetic
  import opened Bytes
  import opened Font
  import Wrap
  import Line

  /** RGB565. */
  type Color = u16

  const TEXT_TOP: nat := 2
  const LIMIT: nat := Wrap.SUB_W

  /** What has been drawn, newest layer outermost. Text column = band column - shift. */
  datatype Picture =
    | Fill(color: Color)
    | Ink(base: Picture, text: string, inkColor: Color, shift: int)
    | Rect(base: Picture, x: int, y: int, w: nat, h: nat, rectColor: Color)
    | Stroke(base: Picture, x0: int, y0: int, x1: int, y1: int, strokeColor: Color)

  /** A band pixel the text's ink falls on: inside the text limit, two rows below the text top. */
  predicate Hit(f: Font, text: string, shift: int, x: int, y: int) {
    x - shift < LIMIT && On(f, text, x - shift, y - TEXT_TOP)
  }

  predicate InRect(x: int, y: int, w: nat, h: nat, i: int, j: int) {
    x <= i < x + w && y <= j < y + h
  }

  function Paint(f: Font, p: Picture, x: int, y: int): Color {
    match p
    case Fill(c) => c
    case Ink(b, text, c, shift) => if Hit(f, text, shift, x, y) then c else Paint(f, b, x, y)
    case Rect(b, rx, ry, rw, rh, c) => if InRect(rx, ry, rw, rh, x, y) then c else Paint(f, b, x, y)
    case Stroke(b, x0, y0, x1, y1, c) =>
      if (x, y) in Line.Points(x0, y0, x1, y1) then c else Paint(f, b, x, y)
  }

  /** None of a picture's colours is black. */
  predicate NoBlack(p: Picture) {
    match p
    case Fill(c) => c != 0
    case Ink(b, _, c, _) => c != 0 && NoBlack(b)
    case Rect(b, _, _, _, _, c) => c != 0 && NoBlack(b)
    case Stroke(b, _, _, _, _, c) => c != 0 && NoBlack(b)
  }

  lemma {:induction false} NoBlackPixel(f: Font, p: Picture, x: int, y: int)
    requires NoBlack(p)
    ensures Paint(f, p, x, y) != 0
  {
    hide Hit, InRect, Line.Points;
    if !p.Fill? {
      NoBlackPixel(f, p.base, x, y);
    }
  }

  // ---------- bands ----------

  function Index(w: nat, x: int, y: int): int {
    2 * (y * w + x)
  }

  /** The pixel at column x of row y of a band w pixels wide. */
  function PixelOf(b: seq<byte>, w: nat, x: int, y: int): int {
    var o := Index(w, x, y);
    if 0 <= o && o + 1 < |b| then b[o] as int * 0x100 + b[o + 1] as int else 0
  }

  predicate InBand(w: nat, h: nat, x: int, y: int) {
    0 <= x < w && 0 <= y < h
  }

  ghost predicate Shows(f: Font, b: seq<byte>, w: nat, h: nat, p: Picture) {
    forall x, y :: InBand(w, h, x, y) ==> PixelOf(b, w, x, y) == Paint(f, p, x, y)
  }

  lemma IndexInside(w: nat, h: nat, x: int, y: int)
    requires InBand(w, h, x, y)
    ensures 0 <= Index(w, x, y) && Index(w, x, y) + 1 < 2 * (w * h)
  {
    ProductOrder(y, h, w);
    assert 0 <= y * w;
  }

  lemma IndexApart(w: nat, x: int, y: int, i: int, j: int)
    requires 0 <= x < w && 0 <= i < w && (x, y) != (i, j)
    ensures Index(w, x, y) != Index(w, i, j)
  {
    if y != j {
      Gap(y, j, w);
      Gap(j, y, w);
    }
  }

  lemma Gap(y: int, j: int, w: nat)
    ensures y < j ==> y * w + w <= j * w
  {
    if y < j {
      assert (y + 1) * w <= j * w;
    }
  }

  lemma Rows(w: nat, h: nat)
    requires w > 0
    ensures 2 * (w * h) / (w * 2) == h
  {
    assert 2 * (w * h) == h * (w * 2);
    DivUnique(2 * (w * h), w * 2, h);
  }

  /** Writing a colour's two bytes at a pixel changes that pixel to the colour and no other. */
  lemma PixelWritten(b: seq<byte>, b': seq<byte>, w: nat, h: nat, x: int, y: int, c: Color)
    requires InBand(w, h, x, y) && |b| >= 2 * (w * h)
    requires 0 <= Index(w, x, y) && Index(w, x, y) + 1 < |b|
    requires b' == b[Index(w, x, y) := c / 0x100][Index(w, x, y) + 1 := c % 0x100]
    ensures forall i, j :: InBand(w, h, i, j) ==>
      PixelOf(b', w, i, j) == if i == x && j == y then c else PixelOf(b, w, i, j)
  {
    hide Index;
    forall i, j | InBand(w, h, i, j)
      ensures PixelOf(b', w, i, j) == if i == x && j == y then c else PixelOf(b, w, i, j)
    {
      IndexInside(w, h, i, j);
      if (i, j) != (x, y) {
        IndexApart(w, x, y, i, j);
        EvenIndex(w, x, y);
        EvenIndex(w, i, j);
      }
    }
  }

  lemma EvenIndex(w: nat, x: int, y: int)
    ensures Index(w, x, y) % 2 == 0
  {
  }

  method FillColor(f: Font, band: array<byte>, w: nat, h: nat, color: Color)
    requires 2 * (w * h) <= band.Length
    modifies band
    ensures Shows(f, band[..], w, h, Fill(color))
  {
    var n := 2 * (w * h);
    var i := 0;
    while i < n / 2
      invariant 0 <= i <= n / 2
      invariant forall k :: 0 <= k < i ==> band[2 * k] == color / 0x100 && band[2 * k + 1] == color % 0x100
    {
      band[2 * i] := color / 0x100;
      band[2 * i + 1] := color % 0x100;
      i := i + 1;
    }
    forall x, y | InBand(w, h, x, y)
      ensures PixelOf(band[..], w, x, y) == color
    {
      IndexInside(w, h, x, y);
      assert Index(w, x, y) == 2 * (y * w + x);
    }
  }

  method Put(band: array<byte>, w: nat, h: nat, x: int, y: int, c: Color)
    requires w > 0 && 2 * (w * h) <= band.Length
    modifies band
    ensures forall i, j :: InBand(w, h, i, j) ==>
      PixelOf(band[..], w, i, j) == if i == x && j == y then c else PixelOf(old(band[..]), w, i, j)
  {
    hide PixelOf;
    if x < 0 || y < 0 {
      return;
    }
    Rows(w, h);
    var rows := 2 * (w * h) / (w * 2);
    if y >= rows || x >= w {
      return;
    }
    IndexInside(w, h, x, y);
    ghost var b := band[..];
    var o := (y * w + x) * 2;
    band[o] := c / 0x100;
    band[o + 1] := c % 0x100;
    PixelWritten(b, band[..], w, h, x, y, c);
  }

  /** Whether text pixel (i, j) comes before (x, y) in row order. */
  predicate Before(i: int, j: int, x: int, y: int) {
    j < y || (j == y && i < x)
  }

  /** The band partway through a text: layers below, and the ink of the pixels visited so far. */
  ghost predicate Inked(f: Font, b: seq<byte>, w: nat, h: nat, p: Picture, text: string, c: Color, shift: int,
                        x: int, y: int)
  {
    forall i, j :: InBand(w, h, i, j) ==>
      PixelOf(b, w, i, j) ==
        if Hit(f, text, shift, i, j) && Before(i - shift, j - TEXT_TOP, x, y) then c else Paint(f, p, i, j)
  }

  /**
   * `raster`. The font hands out the ink pixels of the text below the limit; here row by row,
   * any order giving the same band. Pixels outside the band are dropped.
   */
  method DrawText(f: Font, band: array<byte>, w: nat, h: nat, text: string, c: Color, shift: int, ghost p: Picture)
    requires w > 0 && 2 * (w * h) <= band.Length && Shows(f, band[..], w, h, p)
    modifies band
    ensures Shows(f, band[..], w, h, Ink(p, text, c, shift))
  {
    hide PixelOf, On, Paint;
    if text == "" {
      EmptyTextHitsNothing(f, p, c, shift);
      return;
    }
    var limit := if Width(f, text) < LIMIT then Width(f, text) else LIMIT;
    var y := 0;
    NothingInkedYet(f, band[..], w, h, p, text, c, shift);
    while y < f.height
      invariant 0 <= y <= f.height
      invariant Inked(f, band[..], w, h, p, text, c, shift, 0, y)
    {
      DrawTextRow(f, band, w, h, text, c, shift, y, limit, p);
      RowFinished(f, band[..], w, h, p, text, c, shift, y, limit);
      y := y + 1;
    }
    AllInked(f, band[..], w, h, p, text, c, shift);
  }

  lemma NothingInkedYet(f: Font, b: seq<byte>, w: nat, h: nat, p: Picture, text: string, c: Color, shift: int)
    requires Shows(f, b, w, h, p)
    ensures Inked(f, b, w, h, p, text, c, shift, 0, 0)
  {
    hide PixelOf, On, Paint;
    forall i, j | InBand(w, h, i, j) && Hit(f, text, shift, i, j)
      ensures !Before(i - shift, j - TEXT_TOP, 0, 0)
    {
      OnInsideWidth(f, text, i - shift, j - TEXT_TOP);
    }
  }

  lemma RowFinished(f: Font, b: seq<byte>, w: nat, h: nat, p: Picture, text: string, c: Color, shift: int,
                    y: int, limit: int)
    requires limit == (if Width(f, text) < LIMIT then Width(f, text) else LIMIT)
    requires Inked(f, b, w, h, p, text, c, shift, limit, y)
    ensures Inked(f, b, w, h, p, text, c, shift, 0, y + 1)
  {
    hide PixelOf, On, Paint;
    forall i, j | InBand(w, h, i, j) && Hit(f, text, shift, i, j)
      ensures Before(i - shift, j - TEXT_TOP, limit, y) <==> Before(i - shift, j - TEXT_TOP, 0, y + 1)
    {
      OnInsideWidth(f, text, i - shift, j - TEXT_TOP);
    }
  }

  lemma AllInked(f: Font, b: seq<byte>, w: nat, h: nat, p: Picture, text: string, c: Color, shift: int)
    requires Inked(f, b, w, h, p, text, c, shift, 0, f.height)
    ensures Shows(f, b, w, h, Ink(p, text, c, shift))
  {
    hide PixelOf, On;
    forall i, j | InBand(w, h, i, j) && Hit(f, text, shift, i, j)
      ensures Before(i - shift, j - TEXT_TOP, 0, f.height)
    {
      OnInsideWidth(f, text, i - shift, j - TEXT_TOP);
    }
  }

  lemma EmptyTextHitsNothing(f: Font, p: Picture, c: Color, shift: int)
    ensures forall x, y :: Paint(f, Ink(p, "", c, shift), x, y) == Paint(f, p, x, y)
  {
  }

  method DrawTextRow(f: Font, band: array<byte>, w: nat, h: nat, text: string, c: Color, shift: int,
                     y: nat, limit: nat, ghost p: Picture)
    requires w > 0 && 2 * (w * h) <= band.Length && limit <= LIMIT
    requires Inked(f, band[..], w, h, p, text, c, shift, 0, y)
    modifies band
    ensures Inked(f, band[..], w, h, p, text, c, shift, limit, y)
  {
    hide PixelOf, On, Paint;
    var x := 0;
    while x < limit
      invariant 0 <= x <= limit
      invariant Inked(f, band[..], w, h, p, text, c, shift, x, y)
    {
      if On(f, text, x, y) {
        var bx := x + shift;
        if 0 <= bx < w {
          Put(band, w, h, bx, y + TEXT_TOP, c);
        }
      }
      x := x + 1;
    }
  }

  method FillRect(f: Font, band: array<byte>, w: nat, h: nat, x: int, y: int, rw: nat, rh: nat, c: Color,
                  ghost p: Picture)
    requires w > 0 && 2 * (w * h) <= band.Length && Shows(f, band[..], w, h, p)
    modifies band
    ensures Shows(f, band[..], w, h, Rect(p, x, y, rw, rh, c))
  {
    hide PixelOf;
    var yy := y;
    while yy < y + rh
      invariant y <= yy <= y + rh
      invariant Shows(f, band[..], w, h, Rect(p, x, y, rw, yy - y, c))
    {
      var xx := x;
      while xx < x + rw
        invariant x <= xx <= x + rw
        invariant forall i, j :: InBand(w, h, i, j) ==> (PixelOf(band[..], w, i, j) ==
          if InRect(x, y, rw, yy - y, i, j) || (j == yy && x <= i < xx) then c else Paint(f, p, i, j))
      {
        Put(band, w, h, xx, yy, c);
        xx := xx + 1;
      }
      yy := yy + 1;
    }
  }

  /** The band partway along a line: the first k points are drawn. */
  ghost predicate Stroked(f: Font, b: seq<byte>, w: nat, h: nat, p: Picture, points: seq<(int, int)>, c: Color) {
    forall i, j :: InBand(w, h, i, j) ==>
      PixelOf(b, w, i, j) == if (i, j) in points then c else Paint(f, p, i, j)
  }

  method Plot(f: Font, band: array<byte>, w: nat, h: nat, x: int, y: int, c: Color,
              ghost p: Picture, ghost points: seq<(int, int)>)
    requires w > 0 && 2 * (w * h) <= band.Length && Stroked(f, band[..], w, h, p, points, c)
    modifies band
    ensures Stroked(f, band[..], w, h, p, points + [(x, y)], c)
  {
    hide PixelOf, Paint;
    Put(band, w, h, x, y, c);
  }

  lemma StrokeEnds(f: Font, b: seq<byte>, w: nat, h: nat, p: Picture, x0: int, y0: int, x1: int, y1: int, c: Color)
    requires w > 0 && 2 * (w * h) <= |b|
    ensures Shows(f, b, w, h, p) ==> Stroked(f, b, w, h, p, [], c)
    ensures Stroked(f, b, w, h, p, Line.Points(x0, y0, x1, y1), c) ==> Shows(f, b, w, h, Stroke(p, x0, y0, x1, y1, c))
  {
    hide PixelOf, Line.Points;
  }

  /** `draw_line`: plots exactly the points of Line.Points, one per pass. */
  method DrawLine(f: Font, band: array<byte>, w: nat, h: nat, x0: int, y0: int, x1: int, y1: int, c: Color,
                  ghost p: Picture) returns (steps: nat)
    requires w > 0 && 2 * (w * h) <= band.Length && Shows(f, band[..], w, h, p)
    modifies band
    ensures Shows(f, band[..], w, h, Stroke(p, x0, y0, x1, y1, c))
    ensures steps == Line.Length(x0, y0, x1, y1)
  {
    hide PixelOf, Line.After, Line.Advance, Stroked, Shows, Paint;
    var dx, dy := Line.Abs(x1 - x0), Line.Abs(y1 - y0);
    var sx, sy := Line.Sign(x0, x1), Line.Sign(y0, y1);
    var x, y := x0, y0;
    var err := dx - dy;
    ghost var all := Line.Points(x0, y0, x1, y1);
    steps := 0;
    FirstPen(dx, dy);
    StrokeEnds(f, band[..], w, h, p, x0, y0, x1, y1, c);
    assert all[..0] == [];
    Line.LineEnds(x0, y0, x1, y1, 0);
    while true
      invariant steps <= Line.Length(x0, y0, x1, y1)
      invariant (x, y) == Line.Point(x0, y0, x1, y1, steps)
      invariant err == Line.After(steps, dx, dy).err
      invariant Stroked(f, band[..], w, h, p, all[..steps], c)
      decreases Line.Length(x0, y0, x1, y1) - steps
    {
      Plot(f, band, w, h, x, y, c, p, all[..steps]);
      assert all[..steps + 1] == all[..steps] + [(x, y)];
      Line.LineEnds(x0, y0, x1, y1, steps);
      if x == x1 && y == y1 {
        assert all[..steps + 1] == all;
        StrokeEnds(f, band[..], w, h, p, x0, y0, x1, y1, c);
        return;
      }
      NextPen(steps, dx, dy);
      MovePoint(x0, y0, x1, y1, steps);
      var e2 := 2 * err;
      if e2 > -dy {
        err := err - dy;
        x := x + sx;
      }
      if e2 < dx {
        err := err + dx;
        y := y + sy;
      }
      steps := steps + 1;
    }
  }

  lemma FirstPen(dx: int, dy: int)
    ensures Line.After(0, dx, dy) == Line.Pen(0, 0, dx - dy)
  {
  }

  lemma NextPen(k: nat, dx: int, dy: int)
    ensures var p, q := Line.After(k, dx, dy), Line.After(k + 1, dx, dy);
            && q.i == p.i + (if 2 * p.err > -dy then 1 else 0)
            && q.j == p.j + (if 2 * p.err < dx then 1 else 0)
            && q.err == p.err - (if 2 * p.err > -dy then dy else 0) + (if 2 * p.err < dx then dx else 0)
  {
  }

  lemma MovePoint(x0: int, y0: int, x1: int, y1: int, k: nat)
    ensures var dx, dy := Line.Abs(x1 - x0), Line.Abs(y1 - y0);
            var p, q := Line.After(k, dx, dy), Line.After(k + 1, dx, dy);
            var a, b := Line.Point(x0, y0, x1, y1, k), Line.Point(x0, y0, x1, y1, k + 1);
            && b.0 == a.0 + Line.Sign(x0, x1) * (q.i - p.i)
            && b.1 == a.1 + Line.Sign(y0, y1) * (q.j - p.j)
  {
    hide Line.After;
  }
}
