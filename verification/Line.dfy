/**
 * The line walk of src/render.rs: an integer error term steps a pen from one end to the other.
 * Here: where the pen is after k steps, for every pair of end points.
 */
module Line {
  /** Steps taken along each axis so far, and the error term. */
  datatype Pen = Pen(i: int, j: int, err: int)

  function Abs(n: int): (a: int)
    ensures a >= 0
  {
    if n < 0 then -n else n
  }

  function Max(a: int, b: int): int {
    if a < b then b else a
  }

  function Sign(from: int, to: int): int {
    if from < to then 1 else -1
  }

  /** One pass of the loop body after the plot. */
  function Advance(p: Pen, dx: int, dy: int): Pen {
    var e2 := 2 * p.err;
    var stepX, stepY := e2 > -dy, e2 < dx;
    Pen(if stepX then p.i + 1 else p.i,
        if stepY then p.j + 1 else p.j,
        p.err - (if stepX then dy else 0) + (if stepY then dx else 0))
  }

  function After(k: nat, dx: int, dy: int): Pen {
    if k == 0 then Pen(0, 0, dx - dy) else Advance(After(k - 1, dx, dy), dx, dy)
  }

  /** How far the pen is off the ideal line, scaled by the longer side. */
  function Deviation(i: int, j: int, dx: int, dy: int): int {
    j * dx - i * dy
  }

  /**
   * After k steps: k steps along the longer axis, and at most half a pixel off the ideal line
   * along the shorter one, on its near side if it is half a pixel. The error term is the deviation,
   * shifted.
   */
  ghost predicate OnCourse(p: Pen, k: nat, dx: int, dy: int) {
    && p.err == Deviation(p.i, p.j, dx, dy) + dx - dy
    && (dx >= dy ==> p.i == k && -dx <= 2 * Deviation(p.i, p.j, dx, dy) <= dx)
    && (dx >= dy && dx > 0 ==> 2 * Deviation(p.i, p.j, dx, dy) < dx)
    && (dy > dx ==> p.j == k && -dy < 2 * Deviation(p.i, p.j, dx, dy) <= dy)
  }

  lemma AdvanceStaysOnCourse(p: Pen, k: nat, dx: int, dy: int)
    requires OnCourse(p, k, dx, dy) && dx >= 0 && dy >= 0 && k < Max(dx, dy)
    ensures OnCourse(Advance(p, dx, dy), k + 1, dx, dy)
  {
    hide Deviation;
    var d := Deviation(p.i, p.j, dx, dy);
    DeviationStep(p.i, p.j, dx, dy);
    if dx == dy {
      DiagonalDeviation(p, dx);
    }
  }

  lemma DeviationStep(i: int, j: int, dx: int, dy: int)
    ensures Deviation(i + 1, j, dx, dy) == Deviation(i, j, dx, dy) - dy
    ensures Deviation(i, j + 1, dx, dy) == Deviation(i, j, dx, dy) + dx
    ensures Deviation(i + 1, j + 1, dx, dy) == Deviation(i, j, dx, dy) + dx - dy
  {
    assert (j + 1) * dx == j * dx + dx;
    assert (i + 1) * dy == i * dy + dy;
  }

  /** On a diagonal the deviation is a multiple of the side, so within half of it, it is zero. */
  lemma DiagonalDeviation(p: Pen, d: int)
    requires -d <= 2 * Deviation(p.i, p.j, d, d) <= d
    ensures d > 0 ==> Deviation(p.i, p.j, d, d) == 0
  {
    var n := p.j - p.i;
    assert Deviation(p.i, p.j, d, d) == n * d;
    Multiple(n, d);
  }

  lemma Multiple(n: int, d: int)
    requires -d <= 2 * (n * d) <= d
    ensures d > 0 ==> n == 0
  {
    if n > 0 {
      assert n * d >= d;
    } else if n < 0 {
      assert -n * d >= d;
    }
  }

  lemma {:induction false} StaysOnCourse(k: nat, dx: int, dy: int)
    requires dx >= 0 && dy >= 0 && k <= Max(dx, dy)
    ensures OnCourse(After(k, dx, dy), k, dx, dy)
  {
    hide Advance;
    if k > 0 {
      StaysOnCourse(k - 1, dx, dy);
      AdvanceStaysOnCourse(After(k - 1, dx, dy), k - 1, dx, dy);
    } else {
      assert Deviation(0, 0, dx, dy) == 0;
    }
  }

  /** The pen reaches the far corner at step max(dx, dy) and not before. */
  lemma ArrivesExactly(k: nat, dx: int, dy: int)
    requires dx >= 0 && dy >= 0 && k <= Max(dx, dy)
    ensures var p := After(k, dx, dy);
            (p.i == dx && p.j == dy) <==> k == Max(dx, dy)
  {
    hide After;
    StaysOnCourse(k, dx, dy);
    var p := After(k, dx, dy);
    if k == Max(dx, dy) {
      if dx >= dy {
        Factor(p.i, p.j, dx, dy);
        Multiple(p.j - dy, dx);
        ArrivesAtOnce(dx, dy);
      } else {
        Factor(p.i, p.j, dx, dy);
        Multiple(dx - p.i, dy);
      }
    }
  }

  lemma Factor(i: int, j: int, dx: int, dy: int)
    ensures i == dx ==> Deviation(i, j, dx, dy) == (j - dy) * dx
    ensures j == dy ==> Deviation(i, j, dx, dy) == (dx - i) * dy
  {
  }

  lemma ArrivesAtOnce(dx: int, dy: int)
    ensures dx == 0 && dy == 0 ==> After(0, dx, dy) == Pen(0, 0, 0)
  {
  }

  /** The pixel plotted before step k+1. */
  function Point(x0: int, y0: int, x1: int, y1: int, k: nat): (int, int) {
    var p := After(k, Abs(x1 - x0), Abs(y1 - y0));
    (x0 + Sign(x0, x1) * p.i, y0 + Sign(y0, y1) * p.j)
  }

  function Length(x0: int, y0: int, x1: int, y1: int): (n: int)
    ensures n >= 0
  {
    Max(Abs(x1 - x0), Abs(y1 - y0))
  }

  /** The plotted pixels, in order. */
  function Points(x0: int, y0: int, x1: int, y1: int): (ps: seq<(int, int)>) {
    seq(Length(x0, y0, x1, y1) + 1, k requires 0 <= k => Point(x0, y0, x1, y1, k))
  }

  /** A line starts at its first end, ends at its second, and is there at no other step. */
  lemma LineEnds(x0: int, y0: int, x1: int, y1: int, k: nat)
    requires k <= Length(x0, y0, x1, y1)
    ensures Point(x0, y0, x1, y1, 0) == (x0, y0)
    ensures Point(x0, y0, x1, y1, k) == (x1, y1) <==> k == Length(x0, y0, x1, y1)
  {
    ArrivesExactly(k, Abs(x1 - x0), Abs(y1 - y0));
  }

  /**
   * Every plotted point advances one pixel a step along the longer axis, and is within half a
   * pixel of the ideal line along the shorter one: for a line at least as wide as it is high,
   * | (y - y0) - (x - x0) * (y1 - y0) / (x1 - x0) | <= 1/2, multiplied out; else the same with
   * the axes exchanged.
   */
  lemma WithinHalfAPixel(x0: int, y0: int, x1: int, y1: int, k: nat)
    requires k <= Length(x0, y0, x1, y1)
    ensures var (x, y) := Point(x0, y0, x1, y1, k);
            var dx, dy := Abs(x1 - x0), Abs(y1 - y0);
            var off := (y - y0) * (x1 - x0) - (x - x0) * (y1 - y0);
            && (dx >= dy ==> x == x0 + Sign(x0, x1) * k && 2 * Abs(off) <= dx)
            && (dy > dx ==> y == y0 + Sign(y0, y1) * k && 2 * Abs(off) <= dy)
  {
    var dx, dy := Abs(x1 - x0), Abs(y1 - y0);
    StaysOnCourse(k, dx, dy);
    var p := After(k, dx, dy);
    SignedOffset(p.i, p.j, x0, y0, x1, y1);
  }

  /**
   * And which of the two nearest it is: after k steps along the longer side a, it has gone s pixels
   * along the shorter side b, where s is k * b / a rounded to the nearest, halves down.
   */
  lemma RoundsHalvesDown(x0: int, y0: int, x1: int, y1: int, k: nat)
    requires k <= Length(x0, y0, x1, y1) && (x0, y0) != (x1, y1)
    ensures var (x, y) := Point(x0, y0, x1, y1, k);
            var dx, dy := Abs(x1 - x0), Abs(y1 - y0);
            var a, b, s := Max(dx, dy), dx + dy - Max(dx, dy), if dx >= dy then Abs(y - y0) else Abs(x - x0);
            (2 * s - 1) * a < 2 * k * b <= (2 * s + 1) * a
  {
    hide After;
    var dx, dy := Abs(x1 - x0), Abs(y1 - y0);
    StaysOnCourse(k, dx, dy);
    var p := After(k, dx, dy);
    if dx >= dy {
      Rounded(p.j, k, dx, dy);
    } else {
      Rounded(p.i, k, dy, dx);
      assert Deviation(p.i, p.j, dx, dy) == -(p.i * dy - k * dx);
    }
  }

  /** The half-pixel bound as a rounding; the number of steps is then not negative. */
  lemma Rounded(s: int, k: nat, a: int, b: int)
    requires a > 0 && b >= 0
    ensures -a <= 2 * (s * a - k * b) < a ==> s >= 0 && (2 * s - 1) * a < 2 * k * b <= (2 * s + 1) * a
  {
    assert (2 * s - 1) * a == 2 * (s * a) - a && (2 * s + 1) * a == 2 * (s * a) + a && 2 * k * b == 2 * (k * b);
    if s < 0 {
      assert s * a <= -a && k * b >= 0;
    }
  }

  lemma SignedOffset(i: int, j: int, x0: int, y0: int, x1: int, y1: int)
    ensures var sx, sy := Sign(x0, x1), Sign(y0, y1);
            Abs((sy * j) * (x1 - x0) - (sx * i) * (y1 - y0)) == Abs(j * Abs(x1 - x0) - i * Abs(y1 - y0))
  {
    var sx, sy := Sign(x0, x1), Sign(y0, y1);
    var dx, dy := Abs(x1 - x0), Abs(y1 - y0);
    assert x1 - x0 == sx * dx && y1 - y0 == sy * dy;
    Products(sx, sy, i, j, dx, dy);
  }

  lemma Products(sx: int, sy: int, i: int, j: int, dx: int, dy: int)
    requires (sx == 1 || sx == -1) && (sy == 1 || sy == -1)
    ensures (sy * j) * (sx * dx) - (sx * i) * (sy * dy) == j * dx - i * dy
         || (sy * j) * (sx * dx) - (sx * i) * (sy * dy) == -(j * dx - i * dy)
  {
    if sx == sy {
      assert (sy * j) * (sx * dx) == j * dx && (sx * i) * (sy * dy) == i * dy;
    } else {
      assert (sy * j) * (sx * dx) == -(j * dx) && (sx * i) * (sy * dy) == -(i * dy);
    }
  }
}
