/**
 Bresenham's line (captcha.go, `drawLine`): the loop with its error term against the ideal line rounded
 to the nearest pixel.
 */
module DrawLine {
  import opened Arithmetic

  datatype Point = Point(x: int, y: int)

  function Abs(n: int): nat { if n < 0 then -n else n }

  function Max(a: int, b: int): int { if a < b then b else a }

  /** Left to right unless the start is at or past the end. */
  function Direction(from: int, to: int): int { if from >= to then -1 else 1 }

  /** `k * minor / major` rounded to the nearest integer, halves towards zero. */
  function Rounded(k: nat, minor: nat, major: nat): int
    requires minor <= major
  {
    if major == 0 then 0 else (2 * (k * minor) + major - 1) / (2 * major)
  }

  /** `m` is within half a pixel of `k * minor / major`. */
  predicate Near(k: nat, m: int, minor: nat, major: nat) {
    0 <= 2 * (m * major - k * minor) + major < 2 * major
  }

  lemma NearIsRounded(k: nat, m: int, minor: nat, major: nat)
    requires minor <= major && major > 0
    ensures Near(k, m, minor, major) <==> m == Rounded(k, minor, major)
  {
    var x := 2 * (k * minor) + major - 1;
    assert (2 * major) * m == 2 * (m * major);
    if Near(k, m, minor, major) {
      QuotientIs(x, 2 * major, m);
    }
  }

  /** The pixel `k` steps along the major axis. */
  function PixelAt(start: Point, end: Point, k: nat): Point {
    var (dx, dy) := (Abs(end.x - start.x), Abs(end.y - start.y));
    var (sx, sy) := (Direction(start.x, end.x), Direction(start.y, end.y));
    if dx >= dy then Point(start.x + sx * k, start.y + sy * Rounded(k, dy, dx))
    else Point(start.x + sx * Rounded(k, dx, dy), start.y + sy * k)
  }

  function Steps(start: Point, end: Point): nat {
    Max(Abs(end.x - start.x), Abs(end.y - start.y))
  }

  /** The ideal line on the pixel grid. */
  function Line(start: Point, end: Point): seq<Point> {
    seq(Steps(start, end) + 1, k requires 0 <= k => PixelAt(start, end, k))
  }

  // ---- what the ideal line is ------------------------------------------------------------------

  lemma RoundedEnds(minor: nat, major: nat)
    requires minor <= major
    ensures Rounded(0, minor, major) == 0 && Rounded(major, minor, major) == minor
  {
    if major > 0 {
      assert minor * major == major * minor;
      NearIsRounded(0, 0, minor, major);
      NearIsRounded(major, minor, minor, major);
    }
  }

  lemma RoundedIsMonotone(k: nat, l: nat, minor: nat, major: nat)
    requires minor <= major && k <= l
    ensures Rounded(k, minor, major) <= Rounded(l, minor, major)
  {
    if major > 0 {
      MulMono(minor, k, l);
      DivMono(2 * (k * minor) + major - 1, 2 * (l * minor) + major - 1, 2 * major);
    }
  }

  lemma RoundedStaysInside(k: nat, minor: nat, major: nat)
    requires minor <= major && k <= major
    ensures 0 <= Rounded(k, minor, major) <= minor
  {
    RoundedEnds(minor, major);
    RoundedIsMonotone(0, k, minor, major);
    RoundedIsMonotone(k, major, minor, major);
  }

  lemma RoundedStepsByOne(k: nat, minor: nat, major: nat)
    requires minor <= major
    ensures Rounded(k, minor, major) <= Rounded(k + 1, minor, major) <= Rounded(k, minor, major) + 1
  {
    RoundedIsMonotone(k, k + 1, minor, major);
    if major > 0 {
      var x := 2 * (k * minor) + major - 1;
      assert 2 * ((k + 1) * minor) + major - 1 == x + 2 * minor;
      DivMono(x + 2 * minor, x + 2 * major, 2 * major);
      DivShift(x, 2 * major);
    }
  }

  /** A pixel lies in the box spanned by the two ends. */
  predicate InBox(p: Point, a: Point, b: Point) {
    && (a.x <= p.x <= b.x || b.x <= p.x <= a.x)
    && (a.y <= p.y <= b.y || b.y <= p.y <= a.y)
  }

  /** Twice the distance from the ideal line along the minor axis, times the major extent. */
  function Deviation(p: Point, a: Point, b: Point): int {
    2 * ((p.y - a.y) * (b.x - a.x) - (p.x - a.x) * (b.y - a.y))
  }

  /**
   The ideal line has one pixel for each step along the major axis, starts and ends where asked, never
   leaves the box, moves to a neighbouring pixel at each step and stays within half a pixel.
   */
  lemma LineIsIdeal(start: Point, end: Point)
    ensures var (line, n) := (Line(start, end), Steps(start, end));
      && |line| == n + 1 && line[0] == start && line[n] == end
      && (forall k | 0 <= k <= n :: InBox(line[k], start, end) && Abs(Deviation(line[k], start, end)) <= n)
      && (forall k | 0 <= k < n :: Adjacent(line[k], line[k + 1]))
  {
    var (line, n) := (Line(start, end), Steps(start, end));
    PixelsAtTheEnds(start, end);
    assert line[0] == PixelAt(start, end, 0) && line[n] == PixelAt(start, end, n);
    forall k | 0 <= k <= n ensures InBox(line[k], start, end) && Abs(Deviation(line[k], start, end)) <= n {
      PixelIsInside(start, end, k);
      PixelIsClose(start, end, k);
      assert line[k] == PixelAt(start, end, k);
    }
    forall k | 0 <= k < n ensures Adjacent(line[k], line[k + 1]) {
      PixelsAreNeighbours(start, end, k);
      assert line[k] == PixelAt(start, end, k) && line[k + 1] == PixelAt(start, end, k + 1);
    }
  }

  /** Different pixels that touch, at a side or a corner. */
  predicate Adjacent(p: Point, q: Point) {
    Max(Abs(q.x - p.x), Abs(q.y - p.y)) == 1
  }

  lemma PixelsAtTheEnds(start: Point, end: Point)
    ensures PixelAt(start, end, 0) == start && PixelAt(start, end, Steps(start, end)) == end
  {
    var (dx, dy) := (Abs(end.x - start.x), Abs(end.y - start.y));
    if dx >= dy { RoundedEnds(dy, dx); } else { RoundedEnds(dx, dy); }
  }

  lemma PixelIsInside(start: Point, end: Point, k: nat)
    requires k <= Steps(start, end)
    ensures InBox(PixelAt(start, end, k), start, end)
  {
    var (dx, dy) := (Abs(end.x - start.x), Abs(end.y - start.y));
    if dx >= dy { RoundedStaysInside(k, dy, dx); } else { RoundedStaysInside(k, dx, dy); }
  }

  lemma PixelIsClose(start: Point, end: Point, k: nat)
    requires k <= Steps(start, end)
    ensures Abs(Deviation(PixelAt(start, end, k), start, end)) <= Steps(start, end)
  {
    var (dx, dy) := (Abs(end.x - start.x), Abs(end.y - start.y));
    var (sx, sy) := (Direction(start.x, end.x), Direction(start.y, end.y));
    if dx >= dy {
      var m := Rounded(k, dy, dx);
      if dx > 0 { NearIsRounded(k, m, dy, dx); }
      CrossProduct(sx, sy, k, m, dx, dy);
    } else {
      var m := Rounded(k, dx, dy);
      NearIsRounded(k, m, dx, dy);
      CrossProduct(sx, sy, m, k, dx, dy);
    }
  }

  /** Mirroring the line does not change how far a pixel is from it. */
  lemma CrossProduct(sx: int, sy: int, i: int, j: int, dx: int, dy: int)
    requires (sx == 1 || sx == -1) && (sy == 1 || sy == -1)
    ensures Abs((sy * j) * (sx * dx) - (sx * i) * (sy * dy)) == Abs(j * dx - i * dy)
  {
    assert (sy * j) * (sx * dx) == (sx * sy) * (j * dx);
    assert (sx * i) * (sy * dy) == (sx * sy) * (i * dy);
  }

  lemma PixelsAreNeighbours(start: Point, end: Point, k: nat)
    ensures Adjacent(PixelAt(start, end, k), PixelAt(start, end, k + 1))
  {
    var (dx, dy) := (Abs(end.x - start.x), Abs(end.y - start.y));
    if dx >= dy { RoundedStepsByOne(k, dy, dx); } else { RoundedStepsByOne(k, dx, dy); }
  }

  // ---- the loop --------------------------------------------------------------------------------

  /** The error term after `i` steps in x and `j` in y. */
  function ErrorTerm(i: int, j: int, dx: nat, dy: nat): int {
    (j + 1) * dx - (i + 1) * dy
  }

  /** After `k` steps: how far the loop has gone on each axis. */
  function StepsX(k: nat, dx: nat, dy: nat): int {
    if dx >= dy then k else Rounded(k, dx, dy)
  }

  function StepsY(k: nat, dx: nat, dy: nat): int {
    if dx >= dy then Rounded(k, dy, dx) else k
  }

  /** In a flat line the x test always succeeds, and the y test rounds. */
  lemma FlatStep(k: nat, j: nat, dx: nat, dy: nat)
    requires dy <= dx && k < dx && j == Rounded(k, dy, dx)
    ensures 2 * ErrorTerm(k, j, dx, dy) > 0 - dy
    ensures Rounded(k + 1, dy, dx) == if 2 * ErrorTerm(k, j, dx, dy) < dx then j + 1 else j
  {
    NearIsRounded(k, j, dy, dx);
    assert ErrorTerm(k, j, dx, dy) == (j * dx - k * dy) + dx - dy;
    if dx == dy {
      DiagonalIsExact(k, j, dx);
    }
    var next := if 2 * ErrorTerm(k, j, dx, dy) < dx then j + 1 else j;
    assert (j + 1) * dx == j * dx + dx && (k + 1) * dy == k * dy + dy;
    NearIsRounded(k + 1, next, dy, dx);
  }

  lemma DiagonalIsExact(k: nat, j: nat, d: nat)
    requires d > 0 && Near(k, j, d, d)
    ensures j == k
  {
    Cancel(d, j, k);
    Cancel(d, k, j);
  }

  /** In a steep line the y test always succeeds, and the x test rounds. */
  lemma SteepStep(k: nat, i: nat, dx: nat, dy: nat)
    requires dx < dy && k < dy && i == Rounded(k, dx, dy)
    ensures 2 * ErrorTerm(i, k, dx, dy) < dx
    ensures Rounded(k + 1, dx, dy) == if 2 * ErrorTerm(i, k, dx, dy) > 0 - dy then i + 1 else i
  {
    NearIsRounded(k, i, dx, dy);
    assert ErrorTerm(i, k, dx, dy) == (k * dx - i * dy) + dx - dy;
    var next := if 2 * ErrorTerm(i, k, dx, dy) > 0 - dy then i + 1 else i;
    assert (i + 1) * dy == i * dy + dy && (k + 1) * dx == k * dx + dx;
    NearIsRounded(k + 1, next, dx, dy);
  }

  lemma ErrorTermSteps(i: nat, j: nat, dx: nat, dy: nat)
    ensures ErrorTerm(i + 1, j, dx, dy) == ErrorTerm(i, j, dx, dy) - dy
    ensures ErrorTerm(i, j + 1, dx, dy) == ErrorTerm(i, j, dx, dy) + dx
    ensures ErrorTerm(i + 1, j + 1, dx, dy) == ErrorTerm(i, j, dx, dy) - dy + dx
  {
    assert (i + 2) * dy == (i + 1) * dy + dy;
    assert (j + 2) * dx == (j + 1) * dx + dx;
  }

  /** One turn of the loop advances both axes to the next pixel of the ideal line. */
  lemma LoopStep(k: nat, dx: nat, dy: nat)
    requires k < Max(dx, dy)
    ensures var (i, j) := (StepsX(k, dx, dy), StepsY(k, dx, dy));
      && i >= 0 && j >= 0
      && var err := ErrorTerm(i, j, dx, dy);
         var (right, down) := (2 * err > 0 - dy, 2 * err < dx);
         && StepsX(k + 1, dx, dy) == (if right then i + 1 else i)
         && StepsY(k + 1, dx, dy) == (if down then j + 1 else j)
         && StepsX(k + 1, dx, dy) >= 0 && StepsY(k + 1, dx, dy) >= 0
         && ErrorTerm(StepsX(k + 1, dx, dy), StepsY(k + 1, dx, dy), dx, dy)
              == err - (if right then dy else 0) + (if down then dx else 0)
  {
    if dx >= dy {
      RoundedStaysInside(k, dy, dx);
      FlatStep(k, Rounded(k, dy, dx), dx, dy);
      ErrorTermSteps(k, Rounded(k, dy, dx), dx, dy);
    } else {
      RoundedStaysInside(k, dx, dy);
      SteepStep(k, Rounded(k, dx, dy), dx, dy);
      ErrorTermSteps(Rounded(k, dx, dy), k, dx, dy);
    }
  }

  /** The error term when the ideal line's pixel `k` has been reached. */
  function ErrorAt(start: Point, end: Point, k: nat): int {
    var (dx, dy) := (Abs(end.x - start.x), Abs(end.y - start.y));
    ErrorTerm(StepsX(k, dx, dy), StepsY(k, dx, dy), dx, dy)
  }

  lemma ErrorStarts(start: Point, end: Point)
    ensures ErrorAt(start, end, 0) == Abs(end.x - start.x) - Abs(end.y - start.y)
  {
    var (dx, dy) := (Abs(end.x - start.x), Abs(end.y - start.y));
    if dx >= dy { RoundedEnds(dy, dx); } else { RoundedEnds(dx, dy); }
  }

  lemma OnlyTheLastPixelIsTheEnd(start: Point, end: Point, k: nat)
    requires k <= Steps(start, end)
    ensures PixelAt(start, end, k) == end <==> k == Steps(start, end)
  {
    PixelsAtTheEnds(start, end);
  }

  /** One turn of the loop leads from one pixel of the ideal line, and its error, to the next. */
  lemma TurnIsStep(start: Point, end: Point, k: nat)
    requires k < Steps(start, end)
    ensures var (p, err) := (PixelAt(start, end, k), ErrorAt(start, end, k));
      var (dx, dy) := (Abs(end.x - start.x), Abs(end.y - start.y));
      var (right, down) := (2 * err + dy > 0, 2 * err < dx);
      && PixelAt(start, end, k + 1).x == (if right then p.x + Direction(start.x, end.x) else p.x)
      && PixelAt(start, end, k + 1).y == (if down then p.y + Direction(start.y, end.y) else p.y)
      && ErrorAt(start, end, k + 1) == err - (if right then dy else 0) + (if down then dx else 0)
  {
    LoopStep(k, Abs(end.x - start.x), Abs(end.y - start.y));
  }

  // ---- the way of the pen ----------------------------------------------------------------------

  /** Where the loop stands, and its error term. */
  datatype Pen = Pen(at: Point, err: int)

  /** One turn of the loop. */
  function Turn(p: Pen, start: Point, end: Point): Pen {
    var (dx, dy) := (Abs(end.x - start.x), Abs(end.y - start.y));
    var (right, down) := (2 * p.err + dy > 0, 2 * p.err < dx);
    Pen(Point(if right then p.at.x + Direction(start.x, end.x) else p.at.x,
              if down then p.at.y + Direction(start.y, end.y) else p.at.y),
        p.err - (if right then dy else 0) + (if down then dx else 0))
  }

  lemma OneMore<T>(before: seq<T>, line: seq<T>, k: nat)
    requires k < |line|
    ensures before + line[..k] + [line[k]] == before + line[..k + 1]
    ensures line[..|line|] == line
  {
  }

  /** From the start, turn by turn, to the first time the end is reached. */
  ghost predicate IsTrack(track: seq<Pen>, start: Point, end: Point) {
    && |track| > 0
    && track[0] == Pen(start, Abs(end.x - start.x) - Abs(end.y - start.y))
    && (forall k | 0 <= k < |track| :: track[k].at == end <==> k == |track| - 1)
    && (forall k | 0 <= k < |track| - 1 :: track[k + 1] == Turn(track[k], start, end))
  }

  /** The ideal line is such a way. */
  lemma LineIsTrack(start: Point, end: Point) returns (track: seq<Pen>)
    ensures IsTrack(track, start, end) && |track| == |Line(start, end)|
    ensures forall k | 0 <= k < |track| :: track[k].at == Line(start, end)[k]
  {
    var n := Steps(start, end);
    track := seq(n + 1, k requires 0 <= k <= n => Pen(PixelAt(start, end, k), ErrorAt(start, end, k)));
    ErrorStarts(start, end);
    PixelsAtTheEnds(start, end);
    forall k | 0 <= k <= n ensures track[k].at == end <==> k == n {
      OnlyTheLastPixelIsTheEnd(start, end, k);
    }
    forall k | 0 <= k < n ensures track[k + 1] == Turn(track[k], start, end) {
      TurnIsStep(start, end, k);
    }
  }

  /** An image: setting a pixel outside it does nothing. */
  class Image<Color> {
    const width: nat
    const height: nat
    var pixels: map<Point, Color>
    ghost var plotted: seq<Point>

    constructor (width: nat, height: nat)
      ensures this.width == width && this.height == height && pixels == map[] && plotted == []
    {
      this.width, this.height, this.pixels, this.plotted := width, height, map[], [];
    }

    predicate Inside(p: Point) {
      0 <= p.x < width && 0 <= p.y < height
    }

    method Set(p: Point, c: Color)
      modifies this
      ensures plotted == old(plotted) + [p]
      ensures pixels == if Inside(p) then old(pixels)[p := c] else old(pixels)
    {
      plotted := plotted + [p];
      if Inside(p) {
        pixels := pixels[p := c];
      }
    }

    /** Paint the first `n` points, one after the other. */
    function Paint(before: map<Point, Color>, points: seq<Point>, n: nat, c: Color): map<Point, Color>
      requires n <= |points|
    {
      if n == 0 then before
      else
        var done := Paint(before, points, n - 1, c);
        if Inside(points[n - 1]) then done[points[n - 1] := c] else done
    }

    /** That paints those that lie inside, and no others. */
    lemma {:induction false} PaintIs(before: map<Point, Color>, points: seq<Point>, n: nat, c: Color)
      requires n <= |points|
      ensures var after := Paint(before, points, n, c);
        forall p ::
          && (p in points[..n] && Inside(p) ==> p in after && after[p] == c)
          && (!(p in points[..n] && Inside(p)) ==>
                (p in after <==> p in before) && (p in before ==> after[p] == before[p]))
    {
      if n > 0 {
        assert points[..n] == points[..n - 1] + [points[n - 1]];
        PaintIs(before, points, n - 1, c);
      }
    }

    /** Plots exactly the ideal line, in order. */
    method DrawLine(start: Point, end: Point, c: Color)
      modifies this
      ensures plotted == old(plotted) + Line(start, end)
      ensures pixels == Paint(old(pixels), Line(start, end), |Line(start, end)|, c)
    {
      ghost var track := LineIsTrack(start, end);
      Follow(start, end, c, track, Line(start, end));
    }

    /** The loop: it stops because it runs along `track`, whose points are `line`. */
    method Follow(start: Point, end: Point, c: Color, ghost track: seq<Pen>, ghost line: seq<Point>)
      requires IsTrack(track, start, end) && |line| == |track|
      requires forall k | 0 <= k < |track| :: track[k].at == line[k]
      modifies this
      ensures plotted == old(plotted) + line
      ensures pixels == Paint(old(pixels), line, |line|, c)
    {
      var x0, y0 := start.x, start.y;
      var dx := end.x - start.x;
      var dy := end.y - start.y;
      if dx < 0 {
        dx := -dx;
      }
      if dy < 0 {
        dy := -dy;
      }
      var sx := 1;
      if x0 >= end.x {
        sx := -1;
      }
      var sy := 1;
      if y0 >= end.y {
        sy := -1;
      }
      var err := dx - dy;
      ghost var k: nat := 0;
      while true
        invariant k < |track| && track[k] == Pen(Point(x0, y0), err)
        invariant plotted == old(plotted) + line[..k]
        invariant pixels == Paint(old(pixels), line, k, c)
        decreases |track| - k
      {
        OneMore(old(plotted), line, k);
        Set(Point(x0, y0), c);
        if x0 == end.x && y0 == end.y {
          break;
        }
        assert track[k + 1] == Turn(track[k], start, end);
        var e2 := 2 * err;
        if e2 > -dy {
          err := err - dy;
          x0 := x0 + sx;
        }
        if e2 < dx {
          err := err + dx;
          y0 := y0 + sy;
        }
        k := k + 1;
      }
    }
  }
}
