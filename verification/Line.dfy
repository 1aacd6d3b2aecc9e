/** Drawing a line of pixels with integer error terms only. */
module Line {
  import opened Arith
  import opened Blit

  const WIDTH := 320
  const HEIGHT := 240
  const SCREEN_WORDS := 4800  // CGA_FRAMEBUFFER_SIZE / 4

  function Abs(n: int): nat { if n < 0 then -n else n }
  function Max(a: nat, b: nat): nat { if a < b then b else a }
  function Sign(from: int, to: int): int { if from < to then 1 else -1 }

  datatype Point = Point(x: int, y: int)

  function Index(p: Point): int { p.y * WIDTH + p.x }

  /** The test of cga_draw_pixel lets one word behind the screen through, which is memory the display does not show. */
  predicate Drawable(p: Point) { 0 <= Index(p) < 16 * (SCREEN_WORDS + 1) }

  function Colored(w: bv32, k: nat, color: bv32): bv32
    requires k < 16
  {
    Replace(w, Off(k), (color & 3) << Off(k))
  }

  function Plot(fb: seq<bv32>, p: Point, color: bv32): (r: seq<bv32>)
    requires |fb| > SCREEN_WORDS
    ensures |r| == |fb|
  {
    if !Drawable(p) then fb
    else fb[Index(p) / 16 := Colored(fb[Index(p) / 16], Index(p) % 16, color)]
  }

  function PlotAll(fb: seq<bv32>, ps: seq<Point>, color: bv32): (r: seq<bv32>)
    requires |fb| > SCREEN_WORDS
    ensures |r| == |fb|
  {
    if ps == [] then fb else Plot(PlotAll(fb, ps[..|ps| - 1], color), ps[|ps| - 1], color)
  }

  lemma ColorShift(color: bv32, k: nat)
    requires k < 16
    ensures At((color & 3) << Off(k), Off(k)) == color & 3
  {
  }

  /** Exactly the pixel at the index takes the color. */
  lemma PlotIs(fb: seq<bv32>, p: Point, color: bv32, q: nat)
    requires |fb| > SCREEN_WORDS && q < 16 * |fb|
    ensures DstPix(Plot(fb, p, color), q) == if q == Index(p) && Drawable(p) then color & 3 else DstPix(fb, q)
  {
    hide At, Replace;
    if Drawable(p) && q / 16 == Index(p) / 16 {
      var k := Index(p) % 16;
      Offsets(k, 0, q % 16);
      Replaced(fb[q / 16], Off(k), (color & 3) << Off(k), Off(q % 16));
      ColorShift(color, k);
    }
  }

  /** cga_draw_pixel. */
  method DrawPixel(fb: array<bv32>, p: Point, color: bv32)
    requires fb.Length > SCREEN_WORDS
    modifies fb
    ensures fb[..] == Plot(old(fb[..]), p, color)
  {
    var pixel := p.y * WIDTH + p.x;
    var word := pixel / 16;
    if word < 0 || word > SCREEN_WORDS {
      return;
    }
    fb[word] := Colored(fb[word], pixel % 16, color);
  }

  /** How far x is from where the line starts, in the direction it goes. */
  function Steps(from: int, to: int, x: int): int { if from < to then x - from else from - x }

  /** How far off the ideal line with slope b / a the point (i, j) is, times a. */
  function Deviation(a: int, b: int, i: int, j: int): int { a * j - b * i }

  /** Point p is the k-th of a line: k pixels on along the longer axis, and within half a pixel of the ideal line
      along the shorter one. */
  predicate OnLine(from: Point, to: Point, k: nat, p: Point) {
    var a, b := Abs(to.x - from.x), Abs(to.y - from.y);
    var i, j := Steps(from.x, to.x, p.x), Steps(from.y, to.y, p.y);
    && 0 <= i <= a && 0 <= j <= b
    && (if a >= b then i == k else j == k)
    && 2 * Abs(Deviation(a, b, i, j)) <= Max(a, b)
  }

  /** ps is the line: as many points as the longer axis is long, and one. */
  predicate IsLine(from: Point, to: Point, ps: seq<Point>) {
    && |ps| == Max(Abs(to.x - from.x), Abs(to.y - from.y)) + 1
    && ps[0] == from && ps[|ps| - 1] == to
    && forall k :: 0 <= k < |ps| ==> OnLine(from, to, k, ps[k])
  }

  lemma OneStep(a: int, b: int, i: int, j: int)
    ensures Deviation(a, b, i + 1, j) == Deviation(a, b, i, j) - b
    ensures Deviation(a, b, i, j + 1) == Deviation(a, b, i, j) + a
    ensures Deviation(a, b, i + 1, j + 1) == Deviation(a, b, i, j) + a - b
    ensures Deviation(a, b, 0, 0) == 0
  {
  }

  /** Along the longer axis a the other coordinate keeps within b, and at its end is b. */
  lemma Ends(a: nat, b: nat, i: nat, j: nat)
    requires b <= a && 0 < a && i <= a && 2 * Abs(Deviation(a, b, i, j)) <= a
    ensures j <= b && (i == a ==> j == b)
  {
    if j > b {
      TooFar(a, b, i, j);
    } else if i == a && j < b {
      assert a * j == j * a && a * b == b * a;
      MulLess(j, b, a);
    }
  }

  lemma TooFar(a: nat, b: nat, i: nat, j: nat)
    requires b < j && i <= a
    ensures Deviation(a, b, i, j) >= a
  {
    MulLess(b, j, a);
    assert j * a == a * j;
    assert b * a - b * i == b * (a - i) >= 0;
  }

  lemma Turned(a: nat, b: nat, i: nat, j: nat)
    ensures Abs(Deviation(b, a, j, i)) == Abs(Deviation(a, b, i, j))
  {
  }

  /** The state of the loop at the k-th point, i and j steps along the axes. */
  ghost predicate Tracks(from: Point, to: Point, k: nat, p: Point, err: int) {
    var a, b := Abs(to.x - from.x), Abs(to.y - from.y);
    var i, j := Steps(from.x, to.x, p.x), Steps(from.y, to.y, p.y);
    OnLine(from, to, k, p) && err == Deviation(a, b, i, j) + a - b
  }

  /** Both coordinates arrive together. */
  lemma Arrived(from: Point, to: Point, k: nat, p: Point)
    requires OnLine(from, to, k, p)
    ensures k <= Max(Abs(to.x - from.x), Abs(to.y - from.y))
    ensures p == to <==> k == Max(Abs(to.x - from.x), Abs(to.y - from.y))
  {
    hide Deviation;
    var a, b := Abs(to.x - from.x), Abs(to.y - from.y);
    var i, j := Steps(from.x, to.x, p.x), Steps(from.y, to.y, p.y);
    if a >= b && a > 0 {
      Ends(a, b, i, j);
    } else if b > a {
      Turned(a, b, i, j);
      Ends(b, a, j, i);
    }
  }

  /** The bounds of the shorter axis follow from the deviation. */
  lemma Within(a: nat, b: nat, i: nat, j: nat)
    requires 2 * Abs(Deviation(a, b, i, j)) <= Max(a, b) && Max(a, b) > 0 && (if a >= b then i <= a else j <= b)
    ensures i <= a && j <= b
  {
    hide Deviation;
    if a >= b {
      Ends(a, b, i, j);
    } else {
      Turned(a, b, i, j);
      Ends(b, a, j, i);
    }
  }

  lemma MaxCases(a: nat, b: nat)
    ensures Max(a, b) == if a >= b then a else b
  {
  }

  /** The two tests of the loop: a step along the longer axis always, along the other when it brings the point
      nearer. */
  lemma Decide(a: nat, b: nat, e: int)
    requires 2 * Abs(e) <= Max(a, b)
    ensures var right, down := 2 * (e + a - b) + b >= 0, 2 * (e + a - b) <= a;
            && (if a >= b then right else down)
            && 2 * Abs(e - (if right then b else 0) + (if down then a else 0)) <= Max(a, b)
  {
  }

  /** One turn of the loop, away from the end. */
  method NextPoint(from: Point, to: Point, p0: Point, err0: int, dx: int, dy: int, sx: int, sy: int, ghost k: nat)
    returns (p: Point, err: int)
    requires Tracks(from, to, k, p0, err0) && p0 != to
    requires dx == Abs(to.x - from.x) && dy == 0 - Abs(to.y - from.y) && sx == Sign(from.x, to.x)
    requires sy == Sign(from.y, to.y)
    ensures Tracks(from, to, k + 1, p, err)
  {
    hide Deviation, Abs, Max;
    Arrived(from, to, k, p0);
    ghost var a: nat, b: nat := Abs(to.x - from.x), Abs(to.y - from.y);
    MaxCases(a, b);
    Decide(a, b, Deviation(a, b, Steps(from.x, to.x, p0.x), Steps(from.y, to.y, p0.y)));
    OneStep(a, b, Steps(from.x, to.x, p0.x), Steps(from.y, to.y, p0.y));
    p, err := p0, err0;
    var e2 := 2 * err;
    if e2 >= dy {
      err := err + dy;
      p := p.(x := p.x + sx);
    }
    if e2 <= dx {
      err := err + dx;
      p := p.(y := p.y + sy);
    }
    Within(a, b, Steps(from.x, to.x, p.x), Steps(from.y, to.y, p.y));
  }

  /** cga_draw_line. */
  method DrawLine(fb: array<bv32>, from: Point, to: Point, color: bv32) returns (ghost ps: seq<Point>)
    requires fb.Length > SCREEN_WORDS
    modifies fb
    ensures fb[..] == PlotAll(old(fb[..]), ps, color) && IsLine(from, to, ps)
  {
    hide Plot, OnLine, Tracks;
    var dx, sx := Abs(to.x - from.x), Sign(from.x, to.x);
    var dy, sy := 0 - Abs(to.y - from.y), Sign(from.y, to.y);
    var err := dx + dy;
    var p := from;
    ps := [];
    TracksStart(from, to);
    while true
      invariant Tracks(from, to, |ps|, p, err)
      invariant fb[..] == PlotAll(old(fb[..]), ps, color)
      invariant forall k :: 0 <= k < |ps| ==> OnLine(from, to, k, ps[k])
      invariant if ps == [] then p == from else ps[0] == from
      decreases Max(dx, -dy) - |ps|
    {
      DrawPixel(fb, p, color);
      TracksMean(from, to, |ps|, p, err);
      Arrived(from, to, |ps|, p);
      ghost var k: nat := |ps|;
      assert (ps + [p])[..|ps|] == ps;
      ps := ps + [p];
      if p == to {
        break;
      }
      p, err := NextPoint(from, to, p, err, dx, dy, sx, sy, k);
    }
  }

  lemma TracksStart(from: Point, to: Point)
    ensures Tracks(from, to, 0, from, Abs(to.x - from.x) - Abs(to.y - from.y))
  {
  }

  lemma TracksMean(from: Point, to: Point, k: nat, p: Point, err: int)
    requires Tracks(from, to, k, p, err)
    ensures OnLine(from, to, k, p)
  {
  }
}
