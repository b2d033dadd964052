/**
  The two rasterisers of the drawing client (packages/client/src/drawings.ts):
  Bresenham's line and the midpoint circle.

  Coordinates are integers, as tile positions are; the source works on
  JavaScript numbers and is only ever called with whole tiles.
 */
module Drawings {
  import opened Geometry

  // ---------------------------------------------------------------------------
  // Bresenham's line

  /** One step of a line from `a` toward `b`: the point moves, by at most one
      tile on each axis and only in the direction of `b` on that axis. */
  predicate Step(p: Point, q: Point, a: Point, b: Point)
  {
    && p != q
    && (q.x == p.x || q.x == p.x + Dir(a.x, b.x))
    && (q.y == p.y || q.y == p.y + Dir(a.y, b.y))
  }

  /** `p` lies in the bounding box of `a` and `b`. */
  predicate InBox(p: Point, a: Point, b: Point)
  {
    Min(a.x, b.x) <= p.x <= Max(a.x, b.x) && Min(a.y, b.y) <= p.y <= Max(a.y, b.y)
  }

  /** How far `p` is off the ideal segment from `a` to `b`, scaled: the cross
      product of `p - a` with `b - a`, taken in the line's own quadrant. */
  function Deviation(p: Point, a: Point, b: Point): int
  {
    Mul(Abs(p.x - a.x), Abs(b.y - a.y)) - Mul(Abs(p.y - a.y), Abs(b.x - a.x))
  }

  /** `p` is within half a tile of the ideal segment, measured along the
      line's major axis. */
  predicate NearLine(p: Point, a: Point, b: Point)
  {
    2 * Abs(Deviation(p, a, b)) <= Max(Abs(b.x - a.x), Abs(b.y - a.y))
  }

  /** Consecutive points of `s` are steps of a line from `a` to `b`. */
  predicate Connected(s: seq<Point>, a: Point, b: Point)
  {
    forall i :: 0 <= i < |s| - 1 ==> Step(s[i], s[i + 1], a, b)
  }

  /** Every point of `s` lies in the box of `a` and `b`, near the segment. */
  predicate Hugs(s: seq<Point>, a: Point, b: Point)
  {
    forall i :: 0 <= i < |s| ==> InBox(s[i], a, b) && NearLine(s[i], a, b)
  }

  /** `drawLine(a, b)`: the tiles of the segment from `a` to `b`, in order.
      `moved` is the argument `a` as the source leaves it, advanced onto `b`. */
  method DrawLine(a: Point, b: Point) returns (result: seq<Point>, moved: Point)
    ensures |result| == Max(Abs(b.x - a.x), Abs(b.y - a.y)) + 1
    ensures result[0] == a && result[|result| - 1] == b
    ensures moved == b
    ensures Connected(result, a, b) && Hugs(result, a, b)
  {
    var dx: int := Abs(b.x - a.x);
    var dy: int := Abs(b.y - a.y);
    var t := Tracer(a, dx - dy, 0, 0, 0);
    result := [];
    while true
      invariant LineInv(a, b, dx, dy, t, result)
      decreases (dx - t.ix) + (dy - t.iy)
    {
      ghost var before := result;
      result := result + [t.p];
      if t.p.x == b.x && t.p.y == b.y {
        LineEnds(a, b, dx, dy, t, before, result);
        break;
      }
      LineIter(a, b, dx, dy, t, before);
      t := LineNext(a, b, dx, dy, t);
    }
    moved := t.p;
  }

  /** The state of the loop of `drawLine`: the moving point (the source's `a`,
      which the loop advances in place) and `err`, with the steps `ix` and
      `iy` taken along each axis and the deviation `dev = ix * dy - iy * dx`
      they give. */
  datatype Tracer = Tracer(p: Point, err: int, ix: int, iy: int, dev: int)

  /** The loop body after the push: the source's two independent `if`s on
      `e2 = 2 * err`, stepping by `sx` and `sy`. */
  function LineNext(a: Point, b: Point, dx: int, dy: int, t: Tracer): Tracer
  {
    var e2 := 2 * t.err;
    var mx, my := e2 > -dy, e2 < dx;
    Tracer(Point(t.p.x + (if mx then Dir(a.x, b.x) else 0), t.p.y + (if my then Dir(a.y, b.y) else 0)),
           t.err - (if mx then dy else 0) + (if my then dx else 0),
           if mx then t.ix + 1 else t.ix,
           if my then t.iy + 1 else t.iy,
           t.dev + (if mx then dy else 0) - (if my then dx else 0))
  }

  /** `k * b` for `k >= 0`, by repeated addition, so that the loop's reasoning
      about the deviation stays linear. */
  function Mul(k: nat, b: int): int
  {
    if k == 0 then 0 else Mul(k - 1, b) + b
  }

  lemma {:induction false} MulIsProduct(k: nat, b: int)
    ensures Mul(k, b) == k * b
  {
    if k > 0 {
      MulIsProduct(k - 1, b);
    }
  }

  /** The loop state of `drawLine` after `ix` steps along x and `iy` along y
      out of `dx` and `dy`: `err` tracks the deviation `dev = ix * dy - iy * dx`,
      which stays within half the major axis. */
  predicate Bresenham(dx: int, dy: int, ix: int, iy: int, err: int, dev: int)
  {
    && 0 <= ix <= dx && 0 <= iy <= dy
    && dev == Mul(ix, dy) - Mul(iy, dx)
    && err == dx - dy - dev
    && 2 * Abs(dev) <= Max(dx, dy)
    && (dx == dy ==> ix == iy)
  }

  /** One step of the loop: short of the end, at least one axis moves, the
      major axis always does, no axis overshoots and the state is kept. */
  lemma BresenhamStep(dx: int, dy: int, ix: int, iy: int, err: int, dev: int, mx: bool, my: bool)
    requires Bresenham(dx, dy, ix, iy, err, dev) && (ix < dx || iy < dy)
    requires mx == (2 * err > -dy) && my == (2 * err < dx)
    ensures && (dx >= dy ==> mx) && (dy >= dx ==> my)
            && Bresenham(dx, dy, if mx then ix + 1 else ix, if my then iy + 1 else iy,
                         err - (if mx then dy else 0) + (if my then dx else 0),
                         dev + (if mx then dy else 0) - (if my then dx else 0))
  {
    EndsReached(dx, dy, ix, iy);
    MulIsProduct(ix, dy);
    MulIsProduct(iy, dx);
    DeviationBound(dx, dy, ix, iy, dev, mx, my);
    assert Mul(ix + 1, dy) == Mul(ix, dy) + dy;
    assert Mul(iy + 1, dx) == Mul(iy, dx) + dx;
  }

  /** With one axis done and the other not, the deviation forbids moving the
      finished axis: this is why the line never overshoots `b`. */
  lemma EndsReached(dx: int, dy: int, ix: int, iy: int)
    requires 0 <= ix <= dx && 0 <= iy <= dy
    ensures ix == dx && iy < dy ==> ix * dy - iy * dx >= dx
    ensures iy == dy && ix < dx ==> ix * dy - iy * dx <= -dy
  {
    if ix == dx && iy < dy {
      assert ix * dy - iy * dx == dx * (dy - iy);
      MulMono(dx, dy - iy);
    }
    if iy == dy && ix < dx {
      assert ix * dy - iy * dx == -(dy * (dx - ix));
      MulMono(dy, dx - ix);
    }
  }

  lemma MulMono(a: int, k: int)
    requires a >= 0 && k >= 1
    ensures a * k >= a
  {
  }

  /** The decision of one step on the deviation `d` alone: linear arithmetic. */
  lemma DeviationBound(dx: int, dy: int, ix: int, iy: int, d: int, mx: bool, my: bool)
    requires 0 <= ix <= dx && 0 <= iy <= dy && (ix < dx || iy < dy)
    requires 2 * Abs(d) <= Max(dx, dy) && (dx == dy ==> ix == iy && d == 0)
    requires ix == dx && iy < dy ==> d >= dx
    requires iy == dy && ix < dx ==> d <= -dy
    requires mx == (2 * (dx - dy - d) > -dy) && my == (2 * (dx - dy - d) < dx)
    ensures (dx >= dy ==> mx) && (dy >= dx ==> my)
    ensures mx ==> ix < dx
    ensures my ==> iy < dy
    ensures 2 * Abs(d + (if mx then dy else 0) - (if my then dx else 0)) <= Max(dx, dy)
    ensures dx == dy ==> mx == my
  {
  }

  /** The point `ix`, `iy` steps from `a` toward `b`. */
  function Advance(a: Point, b: Point, ix: int, iy: int): Point
  {
    Point(a.x + (if a.x < b.x then ix else -ix), a.y + (if a.y < b.y then iy else -iy))
  }

  /** The number of points the loop has emitted: the steps along the major axis. */
  function Major(dx: int, dy: int, ix: int, iy: int): int
  {
    if dx >= dy then ix else iy
  }

  /** One iteration of the loop, short of `b`: the state is kept, the point
      moves by a `Step` toward `b` and the major axis advances. */
  lemma LineStep(a: Point, b: Point, dx: int, dy: int, t: Tracer)
    requires dx == Abs(b.x - a.x) && dy == Abs(b.y - a.y)
    requires Bresenham(dx, dy, t.ix, t.iy, t.err, t.dev) && (t.ix < dx || t.iy < dy)
    requires t.p == Advance(a, b, t.ix, t.iy)
    ensures var t' := LineNext(a, b, dx, dy, t);
            && Bresenham(dx, dy, t'.ix, t'.iy, t'.err, t'.dev) && t'.p == Advance(a, b, t'.ix, t'.iy)
            && Step(t.p, t'.p, a, b) && Major(dx, dy, t'.ix, t'.iy) == Major(dx, dy, t.ix, t.iy) + 1
            && (dx - t'.ix) + (dy - t'.iy) < (dx - t.ix) + (dy - t.iy)
  {
    BresenhamStep(dx, dy, t.ix, t.iy, t.err, t.dev, 2 * t.err > -dy, 2 * t.err < dx);
  }

  /** The loop invariant of `drawLine`: the Bresenham state after `ix` and
      `iy` steps, the current point, and the points emitted so far, one per
      step along the major axis, chained by steps and hugging the line. */
  predicate LineInv(a: Point, b: Point, dx: int, dy: int, t: Tracer, s: seq<Point>)
  {
    && dx == Abs(b.x - a.x) && dy == Abs(b.y - a.y)
    && Bresenham(dx, dy, t.ix, t.iy, t.err, t.dev) && t.p == Advance(a, b, t.ix, t.iy)
    && |s| == Major(dx, dy, t.ix, t.iy)
    && (|s| > 0 ==> s[0] == a && Step(s[|s| - 1], t.p, a, b))
    && (|s| == 0 ==> t.p == a)
    && Connected(s, a, b) && Hugs(s, a, b)
  }

  /** An iteration short of `b` emits the point and moves on: the invariant
      is kept and the steps taken grow. */
  lemma LineIter(a: Point, b: Point, dx: int, dy: int, t: Tracer, s: seq<Point>)
    requires LineInv(a, b, dx, dy, t, s) && !(t.p.x == b.x && t.p.y == b.y)
    ensures LineInv(a, b, dx, dy, LineNext(a, b, dx, dy, t), s + [t.p])
    ensures var t' := LineNext(a, b, dx, dy, t);
            (dx - t'.ix) + (dy - t'.iy) < (dx - t.ix) + (dy - t.iy)
  {
    AdvanceFacts(a, b, t.ix, t.iy, t.dev);
    Extend(s, t.p, a, b);
    LineStep(a, b, dx, dy, t);
  }

  /** The iteration that reaches `b` emits it last, completing the line. */
  lemma LineEnds(a: Point, b: Point, dx: int, dy: int, t: Tracer, s: seq<Point>, s': seq<Point>)
    requires LineInv(a, b, dx, dy, t, s) && t.p.x == b.x && t.p.y == b.y
    requires s' == s + [t.p]
    ensures |s'| == Max(Abs(b.x - a.x), Abs(b.y - a.y)) + 1
    ensures s'[0] == a && s'[|s'| - 1] == b && t.p == b
    ensures Connected(s', a, b) && Hugs(s', a, b)
  {
    AdvanceFacts(a, b, t.ix, t.iy, t.dev);
    Extend(s, t.p, a, b);
  }

  /** What the loop's `err` means: throughout `drawLine`, `err` is `dx - dy`
      less the deviation of the current point, the cross product of its
      offset from `a` with `b - a` taken in the line's quadrant, and that
      deviation keeps the point within half a tile of the ideal segment. */
  lemma TrackedDeviation(a: Point, b: Point, dx: int, dy: int, t: Tracer, s: seq<Point>)
    requires LineInv(a, b, dx, dy, t, s)
    ensures t.dev == Deviation(t.p, a, b)
    ensures t.err == dx - dy - (Abs(t.p.x - a.x) * dy - Abs(t.p.y - a.y) * dx)
    ensures NearLine(t.p, a, b)
  {
    assert Abs(t.p.x - a.x) == t.ix && Abs(t.p.y - a.y) == t.iy;
    MulIsProduct(Abs(t.p.x - a.x), Abs(b.y - a.y));
    MulIsProduct(Abs(t.p.y - a.y), Abs(b.x - a.x));
  }

  /** Appending a point that steps on from the last and hugs the line. */
  lemma Extend(s: seq<Point>, p: Point, a: Point, b: Point)
    requires Connected(s, a, b) && Hugs(s, a, b)
    requires |s| > 0 ==> Step(s[|s| - 1], p, a, b)
    requires InBox(p, a, b) && NearLine(p, a, b)
    ensures Connected(s + [p], a, b) && Hugs(s + [p], a, b)
  {
  }

  /** A point of the loop is `b` exactly when both axes are done, and it lies
      in the box near the line. */
  lemma AdvanceFacts(a: Point, b: Point, ix: int, iy: int, dev: int)
    requires var dx: int := Abs(b.x - a.x);
             var dy: int := Abs(b.y - a.y);
             Bresenham(dx, dy, ix, iy, dx - dy - dev, dev)
    ensures var p := Advance(a, b, ix, iy);
            && (p == b <==> ix == Abs(b.x - a.x) && iy == Abs(b.y - a.y))
            && InBox(p, a, b) && NearLine(p, a, b)
  {
    var p := Advance(a, b, ix, iy);
    assert Abs(p.x - a.x) == ix && Abs(p.y - a.y) == iy;
    assert Deviation(p, a, b) == dev;
  }

  // ---------------------------------------------------------------------------
  // Midpoint circle

  /** The four axial points `drawCircle` emits first. */
  function Axial(c: Point, r: int): seq<Point>
  {
    [Point(c.x, c.y + r), Point(c.x, c.y - r), Point(c.x + r, c.y), Point(c.x - r, c.y)]
  }

  /** The eight reflections of the offset `(u, v)` about the centre, in the
      order `drawCircle` emits them. */
  function Octants(c: Point, u: int, v: int): (g: seq<Point>)
    ensures |g| == 8
  {
    [ Point(c.x + u, c.y + v), Point(c.x - u, c.y + v), Point(c.x + u, c.y - v), Point(c.x - u, c.y - v),
      Point(c.x + v, c.y + u), Point(c.x - v, c.y + u), Point(c.x + v, c.y - u), Point(c.x - v, c.y - u) ]
  }

  /** The `j`-th group of eight points after the axial ones. */
  function Group(s: seq<Point>, j: nat): seq<Point>
    requires 12 + 8 * j <= |s|
  {
    s[4 + 8 * j .. 12 + 8 * j]
  }

  /** A group of eight is the reflections of its first point. */
  predicate Symmetric(c: Point, g: seq<Point>)
  {
    |g| == 8 && g == Octants(c, g[0].x - c.x, g[0].y - c.y)
  }

  /** `p` is the nearest tile to the circle on its row or column: its squared
      distance from the centre is off `r * r` by no more than its larger offset. */
  predicate OnRing(c: Point, r: int, p: Point)
  {
    var u := p.x - c.x;
    var v := p.y - c.y;
    Abs(u * u + v * v - r * r) <= Max(Abs(u), Abs(v))
  }

  /** Every point of `s` lies in the square of half-side `|r|` about `c`. */
  predicate InSquare(c: Point, r: int, s: seq<Point>)
  {
    forall i :: 0 <= i < |s| ==> Abs(s[i].x - c.x) <= Abs(r) && Abs(s[i].y - c.y) <= Abs(r)
  }

  /** Every point of `s` is on the ring of radius `r` about `c`. */
  predicate Ringed(c: Point, r: int, s: seq<Point>)
  {
    forall i :: 0 <= i < |s| ==> OnRing(c, r, s[i])
  }

  /** The first `n` groups of eight after the axial points are symmetric. */
  predicate Grouped(c: Point, s: seq<Point>, n: nat)
  {
    |s| == 4 + 8 * n && forall j :: 0 <= j < n ==> Symmetric(c, Group(s, j))
  }

  /** `drawCircle(center, radius)`: four axial points, then eight reflected
      points per step of the first octant. */
  method DrawCircle(center: Point, radius: int) returns (result: seq<Point>)
    ensures |result| >= 4 && (|result| - 4) % 8 == 0
    ensures result[..4] == Axial(center, radius)
    ensures radius <= 0 ==> |result| == 4
    ensures radius > 0 ==> |result| > 4
    ensures forall j :: 0 <= j < (|result| - 4) / 8 ==> Symmetric(center, Group(result, j))
    ensures forall i :: 0 <= i < |result| ==>
              Abs(result[i].x - center.x) <= Abs(radius) && Abs(result[i].y - center.y) <= Abs(radius)
    ensures forall i :: 0 <= i < |result| ==> OnRing(center, radius, result[i])
  {
    var w := Walker(0, radius, 1 - radius, 1, -2 * radius);
    result := Axial(center, radius);
    CircleStarts(center, radius);
    while w.x < w.y
      invariant CircleInv(center, radius, w, result)
      decreases w.y - w.x
    {
      CircleIter(center, radius, w, result);
      w := CircleNext(w);
      result := result + Octants(center, w.x, w.y);
    }
    CircleEnds(center, radius, w, result);
  }

  /** The state of the loop of `drawCircle`: the offset `(x, y)`, the decision
      value `f` and the source's increments `ddf_x` and `ddf_y`. */
  datatype Walker = Walker(x: int, y: int, f: int, ddfX: int, ddfY: int)

  /** The loop body before the push: step down when `f >= 0`, then along. */
  function CircleNext(w: Walker): Walker
  {
    var (y, ddfY, f) := if w.f >= 0 then (w.y - 1, w.ddfY + 2, w.f + w.ddfY + 2) else (w.y, w.ddfY, w.f);
    Walker(w.x + 1, y, f + w.ddfX + 2, w.ddfX + 2, ddfY)
  }

  /** The loop invariant of `drawCircle`: the increments follow the offset, the
      midpoint state holds for a non-negative radius, and the points so far are
      the axial ones and then one symmetric group per step, all in the box and
      on the ring. */
  predicate CircleInv(c: Point, r: int, w: Walker, s: seq<Point>)
  {
    && (r >= 0 || (w.x == 0 && w.y == r))
    && w.ddfX == 2 * w.x + 1 && w.ddfY == -2 * w.y
    && (r >= 0 ==> Midpoint(r, w.x, w.y, w.f))
    && Grouped(c, s, w.x) && InSquare(c, r, s) && Ringed(c, r, s)
    && s[..4] == Axial(c, r)
  }

  /** The invariant holds on entry, with the four axial points. */
  lemma CircleStarts(c: Point, r: int)
    ensures CircleInv(c, r, Walker(0, r, 1 - r, 1, -2 * r), Axial(c, r))
  {
    AxialOnRing(c, r);
    assert r >= 0 ==> 1 * 1 + r * r - r - r * r == 1 - r;
  }

  /** An iteration keeps the invariant and brings `x` and `y` closer. */
  lemma CircleIter(c: Point, r: int, w: Walker, s: seq<Point>)
    requires CircleInv(c, r, w, s) && w.x < w.y
    ensures var w' := CircleNext(w);
            && CircleInv(c, r, w', s + Octants(c, w'.x, w'.y))
            && w'.y - w'.x < w.y - w.x
  {
    var w' := CircleNext(w);
    MidpointStep(r, w.x, w.y, w.f, w'.x, w'.y, w'.f);
    CircleExtend(c, r, s, w'.x, w'.y);
  }

  /** When the loop stops, the points meet every promise of `DrawCircle`. */
  lemma CircleEnds(c: Point, r: int, w: Walker, s: seq<Point>)
    requires CircleInv(c, r, w, s) && w.x >= w.y
    ensures |s| >= 4 && (|s| - 4) % 8 == 0
    ensures s[..4] == Axial(c, r)
    ensures r <= 0 ==> |s| == 4
    ensures r > 0 ==> |s| > 4
    ensures forall j :: 0 <= j < (|s| - 4) / 8 ==> Symmetric(c, Group(s, j))
    ensures forall i :: 0 <= i < |s| ==> Abs(s[i].x - c.x) <= Abs(r) && Abs(s[i].y - c.y) <= Abs(r)
    ensures forall i :: 0 <= i < |s| ==> OnRing(c, r, s[i])
  {
    assert (|s| - 4) / 8 == w.x;
  }

  /** The loop state of `drawCircle` in the first octant: `f` is the midpoint
      decision value `(x + 1)^2 + (y - 1/2)^2 - r^2 - 1/4`, and the current
      point `(x, y)` is within `y` of the circle. */
  predicate Midpoint(r: int, x: int, y: int, f: int)
  {
    && 0 <= x && 0 <= y <= r && x <= y + 1
    && f == (x + 1) * (x + 1) + y * y - y - r * r
    && 2 * x + 1 - 2 * y <= f <= 2 * x + 1
    && (x < y ==> f <= 2 * y - 2)
  }

  /** The first-octant point `(x, y)` is within `y` of the circle of radius `r`. */
  predicate NearRing(r: int, x: int, y: int)
  {
    x * x + y * y - y <= r * r <= x * x + y * y + y
  }

  /** One step of the loop, from `(x, y, f)` to `(x', y', f')`, keeps the
      midpoint state, and the new point lies within `y'` of the circle. */
  lemma MidpointStep(r: int, x: int, y: int, f: int, x': int, y': int, f': int)
    requires Midpoint(r, x, y, f) && x < y
    requires x' == x + 1 && y' == (if f >= 0 then y - 1 else y)
    requires f' == (if f >= 0 then f - 2 * y' else f) + 2 * x' + 1
    ensures Midpoint(r, x', y', f') && NearRing(r, x', y')
  {
    assert x' * x' == (x + 1) * (x + 1);
    assert (x' + 1) * (x' + 1) == (x + 1) * (x + 1) + 2 * x + 3;
    if f >= 0 {
      assert y' * y' == y * y - 2 * y + 1;
    } else {
      assert y' * y' == y * y;
    }
  }

  /** The axial points are exactly `r` from the centre. */
  lemma AxialOnRing(c: Point, r: int)
    ensures forall i :: 0 <= i < 4 ==> OnRing(c, r, Axial(c, r)[i])
  {
  }

  /** A first-octant point within `y` of the circle gives eight such points. */
  lemma OctantsOnRing(c: Point, r: int, x: int, y: int)
    requires 0 <= x && 0 <= y && x * x + y * y - y <= r * r <= x * x + y * y + y
    ensures forall i :: 0 <= i < 8 ==> OnRing(c, r, Octants(c, x, y)[i])
  {
    assert (-x) * (-x) == x * x && (-y) * (-y) == y * y;
  }

  /** A first-octant point within `y` of the circle lies within the radius. */
  lemma OctantBound(r: int, x: int, y: int)
    requires 0 <= x && 0 <= y <= r && x * x + y * y - y <= r * r
    ensures x <= r
  {
    assert y * y >= y;
  }

  /** Appending the reflections of a new first-octant point keeps every
      invariant of the point list and adds one group. */
  lemma CircleExtend(c: Point, r: int, s: seq<Point>, x: int, y: int)
    requires 1 <= x && 0 <= y <= r && NearRing(r, x, y)
    requires Grouped(c, s, x - 1) && InSquare(c, r, s) && Ringed(c, r, s)
    ensures var s' := s + Octants(c, x, y);
            Grouped(c, s', x) && InSquare(c, r, s') && Ringed(c, r, s') && s'[..4] == s[..4]
  {
    OctantsOnRing(c, r, x, y);
    OctantBound(r, x, y);
    GroupExtend(c, s, x, y);
    SquareExtend(c, r, s, x, y);
    RingExtend(c, r, s, Octants(c, x, y));
  }

  lemma GroupExtend(c: Point, s: seq<Point>, x: int, y: int)
    requires 1 <= x && Grouped(c, s, x - 1)
    ensures Grouped(c, s + Octants(c, x, y), x) && (s + Octants(c, x, y))[..4] == s[..4]
  {
    var g := Octants(c, x, y);
    assert forall j :: 0 <= j < x - 1 ==> Group(s + g, j) == Group(s, j);
    assert Group(s + g, x - 1) == g;
  }

  lemma SquareExtend(c: Point, r: int, s: seq<Point>, x: int, y: int)
    requires 0 <= x <= r && 0 <= y <= r && InSquare(c, r, s)
    ensures InSquare(c, r, s + Octants(c, x, y))
  {
  }

  lemma RingExtend(c: Point, r: int, s: seq<Point>, g: seq<Point>)
    requires Ringed(c, r, s) && forall i :: 0 <= i < |g| ==> OnRing(c, r, g[i])
    ensures Ringed(c, r, s + g)
  {
  }
}
