/** Path geometry of the automation diagram (`calculateConnections` / `performCalculation` in
    AnimatedFlowConnections.jsx). Anchor and container rectangles are inputs; every coordinate
    of the output is a percentage of the container's width or height. */
module FlowGeometry {
  import opened Wrappers
  import opened RealMath
  import opened PerformanceTier
  import opened FlowSelection

  /** A bounding client rectangle. */
  datatype Rect = Rect(left: real, top: real, width: real, height: real)

  datatype Point = Point(x: real, y: real)

  /** An anchor in container-percentage coordinates: its centre and its size. */
  datatype Box = Box(center: Point, w: real, h: real)

  /** A distance, as returned by `Math.sqrt`. */
  type NonNeg = x: real | x >= 0.0

  /** The drawable path: `M L`, `M Q` or `M C` path data. */
  datatype Path =
    | Segment(start: Point, end: Point)
    | Quadratic(start: Point, control: Point, end: Point)
    | Cubic(start: Point, c1: Point, c2: Point, end: Point)

  datatype PathGeometry = PathGeometry(id: nat, path: Path, importance: Importance, kind: PathKind)

  /** Coordinates are divided by the container's size. */
  predicate ValidContainer(c: Rect) {
    c.width > 0.0 && c.height > 0.0
  }

  predicate ValidRect(r: Rect) {
    r.width >= 0.0 && r.height >= 0.0
  }

  function Sign(v: real): real {
    if v > 0.0 then 1.0 else if v < 0.0 then -1.0 else 0.0
  }

  function Abs(v: real): real {
    if v < 0.0 then -v else v
  }

  /** The anchor's centre and size as percentages of the container. */
  function ToPercent(r: Rect, c: Rect): (b: Box)
    requires ValidContainer(c)
    ensures b.center.x * c.width == (r.left - c.left + r.width / 2.0) * 100.0
    ensures b.center.y * c.height == (r.top - c.top + r.height / 2.0) * 100.0
    ensures b.w * c.width == r.width * 100.0
    ensures b.h * c.height == r.height * 100.0
    ensures ValidRect(r) ==> b.w >= 0.0 && b.h >= 0.0
  {
    Box(Point((r.left - c.left + r.width / 2.0) / c.width * 100.0,
              (r.top - c.top + r.height / 2.0) / c.height * 100.0),
        r.width / c.width * 100.0,
        r.height / c.height * 100.0)
  }

  /** Whether `r` lies within the container `c`. */
  predicate Within(r: Rect, c: Rect) {
    && c.left <= r.left && r.left + r.width <= c.left + c.width
    && c.top <= r.top && r.top + r.height <= c.top + c.height
  }

  /** An anchor drawn inside its container has its centre between 0% and 100% on both axes. */
  lemma CentreInsideContainer(r: Rect, c: Rect)
    requires ValidContainer(c) && ValidRect(r) && Within(r, c)
    ensures var b := ToPercent(r, c); 0.0 <= b.center.x <= 100.0 && 0.0 <= b.center.y <= 100.0
  {
    var b := ToPercent(r, c);
    PercentOfPart(b.center.x, r.left - c.left + r.width / 2.0, c.width);
    PercentOfPart(b.center.y, r.top - c.top + r.height / 2.0, c.height);
  }

  /** A part of a positive whole is between 0% and 100% of it. */
  lemma PercentOfPart(p: real, part: real, whole: real)
    requires whole > 0.0 && 0.0 <= part <= whole
    requires p * whole == part * 100.0
    ensures 0.0 <= p <= 100.0
  {
  }

  /** Endpoints of a primary connection: on the facing vertical edges when the anchors are
      further apart horizontally than vertically, else on the facing horizontal edges. */
  function PrimaryEndpoints(a: Box, b: Box): (Point, Point) {
    var dx := b.center.x - a.center.x;
    var dy := b.center.y - a.center.y;
    if Abs(dx) > Abs(dy) then
      (Point(a.center.x + Sign(dx) * (a.w / 2.0), a.center.y),
       Point(b.center.x - Sign(dx) * (b.w / 2.0), b.center.y))
    else
      (Point(a.center.x, a.center.y + Sign(dy) * (a.h / 2.0)),
       Point(b.center.x, b.center.y - Sign(dy) * (b.h / 2.0)))
  }

  /** Endpoints of a secondary or tertiary connection: the point where the centre-to-centre
      line crosses the edge of the dominant axis. The source goes through `atan2` and `tan`;
      with exact arithmetic `tan(atan2(dy, dx)) = dy / dx`, `|cos| > |sin|` holds exactly when
      `|dx| > |dy|` or both are zero (where `atan2` gives 0), and dividing by the tangent is
      multiplying by `dx / dy` (0 for a vertical line, where the float tangent is merely huge). */
  function LineEndpoints(a: Box, b: Box): (Point, Point) {
    var dx := b.center.x - a.center.x;
    var dy := b.center.y - a.center.y;
    if Abs(dx) > Abs(dy) then
      var slope := dy / dx;
      var fromHalf := Sign(dx) * a.w / 2.0;
      var toHalf := Sign(dx) * b.w / 2.0;
      (Point(a.center.x + fromHalf, a.center.y + slope * fromHalf),
       Point(b.center.x - toHalf, b.center.y - slope * toHalf))
    else if dx == 0.0 && dy == 0.0 then
      (a.center, b.center)
    else
      var inverse := dx / dy;
      var fromHalf := Sign(dy) * a.h / 2.0;
      var toHalf := Sign(dy) * b.h / 2.0;
      (Point(a.center.x + fromHalf * inverse, a.center.y + fromHalf),
       Point(b.center.x - toHalf * inverse, b.center.y - toHalf))
  }

  predicate Sized(b: Box) {
    b.w >= 0.0 && b.h >= 0.0
  }

  /** `p` lies on the boundary of `b`: inside it, and on a vertical or a horizontal edge. */
  predicate OnEdge(p: Point, b: Box) {
    && Abs(p.x - b.center.x) <= b.w / 2.0
    && Abs(p.y - b.center.y) <= b.h / 2.0
    && (Abs(p.x - b.center.x) == b.w / 2.0 || Abs(p.y - b.center.y) == b.h / 2.0)
  }

  /** `p` is on the side of `b` that faces `target`. */
  predicate Faces(p: Point, b: Box, target: Point) {
    (p.x - b.center.x) * (target.x - b.center.x) + (p.y - b.center.y) * (target.y - b.center.y) >= 0.0
  }

  /** `p` lies on the straight line through `u` and `v`. */
  predicate Collinear(u: Point, p: Point, v: Point) {
    (p.y - u.y) * (v.x - u.x) == (p.x - u.x) * (v.y - u.y)
  }

  /** Horizontal or vertical primary connections: the endpoints keep the centres' y (resp. x)
      and sit on the anchors' facing edges, so they never leave the anchors' rectangles. */
  lemma PrimaryEndpointsOnFacingEdges(a: Box, b: Box)
    requires Sized(a) && Sized(b)
    ensures var (from, to) := PrimaryEndpoints(a, b);
      && (Abs(b.center.x - a.center.x) > Abs(b.center.y - a.center.y) ==>
            && from.y == a.center.y && to.y == b.center.y
            && Abs(from.x - a.center.x) == a.w / 2.0 && Abs(to.x - b.center.x) == b.w / 2.0)
      && (Abs(b.center.x - a.center.x) <= Abs(b.center.y - a.center.y) ==>
            from.x == a.center.x && to.x == b.center.x)
      && (a.center != b.center ==>
            OnEdge(from, a) && OnEdge(to, b) && Faces(from, a, b.center) && Faces(to, b, a.center))
  {
    if Abs(b.center.x - a.center.x) > Abs(b.center.y - a.center.y) {
      PrimaryWide(a, b);
    } else {
      PrimaryTall(a, b);
    }
  }

  lemma PrimaryWide(a: Box, b: Box)
    requires Sized(a) && Sized(b)
    requires Abs(b.center.x - a.center.x) > Abs(b.center.y - a.center.y)
    ensures var (from, to) := PrimaryEndpoints(a, b);
      && from.y == a.center.y && to.y == b.center.y
      && Abs(from.x - a.center.x) == a.w / 2.0 && Abs(to.x - b.center.x) == b.w / 2.0
      && OnEdge(from, a) && OnEdge(to, b) && Faces(from, a, b.center) && Faces(to, b, a.center)
  {
    var dx := b.center.x - a.center.x;
    var dy := b.center.y - a.center.y;
    var to := Point(b.center.x + Sign(-dx) * (b.w / 2.0), b.center.y);
    assert PrimaryEndpoints(a, b) == (Point(a.center.x + Sign(dx) * (a.w / 2.0), a.center.y), to) by {
      assert Sign(-dx) == -Sign(dx);
    }
    VerticalEdgePoint(a, dx, dy);
    VerticalEdgePoint(b, -dx, -dy);
    assert a.center.x - b.center.x == -dx && a.center.y - b.center.y == -dy;
  }

  lemma PrimaryTall(a: Box, b: Box)
    requires Sized(a) && Sized(b)
    requires Abs(b.center.x - a.center.x) <= Abs(b.center.y - a.center.y)
    ensures var (from, to) := PrimaryEndpoints(a, b);
      && from.x == a.center.x && to.x == b.center.x
      && (a.center != b.center ==>
            OnEdge(from, a) && OnEdge(to, b) && Faces(from, a, b.center) && Faces(to, b, a.center))
  {
    var dx := b.center.x - a.center.x;
    var dy := b.center.y - a.center.y;
    var to := Point(b.center.x, b.center.y + Sign(-dy) * (b.h / 2.0));
    assert PrimaryEndpoints(a, b) == (Point(a.center.x, a.center.y + Sign(dy) * (a.h / 2.0)), to) by {
      assert Sign(-dy) == -Sign(dy);
    }
    if dy != 0.0 {
      HorizontalEdgePoint(a, dx, dy);
      HorizontalEdgePoint(b, -dx, -dy);
      assert a.center.x - b.center.x == -dx && a.center.y - b.center.y == -dy;
    }
  }

  /** The point half a width from the centre of `b`, towards direction (dx, dy), is on a
      vertical edge of `b` and faces that direction. */
  lemma VerticalEdgePoint(b: Box, dx: real, dy: real)
    requires Sized(b) && dx != 0.0
    ensures var p := Point(b.center.x + Sign(dx) * (b.w / 2.0), b.center.y);
      OnEdge(p, b) && Abs(p.x - b.center.x) == b.w / 2.0 && (p.x - b.center.x) * dx + (p.y - b.center.y) * dy >= 0.0
  {
    var h := b.w / 2.0;
    if dx > 0.0 {
      assert h * dx >= 0.0;
    } else {
      assert -h * dx >= 0.0;
    }
  }

  /** The point half a height from the centre of `b`, towards direction (dx, dy), is on a
      horizontal edge of `b` and faces that direction. */
  lemma HorizontalEdgePoint(b: Box, dx: real, dy: real)
    requires Sized(b) && dy != 0.0
    ensures var p := Point(b.center.x, b.center.y + Sign(dy) * (b.h / 2.0));
      OnEdge(p, b) && (p.x - b.center.x) * dx + (p.y - b.center.y) * dy >= 0.0
  {
    var h := b.h / 2.0;
    if dy > 0.0 {
      assert h * dy >= 0.0;
    } else {
      assert -h * dy >= 0.0;
    }
  }

  /** Secondary and tertiary endpoints lie on the centre-to-centre line, on the edge of the
      dominant axis (|offset| is half the width, or half the height), facing the other anchor. */
  lemma LineEndpointsOnCentreLine(a: Box, b: Box)
    requires Sized(a) && Sized(b)
    ensures var (from, to) := LineEndpoints(a, b);
      && Collinear(a.center, from, b.center) && Collinear(b.center, to, a.center)
      && Faces(from, a, b.center) && Faces(to, b, a.center)
      && (Abs(b.center.x - a.center.x) > Abs(b.center.y - a.center.y) ==>
            Abs(from.x - a.center.x) == a.w / 2.0 && Abs(to.x - b.center.x) == b.w / 2.0)
      && (Abs(b.center.x - a.center.x) <= Abs(b.center.y - a.center.y) && a.center != b.center ==>
            Abs(from.y - a.center.y) == a.h / 2.0 && Abs(to.y - b.center.y) == b.h / 2.0)
  {
    LineStartOnCentreLine(a, b);
    LineStartOnCentreLine(b, a);
    LineEndpointsSymmetric(a, b);
  }

  /** The end of the a-to-b path is the start of the b-to-a path. */
  lemma LineEndpointsSymmetric(a: Box, b: Box)
    ensures LineEndpoints(a, b).1 == LineEndpoints(b, a).0
  {
    var dx := b.center.x - a.center.x;
    var dy := b.center.y - a.center.y;
    if Abs(dx) > Abs(dy) {
      WideSymmetric(a, b);
    } else if !(dx == 0.0 && dy == 0.0) {
      TallSymmetric(a, b);
    }
  }

  lemma WideSymmetric(a: Box, b: Box)
    requires Abs(b.center.x - a.center.x) > Abs(b.center.y - a.center.y)
    ensures LineEndpoints(a, b).1 == LineEndpoints(b, a).0
  {
    var dx := b.center.x - a.center.x;
    var dy := b.center.y - a.center.y;
    var m := dy / dx;
    NegatedRatio(dy, dx);
    var h := Sign(dx) * b.w / 2.0;
    assert Sign(-dx) * b.w / 2.0 == -h by {
      if dx > 0.0 {
        assert Sign(dx) == 1.0 && Sign(-dx) == -1.0;
      } else {
        assert Sign(dx) == -1.0 && Sign(-dx) == 1.0;
      }
    }
    NegatedProduct(m, h);
    assert a.center.x - b.center.x == -dx && a.center.y - b.center.y == -dy;
    assert Abs(-dx) > Abs(-dy);
    assert LineEndpoints(a, b).1 == Point(b.center.x - h, b.center.y - m * h);
    assert LineEndpoints(b, a).0 == Point(b.center.x + -h, b.center.y + ((-dy) / (-dx)) * -h);
  }

  lemma TallSymmetric(a: Box, b: Box)
    requires Abs(b.center.x - a.center.x) <= Abs(b.center.y - a.center.y)
    requires !(b.center.x - a.center.x == 0.0 && b.center.y - a.center.y == 0.0)
    ensures LineEndpoints(a, b).1 == LineEndpoints(b, a).0
  {
    var dx := b.center.x - a.center.x;
    var dy := b.center.y - a.center.y;
    var m := dx / dy;
    NegatedRatio(dx, dy);
    var h := Sign(dy) * b.h / 2.0;
    assert Sign(-dy) * b.h / 2.0 == -h by {
      if dy > 0.0 {
        assert Sign(dy) == 1.0 && Sign(-dy) == -1.0;
      } else {
        assert Sign(dy) == -1.0 && Sign(-dy) == 1.0;
      }
    }
    NegatedProduct(h, m);
    assert a.center.x - b.center.x == -dx && a.center.y - b.center.y == -dy;
    assert !(Abs(-dx) > Abs(-dy)) && !(-dx == 0.0 && -dy == 0.0);
    assert LineEndpoints(a, b).1 == Point(b.center.x - h * m, b.center.y - h);
    assert LineEndpoints(b, a).0 == Point(b.center.x + -h * ((-dx) / (-dy)), b.center.y + -h);
  }

  lemma NegatedRatio(n: real, d: real)
    requires d != 0.0
    ensures (-n) / (-d) == n / d
  {
  }

  lemma NegatedProduct(u: real, v: real)
    ensures u * -v == -(u * v) && -u * v == -(u * v)
  {
  }

  /** The start of a secondary or tertiary path, relative to its own anchor. */
  lemma LineStartOnCentreLine(a: Box, b: Box)
    requires Sized(a)
    ensures var from := LineEndpoints(a, b).0;
      && Collinear(a.center, from, b.center)
      && Faces(from, a, b.center)
      && (Abs(b.center.x - a.center.x) > Abs(b.center.y - a.center.y) ==>
            Abs(from.x - a.center.x) == a.w / 2.0)
      && (Abs(b.center.x - a.center.x) <= Abs(b.center.y - a.center.y) && a.center != b.center ==>
            Abs(from.y - a.center.y) == a.h / 2.0)
  {
    var dx := b.center.x - a.center.x;
    var dy := b.center.y - a.center.y;
    if Abs(dx) > Abs(dy) {
      WideStart(a, b);
    } else if !(dx == 0.0 && dy == 0.0) {
      TallStart(a, b);
    }
  }

  lemma WideStart(a: Box, b: Box)
    requires Sized(a)
    requires Abs(b.center.x - a.center.x) > Abs(b.center.y - a.center.y)
    ensures var from := LineEndpoints(a, b).0;
      && Collinear(a.center, from, b.center)
      && Faces(from, a, b.center)
      && Abs(from.x - a.center.x) == a.w / 2.0
  {
    var dx := b.center.x - a.center.x;
    var dy := b.center.y - a.center.y;
    var k := Sign(dx) * a.w / 2.0;
    assert LineEndpoints(a, b).0 == Point(a.center.x + k, a.center.y + (dy / dx) * k);
    EdgeCrossing(a.center, b.center, a.w, k);
  }

  lemma TallStart(a: Box, b: Box)
    requires Sized(a)
    requires Abs(b.center.x - a.center.x) <= Abs(b.center.y - a.center.y)
    requires a.center != b.center
    ensures var from := LineEndpoints(a, b).0;
      && Collinear(a.center, from, b.center)
      && Faces(from, a, b.center)
      && Abs(from.y - a.center.y) == a.h / 2.0
  {
    var dx := b.center.x - a.center.x;
    var dy := b.center.y - a.center.y;
    var k := Sign(dy) * a.h / 2.0;
    assert LineEndpoints(a, b).0 == Point(a.center.x + k * (dx / dy), a.center.y + k);
    var c', t' := Point(a.center.y, a.center.x), Point(b.center.y, b.center.x);
    EdgeCrossing(c', t', a.h, k);
  }

  /** Moving from `c` by `k`, half of `size` signed towards `t`, along the first axis, and by
      the matching amount along the second, stays on the line from `c` to `t`, faces `t`, and
      ends half of `size` away along the first axis. */
  lemma EdgeCrossing(c: Point, t: Point, size: real, k: real)
    requires size >= 0.0 && t.x != c.x
    requires k == Sign(t.x - c.x) * size / 2.0
    ensures var p := Point(c.x + k, c.y + ((t.y - c.y) / (t.x - c.x)) * k);
      && (p.y - c.y) * (t.x - c.x) == (p.x - c.x) * (t.y - c.y)
      && (p.x - c.x) * (t.x - c.x) + (p.y - c.y) * (t.y - c.y) >= 0.0
      && Abs(p.x - c.x) == size / 2.0
  {
    var p := Point(c.x + k, c.y + ((t.y - c.y) / (t.x - c.x)) * k);
    HalfTowards(size, t.x - c.x);
    OffsetOnLine(c, p, t.x - c.x, t.y - c.y, k);
  }

  /** Half of a non-negative size, signed like `d`: its magnitude is the half size and it
      points along `d`. */
  lemma HalfTowards(size: real, d: real)
    requires size >= 0.0 && d != 0.0
    ensures Abs(Sign(d) * size / 2.0) == size / 2.0
    ensures Sign(d) * size / 2.0 * d >= 0.0
  {
    if d > 0.0 {
      assert Sign(d) * size / 2.0 == size / 2.0;
    } else {
      assert Sign(d) * size / 2.0 == -(size / 2.0);
      assert -(size / 2.0) * d == (size / 2.0) * -d;
    }
  }

  /** `p` is `c` moved by `k` along the first axis and by `k * v / u` along the second: it is
      on the line through `c` with direction (u, v), on the side that direction points to
      when `k` has the sign of `u`. */
  lemma OffsetOnLine(c: Point, p: Point, u: real, v: real, k: real)
    requires u != 0.0
    requires p.x - c.x == k && p.y - c.y == (v / u) * k
    requires k * u >= 0.0
    ensures (p.y - c.y) * u == (p.x - c.x) * v
    ensures (p.x - c.x) * u + (p.y - c.y) * v >= 0.0
  {
    SlopeOffset(k, u, v);
    assert (v / u) * k == k * (v / u);
  }

  /** The offset (k, k * v / u) is parallel to (u, v), and points the same way when k * u >= 0. */
  lemma SlopeOffset(k: real, u: real, v: real)
    requires u != 0.0
    ensures (k * (v / u)) * u == k * v
    ensures k * u >= 0.0 ==> k * u + (k * (v / u)) * v >= 0.0
  {
    var m := v / u;
    assert m * u == v;
    calc {
      (k * m) * v;
      (k * m) * (m * u);
      (k * u) * (m * m);
    }
    if k * u >= 0.0 {
      assert (k * u) * (m * m) >= 0.0;
    }
  }

  function Endpoints(imp: Importance, a: Box, b: Box): (Point, Point) {
    if imp == Primary then PrimaryEndpoints(a, b) else LineEndpoints(a, b)
  }

  /** How far the Bezier control points are pushed off the endpoints: a tenth of the
      distance clamped to [3, 15] for primary connections, 15% clamped to [5, 20] otherwise. */
  function CurveFactor(imp: Importance, distance: real): (f: real)
    ensures imp == Primary ==> 3.0 <= f <= 15.0
    ensures imp != Primary ==> 5.0 <= f <= 20.0
    ensures imp == Primary && 30.0 <= distance <= 150.0 ==> f == distance * 0.1
    ensures imp != Primary && 100.0 / 3.0 <= distance <= 400.0 / 3.0 ==> f == distance * 0.15
    ensures imp == Primary && distance <= 30.0 ==> f == 3.0
    ensures imp == Primary && distance >= 150.0 ==> f == 15.0
    ensures imp != Primary && distance <= 100.0 / 3.0 ==> f == 5.0
    ensures imp != Primary && distance >= 400.0 / 3.0 ==> f == 20.0
  {
    if imp == Primary then MinR(MaxR(distance * 0.1, 3.0), 15.0)
    else MinR(MaxR(distance * 0.15, 5.0), 20.0)
  }

  /** How far a "line" path bows upwards at its midpoint: 2% of the distance, at most 2. */
  function Bow(distance: NonNeg): (bow: real)
    ensures 0.0 <= bow <= 2.0
    ensures bow <= 0.02 * distance
    ensures distance <= 100.0 ==> bow == 0.02 * distance
    ensures distance >= 100.0 ==> bow == 2.0
  {
    MinR(distance * 0.02, 2.0)
  }

  /** The cubic Bezier of a "curve": control points at 30% and 70% of the way in x, pushed
      off the endpoints' y by `f`, upwards when the source centre is below the target's. */
  function CurvedPath(from: Point, to: Point, f: real, up: bool): (r: Path)
    requires f > 0.0
    ensures r.Cubic? && r.start == from && r.end == to
    ensures r.c1.x - from.x == 0.3 * (to.x - from.x) && r.c2.x - from.x == 0.7 * (to.x - from.x)
    ensures Abs(r.c1.y - from.y) == f && Abs(r.c2.y - to.y) == f
    ensures r.c1.y < from.y <==> up
    ensures r.c2.y < to.y <==> up
  {
    Cubic(from,
          Point(from.x + (to.x - from.x) * 0.3, if up then from.y - f else from.y + f),
          Point(from.x + (to.x - from.x) * 0.7, if up then to.y - f else to.y + f),
          to)
  }

  /** The quadratic Bezier of a "line": the control point is the midpoint lifted by `bow`. */
  function BowedPath(from: Point, to: Point, bow: real): (r: Path)
    ensures r.Quadratic? && r.start == from && r.end == to
    ensures r.control.x == (from.x + to.x) / 2.0
    ensures (from.y + to.y) / 2.0 - r.control.y == bow
  {
    var mid := Point((from.x + to.x) / 2.0, (from.y + to.y) / 2.0);
    Quadratic(from, Point(mid.x, mid.y - bow), to)
  }

  /** The path of one connection between two resolved anchors. At the low tier it is a
      straight segment between the centres. Otherwise a "curve" becomes a cubic Bezier and a
      "line" a quadratic one. (The source's final straight-segment fallback is reached only by a
      "curve" at the low tier, which returned earlier, so it has no case here.) */
  function ConnectionPath(t: Tier, conn: Connection, a: Box, b: Box, distance: NonNeg): (r: Path)
    ensures t == Low <==> r.Segment?
    ensures t == Low ==> r.start == a.center && r.end == b.center
    ensures t != Low ==> (r.start, r.end) == Endpoints(conn.importance, a, b)
    ensures r.Cubic? <==> t != Low && conn.kind == Curve
    ensures r.Cubic? ==>
      && r.c1.x - r.start.x == 0.3 * (r.end.x - r.start.x)
      && r.c2.x - r.start.x == 0.7 * (r.end.x - r.start.x)
      && Abs(r.c1.y - r.start.y) == Abs(r.c2.y - r.end.y)
      && (r.c1.y < r.start.y <==> a.center.y > b.center.y)
      && (r.c2.y < r.end.y <==> a.center.y > b.center.y)
      && (conn.importance == Primary ==> 3.0 <= Abs(r.c1.y - r.start.y) <= 15.0)
      && (conn.importance != Primary ==> 5.0 <= Abs(r.c1.y - r.start.y) <= 20.0)
    ensures r.Quadratic? <==> t != Low && conn.kind == Line
    ensures r.Quadratic? ==>
      && r.control.x == (r.start.x + r.end.x) / 2.0
      && (r.start.y + r.end.y) / 2.0 - 2.0 <= r.control.y <= (r.start.y + r.end.y) / 2.0
      && (r.start.y + r.end.y) / 2.0 - r.control.y <= 0.02 * distance
  {
    if t == Low then Segment(a.center, b.center)
    else
      var ends := Endpoints(conn.importance, a, b);
      match conn.kind
      case Curve => CurvedPath(ends.0, ends.1, CurveFactor(conn.importance, distance), a.center.y > b.center.y)
      case Line => BowedPath(ends.0, ends.1, Bow(distance))
  }

  /** Both anchors of a connection are mounted. */
  predicate Resolvable(anchors: map<string, Rect>, conn: Connection) {
    conn.from in anchors && conn.to in anchors
  }

  /** The geometry for the connection at position `index` of the selected list, or None when
      an anchor is missing. `hypot` stands for `Math.sqrt(dx*dx + dy*dy)`. */
  function GeometryAt(t: Tier, c: Rect, anchors: map<string, Rect>, conns: seq<Connection>,
                      index: nat, hypot: (real, real) -> NonNeg): Option<PathGeometry>
    requires ValidContainer(c)
    requires index < |conns|
  {
    var conn := conns[index];
    if !Resolvable(anchors, conn) then None
    else
      var a := ToPercent(anchors[conn.from], c);
      var b := ToPercent(anchors[conn.to], c);
      var d := hypot(b.center.x - a.center.x, b.center.y - a.center.y);
      Some(PathGeometry(index, ConnectionPath(t, conn, a, b, d), conn.importance, conn.kind))
  }

  function Ids(paths: seq<PathGeometry>): set<nat> {
    set k | 0 <= k < |paths| :: paths[k].id
  }

  /** Recomputes the path list. A missing container leaves the previous list in place;
      otherwise every connection with both anchors mounted yields its geometry, in list order,
      with the position in the selected list as its id, and the others yield nothing. */
  method BuildPaths(t: Tier, container: Option<Rect>, anchors: map<string, Rect>,
                    conns: seq<Connection>, hypot: (real, real) -> NonNeg,
                    previous: seq<PathGeometry>) returns (paths: seq<PathGeometry>)
    requires container.Some? ==> ValidContainer(container.value)
    ensures container.None? ==> paths == previous
    ensures container.Some? ==>
      && |paths| <= |conns|
      && (forall k :: 0 <= k < |paths| ==> paths[k].id < |conns|)
      && (forall k :: 0 <= k < |paths| ==>
            GeometryAt(t, container.value, anchors, conns, paths[k].id, hypot) == Some(paths[k]))
      && (forall k, l :: 0 <= k < l < |paths| ==> paths[k].id < paths[l].id)
      && (forall i :: 0 <= i < |conns| ==> (Resolvable(anchors, conns[i]) <==> i in Ids(paths)))
  {
    if container.None? {
      return previous;
    }
    var c := container.value;
    paths := [];
    var i := 0;
    while i < |conns|
      invariant 0 <= i <= |conns|
      invariant |paths| <= i
      invariant forall k :: 0 <= k < |paths| ==> paths[k].id < i
      invariant forall k :: 0 <= k < |paths| ==>
        GeometryAt(t, c, anchors, conns, paths[k].id, hypot) == Some(paths[k])
      invariant forall k, l :: 0 <= k < l < |paths| ==> paths[k].id < paths[l].id
      invariant forall j :: 0 <= j < i ==> (Resolvable(anchors, conns[j]) <==> j in Ids(paths))
    {
      var g := GeometryAt(t, c, anchors, conns, i, hypot);
      if g.Some? {
        assert g.value.id == i;
        IdsAppend(paths, g.value);
        paths := paths + [g.value];
      }
      i := i + 1;
    }
  }

  lemma IdsAppend(paths: seq<PathGeometry>, g: PathGeometry)
    ensures Ids(paths + [g]) == Ids(paths) + {g.id}
  {
    var s := paths + [g];
    forall id | id in Ids(s) ensures id in Ids(paths) + {g.id} {
      var k :| 0 <= k < |s| && s[k].id == id;
      if k < |paths| {
        assert paths[k].id == id;
      }
    }
    forall id | id in Ids(paths) + {g.id} ensures id in Ids(s) {
      if id == g.id {
        assert s[|paths|].id == id;
      } else {
        var k :| 0 <= k < |paths| && paths[k].id == id;
        assert s[k].id == id;
      }
    }
  }

  /** A 1000x500 container with anchor A at (0, 200, 100x50) and anchor B at (800, 200, 100x50):
      the primary A-to-B connection runs from the right edge of A, at 10% / 45%, to the left
      edge of B, at 80% / 45%, whatever the tier above low and whatever the distance oracle. */
  lemma SideBySideAnchors(t: Tier, kind: PathKind, hypot: (real, real) -> NonNeg)
    requires t != Low
    ensures var c := Rect(0.0, 0.0, 1000.0, 500.0);
      var anchors := map["A" := Rect(0.0, 200.0, 100.0, 50.0), "B" := Rect(800.0, 200.0, 100.0, 50.0)];
      var g := GeometryAt(t, c, anchors, [Connection("A", "B", kind, Primary)], 0, hypot);
      && g.Some?
      && g.value.id == 0
      && g.value.path.start == Point(10.0, 45.0)
      && g.value.path.end == Point(80.0, 45.0)
  {
    var c := Rect(0.0, 0.0, 1000.0, 500.0);
    var a := ToPercent(Rect(0.0, 200.0, 100.0, 50.0), c);
    var b := ToPercent(Rect(800.0, 200.0, 100.0, 50.0), c);
    assert a == Box(Point(5.0, 45.0), 10.0, 10.0);
    assert b == Box(Point(85.0, 45.0), 10.0, 10.0);
    assert PrimaryEndpoints(a, b) == (Point(10.0, 45.0), Point(80.0, 45.0));
  }
}
