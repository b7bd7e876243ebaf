/** Quadratic curves and segments over the reals, with squared distances in place of roots
    (web/src/netgraphPrepared.ts). */
module Geometry {

  datatype Point = Point(x: real, y: real)

  function Min(a: real, b: real): real { if a < b then a else b }

  function Max(a: real, b: real): real { if a > b then a else b }

  function Clamp(t: real): real { Max(0.0, Min(1.0, t)) }

  function SquaredDistance(p: Point, q: Point): real { (p.x - q.x) * (p.x - q.x) + (p.y - q.y) * (p.y - q.y) }

  function Mix(a: real, b: real, t: real): real { a + t * (b - a) }

  // ---------------------------------------------------------------------------
  // Curves
  // ---------------------------------------------------------------------------

  function CurveAt(a: real, c: real, b: real, t: real): real {
    (1.0 - t) * (1.0 - t) * a + 2.0 * (1.0 - t) * t * c + t * t * b
  }

  /** pointOnPreparedEdge */
  function CurvePoint(source: Point, control: Point, target: Point, progress: real): Point {
    var t := Clamp(progress);
    Point(CurveAt(source.x, control.x, target.x, t), CurveAt(source.y, control.y, target.y, t))
  }

  lemma MixUp(a: real, b: real, t: real)
    requires 0.0 <= t <= 1.0 && a <= b
    ensures a <= Mix(a, b, t) <= b
  {
    var d := b - a;
    assert Mix(a, b, t) == a + t * d;
  }

  lemma MixDown(a: real, b: real, t: real)
    requires 0.0 <= t <= 1.0 && b <= a
    ensures b <= Mix(a, b, t) <= a
  {
    var d := a - b;
    assert Mix(a, b, t) == a - t * d;
  }

  lemma MixWithin(a: real, b: real, t: real, lo: real, hi: real)
    requires 0.0 <= t <= 1.0 && lo <= a <= hi && lo <= b <= hi
    ensures lo <= Mix(a, b, t) <= hi
  {
    var m := Mix(a, b, t);
    if a <= b {
      MixUp(a, b, t);
      assert lo <= a <= m <= b <= hi;
    } else {
      MixDown(a, b, t);
      assert lo <= b <= m <= a <= hi;
    }
  }

  /** Mixing leads from a to b, in proportion to t. */
  lemma MixProportion(a: real, b: real, t: real)
    ensures Mix(a, b, 0.0) == a && Mix(a, b, 1.0) == b
    ensures Mix(a, b, t) - a == t * (b - a) && b - Mix(a, b, t) == (1.0 - t) * (b - a)
  {
    var d := b - a;
    assert (1.0 - t) * d == d - t * d;
  }

  /** A point of the curve is the repeated mixture of its three points, as de Casteljau constructs it. */
  lemma CurveIsMix(a: real, c: real, b: real, t: real)
    ensures CurveAt(a, c, b, t) == Mix(Mix(a, c, t), Mix(c, b, t), t)
  {
    var u := 1.0 - t;
    MixSum(a, c, t);
    MixSum(c, b, t);
    MixSum(Mix(a, c, t), Mix(c, b, t), t);
    Distributed(u, u * a, t * c);
    Distributed(t, u * c, t * b);
    assert u * (u * a) == u * u * a && u * (t * c) == u * t * c && t * (u * c) == u * t * c;
    assert t * (t * b) == t * t * b && 2.0 * u * t * c == u * t * c + u * t * c;
  }

  lemma MixSum(a: real, b: real, t: real)
    ensures Mix(a, b, t) == (1.0 - t) * a + t * b
  {
  }

  lemma Distributed(k: real, x: real, y: real)
    ensures k * (x + y) == k * x + k * y
  {
  }

  /** Progress before the start or beyond the end stays there. */
  lemma CurveEnds(source: Point, control: Point, target: Point, progress: real)
    ensures progress <= 0.0 ==> CurvePoint(source, control, target, progress) == source
    ensures progress >= 1.0 ==> CurvePoint(source, control, target, progress) == target
  {
  }

  /** Between them the point is the mixture at that progress, in both coordinates. */
  lemma CurveBetween(source: Point, control: Point, target: Point, t: real)
    requires 0.0 <= t <= 1.0
    ensures CurvePoint(source, control, target, t) ==
            Point(Mix(Mix(source.x, control.x, t), Mix(control.x, target.x, t), t),
                  Mix(Mix(source.y, control.y, t), Mix(control.y, target.y, t), t))
  {
    CurveIsMix(source.x, control.x, target.x, t);
    CurveIsMix(source.y, control.y, target.y, t);
  }

  /** Distances along the axes are plain, and add up by Pythagoras. */
  lemma Pythagoras(p: Point, q: Point)
    ensures var corner := Point(q.x, p.y);
            && SquaredDistance(p, q) == SquaredDistance(p, corner) + SquaredDistance(corner, q)
            && SquaredDistance(p, corner) == (p.x - q.x) * (p.x - q.x)
            && SquaredDistance(corner, q) == (p.y - q.y) * (p.y - q.y)
  {
  }

  /** The curve stays within any bounds of its three points. */
  lemma CurveWithin(a: real, c: real, b: real, t: real, lo: real, hi: real)
    requires 0.0 <= t <= 1.0 && lo <= a <= hi && lo <= c <= hi && lo <= b <= hi
    ensures lo <= CurveAt(a, c, b, t) <= hi
  {
    MixWithin(a, c, t, lo, hi);
    MixWithin(c, b, t, lo, hi);
    MixWithin(Mix(a, c, t), Mix(c, b, t), t, lo, hi);
  }

  // ---------------------------------------------------------------------------
  // Segments
  // ---------------------------------------------------------------------------

  function Dot(p: Point, a: Point, b: Point): real { (p.x - a.x) * (b.x - a.x) + (p.y - a.y) * (b.y - a.y) }

  /** The parameter of the point of a segment that is taken as the closest. */
  function ClosestAt(p: Point, a: Point, b: Point): real {
    var length := SquaredDistance(b, a);
    if length == 0.0 then 0.0 else Clamp(Dot(p, a, b) / length)
  }

  function OnSegment(a: Point, b: Point, t: real): Point { Point(Mix(a.x, b.x, t), Mix(a.y, b.y, t)) }

  /** distanceToSegment, squared */
  function SegmentDistance(p: Point, a: Point, b: Point): real {
    SquaredDistance(p, OnSegment(a, b, ClosestAt(p, a, b)))
  }

  lemma GapToSegment(p: Point, a: Point, b: Point, t: real)
    ensures var u, v, du, dv := p.x - a.x, p.y - a.y, b.x - a.x, b.y - a.y;
            SquaredDistance(p, OnSegment(a, b, t)) == (u - t * du) * (u - t * du) + (v - t * dv) * (v - t * dv)
  {
  }

  /** The squared distance to a point of a segment, as a quadratic in its parameter. */
  lemma AlongSegment(p: Point, a: Point, b: Point, t: real)
    ensures SquaredDistance(p, OnSegment(a, b, t)) ==
            SquaredDistance(p, a) - 2.0 * (t * Dot(p, a, b)) + t * t * SquaredDistance(b, a)
  {
    var u, v, du, dv := p.x - a.x, p.y - a.y, b.x - a.x, b.y - a.y;
    GapToSegment(p, a, b, t);
    SquareOfGap(u, du, t);
    SquareOfGap(v, dv, t);
    Spread(t, u * du, v * dv);
    Spread(t * t, du * du, dv * dv);
  }

  lemma SquareOfGap(u: real, d: real, t: real)
    ensures (u - t * d) * (u - t * d) == u * u - 2.0 * (t * (u * d)) + t * t * (d * d)
  {
    assert (u - t * d) * (u - t * d) == u * u - u * (t * d) - (t * d) * u + (t * d) * (t * d);
    assert u * (t * d) == t * (u * d);
    assert (t * d) * (t * d) == t * t * (d * d);
  }

  lemma Spread(t: real, a: real, b: real)
    ensures t * (a + b) == t * a + t * b
  {
  }

  lemma ProductSign(x: real, y: real)
    requires (x >= 0.0 && y >= 0.0) || (x <= 0.0 && y <= 0.0)
    ensures x * y >= 0.0
  {
    if x <= 0.0 && y <= 0.0 { assert x * y == (-x) * (-y); }
  }

  /** Clamping the unconstrained minimum gives the minimum on [0, 1]. */
  lemma ClampIsLeast(m: real, l: real, s: real)
    requires l > 0.0 && 0.0 <= s <= 1.0
    ensures var t := Clamp(m / l); t * t * l - 2.0 * (t * m) <= s * s * l - 2.0 * (s * m)
  {
    var r := m / l;
    var t := Clamp(r);
    assert r * l == m;
    var k := (s + t) * l - 2.0 * m;
    assert k == (s + t - 2.0 * r) * l by {
      assert (s + t - 2.0 * r) * l == (s + t) * l - 2.0 * (r * l);
    }
    if r < 0.0 {
      ProductSign(s + t - 2.0 * r, l);
      ProductSign(s - t, k);
    } else if r > 1.0 {
      ProductSign(2.0 * r - s - t, l);
      assert (2.0 * r - s - t) * l == -k;
      ProductSign(s - t, k);
    } else {
      assert s + t - 2.0 * r == s - t;
      if s >= t {
        ProductSign(s - t, l);
      } else {
        ProductSign(t - s, l);
        assert (t - s) * l == -k;
      }
      ProductSign(s - t, k);
    }
  }

  lemma ZeroSquare(x: real)
    requires x * x <= 0.0
    ensures x == 0.0
  {
    Root(x, 0.0);
    assert (-x) * (-x) == x * x;
    Root(-x, 0.0);
  }

  lemma Root(x: real, h: real)
    requires 0.0 <= h && x * x <= h * h
    ensures x <= h
  {
    if x > h {
      assert (x - h) * (x + h) == x * x - h * h;
      Positive(x - h, x + h);
    }
  }

  lemma Positive(x: real, y: real)
    requires x > 0.0 && y > 0.0
    ensures x * y > 0.0
  {
  }

  /** A segment of length zero is a point. */
  lemma PointSegment(a: Point, b: Point, t: real)
    requires SquaredDistance(b, a) == 0.0
    ensures OnSegment(a, b, t) == a
  {
    ZeroSquare(b.x - a.x);
    ZeroSquare(b.y - a.y);
  }

  lemma LengthNonNegative(a: Point, b: Point)
    ensures SquaredDistance(b, a) >= 0.0
  {
  }

  /** No point of the segment is closer. */
  lemma SegmentDistanceIsLeast(p: Point, a: Point, b: Point, s: real)
    requires 0.0 <= s <= 1.0
    ensures SegmentDistance(p, a, b) <= SquaredDistance(p, OnSegment(a, b, s))
  {
    var l := SquaredDistance(b, a);
    LengthNonNegative(a, b);
    if l == 0.0 {
      PointSegment(a, b, s);
      PointSegment(a, b, ClosestAt(p, a, b));
    } else {
      CloserThan(p, a, b, s, ClosestAt(p, a, b));
    }
  }

  lemma CloserThan(p: Point, a: Point, b: Point, s: real, t: real)
    requires 0.0 <= s <= 1.0 && SquaredDistance(b, a) > 0.0 && t == Clamp(Dot(p, a, b) / SquaredDistance(b, a))
    ensures SquaredDistance(p, OnSegment(a, b, t)) <= SquaredDistance(p, OnSegment(a, b, s))
  {
    AlongSegment(p, a, b, s);
    AlongSegment(p, a, b, t);
    ClampIsLeast(Dot(p, a, b), SquaredDistance(b, a), s);
  }

  lemma SquareBound(x: real, h: real)
    requires 0.0 <= h && x * x <= h * h
    ensures -h <= x <= h
  {
    Root(x, h);
    assert (-x) * (-x) == x * x;
    Root(-x, h);
  }

  /** Within distance h means within h along each axis. */
  lemma NearAlongAxes(p: Point, q: Point, h: real)
    requires 0.0 <= h && SquaredDistance(p, q) <= h * h
    ensures p.x - h <= q.x <= p.x + h && p.y - h <= q.y <= p.y + h
  {
    SquareBound(p.x - q.x, h);
    SquareBound(p.y - q.y, h);
  }
}
