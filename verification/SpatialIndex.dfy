/** The grid index of the network graph and hit-testing through it (web/src/netgraphPrepared.ts). */
module SpatialIndex {
  import opened Shared
  import opened Geometry

  datatype Bounds = Bounds(minX: real, minY: real, maxX: real, maxY: real)

  type Cell = (int, int)

  type Buckets = map<Cell, seq<int>>

  datatype Grid = Grid(cellSize: real, buckets: Buckets)

  function CellOf(v: real, size: real): int
    requires size > 0.0
  {
    (v / size).Floor
  }

  /** Cell k holds the values from k times the size up to, and without, the next multiple. */
  lemma CellIsInterval(v: real, size: real, k: int)
    requires size > 0.0
    ensures CellOf(v, size) == k <==> k as real * size <= v < (k + 1) as real * size
  {
    AtMost(k as real, v, size);
    AtMost((k + 1) as real, v, size);
  }

  lemma AtMost(a: real, v: real, size: real)
    requires size > 0.0
    ensures a <= v / size <==> a * size <= v
  {
    var q := v / size;
    var d := q - a;
    assert v == q * size == a * size + d * size;
    if d >= 0.0 { assert d * size >= 0.0; } else { assert d * size < 0.0; }
  }

  predicate Covers(b: Bounds, size: real, c: Cell)
    requires size > 0.0
  {
    CellOf(b.minX, size) <= c.0 <= CellOf(b.maxX, size) && CellOf(b.minY, size) <= c.1 <= CellOf(b.maxY, size)
  }

  predicate Holds(buckets: Buckets, c: Cell, item: int) { c in buckets && item in buckets[c] }

  // ---------------------------------------------------------------------------
  // Building
  // ---------------------------------------------------------------------------

  function Bucket(buckets: Buckets, c: Cell): seq<int> { if c in buckets then buckets[c] else [] }

  /** The cells of a rectangle visited before (x, y), row by row. */
  predicate Visited(c: Cell, x0: int, x1: int, y0: int, x: int, y: int) {
    x0 <= c.0 <= x1 && y0 <= c.1 && (c.1 < y || (c.1 == y && c.0 < x))
  }

  ghost predicate Added(before: Buckets, after: Buckets, item: int, x0: int, x1: int, y0: int, x: int, y: int) {
    forall c, i :: Holds(after, c, i) <==> Holds(before, c, i) || (i == item && Visited(c, x0, x1, y0, x, y))
  }

  lemma AddCell(before: Buckets, after: Buckets, item: int, x0: int, x1: int, y0: int, x: int, y: int)
    requires Added(before, after, item, x0, x1, y0, x, y) && x0 <= x <= x1 && y0 <= y
    ensures Added(before, after[(x, y) := Bucket(after, (x, y)) + [item]], item, x0, x1, y0, x + 1, y)
  {
    var next := after[(x, y) := Bucket(after, (x, y)) + [item]];
    forall c, i ensures Holds(next, c, i) <==> Holds(before, c, i) || (i == item && Visited(c, x0, x1, y0, x + 1, y)) {
      assert Holds(next, c, i) <==> Holds(after, c, i) || (c == (x, y) && i == item);
    }
  }

  /** addIndexToBounds: the item goes into exactly the cells its box covers. */
  method AddIndexToBounds(buckets: Buckets, cellSize: real, bounds: Bounds, item: int) returns (r: Buckets)
    requires cellSize > 0.0
    ensures forall c, i :: Holds(r, c, i) <==> Holds(buckets, c, i) || (i == item && Covers(bounds, cellSize, c))
  {
    var minCellX, maxCellX := CellOf(bounds.minX, cellSize), CellOf(bounds.maxX, cellSize);
    var minCellY, maxCellY := CellOf(bounds.minY, cellSize), CellOf(bounds.maxY, cellSize);
    r := buckets;
    var cellY := minCellY;
    while cellY <= maxCellY
      invariant minCellY <= cellY && (cellY <= maxCellY + 1 || cellY == minCellY)
      invariant Added(buckets, r, item, minCellX, maxCellX, minCellY, minCellX, cellY)
    {
      var cellX := minCellX;
      while cellX <= maxCellX
        invariant minCellX <= cellX
        invariant Added(buckets, r, item, minCellX, maxCellX, minCellY, cellX, cellY)
      {
        AddCell(buckets, r, item, minCellX, maxCellX, minCellY, cellX, cellY);
        r := r[(cellX, cellY) := Bucket(r, (cellX, cellY)) + [item]];
        cellX := cellX + 1;
      }
      cellY := cellY + 1;
    }
    forall c, i ensures Holds(r, c, i) <==> Holds(buckets, c, i) || (i == item && Covers(bounds, cellSize, c)) {}
  }

  /** Each box is in exactly the cells it covers. */
  ghost predicate Indexes(g: Grid, boxes: seq<Bounds>) {
    && g.cellSize > 0.0
    && forall c, i :: Holds(g.buckets, c, i) <==> 0 <= i < |boxes| && Covers(boxes[i], g.cellSize, c)
  }

  method IndexBoxes(boxes: seq<Bounds>, cellSize: real) returns (g: Grid)
    requires cellSize > 0.0
    ensures Indexes(g, boxes) && g.cellSize == cellSize
  {
    var buckets: Buckets := map[];
    for k := 0 to |boxes|
      invariant forall c, i :: Holds(buckets, c, i) <==> 0 <= i < k && Covers(boxes[i], cellSize, c)
    {
      buckets := AddIndexToBounds(buckets, cellSize, boxes[k], k);
    }
    g := Grid(cellSize, buckets);
  }

  // ---------------------------------------------------------------------------
  // Querying
  // ---------------------------------------------------------------------------

  method Collect(out: seq<int>, bucket: seq<int>) returns (r: seq<int>)
    requires Distinct(out)
    ensures Distinct(r) && forall i :: i in r <==> i in out || i in bucket
  {
    r := out;
    for k := 0 to |bucket|
      invariant Distinct(r) && forall i :: i in r <==> i in out || i in bucket[..k]
    {
      assert bucket[..k + 1] == bucket[..k] + [bucket[k]];
      if bucket[k] !in r { r := r + [bucket[k]]; }
    }
    assert bucket[..|bucket|] == bucket;
  }

  ghost predicate Found(out: seq<int>, buckets: Buckets, x0: int, x1: int, y0: int, x: int, y: int) {
    && Distinct(out)
    && (forall c, i :: Visited(c, x0, x1, y0, x, y) && Holds(buckets, c, i) ==> i in out)
    && (forall i :: i in out ==> exists c :: Visited(c, x0, x1, y0, x, y) && Holds(buckets, c, i))
  }

  lemma VisitCell(out: seq<int>, next: seq<int>, buckets: Buckets, x0: int, x1: int, y0: int, x: int, y: int)
    requires Found(out, buckets, x0, x1, y0, x, y) && x0 <= x <= x1 && y0 <= y && Distinct(next)
    requires forall i :: i in next <==> i in out || i in Bucket(buckets, (x, y))
    ensures Found(next, buckets, x0, x1, y0, x + 1, y)
  {
    forall c, i | Visited(c, x0, x1, y0, x + 1, y) && Holds(buckets, c, i) ensures i in next {
      if c != (x, y) { assert Visited(c, x0, x1, y0, x, y); }
    }
    forall i | i in next ensures exists c :: Visited(c, x0, x1, y0, x + 1, y) && Holds(buckets, c, i) {
      if i in out {
        var c :| Visited(c, x0, x1, y0, x, y) && Holds(buckets, c, i);
        assert Visited(c, x0, x1, y0, x + 1, y);
      } else {
        assert Visited((x, y), x0, x1, y0, x + 1, y) && Holds(buckets, (x, y), i);
      }
    }
  }

  /** querySpatialIndex: the items of the covered cells, each once. */
  method QuerySpatialIndex(g: Grid, bounds: Bounds) returns (out: seq<int>)
    requires g.cellSize > 0.0
    ensures Distinct(out)
    ensures forall c, i :: Covers(bounds, g.cellSize, c) && Holds(g.buckets, c, i) ==> i in out
    ensures forall i :: i in out ==> exists c :: Covers(bounds, g.cellSize, c) && Holds(g.buckets, c, i)
  {
    var minCellX, maxCellX := CellOf(bounds.minX, g.cellSize), CellOf(bounds.maxX, g.cellSize);
    var minCellY, maxCellY := CellOf(bounds.minY, g.cellSize), CellOf(bounds.maxY, g.cellSize);
    out := [];
    var cellY := minCellY;
    while cellY <= maxCellY
      invariant minCellY <= cellY && (cellY <= maxCellY + 1 || cellY == minCellY)
      invariant Found(out, g.buckets, minCellX, maxCellX, minCellY, minCellX, cellY)
    {
      var cellX := minCellX;
      while cellX <= maxCellX
        invariant minCellX <= cellX
        invariant Found(out, g.buckets, minCellX, maxCellX, minCellY, cellX, cellY)
      {
        ghost var before := out;
        out := Collect(out, Bucket(g.buckets, (cellX, cellY)));
        VisitCell(before, out, g.buckets, minCellX, maxCellX, minCellY, cellX, cellY);
        cellX := cellX + 1;
      }
      cellY := cellY + 1;
    }
    forall c, i | Covers(bounds, g.cellSize, c) && Holds(g.buckets, c, i) ensures i in out {
      assert Visited(c, minCellX, maxCellX, minCellY, minCellX, cellY);
    }
    forall i | i in out ensures exists c :: Covers(bounds, g.cellSize, c) && Holds(g.buckets, c, i) {
      var c :| Visited(c, minCellX, maxCellX, minCellY, minCellX, cellY) && Holds(g.buckets, c, i);
      assert Covers(bounds, g.cellSize, c);
    }
  }

  // ---------------------------------------------------------------------------
  // Overlapping boxes share a cell
  // ---------------------------------------------------------------------------

  predicate Within(b: Bounds, p: Point) { b.minX <= p.x <= b.maxX && b.minY <= p.y <= b.maxY }

  lemma CellOrder(a: real, b: real, size: real)
    requires size > 0.0 && a <= b
    ensures CellOf(a, size) <= CellOf(b, size)
  {
    assert a / size <= b / size;
  }

  lemma PointInCell(b: Bounds, p: Point, size: real)
    requires size > 0.0 && Within(b, p)
    ensures Covers(b, size, (CellOf(p.x, size), CellOf(p.y, size)))
  {
    CellOrder(b.minX, p.x, size);
    CellOrder(p.x, b.maxX, size);
    CellOrder(b.minY, p.y, size);
    CellOrder(p.y, b.maxY, size);
  }

  /** An item whose box shares a point with the query box is in a bucket the query visits. */
  lemma SharedPointIsFound(g: Grid, boxes: seq<Bounds>, query: Bounds, i: int, p: Point)
    requires Indexes(g, boxes) && 0 <= i < |boxes| && Within(boxes[i], p) && Within(query, p)
    ensures exists c :: Covers(query, g.cellSize, c) && Holds(g.buckets, c, i)
  {
    var c := (CellOf(p.x, g.cellSize), CellOf(p.y, g.cellSize));
    PointInCell(boxes[i], p, g.cellSize);
    PointInCell(query, p, g.cellSize);
    assert Holds(g.buckets, c, i);
  }
}
