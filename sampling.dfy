/** The sample points of a rectangle that are tested against the tile grid
    (`rect_vertexes` in src/Game.py). */
module Sampling {
  import opened Geometry

  /** Stride between sample points along the sides of a large rectangle. */
  const STEP: int := TSIDE - 1

  /** The values of `range(i, n - 1, STEP)`. */
  function OffsetsFrom(i: int, n: int): seq<int>
    decreases n - i
  {
    if i >= n - 1 then [] else [i] + OffsetsFrom(i + STEP, n)
  }

  /** The values of `range(0, n - 1, STEP)`. */
  function Offsets(n: int): seq<int> {
    OffsetsFrom(0, n)
  }

  /** Offsets, from the near edge, of the sample coordinates along a side of
      length n: the stride offsets followed by the inset far edge. */
  function Stops(n: int): seq<int> {
    StopsFrom(0, n)
  }

  /** The stops of a side of length n from stride offset i on. */
  function StopsFrom(i: int, n: int): seq<int> {
    OffsetsFrom(i, n) + [n - 1]
  }

  /** `[(px, y + j) for j in ys]` */
  function Column(px: int, y: int, ys: seq<int>): (c: seq<Point>)
    ensures |c| == |ys|
    ensures forall k :: 0 <= k < |ys| ==> c[k] == Point(px, y + ys[k])
  {
    seq(|ys|, k requires 0 <= k < |ys| => Point(px, y + ys[k]))
  }

  /** `[(x + i, py) for i in xs]` */
  function Row(x: int, py: int, xs: seq<int>): (c: seq<Point>)
    ensures |c| == |xs|
    ensures forall k :: 0 <= k < |xs| ==> c[k] == Point(x + xs[k], py)
  {
    seq(|xs|, k requires 0 <= k < |xs| => Point(x + xs[k], py))
  }

  /** The points the nested loops append: for each i in xs, for each j in ys, (x + i, y + j). */
  function Lattice(x: int, y: int, xs: seq<int>, ys: seq<int>): seq<Point>
    decreases |xs|
  {
    if xs == [] then [] else Lattice(x, y, xs[..|xs| - 1], ys) + Column(x + xs[|xs| - 1], y, ys)
  }

  /** A rectangle wider or taller than one tile. */
  predicate IsLarge(r: Rect) {
    r.w > TSIDE || r.h > TSIDE
  }

  /** The list `rect_vertexes` returns, in the order it builds it. */
  function SamplePoints(r: Rect): seq<Point> {
    if IsLarge(r) then
      [Point(r.Right() - 1, r.y), Point(r.Right() - 1, r.Bottom() - 1)]
      + Lattice(r.x, r.y, Offsets(r.w), Offsets(r.h))
      + Row(r.x, r.Bottom() - 1, Offsets(r.w))
      + Column(r.Right() - 1, r.y, Offsets(r.h))
    else
      [Point(r.x, r.y), Point(r.x, r.Bottom() - 1), Point(r.Right() - 1, r.y), Point(r.Right() - 1, r.Bottom() - 1)]
  }

  /** Advancing a stride loop by one iteration keeps `done` a prefix of the offsets. */
  lemma OffsetsAdvance(done: seq<int>, i: int, n: int)
    requires done + OffsetsFrom(i, n) == Offsets(n)
    ensures i < n - 1 ==> (done + [i]) + OffsetsFrom(i + STEP, n) == Offsets(n)
    ensures i >= n - 1 ==> done == Offsets(n)
  {
  }

  /** A column with one more offset ends with that offset's point. */
  lemma ColumnSnoc(px: int, y: int, ys: seq<int>, j: int)
    ensures Column(px, y, ys + [j]) == Column(px, y, ys) + [Point(px, y + j)]
  {
  }

  /** A row with one more offset ends with that offset's point. */
  lemma RowSnoc(x: int, py: int, xs: seq<int>, i: int)
    ensures Row(x, py, xs + [i]) == Row(x, py, xs) + [Point(x + i, py)]
  {
  }

  /** One `for j in range(0, h - 1, STEP)` loop of `rect_vertexes`: appends
      (px, y + j) for each stride offset j of the height h. */
  method AppendColumn(pts: seq<Point>, px: int, y: int, h: int) returns (out: seq<Point>)
    ensures out == pts + Column(px, y, Offsets(h))
  {
    out := pts;
    var j := 0;
    ghost var done: seq<int> := [];
    while j < h - 1
      invariant done + OffsetsFrom(j, h) == Offsets(h)
      invariant out == pts + Column(px, y, done)
      decreases h - j
    {
      out := out + [Point(px, y + j)];
      ColumnSnoc(px, y, done, j);
      OffsetsAdvance(done, j, h);
      done := done + [j];
      j := j + STEP;
    }
    OffsetsAdvance(done, j, h);
  }

  /** The `for i in range(0, w - 1, STEP)` loop that appends the bottom edge
      (x + i, py). */
  method AppendRow(pts: seq<Point>, x: int, py: int, w: int) returns (out: seq<Point>)
    ensures out == pts + Row(x, py, Offsets(w))
  {
    out := pts;
    var i := 0;
    ghost var done: seq<int> := [];
    while i < w - 1
      invariant done + OffsetsFrom(i, w) == Offsets(w)
      invariant out == pts + Row(x, py, done)
      decreases w - i
    {
      out := out + [Point(x + i, py)];
      RowSnoc(x, py, done, i);
      OffsetsAdvance(done, i, w);
      done := done + [i];
      i := i + STEP;
    }
    OffsetsAdvance(done, i, w);
  }

  /** The nested stride loops: for each stride offset i of w, the column of points
      (x + i, y + j). */
  method AppendLattice(pts: seq<Point>, x: int, y: int, w: int, h: int) returns (out: seq<Point>)
    ensures out == pts + Lattice(x, y, Offsets(w), Offsets(h))
  {
    out := pts;
    var i := 0;
    ghost var done: seq<int> := [];
    while i < w - 1
      invariant done + OffsetsFrom(i, w) == Offsets(w)
      invariant out == pts + Lattice(x, y, done, Offsets(h))
      decreases w - i
    {
      out := AppendColumn(out, x + i, y, h);
      assert (done + [i])[..|done|] == done;
      OffsetsAdvance(done, i, w);
      done := done + [i];
      i := i + STEP;
    }
    OffsetsAdvance(done, i, w);
  }

  /** `rect_vertexes(rect)`: the four inset corners of a rectangle within one tile;
      otherwise the right edge's two end points, the stride lattice, the bottom
      row and the right column, in that order. */
  method RectVertexes(r: Rect) returns (pts: seq<Point>)
    ensures pts == SamplePoints(r)
    ensures r.w >= 1 && r.h >= 1 ==> forall p :: p in pts ==> r.Contains(p)
  {
    if IsLarge(r) {
      pts := [Point(r.Right() - 1, r.y), Point(r.Right() - 1, r.Bottom() - 1)];
      var x, y := r.x, r.y;
      pts := AppendLattice(pts, x, y, r.w, r.h);
      pts := AppendRow(pts, x, r.Bottom() - 1, r.w);
      pts := AppendColumn(pts, r.Right() - 1, y, r.h);
    } else {
      pts := [Point(r.x, r.y), Point(r.x, r.Bottom() - 1), Point(r.Right() - 1, r.y), Point(r.Right() - 1, r.Bottom() - 1)];
    }
    if r.w >= 1 && r.h >= 1 {
      SamplePointsInside(r);
    }
  }

  /** Every stride offset from i lies in [i, n - 1). */
  lemma {:induction false} OffsetsFromBounds(i: int, n: int)
    ensures forall e :: e in OffsetsFrom(i, n) ==> i <= e < n - 1
    decreases n - i
  {
    if i < n - 1 {
      OffsetsFromBounds(i + STEP, n);
    }
  }

  /** The stops of a side of length n >= 1 lie on the side, and include both ends. */
  lemma StopsBounds(n: int)
    requires n >= 1
    ensures forall e :: e in Stops(n) ==> 0 <= e <= n - 1
    ensures 0 in Stops(n) && n - 1 in Stops(n)
  {
    OffsetsFromBounds(0, n);
    if n > 1 {
      assert Offsets(n)[0] == 0;
    }
  }

  /** A side no longer than one tile has only its two ends as stops. */
  lemma ShortStops(n: int)
    requires 1 <= n <= TSIDE
    ensures forall e :: e in Stops(n) ==> e == 0 || e == n - 1
  {
    if n > 1 {
      assert OffsetsFrom(STEP, n) == [];
      assert Offsets(n) == [0];
    }
  }

  /** The lattice holds exactly the points (x + e, y + f) with e in xs and f in ys. */
  lemma {:induction false} LatticeMembers(x: int, y: int, xs: seq<int>, ys: seq<int>, p: Point)
    ensures p in Lattice(x, y, xs, ys) <==> (p.x - x in xs && p.y - y in ys)
    decreases |xs|
  {
    if xs != [] {
      var init, last := xs[..|xs| - 1], xs[|xs| - 1];
      LatticeMembers(x, y, init, ys, p);
      assert xs == init + [last];
      var col := Column(x + last, y, ys);
      assert p in col <==> (p.x - x == last && p.y - y in ys) by {
        if p in col {
          var k :| 0 <= k < |col| && col[k] == p;
          assert ys[k] == p.y - y;
        }
        if p.x - x == last && p.y - y in ys {
          var k :| 0 <= k < |ys| && ys[k] == p.y - y;
          assert col[k] == p;
        }
      }
    }
  }

  /** Membership in the bottom row and the right column of a large rectangle. */
  lemma EdgeMembers(r: Rect, p: Point)
    ensures p in Row(r.x, r.Bottom() - 1, Offsets(r.w)) <==> (p.x - r.x in Offsets(r.w) && p.y == r.Bottom() - 1)
    ensures p in Column(r.Right() - 1, r.y, Offsets(r.h)) <==> (p.x == r.Right() - 1 && p.y - r.y in Offsets(r.h))
  {
  }

  /** A large rectangle's sample list is its two right-edge points, the lattice,
      the bottom row and the right column. */
  lemma LargeSamplePointsParts(r: Rect, p: Point)
    requires IsLarge(r)
    ensures p in SamplePoints(r) <==>
      || p == Point(r.Right() - 1, r.y) || p == Point(r.Right() - 1, r.Bottom() - 1)
      || p in Lattice(r.x, r.y, Offsets(r.w), Offsets(r.h))
      || p in Row(r.x, r.Bottom() - 1, Offsets(r.w))
      || p in Column(r.Right() - 1, r.y, Offsets(r.h))
  {
  }

  /** The large case of SamplePointsAreStops. */
  lemma LargeSamplePointsAreStops(r: Rect, p: Point)
    requires r.w >= 1 && r.h >= 1 && IsLarge(r)
    ensures p in SamplePoints(r) <==> (p.x - r.x in Stops(r.w) && p.y - r.y in Stops(r.h))
  {
    if p in SamplePoints(r) {
      LargeSamplePointsSound(r, p);
    }
    if p.x - r.x in Stops(r.w) && p.y - r.y in Stops(r.h) {
      LargeSamplePointsComplete(r, p);
    }
  }

  /** Every sample point of a large rectangle sits at a pair of stops. */
  lemma LargeSamplePointsSound(r: Rect, p: Point)
    requires r.w >= 1 && r.h >= 1 && IsLarge(r)
    requires p in SamplePoints(r)
    ensures p.x - r.x in Stops(r.w) && p.y - r.y in Stops(r.h)
  {
    var xs, ys := Offsets(r.w), Offsets(r.h);
    LargeSamplePointsParts(r, p);
    StopsMembers(r.w, p.x - r.x);
    StopsMembers(r.h, p.y - r.y);
    if p in Lattice(r.x, r.y, xs, ys) {
      LatticeMembers(r.x, r.y, xs, ys, p);
    } else if p in Row(r.x, r.Bottom() - 1, xs) || p in Column(r.Right() - 1, r.y, ys) {
      EdgeMembers(r, p);
    } else if p == Point(r.Right() - 1, r.y) {
      ZeroStop(r.h);
    }
  }

  /** Every pair of stops of a large rectangle is a sample point. */
  lemma LargeSamplePointsComplete(r: Rect, p: Point)
    requires r.w >= 1 && r.h >= 1 && IsLarge(r)
    requires p.x - r.x in Stops(r.w) && p.y - r.y in Stops(r.h)
    ensures p in SamplePoints(r)
  {
    var xs, ys := Offsets(r.w), Offsets(r.h);
    var e, f := p.x - r.x, p.y - r.y;
    LargeSamplePointsParts(r, p);
    StopsMembers(r.w, e);
    StopsMembers(r.h, f);
    if e in xs && f in ys {
      LatticeMembers(r.x, r.y, xs, ys, p);
    } else if e in xs || f in ys {
      EdgeMembers(r, p);
    } else {
      assert p == Point(r.Right() - 1, r.Bottom() - 1);
    }
  }

  /** A stop is a stride offset or the inset far edge. */
  lemma StopsMembers(n: int, e: int)
    ensures e in Stops(n) <==> e in Offsets(n) || e == n - 1
  {
  }

  /** Zero is a stop of every side of length at least one. */
  lemma ZeroStop(n: int)
    requires n >= 1
    ensures 0 in Stops(n)
  {
  }

  /** The sample points are exactly the points (r.x + e, r.y + f) where e is a stop of
      the width and f a stop of the height, in both the one-tile and the large case. */
  lemma SamplePointsAreStops(r: Rect, p: Point)
    requires r.w >= 1 && r.h >= 1
    ensures p in SamplePoints(r) <==> (p.x - r.x in Stops(r.w) && p.y - r.y in Stops(r.h))
  {
    if IsLarge(r) {
      LargeSamplePointsAreStops(r, p);
    } else {
      StopsBounds(r.w);
      StopsBounds(r.h);
      ShortStops(r.w);
      ShortStops(r.h);
    }
  }

  /** Every sample point of a non-empty rectangle lies inside it. */
  lemma SamplePointsInside(r: Rect)
    requires r.w >= 1 && r.h >= 1
    ensures forall p :: p in SamplePoints(r) ==> r.Contains(p)
  {
    StopsBounds(r.w);
    StopsBounds(r.h);
    forall p | p in SamplePoints(r)
      ensures r.Contains(p)
    {
      SamplePointsAreStops(r, p);
    }
  }

  /** Along a side of length n starting at coordinate x, every pixel offset d at or
      after the stride offset i shares its tile with some later stop: consecutive
      stops are at most STEP < TSIDE apart, so no tile is jumped over. */
  lemma {:induction false} StrideCovers(x: int, i: int, n: int, d: int)
    requires 0 <= i <= d <= n - 1
    ensures exists e :: e in StopsFrom(i, n) && (x + e) / TSIDE == (x + d) / TSIDE
    decreases n - i
  {
    var tail := StopsFrom(i, n);
    if i >= n - 1 {
      assert tail[|tail| - 1] == d;
      assert d in tail;
    } else if (x + i) / TSIDE == (x + d) / TSIDE {
      assert tail[0] == i;
      assert i in tail;
    } else if i + STEP <= d {
      StrideCovers(x, i + STEP, n, d);
      var e :| e in StopsFrom(i + STEP, n) && (x + e) / TSIDE == (x + d) / TSIDE;
      assert tail == [i] + StopsFrom(i + STEP, n);
      assert e in tail;
    } else {
      var e := if i + STEP < n - 1 then i + STEP else n - 1;
      var c := TileOf(Point(x + d, 0)).x;
      var ci := TileOf(Point(x + i, 0)).x;
      assert ci < c;
      assert c * TSIDE <= x + e < c * TSIDE + TSIDE;
      assert TileOf(Point(x + e, 0)).x == c;
      if i + STEP < n - 1 {
        assert OffsetsFrom(i + STEP, n)[0] == e;
        assert tail[1] == e;
        assert e in tail;
      } else {
        assert tail[|tail| - 1] == e;
        assert e in tail;
      }
    }
  }

  /** A tile overlaps a non-empty rectangle exactly when one of the rectangle's
      sample points lies in it: the sampling misses no tile the rectangle touches
      and reports none it does not touch. */
  lemma SamplePointsCoverTiles(r: Rect, t: Point)
    requires r.w >= 1 && r.h >= 1
    ensures Overlaps(r, t) <==> exists p :: p in SamplePoints(r) && TileOf(p) == t
  {
    if Overlaps(r, t) {
      var s := SamplePointIn(r, t);
    }
    if exists p :: p in SamplePoints(r) && TileOf(p) == t {
      var p :| p in SamplePoints(r) && TileOf(p) == t;
      SamplePointsInside(r);
    }
  }

  /** A sample point in a tile the rectangle overlaps. */
  lemma SamplePointIn(r: Rect, t: Point) returns (s: Point)
    requires r.w >= 1 && r.h >= 1 && Overlaps(r, t)
    ensures s in SamplePoints(r) && TileOf(s) == t
  {
    var e, f := StopsIn(r, t);
    s := Point(r.x + e, r.y + f);
    SamplePointsAreStops(r, s);
  }

  /** A pair of stops whose point lies in a tile the rectangle overlaps. */
  lemma StopsIn(r: Rect, t: Point) returns (e: int, f: int)
    requires r.w >= 1 && r.h >= 1 && Overlaps(r, t)
    ensures e in Stops(r.w) && f in Stops(r.h) && TileOf(Point(r.x + e, r.y + f)) == t
  {
    var px := if r.x < t.x * TSIDE then t.x * TSIDE else r.x;
    var py := if r.y < t.y * TSIDE then t.y * TSIDE else r.y;
    assert TileOf(Point(px, py)) == t;
    StrideCovers(r.x, 0, r.w, px - r.x);
    StrideCovers(r.y, 0, r.h, py - r.y);
    e :| e in Stops(r.w) && (r.x + e) / TSIDE == px / TSIDE;
    f :| f in Stops(r.h) && (r.y + f) / TSIDE == py / TSIDE;
  }

  /** The two shapes of the list: four inset corners for a rectangle within one tile;
      for a larger one the list starts with the right edge's top and bottom points. */
  lemma SampleCorners(r: Rect)
    ensures !IsLarge(r) ==> SamplePoints(r) == [Point(r.x, r.y), Point(r.x, r.Bottom() - 1), Point(r.Right() - 1, r.y), Point(r.Right() - 1, r.Bottom() - 1)]
    ensures IsLarge(r) ==> |SamplePoints(r)| >= 2 && SamplePoints(r)[0] == Point(r.Right() - 1, r.y)
                           && SamplePoints(r)[1] == Point(r.Right() - 1, r.Bottom() - 1)
  {
  }
}
