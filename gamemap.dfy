/** The tile grid (`GameMap` in src/Game.py): a row-major list of rows of tile
    codes, 0 passable and non-zero solid, with its size kept beside it. */
module Tiles {
  import opened Wrappers
  import opened Geometry
  import opened Sampling
  import opened TextGrid

  /** `GameMap.default`: the code of an empty tile. */
  const DEFAULT: int := 0

  /** `len(range(n))` */
  function Count(n: int): nat {
    if n < 0 then 0 else n
  }

  /** Python's `s[i]` on a list: a negative index counts from the end; any other
      index outside the list raises IndexError, here None. */
  function PyIndex<T>(s: seq<T>, i: int): (r: Option<T>)
    ensures r.Some? <==> -|s| <= i < |s|
    ensures 0 <= i < |s| ==> r == Some(s[i])
    ensures -|s| <= i < 0 ==> r == Some(s[|s| + i])
  {
    if 0 <= i < |s| then Some(s[i]) else if -|s| <= i < 0 then Some(s[|s| + i]) else None
  }

  /** `[[sym for i in range(width)] for j in range(height)]` */
  function Filled(width: int, height: int, sym: int): (rows: seq<seq<int>>)
    ensures |rows| == Count(height)
    ensures forall y :: 0 <= y < |rows| ==> |rows[y]| == Count(width)
    ensures forall y, x :: 0 <= y < |rows| && 0 <= x < |rows[y]| ==> rows[y][x] == sym
  {
    seq(Count(height), _ => seq(Count(width), _ => sym))
  }

  /** The assignment `cells[p.y][p.x] = 1` finds its cell (no IndexError). */
  predicate Addresses(cells: seq<seq<int>>, p: Point) {
    0 <= p.y < |cells| && 0 <= p.x < |cells[p.y]|
  }

  /** The rows after `random_set` has set the cell of each pick, in turn, to 1. */
  function Stamp(cells: seq<seq<int>>, picks: seq<Point>): (out: seq<seq<int>>)
    requires forall k :: 0 <= k < |picks| ==> Addresses(cells, picks[k])
    ensures |out| == |cells|
    ensures forall y :: 0 <= y < |cells| ==> |out[y]| == |cells[y]|
    decreases |picks|
  {
    if picks == [] then cells
    else
      var p := picks[|picks| - 1];
      var prev := Stamp(cells, picks[..|picks| - 1]);
      assert Addresses(cells, p);
      prev[p.y := prev[p.y][p.x := 1]]
  }

  /** The index of the first pick whose assignment raises IndexError, or the
      number of picks when none does. */
  function FirstMisfit(cells: seq<seq<int>>, picks: seq<Point>): (m: nat)
    ensures m <= |picks|
    ensures forall k :: 0 <= k < m ==> Addresses(cells, picks[k])
    ensures m < |picks| ==> !Addresses(cells, picks[m])
    decreases |picks|
  {
    if picks == [] || !Addresses(cells, picks[0]) then 0
    else 1 + FirstMisfit(cells, picks[1..])
  }

  /** After the picks, a cell holds 1 if some pick named it and its old code
      otherwise; the shape of the rows is kept. */
  lemma {:induction false} StampAt(cells: seq<seq<int>>, picks: seq<Point>, x: int, y: int)
    requires forall k :: 0 <= k < |picks| ==> Addresses(cells, picks[k])
    requires 0 <= y < |cells| && 0 <= x < |cells[y]|
    ensures Stamp(cells, picks)[y][x] == if Point(x, y) in picks then 1 else cells[y][x]
    decreases |picks|
  {
    if picks != [] {
      var init := picks[..|picks| - 1];
      StampAt(cells, init, x, y);
      assert picks == init + [picks[|picks| - 1]];
    }
  }

  class GameMap {
    /** `size[0]`: the number of columns. */
    var width: int
    /** `size[1]`: the number of rows. */
    var height: int
    /** `array_map`, indexed `cells[y][x]`. */
    var cells: seq<seq<int>>

    /** One row per unit of height. The rows need not all be `width` long: `load`
        takes the width from the first row and does not compare the others. */
    ghost predicate Valid()
      reads this
    {
      |cells| == Count(height)
    }

    /** Every in-bounds coordinate addresses a cell. */
    ghost predicate Covers()
      reads this
      requires Valid()
    {
      forall y :: 0 <= y < |cells| ==> width <= |cells[y]|
    }

    /** `0 <= p.x < size[0] and 0 <= p.y < size[1]` */
    predicate InBounds(p: Point)
      reads this
    {
      0 <= p.x < width && 0 <= p.y < height
    }

    /** The in-bounds coordinate c addresses a cell whose code is non-zero. */
    ghost predicate Solid(c: Point)
      reads this
      requires Valid()
    {
      InBounds(c) && c.x < |cells[c.y]| && cells[c.y][c.x] != 0
    }

    /** The in-bounds coordinate c falls past the end of a short row, where
        `get_tile` raises IndexError. */
    ghost predicate Misses(c: Point)
      reads this
      requires Valid()
    {
      InBounds(c) && |cells[c.y]| <= c.x
    }

    /** `GameMap(size)`: every cell set to the default code. */
    constructor (width: int, height: int)
      ensures Valid() && Covers()
      ensures this.width == width && this.height == height
      ensures cells == Filled(width, height, DEFAULT)
    {
      this.width, this.height := width, height;
      new;
      var rows := SetMapOfSym(DEFAULT);
      cells := rows;
    }

    /** `get_tile(position)`: `array_map[y][x]` with Python's list indexing. */
    function GetTile(p: Point): (t: Option<int>)
      reads this
      ensures 0 <= p.x && 0 <= p.y ==> (t.Some? <==> Addresses(cells, p))
      ensures Addresses(cells, p) ==> t == Some(cells[p.y][p.x])
      ensures -|cells| <= p.y < 0 && 0 <= p.x < |cells[|cells| + p.y]| ==> t == Some(cells[|cells| + p.y][p.x])
    {
      var row :- PyIndex(cells, p.y);
      PyIndex(row, p.x)
    }

    /** `get_tile_with_def(position, default)`: the fallback outside the size of
        the grid, the cell's code inside it; IndexError (None) inside the size but
        past the end of a short row. */
    function GetTileWithDef(p: Point, fallback: int): (t: Option<int>)
      requires Valid()
      reads this
      ensures !InBounds(p) ==> t == Some(fallback)
      ensures InBounds(p) ==> (t.None? <==> Misses(p))
      ensures InBounds(p) && !Misses(p) ==> t == Some(cells[p.y][p.x])
    {
      if 0 <= p.x < width && 0 <= p.y < height then GetTile(p) else Some(fallback)
    }

    /** The tiles `rect_collision` collects from a list of sample points, in
        order: the tile of each point whose code is non-zero. The source passes
        no default, so a tile outside the grid reads as None, which is falsy like
        the code 0 used here. None when a lookup raises IndexError. */
    function Collisions(pts: seq<Point>): (found: Option<seq<Point>>)
      requires Valid()
      reads this
      ensures found.Some? ==> forall c :: c in found.value ==> Solid(c)
      decreases |pts|
    {
      if pts == [] then Some([])
      else
        var before :- Collisions(pts[..|pts| - 1]);
        var t := TileOf(pts[|pts| - 1]);
        var code :- GetTileWithDef(t, 0);
        Some(if code != 0 then before + [t] else before)
    }

    /** `rect_collision(rect)`: the solid tiles under the rectangle's sample
        points, accumulated in a loop. */
    method RectCollision(r: Rect) returns (found: Option<seq<Point>>)
      requires Valid()
      ensures found == Collisions(SamplePoints(r))
    {
      var pts := RectVertexes(r);
      var collisions: seq<Point> := [];
      var k := 0;
      while k < |pts|
        invariant 0 <= k <= |pts|
        invariant Collisions(pts[..k]) == Some(collisions)
      {
        var t := TileOf(pts[k]);
        var code := GetTileWithDef(t, 0);
        assert pts[..k + 1][..k] == pts[..k];
        if code.None? {
          CollisionsFailureSticks(this, pts, k + 1);
          return None;
        }
        if code.value != 0 {
          collisions := collisions + [t];
        }
        k := k + 1;
      }
      assert pts[..k] == pts;
      return Some(collisions);
    }

    /** `set_map_of_sym(sym)`: replaces the rows by `size[1]` rows of `size[0]`
        cells holding sym, and returns them. */
    method SetMapOfSym(sym: int) returns (rows: seq<seq<int>>)
      modifies this
      ensures Valid() && Covers()
      ensures width == old(width) && height == old(height)
      ensures cells == rows == Filled(width, height, sym)
    {
      cells := Filled(width, height, sym);
      rows := cells;
    }

    /** `randint(0, size[0] - 1)` and `randint(0, size[1] - 1)` raise ValueError
        on an empty range, so n draws succeed exactly when n is 0 or both
        dimensions are at least 1. */
    predicate CanDraw(n: int)
      reads this
    {
      n <= 0 || (width >= 1 && height >= 1)
    }

    /** `random_set(points)`: sets the cell of each pick to 1, in order. The random
        coordinates are given as picks, each within the size of the grid as
        `randint` draws them. When a dimension is below 1 the first draw raises
        ValueError before any write. A pick past the end of a short row raises
        IndexError and leaves the earlier picks applied. Either error gives
        ok == false. */
    method RandomSet(picks: seq<Point>) returns (ok: bool)
      requires Valid()
      requires CanDraw(|picks|) ==> forall k :: 0 <= k < |picks| ==> InBounds(picks[k])
      modifies this
      ensures Valid()
      ensures width == old(width) && height == old(height)
      ensures !CanDraw(|picks|) ==> !ok && cells == old(cells)
      ensures CanDraw(|picks|) ==> ok == (FirstMisfit(old(cells), picks) == |picks|)
      ensures CanDraw(|picks|) ==> cells == Stamp(old(cells), picks[..FirstMisfit(old(cells), picks)])
      ensures old(Covers()) ==> Covers() && (ok <==> CanDraw(|picks|))
    {
      if !CanDraw(|picks|) {
        return false;
      }
      ok := true;
      var i := 0;
      while i < |picks|
        invariant 0 <= i <= FirstMisfit(old(cells), picks)
        invariant Valid() && width == old(width) && height == old(height)
        invariant cells == Stamp(old(cells), picks[..i])
      {
        var p := picks[i];
        if p.x >= |cells[p.y]| {
          ok := false;
          return;
        }
        assert picks[..i + 1][..i] == picks[..i];
        cells := cells[p.y := cells[p.y][p.x := 1]];
        i := i + 1;
      }
      assert picks[..i] == picks;
    }

    /** `load(text)`: parses the rows of the non-empty lines, then takes the
        width from the first row and the height from the row count. A non-digit
        character, or a text without a non-empty line, raises before anything
        is assigned. */
    method Load(text: string) returns (error: Option<LoadError>)
      requires Valid()
      modifies this
      ensures Valid()
      ensures match ParseGrid(text)
        case Ok(rows) => error.None? && cells == rows && width == |rows[0]| && height == |rows|
        case Err(e) => error == Some(e) && width == old(width) && height == old(height) && cells == old(cells)
    {
      var arr2d := ParseRows(NonEmpty(Split(text)));
      if arr2d.Err? {
        return Some(arr2d.error);
      }
      if arr2d.value == [] {
        return Some(NoRows);
      }
      width, height := |arr2d.value[0]|, |arr2d.value|;
      cells := arr2d.value;
      error := None;
    }
  }

  /** Once a prefix of the points raises, the whole list does. */
  lemma {:induction false} CollisionsFailureSticks(m: GameMap, pts: seq<Point>, k: nat)
    requires m.Valid() && k <= |pts|
    requires m.Collisions(pts[..k]).None?
    ensures m.Collisions(pts).None?
    decreases |pts| - k
  {
    if k < |pts| {
      assert pts[..k + 1][..k] == pts[..k];
      CollisionsFailureSticks(m, pts, k + 1);
    } else {
      assert pts[..k] == pts;
    }
  }

  /** `rect_collision` raises exactly when some point's tile is in bounds but past
      the end of its row; otherwise a tile is reported exactly when it is solid
      and some point falls in it. */
  lemma {:induction false} CollisionsExact(m: GameMap, pts: seq<Point>)
    requires m.Valid()
    ensures m.Collisions(pts).None? <==> exists p :: p in pts && m.Misses(TileOf(p))
    ensures m.Collisions(pts).Some? ==>
      forall c :: c in m.Collisions(pts).value <==> m.Solid(c) && exists p :: p in pts && TileOf(p) == c
    decreases |pts|
  {
    if pts != [] {
      var init, last := pts[..|pts| - 1], pts[|pts| - 1];
      CollisionsExact(m, init);
      assert pts == init + [last];
      assert forall p :: p in pts <==> p in init || p == last;
    }
  }

  /** On a grid where every in-bounds coordinate addresses a cell,
      `rect_collision` of a non-empty rectangle does not raise, and a tile is
      among the collisions exactly when it is in bounds, holds a non-zero code and
      overlaps the rectangle: the sampling neither misses an overlapped tile nor
      reports one the rectangle does not touch. */
  lemma RectCollisionTiles(m: GameMap, r: Rect, c: Point)
    requires m.Valid() && m.Covers() && r.w >= 1 && r.h >= 1
    ensures m.Collisions(SamplePoints(r)).Some?
    ensures c in m.Collisions(SamplePoints(r)).value <==> m.Solid(c) && Overlaps(r, c)
  {
    var pts := SamplePoints(r);
    CollisionsExact(m, pts);
    SamplePointsCoverTiles(r, c);
  }

  /** The last collision `rect_collision` reports for a non-empty rectangle is a
      solid tile the rectangle overlaps. */
  lemma LastCollisionOverlaps(m: GameMap, r: Rect)
    requires m.Valid() && m.Covers() && r.w >= 1 && r.h >= 1
    requires m.Collisions(SamplePoints(r)).Some? && m.Collisions(SamplePoints(r)).value != []
    ensures var cols := m.Collisions(SamplePoints(r)).value;
            m.Solid(cols[|cols| - 1]) && Overlaps(r, cols[|cols| - 1])
  {
    var cols := m.Collisions(SamplePoints(r)).value;
    RectCollisionTiles(m, r, cols[|cols| - 1]);
  }

  /** On a grid of zeros nothing collides. */
  lemma NoCollisionsOnEmptyGrid(m: GameMap, pts: seq<Point>)
    requires m.Valid()
    requires forall y, x :: 0 <= y < |m.cells| && 0 <= x < |m.cells[y]| ==> m.cells[y][x] == 0
    ensures m.Collisions(pts).Some? ==> m.Collisions(pts).value == []
    ensures m.Covers() ==> m.Collisions(pts) == Some([])
  {
    CollisionsExact(m, pts);
  }

  /** What `random_set` promises of its picks: after it, a cell is 1 if a pick
      named it and keeps its code otherwise, and every row keeps its length. */
  lemma RandomSetCells(m: GameMap, picks: seq<Point>, x: int, y: int)
    requires m.Valid() && m.Covers()
    requires forall k :: 0 <= k < |picks| ==> m.InBounds(picks[k])
    requires 0 <= y < |m.cells| && 0 <= x < |m.cells[y]|
    ensures FirstMisfit(m.cells, picks) == |picks|
    ensures |Stamp(m.cells, picks)[y]| == |m.cells[y]|
    ensures Stamp(m.cells, picks)[y][x] == if Point(x, y) in picks then 1 else m.cells[y][x]
  {
    StampAt(m.cells, picks, x, y);
  }
}
