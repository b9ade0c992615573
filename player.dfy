/** The player's rectangle and its axis-by-axis collision resolution
    (`Player.move` in src/Game.py). */
module Movement {
  import opened Wrappers
  import opened Geometry
  import opened Sampling
  import opened Tiles

  /** `Player.size`: the player is a 16 by 16 rectangle. */
  const SIZE: int := 16

  /** One pass of the x collision loop: moving right puts the right edge on the
      tile's left edge, moving left puts the left edge on the tile's right edge. */
  function PushX(r: Rect, dx: int, c: Point): (s: Rect)
    ensures s.y == r.y && s.w == r.w && s.h == r.h
    ensures dx > 0 ==> s.Right() == c.x * TSIDE
    ensures dx < 0 ==> s.x == c.x * TSIDE + TSIDE
    ensures dx == 0 ==> s == r
  {
    if dx > 0 then r.WithRight(c.x * TSIDE)
    else if dx < 0 then r.WithLeft(c.x * TSIDE + TSIDE)
    else r
  }

  /** One pass of the y collision loop: moving down puts the bottom edge on the
      tile's top edge, moving up puts the top edge on the tile's bottom edge. */
  function PushY(r: Rect, dy: int, c: Point): (s: Rect)
    ensures s.x == r.x && s.w == r.w && s.h == r.h
    ensures dy > 0 ==> s.Bottom() == c.y * TSIDE
    ensures dy < 0 ==> s.y == c.y * TSIDE + TSIDE
    ensures dy == 0 ==> s == r
  {
    if dy > 0 then r.WithBottom(c.y * TSIDE)
    else if dy < 0 then r.WithTop(c.y * TSIDE + TSIDE)
    else r
  }

  /** The x collision loop over the whole list. Each collision overwrites the edge
      in turn, so the last one decides where the rectangle ends. */
  function ResolveX(r: Rect, dx: int, cols: seq<Point>): (s: Rect)
    ensures s.y == r.y && s.w == r.w && s.h == r.h
    ensures dx == 0 || cols == [] ==> s == r
    ensures cols != [] && dx > 0 ==> s.Right() == cols[|cols| - 1].x * TSIDE
    ensures cols != [] && dx < 0 ==> s.x == cols[|cols| - 1].x * TSIDE + TSIDE
    decreases |cols|
  {
    if cols == [] then r else PushX(ResolveX(r, dx, cols[..|cols| - 1]), dx, cols[|cols| - 1])
  }

  /** The y collision loop over the whole list; the last collision decides. */
  function ResolveY(r: Rect, dy: int, cols: seq<Point>): (s: Rect)
    ensures s.x == r.x && s.w == r.w && s.h == r.h
    ensures dy == 0 || cols == [] ==> s == r
    ensures cols != [] && dy > 0 ==> s.Bottom() == cols[|cols| - 1].y * TSIDE
    ensures cols != [] && dy < 0 ==> s.y == cols[|cols| - 1].y * TSIDE + TSIDE
    decreases |cols|
  {
    if cols == [] then r else PushY(ResolveY(r, dy, cols[..|cols| - 1]), dy, cols[|cols| - 1])
  }

  /** The rectangle at the end of `move`, and whether it finished: when a
      collision query raises IndexError the rectangle keeps what was assigned
      before it. */
  datatype Outcome = Outcome(rect: Rect, ok: bool)

  /** The end of the x half of `move` once the shifted rectangle's collision
      query has answered: on IndexError the shifted rectangle stays as it is;
      otherwise the leading edge ends flush with the last reported tile, or the
      rectangle stays where it was shifted when nothing was reported. */
  function SettleX(moved: Rect, dx: int, found: Option<seq<Point>>): (o: Outcome)
    ensures o.ok == found.Some?
    ensures o.rect.y == moved.y && o.rect.w == moved.w && o.rect.h == moved.h
    ensures !o.ok || found.value == [] || dx == 0 ==> o.rect == moved
    ensures o.ok && found.value != [] && dx > 0 ==> o.rect.Right() == found.value[|found.value| - 1].x * TSIDE
    ensures o.ok && found.value != [] && dx < 0 ==> o.rect.x == found.value[|found.value| - 1].x * TSIDE + TSIDE
  {
    match found
    case None => Outcome(moved, false)
    case Some(cols) => Outcome(ResolveX(moved, dx, cols), true)
  }

  /** SettleX on the y axis: the bottom edge ends on the top side of the last
      reported tile when moving down, the top edge on its bottom side when
      moving up. */
  function SettleY(moved: Rect, dy: int, found: Option<seq<Point>>): (o: Outcome)
    ensures o.ok == found.Some?
    ensures o.rect.x == moved.x && o.rect.w == moved.w && o.rect.h == moved.h
    ensures !o.ok || found.value == [] || dy == 0 ==> o.rect == moved
    ensures o.ok && found.value != [] && dy > 0 ==> o.rect.Bottom() == found.value[|found.value| - 1].y * TSIDE
    ensures o.ok && found.value != [] && dy < 0 ==> o.rect.y == found.value[|found.value| - 1].y * TSIDE + TSIDE
  {
    match found
    case None => Outcome(moved, false)
    case Some(cols) => Outcome(ResolveY(moved, dy, cols), true)
  }

  /** The x step of `move`: shift by dx, then resolve against the collisions of
      the shifted rectangle. */
  function StepX(m: GameMap, r: Rect, dx: int): (o: Outcome)
    requires m.Valid()
    reads m
    ensures o.rect.y == r.y && o.rect.w == r.w && o.rect.h == r.h
    ensures dx == 0 ==> o.rect.x == r.x
  {
    var moved := r.(x := r.x + dx);
    SettleX(moved, dx, m.Collisions(SamplePoints(moved)))
  }

  /** The y step of `move`, the same on the other axis. */
  function StepY(m: GameMap, r: Rect, dy: int): (o: Outcome)
    requires m.Valid()
    reads m
    ensures o.rect.x == r.x && o.rect.w == r.w && o.rect.h == r.h
    ensures dy == 0 ==> o.rect.y == r.y
  {
    var moved := r.(y := r.y + dy);
    SettleY(moved, dy, m.Collisions(SamplePoints(moved)))
  }

  /** The effect of `move(movement)`: x is resolved fully, then y is resolved
      starting from the x-resolved rectangle. */
  function MoveResult(m: GameMap, r: Rect, dx: int, dy: int): (o: Outcome)
    requires m.Valid()
    reads m
    ensures o.rect.w == r.w && o.rect.h == r.h
    ensures dx == 0 ==> o.rect.x == r.x
    ensures dy == 0 ==> o.rect.y == r.y
    ensures o.ok ==> StepX(m, r, dx).ok && o.rect.x == StepX(m, r, dx).rect.x
  {
    var afterX := StepX(m, r, dx);
    if !afterX.ok then afterX else StepY(m, afterX.rect, dy)
  }

  class Player {
    /** `rect`: the player's bounding rectangle. */
    var rect: Rect
    /** `game_map`: the grid the player collides with. */
    const gameMap: GameMap

    /** `Player(position, game_map)` */
    constructor (position: Point, gameMap: GameMap)
      ensures rect == Rect(position.x, position.y, SIZE, SIZE)
      ensures this.gameMap == gameMap
    {
      rect := Rect(position.x, position.y, SIZE, SIZE);
      this.gameMap := gameMap;
    }

    /** `move(movement)` with an integer movement (dx, dy). */
    method Move(dx: int, dy: int) returns (ok: bool)
      requires gameMap.Valid()
      modifies this
      ensures Outcome(rect, ok) == MoveResult(gameMap, old(rect), dx, dy)
    {
      ok := MoveX(dx);
      if ok {
        ok := MoveY(dy);
      }
    }

    /** The x half of `move`: shift by dx, then push the rectangle out of each
        collision of the shifted rectangle in turn. */
    method MoveX(dx: int) returns (ok: bool)
      requires gameMap.Valid()
      modifies this
      ensures Outcome(rect, ok) == StepX(gameMap, old(rect), dx)
    {
      rect := rect.(x := rect.x + dx);
      var collisions := gameMap.RectCollision(rect);
      if collisions.None? {
        return false;
      }
      ghost var moved := rect;
      var cols := collisions.value;
      var k := 0;
      while k < |cols|
        invariant 0 <= k <= |cols|
        invariant rect == ResolveX(moved, dx, cols[..k])
      {
        var c := cols[k];
        if dx > 0 {
          rect := rect.WithRight(c.x * TSIDE);
        } else if dx < 0 {
          rect := rect.WithLeft(c.x * TSIDE + TSIDE);
        }
        assert cols[..k + 1][..k] == cols[..k];
        k := k + 1;
      }
      assert cols[..k] == cols;
      return true;
    }

    /** The y half of `move`, starting from wherever the x half left the rectangle. */
    method MoveY(dy: int) returns (ok: bool)
      requires gameMap.Valid()
      modifies this
      ensures Outcome(rect, ok) == StepY(gameMap, old(rect), dy)
    {
      rect := rect.(y := rect.y + dy);
      var collisions := gameMap.RectCollision(rect);
      if collisions.None? {
        return false;
      }
      ghost var moved := rect;
      var cols := collisions.value;
      var k := 0;
      while k < |cols|
        invariant 0 <= k <= |cols|
        invariant rect == ResolveY(moved, dy, cols[..k])
      {
        var c := cols[k];
        if dy > 0 {
          rect := rect.WithBottom(c.y * TSIDE);
        } else if dy < 0 {
          rect := rect.WithTop(c.y * TSIDE + TSIDE);
        }
        assert cols[..k + 1][..k] == cols[..k];
        k := k + 1;
      }
      assert cols[..k] == cols;
      return true;
    }
  }

  /** On the one-row grid [[0, 1]], the 16 by 16 rectangle at (40, 0) has all four
      sample points in the solid tile (1, 0). */
  lemma WallCollisions(m: GameMap)
    requires m.width == 2 && m.height == 1 && m.cells == [[0, 1]]
    ensures m.Valid()
    ensures m.Collisions(SamplePoints(Rect(40, 0, SIZE, SIZE))) == Some([Point(1, 0), Point(1, 0), Point(1, 0), Point(1, 0)])
  {
    var wall := Point(1, 0);
    var pts := SamplePoints(Rect(40, 0, SIZE, SIZE));
    SampleCorners(Rect(40, 0, SIZE, SIZE));
    assert pts == [Point(40, 0), Point(40, 15), Point(55, 0), Point(55, 15)];
    assert TileOf(pts[0]) == wall && TileOf(pts[1]) == wall && TileOf(pts[2]) == wall && TileOf(pts[3]) == wall;
    assert m.GetTileWithDef(wall, 0) == Some(1);
    assert pts[..1][..0] == [] && pts[..2][..1] == pts[..1];
    assert pts[..3][..2] == pts[..2] && pts[..4][..3] == pts[..3] && pts[..4] == pts;
    assert [] + [wall] == [wall] && [wall] + [wall] == [wall, wall];
    assert [wall, wall] + [wall] == [wall, wall, wall] && [wall, wall, wall] + [wall] == [wall, wall, wall, wall];
    assert m.Collisions(pts[..1]) == Some([wall]);
    assert m.Collisions(pts[..2]) == Some([wall, wall]);
    assert m.Collisions(pts[..3]) == Some([wall, wall, wall]);
  }

  /** On the same grid the rectangle at (16, 0) lies in the empty tile (0, 0). */
  lemma ClearOfWall(m: GameMap)
    requires m.width == 2 && m.height == 1 && m.cells == [[0, 1]]
    ensures m.Valid()
    ensures m.Collisions(SamplePoints(Rect(16, 0, SIZE, SIZE))) == Some([])
  {
    var pts := SamplePoints(Rect(16, 0, SIZE, SIZE));
    SampleCorners(Rect(16, 0, SIZE, SIZE));
    assert pts == [Point(16, 0), Point(16, 15), Point(31, 0), Point(31, 15)];
    assert TileOf(pts[0]) == TileOf(pts[1]) == TileOf(pts[2]) == TileOf(pts[3]) == Point(0, 0);
    assert m.GetTileWithDef(Point(0, 0), 0) == Some(0);
    assert pts[..1][..0] == [] && pts[..2][..1] == pts[..1];
    assert pts[..3][..2] == pts[..2] && pts[..4][..3] == pts[..3] && pts[..4] == pts;
    assert m.Collisions(pts[..1]) == Some([]);
    assert m.Collisions(pts[..2]) == Some([]);
    assert m.Collisions(pts[..3]) == Some([]);
  }

  /** A 16 by 16 player at (20, 0) moving 20 to the right into a solid tile in
      column 1 ends with its right edge on that tile's left edge, at x = 16. */
  lemma MoveIntoWallExample(m: GameMap)
    requires m.width == 2 && m.height == 1 && m.cells == [[0, 1]]
    ensures m.Valid()
    ensures MoveResult(m, Rect(20, 0, SIZE, SIZE), 20, 0) == Outcome(Rect(16, 0, SIZE, SIZE), true)
  {
    // x step: the shifted rectangle reports the wall four times, and the last
    // report puts the right edge at 32.
    var r := Rect(20, 0, SIZE, SIZE);
    var moved := Rect(40, 0, SIZE, SIZE);
    var wall := Point(1, 0);
    var cols := [wall, wall, wall, wall];
    assert r.(x := r.x + 20) == moved;
    WallCollisions(m);
    assert m.Collisions(SamplePoints(moved)) == Some(cols);
    var stopped := Rect(16, 0, SIZE, SIZE);
    var resolved := ResolveX(moved, 20, cols);
    assert resolved.Right() == 32 && resolved.y == 0 && resolved.w == SIZE && resolved.h == SIZE;
    assert resolved == stopped;
    assert SettleX(moved, 20, Some(cols)) == Outcome(stopped, true);
    assert StepX(m, r, 20) == Outcome(stopped, true);
    // y step: dy is 0 and the rectangle at (16, 0) reports nothing.
    ClearOfWall(m);
    assert stopped.(y := stopped.y + 0) == stopped;
    assert m.Collisions(SamplePoints(stopped)) == Some([]);
    assert SettleY(stopped, 0, Some([])) == Outcome(stopped, true);
    assert StepY(m, stopped, 0) == Outcome(stopped, true);
  }
}
