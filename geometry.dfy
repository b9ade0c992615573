/** Integer geometry shared by the grid, the player and the camera. */
module Geometry {

  /** Side of one square tile, in pixels (`TSIDE` in src/Game.py). */
  const TSIDE: int := 32

  /** A pixel position, or a tile coordinate (column, row). */
  datatype Point = Point(x: int, y: int)

  /** A pygame rectangle: top-left corner and size. Assigning one of its edges
      moves the rectangle and keeps its size. */
  datatype Rect = Rect(x: int, y: int, w: int, h: int) {

    function Right(): int { x + w }

    function Bottom(): int { y + h }

    /** `rect.right = v` */
    function WithRight(v: int): (r: Rect)
      ensures r.Right() == v && r.y == y && r.w == w && r.h == h
    {
      this.(x := v - w)
    }

    /** `rect.left = v` */
    function WithLeft(v: int): (r: Rect)
      ensures r.x == v && r.y == y && r.w == w && r.h == h
    {
      this.(x := v)
    }

    /** `rect.bottom = v` */
    function WithBottom(v: int): (r: Rect)
      ensures r.Bottom() == v && r.x == x && r.w == w && r.h == h
    {
      this.(y := v - h)
    }

    /** `rect.top = v` */
    function WithTop(v: int): (r: Rect)
      ensures r.y == v && r.x == x && r.w == w && r.h == h
    {
      this.(y := v)
    }

    /** The pixel p lies inside the rectangle (right and bottom edges excluded). */
    predicate Contains(p: Point) {
      x <= p.x < x + w && y <= p.y < y + h
    }
  }

  /** The tile that holds pixel p: `(p.x // TSIDE, p.y // TSIDE)`. Python's `//`
      floors, and so does Dafny's `/` for a positive divisor, so pixels left of or
      above the origin fall in negative tiles. */
  function TileOf(p: Point): (t: Point)
    ensures t.x * TSIDE <= p.x < t.x * TSIDE + TSIDE
    ensures t.y * TSIDE <= p.y < t.y * TSIDE + TSIDE
  {
    Point(p.x / TSIDE, p.y / TSIDE)
  }

  /** Tile t and rectangle r share at least one pixel. */
  predicate Overlaps(r: Rect, t: Point) {
    r.x < t.x * TSIDE + TSIDE && t.x * TSIDE < r.x + r.w &&
    r.y < t.y * TSIDE + TSIDE && t.y * TSIDE < r.y + r.h
  }
}
