# Tile-grid collision model of TopDownGame

A Dafny model of the collision core of a small pygame top-down game
(`src/Game.py`). A 16 by 16 player moves over a grid of 32-pixel tiles. Code
0 is passable and any non-zero code is solid. A camera follows the player.
The model covers four parts, all on integer coordinates:

- **Sample points** (`Sampling`): `rect_vertexes` picks the points of a
  rectangle that are tested against the grid. A rectangle within one tile gives
  its four corners, inset by one pixel on the right and bottom. A larger one
  gives points at a stride of `TSIDE - 1` along its sides and interior.
- **The grid** (`Tiles.GameMap`, a class whose `cells` field is replaced by
  its methods): the accessors, uniform fill, random placement of solid cells,
  the text loader, and `rect_collision`. `rect_collision` maps each sample
  point to a tile by floor division and keeps the non-zero tiles.
- **Movement** (`Movement.Player`): `move` applies the x delta, then clamps
  the leading edge flush against each collision in turn. It then does the same
  for y, starting from the x-resolved rectangle.
- **Camera** (`View.Camera`): `move_to_player` snaps the view so the window is
  centred on the player. The easing lines of `draw` move the view a fifth of
  the way toward that point.

The text format read by `load` is parsed in `TextGrid`. `Geometry` holds the
tile size, points, pygame-style rectangles and the floor-division tile lookup.

Main results:

- `Sampling.SamplePointsCoverTiles`: for any rectangle with positive width and
  height, a tile overlaps the rectangle exactly when one of its sample points
  falls in that tile. Stops along a side are never more than 31 pixels apart,
  so the stride sampling skips no tile.
- `Tiles.RectCollisionTiles`: a grid is covered when every in-bounds
  coordinate addresses a cell. On such a grid `rect_collision` reports exactly
  the in-bounds, non-zero tiles that the rectangle overlaps.
- `Movement.ResolveX` and `Movement.ResolveY`: each collision overwrites the
  leading edge in turn, so the last collision in the list decides where the
  rectangle ends.

Two consequences of the code that the model makes explicit:

- `load` does not reject rows of unequal length (src/Game.py:127-129). Its size
  comes from the first row and the row count, so `"11\n1\n"` loads as the
  ragged grid [[1, 1], [1]] (`TextGrid.RaggedExample`). On a ragged grid, a
  lookup inside the size but past the end of a short row raises IndexError.
  The model keeps this as an error outcome (`None`, `ok == false`).
- Moving right assigns `rect.right` (src/Game.py:97). A 16 by 16 player at
  (20, 0) moving (20, 0) into solid column 1 therefore ends with left = 16
  (`Movement.MoveIntoWallExample`).

## Model

| member | source | states |
|---|---|---|
| Geometry.Rect.WithRight | src/Game.py:97 | pygame's `rect.right = v`: the right edge becomes v, and y and the size are kept |
| Geometry.Rect.WithLeft | src/Game.py:99 | pygame's `rect.left = v`: the left edge becomes v, and y and the size are kept |
| Geometry.Rect.WithBottom | src/Game.py:103 | pygame's `rect.bottom = v`: the bottom edge becomes v, and x and the size are kept |
| Geometry.Rect.WithTop | src/Game.py:105 | pygame's `rect.top = v`: the top edge becomes v, and x and the size are kept |
| Geometry.TileOf | src/Game.py:143-144 | The tile of a pixel is the floor of each coordinate divided by 32: `t * 32 <= p < t * 32 + 32` on both axes, negative coordinates included |
| Sampling.SamplePoints | src/Game.py:23-38 | The list `rect_vertexes` returns, in its order; its meaning is stated by `SamplePointsAreStops`, `SamplePointsInside` and `SamplePointsCoverTiles` |
| Sampling.RectVertexes | src/Game.py:23-38 | Builds, in the source's order, the list `SamplePoints(r)`; for a rectangle with positive width and height every point lies inside it |
| Sampling.AppendLattice | src/Game.py:28-30 | The nested stride loops append, for each stride offset i of the width, the points (x + i, y + j) for each stride offset j of the height |
| Sampling.AppendRow | src/Game.py:31-32 | The bottom-edge loop appends (x + i, bottom - 1) for each stride offset i of the width |
| Sampling.AppendColumn | src/Game.py:33-34 | The right-edge loop (and the inner nested loop) appends (px, y + j) for each stride offset j of the height |
| Sampling.SampleCorners | src/Game.py:24-37 | A rectangle within one tile gives exactly (left, top), (left, bottom - 1), (right - 1, top), (right - 1, bottom - 1); a larger one starts with (right - 1, top) and (right - 1, bottom - 1) |
| Sampling.SamplePointsAreStops | src/Game.py:24-37 | For positive width and height, in both cases, the sample points are exactly the points (left + e, top + f), with e a stop of the width and f a stop of the height; the stops of a side are its stride offsets plus its inset far edge |
| Sampling.LargeSamplePointsAreStops | src/Game.py:25-34 | The same characterisation for a rectangle larger than one tile |
| Sampling.LargeSamplePointsSound | src/Game.py:25-34 | Every point in a large rectangle's list lies at a pair of stops |
| Sampling.LargeSamplePointsComplete | src/Game.py:25-34 | Every pair of stops of a large rectangle gives a point in its list |
| Sampling.LargeSamplePointsParts | src/Game.py:25-34 | The list of a large rectangle consists of its two right-edge points, the lattice, the bottom row and the right column |
| Sampling.LatticeMembers | src/Game.py:28-30 | The nested loops produce exactly the points whose offsets lie in both stride lists |
| Sampling.EdgeMembers | src/Game.py:31-34 | The bottom row and the right column hold exactly the stride points on those inset edges |
| Sampling.OffsetsFromBounds | src/Game.py:28 | Every value of `range(i, n - 1, 31)` lies in [i, n - 1) |
| Sampling.OffsetsAdvance | src/Game.py:28 | One more pass of `range(i, n - 1, 31)` extends the offsets visited so far by i; once i >= n - 1 every offset has been visited |
| Sampling.StopsMembers | src/Game.py:28-34 | A stop is either a stride offset or the inset far edge n - 1 |
| Sampling.StopsBounds | src/Game.py:28-34 | The stops of a side of length n >= 1 lie in [0, n - 1] and include both 0 and n - 1 |
| Sampling.ZeroStop | src/Game.py:28-29 | 0 is a stop of every side of length at least 1 |
| Sampling.ShortStops | src/Game.py:35-37 | A side of at most one tile has no stops other than its two ends |
| Sampling.SamplePointsInside | src/Game.py:23-38 | For positive width and height, every sample point satisfies left <= x <= right - 1 and top <= y <= bottom - 1 |
| Sampling.StrideCovers | src/Game.py:28-34 | Along a side, every pixel shares its tile with some stop, because consecutive stops are at most 31 < 32 pixels apart |
| Sampling.StopsIn | src/Game.py:28-34 | For every tile the rectangle overlaps, some pair of stops gives a point in that tile |
| Sampling.SamplePointIn | src/Game.py:23-38 | For every tile the rectangle overlaps, some sample point lies in that tile |
| Sampling.SamplePointsCoverTiles | src/Game.py:23-38 | For positive width and height, a tile overlaps the rectangle if and only if some sample point lies in it |
| TextGrid.Split | src/Game.py:127 | `text.split("\n")` always gives at least one piece; `SplitJoin` states the round trip |
| TextGrid.SplitJoin | src/Game.py:127 | `text.split("\n")` loses nothing: joining the pieces with newlines gives the text back, and no piece holds a newline |
| TextGrid.SplitChars | src/Game.py:127 | A character other than a newline occurs in the text exactly when it occurs in one of the pieces |
| TextGrid.NonEmpty | src/Game.py:127 | The kept lines (`if st`) are non-empty lines of the input |
| TextGrid.NonEmptyChars | src/Game.py:127 | Dropping empty lines keeps every character, and leaves no line exactly when there was no character |
| TextGrid.ParseRow | src/Game.py:127 | `list(map(int, st))` succeeds exactly when every character is a digit; the row is as long as the line and holds each digit's value 0..9 |
| TextGrid.ParseRows | src/Game.py:127 | The comprehension succeeds exactly when every character of every kept line is a digit, and gives one parsed row per line; otherwise it fails with the int() error |
| TextGrid.ParseGrid | src/Game.py:127-128 | The rows `load` computes: when it succeeds there is one row per non-empty line, and at least one; the IndexError of `arr2d[0]` happens only when no line is non-empty |
| TextGrid.ParseGridOutcome | src/Game.py:126-129 | A text loads exactly when all its characters are digits or newlines and at least one is not a newline; it fails with the int() error exactly when some other character occurs, and with the IndexError of `arr2d[0]` exactly when the text holds only newlines |
| TextGrid.ParseGridRows | src/Game.py:127-128 | A successful load has one row per non-empty line (at least one), each as long as its line and holding its digits' values |
| TextGrid.SquareExample | src/Game.py:126-129 | `"11\n11\n"` loads as [[1, 1], [1, 1]] |
| TextGrid.RaggedExample | src/Game.py:126-129 | `"11\n1\n"` loads as the ragged grid [[1, 1], [1]]; unequal rows are not rejected |
| Tiles.PyIndex | src/Game.py:119 | Python list indexing: defined exactly for -len <= i < len, and negative indices count from the end |
| Tiles.Filled | src/Game.py:132 | `size[1]` rows (none for a negative count) of `size[0]` cells, every cell equal to the symbol |
| Tiles.Stamp | src/Game.py:135-138 | Setting picked cells to 1 keeps the number of rows and every row's length |
| Tiles.FirstMisfit | src/Game.py:135-138 | The index of the first pick whose assignment raises IndexError: every earlier pick addresses a cell and this one does not |
| Tiles.StampAt | src/Game.py:138 | After the picks, a cell holds 1 if some pick named it and its old code otherwise |
| Tiles.GameMap.constructor | src/Game.py:111-113 | The new grid has the given size and every cell holds the default code 0 |
| Tiles.GameMap.InBounds | src/Game.py:122 | The guard `0 <= x < size[0] and 0 <= y < size[1]`; `GetTileWithDef` returns the default exactly outside it |
| Tiles.GameMap.CanDraw | src/Game.py:136-137 | n `randint(0, size[i] - 1)` draws succeed exactly when n <= 0 or both dimensions are at least 1 |
| Tiles.GameMap.GetTile | src/Game.py:118-119 | `array_map[y][x]`: the cell's code when (x, y) addresses a cell; for non-negative coordinates IndexError exactly when it does not; a negative row index counts from the end |
| Tiles.GameMap.GetTileWithDef | src/Game.py:121-124 | Returns the default exactly when the point is outside [0, size[0]) x [0, size[1]); inside, returns `array_map[y][x]`, or raises IndexError past the end of a short row |
| Tiles.GameMap.Collisions | src/Game.py:140-145 | Every tile the collision scan reports is in bounds and holds a non-zero code |
| Tiles.GameMap.RectCollision | src/Game.py:140-145 | The loop returns what `Collisions` gives for the rectangle's sample points, including the IndexError outcome |
| Tiles.GameMap.SetMapOfSym | src/Game.py:131-133 | Replaces the rows by `size[1]` rows of `size[0]` cells equal to the symbol, returns them, and keeps the size |
| Tiles.GameMap.RandomSet | src/Game.py:135-138 | Never changes the size. With picks and a dimension below 1, `randint` raises ValueError before any write. Otherwise it applies the picks up to the first one that raises IndexError, and fails exactly when some pick raises. On a covered grid no pick raises, and the grid stays covered |
| Tiles.GameMap.Load | src/Game.py:126-129 | On a parsable text, sets the rows to the parsed rows, the width to the first row's length and the height to the row count; on either error, reports it and changes nothing |
| Tiles.CollisionsFailureSticks | src/Game.py:142-144 | Once a prefix of the sample points raises, the whole scan raises |
| Tiles.CollisionsExact | src/Game.py:140-145 | The scan raises exactly when some point's tile is in bounds but past its row's end; otherwise a tile is reported exactly when it is solid and some point falls in it |
| Tiles.RectCollisionTiles | src/Game.py:140-145 | On a covered grid and a rectangle with positive size, the scan does not raise, and a tile is reported exactly when it is in bounds, non-zero and overlaps the rectangle |
| Tiles.LastCollisionOverlaps | src/Game.py:140-145 | On a covered grid, the last reported tile, the one that decides where `move` stops, is a solid tile that the rectangle overlaps |
| Tiles.NoCollisionsOnEmptyGrid | src/Game.py:140-145 | On an all-zero grid nothing is reported, and on a covered all-zero grid the result is the empty list |
| Tiles.RandomSetCells | src/Game.py:135-138 | On a covered grid with in-bounds picks, no pick raises; afterwards each cell is 1 if picked and unchanged otherwise, and row lengths are kept |
| Movement.PushX | src/Game.py:96-99 | One pass of the x loop: moving right puts the right edge at 32 * column, moving left puts the left edge at 32 * column + 32, and dx = 0 changes nothing; y and the size are kept |
| Movement.PushY | src/Game.py:102-105 | One pass of the y loop: moving down puts the bottom edge at 32 * row, moving up puts the top edge at 32 * row + 32, and dy = 0 changes nothing; x and the size are kept |
| Movement.ResolveX | src/Game.py:95-99 | The x collision loop keeps y and the size, changes nothing when dx is 0 or nothing collides, and otherwise leaves right = 32 * column (moving right) or left = 32 * column + 32 (moving left) of the last collision |
| Movement.ResolveY | src/Game.py:101-105 | The y collision loop keeps x and the size, changes nothing when dy is 0 or nothing collides, and otherwise leaves bottom = 32 * row (moving down) or top = 32 * row + 32 (moving up) of the last collision |
| Movement.SettleX | src/Game.py:95-99 | After the x query: on IndexError the shifted rectangle stays, and y and the size are always kept; with no collision, or dx = 0, it stays where it was shifted; otherwise right = 32 * column of the last collision when moving right, left = 32 * column + 32 when moving left |
| Movement.StepX | src/Game.py:94-99 | The x half of `move` keeps y and the size, and never moves x when dx is 0 |
| Movement.SettleY | src/Game.py:101-105 | After the y query: on IndexError the shifted rectangle stays, and x and the size are always kept; with no collision, or dy = 0, it stays where it was shifted; otherwise bottom = 32 * row of the last collision when moving down, top = 32 * row + 32 when moving up |
| Movement.StepY | src/Game.py:100-105 | The y half of `move` keeps x and the size, and never moves y when dy is 0 |
| Movement.MoveResult | src/Game.py:93-105 | `move` keeps the width and height, never moves an axis whose delta is 0, and finishes only when the x half finished; the y half leaves x where the x half put it |
| Movement.Player.constructor | src/Game.py:46-48 | The player starts as a 16 by 16 rectangle at the given position, on the given grid |
| Movement.Player.MoveX | src/Game.py:94-99 | Shifts by dx and runs the x collision loop; the new rectangle is `StepX` of the old one |
| Movement.Player.MoveY | src/Game.py:100-105 | Shifts by dy and runs the y collision loop; the new rectangle is `StepY` of the old one |
| Movement.Player.Move | src/Game.py:93-105 | The new rectangle, and whether the move finished, are `MoveResult` of the old rectangle: x resolved fully, then y from the x-resolved rectangle |
| Movement.WallCollisions | src/Game.py:140-145 | On the grid [[0, 1]], all four sample points of the 16 by 16 rectangle at (40, 0) report the solid tile (1, 0) |
| Movement.ClearOfWall | src/Game.py:140-145 | On the same grid, the rectangle at (16, 0) reports no collision |
| Movement.MoveIntoWallExample | src/Game.py:93-105 | A 16 by 16 player at (20, 0) moving (20, 0) into solid column 1 ends at (16, 0), its right edge on the tile's left edge |
| View.CentreOn | src/Game.py:187-189 | The view corner that centres the window on the player is (player.x - 360, player.y - 240) |
| View.Eased | src/Game.py:193-194 | What one eased coordinate may be: an integer between the old value and the target, less than one pixel from the exact value (4 * old + target) / 5 |
| View.EasedProperties | src/Game.py:193-194 | An eased coordinate always exists, equals the target when it starts there, and comes strictly closer when the target is at least 5 pixels away |
| View.Camera.constructor | src/Game.py:180-184 | The camera starts with a 720 by 480 view centred on the player |
| View.Camera.MoveToPlayer | src/Game.py:187-189 | Sets the view corner to (player.x - 720 // 2, player.y - 480 // 2) and keeps the view size |
| View.Camera.Ease | src/Game.py:193-194 | Each view coordinate moves to an integer between its old value and the centring target, less than one pixel from the exact fifth-of-the-way value; the view is unchanged when already at the target |

## Left out

- `Player.update` (src/Game.py:60-91) is not modelled. It uses floating-point trigonometry and polls the keyboard and mouse. `set_screen_position` (src/Game.py:54-55) only feeds its mouse mode.
- Movement.Player.Move: the movement is taken as integer (dx, dy). The source passes float deltas, and pygame converts the float it assigns to `rect.x` and `rect.y`; that conversion is not modelled.
- View.Camera.Ease: weaker than the source. It does not fix which integer pygame stores for the float `rect.x + (target - rect.x) / 5`. It only requires an integer between the old value and the target, within one pixel of the exact value. Floating-point rounding of the division is not modelled either.
- Tiles.GameMap.RandomSet: the coordinates drawn by `randint` are an input sequence. Each pick lies within the size of the grid whenever the draws can succeed. The random distribution is not modelled.
- Movement.Player.Move: coordinates are unbounded integers. pygame stores Rect fields as C ints, so the assignments at src/Game.py:94-105 and the camera's at src/Game.py:188-194 cannot hold values outside that range. The model has no such bound.
- TextGrid.ParseRow: accepts only the ASCII digits '0' to '9'. Python's `int()` also accepts other Unicode decimal digits, and those are treated here as the int() error.
- Tiles.GameMap.Collisions: the source calls `get_tile_with_def` without a default, so off-grid tiles read as `None`. The model passes 0, which is falsy in the same way.
- Rendering and the game loop are not modelled: tile blitting and the border in `Camera.draw` (src/Game.py:195-205), `draw_player` (src/Game.py:207-213), `Game` (src/Game.py:148-176) and `main` (src/Game.py:216-217). Neither are frame timing or the window and surface creation (src/Game.py:14, 20). All of these are pygame I/O.
- The `pg_event` hooks (src/Game.py:57-58, 115-116) do nothing and are not modelled.
- Aliasing of Python lists is not modelled: the grid's rows are values. The source never shares a row between two positions.
