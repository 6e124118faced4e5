/** The tile grid: cell codes, pixel-to-cell lookup and solidity queries
    (game.js:5, 53, 137-161). */
module Tiles {

  /** Edge length of a square tile in pixels. */
  const TILE: int := 32

  // Cell codes of the level grid.
  const EMPTY: int := 0
  const GROUND: int := 1
  const BLOCK: int := 2
  const BRICK: int := 3
  const PIPE: int := 4
  const COIN: int := 5
  const FLAG: int := 6
  const FLAGPOLE: int := 7

  /** The grid is indexed [column][row]; it is an array of columns. */
  type Grid = seq<seq<int>>

  /** Number of rows as `getTileAt` reads it: the height of the first column. */
  function Rows(g: Grid): nat
  {
    if |g| == 0 then 0 else |g[0]|
  }

  /** The cell code under pixel (px, py). Pixels are mapped to cells by floor
      division (Dafny's `/` with a positive divisor is a floor), and every cell
      outside the grid reads as EMPTY. A cell missing from a ragged column would
      be `undefined` in the original; it reads as EMPTY here, which is just as
      non-solid. */
  function TileAt(g: Grid, px: int, py: int): (t: int)
    ensures px / TILE < 0 || px / TILE >= |g| ==> t == EMPTY
    ensures py / TILE < 0 || py / TILE >= Rows(g) ==> t == EMPTY
    ensures 0 <= px / TILE < |g| && 0 <= py / TILE < |g[px / TILE]| && py / TILE < Rows(g) ==>
              t == g[px / TILE][py / TILE]
  {
    var col := px / TILE;
    var row := py / TILE;
    if col < 0 || col >= |g| then EMPTY
    else if row < 0 || row >= Rows(g) then EMPTY
    else if row >= |g[col]| then EMPTY
    else g[col][row]
  }

  /** Whether a cell code blocks movement. */
  predicate SolidTile(t: int)
  {
    t == GROUND || t == BLOCK || t == BRICK || t == PIPE || t == FLAGPOLE
  }

  /** Of the eight codes the level uses, exactly GROUND, BLOCK, BRICK, PIPE and
      FLAGPOLE are solid. */
  lemma SolidCodes(t: int)
    requires EMPTY <= t <= FLAGPOLE
    ensures SolidTile(t) <==> t !in {EMPTY, COIN, FLAG}
  {
  }

  /** Whether cell (c, r) is solid, read through the pixel lookup exactly as the
      collision probe does it (at the cell's top-left pixel). */
  predicate SolidCell(g: Grid, c: int, r: int)
  {
    SolidTile(TileAt(g, c * TILE, r * TILE))
  }

  /** The top-left pixel of a cell maps back to that cell. */
  lemma CellOfCorner(c: int)
    ensures (c * TILE) / TILE == c
  {
  }

  /** A solid cell is inside the grid. */
  lemma SolidCellInGrid(g: Grid, c: int, r: int)
    requires SolidCell(g, c, r)
    ensures 0 <= c < |g| && 0 <= r < Rows(g)
  {
    CellOfCorner(c);
    CellOfCorner(r);
  }

  /** Whether the w-by-h box with top-left pixel (x, y) covers a solid cell:
      the columns x/TILE .. (x+w-1)/TILE and rows y/TILE .. (y+h-1)/TILE. */
  ghost predicate Collides(g: Grid, x: int, y: int, w: int, h: int)
  {
    exists c, r :: x / TILE <= c <= (x + w - 1) / TILE && y / TILE <= r <= (y + h - 1) / TILE
                   && SolidCell(g, c, r)
  }

  /** A box can only collide while it reaches into the grid. This bounds how
      far the collision resolver can step a body before it is clear. */
  lemma CollidesBounds(g: Grid, x: int, y: int, w: int, h: int)
    requires Collides(g, x, y, w, h)
    ensures 0 <= x + w - 1 && x < TILE * |g|
    ensures 0 <= y + h - 1 && y < TILE * Rows(g)
  {
    var c, r :| x / TILE <= c <= (x + w - 1) / TILE && y / TILE <= r <= (y + h - 1) / TILE
                && SolidCell(g, c, r);
    SolidCellInGrid(g, c, r);
  }
}
