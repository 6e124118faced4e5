/** The level builder: the fixed 45x10 grid, its platforms, pipes and flag
    pole, and the coin, enemy and flag placements (game.js:59-135). */
module Level {
  import opened Tiles
  import opened Bodies

  /** Grid height in cells (the builder's `W`) and width in cells. */
  const ROWS: int := 10
  const COLS: int := 45
  const ENEMY_SPEED: int := 2

  /** The column whose right neighbour holds the flag pole. */
  const FLAG_COL: int := COLS - 4

  /** A rectangle of cells: left column, top row, width and height in cells. */
  datatype Rect = Rect(cx: int, cy: int, cw: int, ch: int)

  const PLATFORMS: seq<Rect> :=
    [Rect(5, 6, 3, 1), Rect(10, 6, 2, 1), Rect(14, 5, 2, 1), Rect(18, 6, 3, 1),
     Rect(24, 5, 2, 1), Rect(28, 6, 2, 1), Rect(32, 5, 3, 1), Rect(38, 6, 2, 1)]

  /** Each pipe is two cells wide and five tall, stamped from its top-left cell. */
  const PIPES: seq<Rect> := [Rect(12, 2, 2, 5), Rect(26, 2, 2, 5), Rect(35, 2, 2, 5)]

  const COIN_SPOTS: seq<(int, int)> :=
    [(6, 6), (8, 6), (11, 6), (16, 5), (20, 6), (22, 6), (30, 5), (34, 5), (40, 6), (42, 6)]

  const ENEMY_SPOTS: seq<(int, int)> := [(7, 8), (15, 7), (21, 8), (29, 7), (36, 8)]

  predicate InRect(q: Rect, c: int, r: int)
  {
    q.cx <= c < q.cx + q.cw && q.cy <= r < q.cy + q.ch
  }

  predicate InAnyRect(qs: seq<Rect>, c: int, r: int)
  {
    exists k :: 0 <= k < |qs| && InRect(qs[k], c, r)
  }

  /** Rects the builder can stamp: they start inside the grid. */
  predicate Placeable(qs: seq<Rect>)
  {
    forall k :: 0 <= k < |qs| ==> qs[k].cx >= 0 && qs[k].cy >= 0
  }

  /** The ground layer: the bottom row everywhere, and the two rows above it
      over the first three and the last four columns (the embankments). */
  function GroundCode(c: int, r: int): int
  {
    if r == ROWS - 1 then GROUND
    else if r >= ROWS - 3 && (c < 3 || c > COLS - 5) then GROUND
    else EMPTY
  }

  /** The finished level in closed form. Later stamps win: the flag pole over
      the pipes, the pipes over the platforms, the platforms over the ground. */
  function LevelCell(c: int, r: int): int
  {
    if c == FLAG_COL + 1 && ROWS - 4 <= r <= ROWS - 1 then FLAGPOLE
    else if InAnyRect(PIPES, c, r) then PIPE
    else if InAnyRect(PLATFORMS, c, r) then BLOCK
    else GroundCode(c, r)
  }

  predicate IsGridShape(t: Grid)
  {
    |t| == COLS && forall c :: 0 <= c < COLS ==> |t[c]| == ROWS
  }

  predicate IsLevelTiles(t: Grid)
  {
    IsGridShape(t) && forall c, r :: 0 <= c < COLS && 0 <= r < ROWS ==> t[c][r] == LevelCell(c, r)
  }

  /** A coin placed at a spot is 16x16, centred in that cell, and not yet collected. */
  predicate CoinPlacedAt(k: Coin, spot: (int, int))
  {
    k.w == 16 && k.h == 16 && !k.collected
    && k.x + k.w / 2 == spot.0 * TILE + TILE / 2
    && k.y + k.h / 2 == spot.1 * TILE + TILE / 2
  }

  predicate IsLevelCoins(cs: seq<Coin>)
  {
    |cs| == |COIN_SPOTS| && forall i :: 0 <= i < |cs| ==> CoinPlacedAt(cs[i], COIN_SPOTS[i])
  }

  /** An enemy spawned at a spot is a live 28x28 body walking left, flush with
      the right edge of the spot's column and with its top on the top of the
      row above the spot. */
  predicate EnemySpawnedAt(e: Enemy, spot: (int, int))
  {
    e.w == 28 && e.h == 28 && e.alive && e.vx == -ENEMY_SPEED && e.vy == 0
    && e.x + e.w == (spot.0 + 1) * TILE
    && e.y == (spot.1 - 1) * TILE
  }

  predicate IsLevelEnemies(es: seq<Enemy>)
  {
    |es| == |ENEMY_SPOTS| && forall i :: 0 <= i < |es| ==> EnemySpawnedAt(es[i], ENEMY_SPOTS[i])
  }

  /** The goal marker: 24 pixels wide at the left of the flag column, spanning
      the four rows above and including the floor, not yet reached. */
  predicate IsLevelFlag(f: Flag)
  {
    f.x == FLAG_COL * TILE && f.w == 24 && f.y == (ROWS - 4) * TILE && f.h == 4 * TILE && !f.reached
  }

  /** Lays the ground layer column by column (game.js:63-76). */
  method BuildGround() returns (t: Grid)
    ensures IsGridShape(t)
    ensures forall c, r :: 0 <= c < COLS && 0 <= r < ROWS ==> t[c][r] == GroundCode(c, r)
  {
    t := [];
    var c := 0;
    while c < COLS
      invariant 0 <= c <= COLS && |t| == c
      invariant forall c' :: 0 <= c' < c ==> |t[c']| == ROWS
      invariant forall c', r :: 0 <= c' < c && 0 <= r < ROWS ==> t[c'][r] == GroundCode(c', r)
    {
      var column := [];
      var r := 0;
      while r < ROWS
        invariant 0 <= r <= ROWS && |column| == r
        invariant forall r' :: 0 <= r' < r ==> column[r'] == GroundCode(c, r')
      {
        column := column + [GroundCode(c, r)];
        r := r + 1;
      }
      t := t + [column];
      c := c + 1;
    }
  }

  /** Stamps `code` over the cells of one rect that lie inside the grid
      (game.js:90-96, 101-107). */
  method StampRect(t: Grid, q: Rect, code: int) returns (t': Grid)
    requires IsGridShape(t) && q.cx >= 0 && q.cy >= 0
    ensures IsGridShape(t')
    ensures forall c, r :: 0 <= c < COLS && 0 <= r < ROWS ==>
              t'[c][r] == if InRect(q, c, r) then code else t[c][r]
  {
    t' := t;
    var i := 0;
    while i < q.cw
      invariant 0 <= i && (i == 0 || i <= q.cw)
      invariant IsGridShape(t')
      invariant forall c, r :: 0 <= c < COLS && 0 <= r < ROWS ==>
                  t'[c][r] == if q.cx <= c < q.cx + i && q.cy <= r < q.cy + q.ch then code else t[c][r]
    {
      var j := 0;
      while j < q.ch
        invariant 0 <= j && (j == 0 || j <= q.ch)
        invariant IsGridShape(t')
        invariant forall c, r :: 0 <= c < COLS && 0 <= r < ROWS ==>
                    t'[c][r] == if (q.cx <= c < q.cx + i && q.cy <= r < q.cy + q.ch)
                                   || (c == q.cx + i && q.cy <= r < q.cy + j)
                                then code else t[c][r]
      {
        var x := q.cx + i;
        var y := q.cy + j;
        if x < COLS && y < ROWS {
          t' := t'[x := t'[x][y := code]];
        }
        j := j + 1;
      }
      i := i + 1;
    }
  }

  lemma InAnyRectPrefix(qs: seq<Rect>, k: nat, c: int, r: int)
    requires k < |qs|
    ensures InAnyRect(qs[..k + 1], c, r) <==> InAnyRect(qs[..k], c, r) || InRect(qs[k], c, r)
  {
    if InAnyRect(qs[..k + 1], c, r) {
      var j :| 0 <= j < k + 1 && InRect(qs[..k + 1][j], c, r);
      if j < k {
        assert qs[..k][j] == qs[..k + 1][j];
      }
    }
    if InRect(qs[k], c, r) {
      assert qs[..k + 1][k] == qs[k];
    }
    if InAnyRect(qs[..k], c, r) {
      var j :| 0 <= j < k && InRect(qs[..k][j], c, r);
      assert qs[..k + 1][j] == qs[..k][j];
    }
  }

  /** Stamps `code` over every rect of a list in turn (game.js:89-97, 100-108). */
  method StampRects(t: Grid, qs: seq<Rect>, code: int) returns (t': Grid)
    requires IsGridShape(t) && Placeable(qs)
    ensures IsGridShape(t')
    ensures forall c, r :: 0 <= c < COLS && 0 <= r < ROWS ==>
              t'[c][r] == if InAnyRect(qs, c, r) then code else t[c][r]
  {
    t' := t;
    var k := 0;
    while k < |qs|
      invariant 0 <= k <= |qs|
      invariant IsGridShape(t')
      invariant forall c, r :: 0 <= c < COLS && 0 <= r < ROWS ==>
                  t'[c][r] == if InAnyRect(qs[..k], c, r) then code else t[c][r]
    {
      t' := StampRect(t', qs[k], code);
      forall c, r | 0 <= c < COLS && 0 <= r < ROWS
        ensures InAnyRect(qs[..k + 1], c, r) <==> InAnyRect(qs[..k], c, r) || InRect(qs[k], c, r)
      {
        InAnyRectPrefix(qs, k, c, r);
      }
      k := k + 1;
    }
    assert qs[..k] == qs;
  }

  /** Builds the level grid: ground, then platforms, then pipes, then the flag
      pole (game.js:59-119). */
  method BuildTiles() returns (t: Grid)
    ensures IsLevelTiles(t)
  {
    t := BuildGround();
    t := StampRects(t, PLATFORMS, BLOCK);
    t := StampRects(t, PIPES, PIPE);
    var r := ROWS - 4;
    while r <= ROWS - 1
      invariant ROWS - 4 <= r <= ROWS
      invariant IsGridShape(t)
      invariant forall c, r' :: 0 <= c < COLS && 0 <= r' < ROWS ==>
                  t[c][r'] == if c == FLAG_COL + 1 && ROWS - 4 <= r' < r then FLAGPOLE
                              else if InAnyRect(PIPES, c, r') then PIPE
                              else if InAnyRect(PLATFORMS, c, r') then BLOCK
                              else GroundCode(c, r')
    {
      t := t[FLAG_COL + 1 := t[FLAG_COL + 1][r := FLAGPOLE]];
      r := r + 1;
    }
  }

  /** Creates the coins, one per spot, in spot order (game.js:111-114). */
  method BuildCoins() returns (cs: seq<Coin>)
    ensures IsLevelCoins(cs)
  {
    cs := [];
    var i := 0;
    while i < |COIN_SPOTS|
      invariant 0 <= i <= |COIN_SPOTS| && |cs| == i
      invariant forall j :: 0 <= j < i ==> CoinPlacedAt(cs[j], COIN_SPOTS[j])
    {
      var (gx, gy) := COIN_SPOTS[i];
      cs := cs + [Coin(gx * TILE + 8, gy * TILE + 8, 16, 16, false)];
      i := i + 1;
    }
  }

  /** Creates the enemies, one per spot, in spot order (game.js:122-134). */
  method BuildEnemies() returns (es: seq<Enemy>)
    ensures IsLevelEnemies(es)
  {
    es := [];
    var i := 0;
    while i < |ENEMY_SPOTS|
      invariant 0 <= i <= |ENEMY_SPOTS| && |es| == i
      invariant forall j :: 0 <= j < i ==> EnemySpawnedAt(es[j], ENEMY_SPOTS[j])
    {
      var (gx, gy) := ENEMY_SPOTS[i];
      es := es + [Enemy(gx * TILE + 4, (gy - 1) * TILE, 28, 28, -ENEMY_SPEED, 0, true)];
      i := i + 1;
    }
  }

  /** The goal marker (game.js:117-118). */
  function BuildFlag(): (f: Flag)
    ensures IsLevelFlag(f)
  {
    Flag(FLAG_COL * TILE, (ROWS - 4) * TILE, 24, 4 * TILE, false)
  }

  // ---- Shape of the finished level ----

  lemma NoStampOnFloor(c: int)
    ensures !InAnyRect(PIPES, c, ROWS - 1) && !InAnyRect(PLATFORMS, c, ROWS - 1)
  {
    forall k | 0 <= k < |PIPES| ensures !InRect(PIPES[k], c, ROWS - 1) {
    }
    forall k | 0 <= k < |PLATFORMS| ensures !InRect(PLATFORMS[k], c, ROWS - 1) {
    }
  }

  /** The floor has no gaps: every bottom-row cell is GROUND, except under the
      flag pole, whose column is FLAGPOLE all the way down. */
  lemma FloorIsSolid(c: int)
    requires 0 <= c < COLS
    ensures LevelCell(c, ROWS - 1) == if c == FLAG_COL + 1 then FLAGPOLE else GROUND
    ensures SolidTile(LevelCell(c, ROWS - 1))
  {
    NoStampOnFloor(c);
  }

  /** The flag pole is column 42, rows 6 to 9. */
  lemma PoleColumn(c: int, r: int)
    requires 0 <= c < COLS && 0 <= r < ROWS
    ensures (LevelCell(c, r) == FLAGPOLE) <==> (c == 42 && 6 <= r <= 9)
  {
  }

  /** The goal marker spans exactly the rows of the pole beside it. */
  lemma FlagSpansPole(f: Flag, r: int)
    requires IsLevelFlag(f)
    ensures f.y / TILE == ROWS - 4 && (f.y + f.h - 1) / TILE == ROWS - 1
    ensures f.y / TILE <= r <= (f.y + f.h - 1) / TILE ==> LevelCell(f.x / TILE + 1, r) == FLAGPOLE
  {
  }

  /** No stamp overwrites another: no platform lies under a pipe and the pole
      column holds neither, so the stamping order does not matter for them:
      every pipe cell is PIPE and every platform cell BLOCK. */
  lemma StampsDisjoint(c: int, r: int)
    ensures !(InAnyRect(PIPES, c, r) && InAnyRect(PLATFORMS, c, r))
    ensures InAnyRect(PIPES, c, r) ==> LevelCell(c, r) == PIPE
    ensures InAnyRect(PLATFORMS, c, r) ==> LevelCell(c, r) == BLOCK
  {
  }
}
