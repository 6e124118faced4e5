/** The collision probe and the axis-separated resolver that steps the player
    out of solid cells one pixel at a time (game.js:149-181). */
module Collision {
  import opened Tiles
  import opened Bodies

  /** The probe distance of the resolver in pixels. */
  const MARGIN: int := 2

  /** Whether the player's box, shifted by (dx, dy), covers a solid cell: scans
      every covered column and row and stops at the first solid one
      (game.js:149-161). */
  method CollideMarioTile(m: Mario, g: Grid, dx: int, dy: int) returns (hit: bool)
    ensures hit == Collides(g, m.x + dx, m.y + dy, m.w, m.h)
  {
    var left := (m.x + dx) / TILE;
    var right := (m.x + m.w + dx - 1) / TILE;
    var top := (m.y + dy) / TILE;
    var bottom := (m.y + m.h + dy - 1) / TILE;
    var c := left;
    while c <= right
      invariant left <= c
      invariant forall c', r' :: left <= c' < c && top <= r' <= bottom ==> !SolidCell(g, c', r')
    {
      var r := top;
      while r <= bottom
        invariant top <= r
        invariant forall c', r' :: left <= c' < c && top <= r' <= bottom ==> !SolidCell(g, c', r')
        invariant forall r' :: top <= r' < r ==> !SolidCell(g, c, r')
      {
        var t := TileAt(g, c * TILE, r * TILE);
        if SolidTile(t) {
          assert SolidCell(g, c, r);
          return true;
        }
        r := r + 1;
      }
      c := c + 1;
    }
    return false;
  }

  /** `while (collideMarioTile(m, margin, 0)) m.x -= 1` (game.js:166): steps
      left to the first position, at or left of the start, whose box shifted
      MARGIN pixels right is clear. */
  method BackOffLeft(m: Mario, g: Grid)
    modifies m`x
    ensures m.x <= old(m.x)
    ensures !Collides(g, m.x + MARGIN, m.y, m.w, m.h)
    ensures forall k :: m.x + MARGIN < k <= old(m.x) + MARGIN ==> Collides(g, k, m.y, m.w, m.h)
  {
    var hit := CollideMarioTile(m, g, MARGIN, 0);
    while hit
      invariant m.x <= old(m.x)
      invariant hit == Collides(g, m.x + MARGIN, m.y, m.w, m.h)
      invariant forall k :: m.x + MARGIN < k <= old(m.x) + MARGIN ==> Collides(g, k, m.y, m.w, m.h)
      decreases m.x + m.w + MARGIN
    {
      CollidesBounds(g, m.x + MARGIN, m.y, m.w, m.h);
      m.x := m.x - 1;
      hit := CollideMarioTile(m, g, MARGIN, 0);
    }
  }

  /** `while (collideMarioTile(m, -margin, 0)) m.x += 1` (game.js:170): the
      mirror image of BackOffLeft. */
  method BackOffRight(m: Mario, g: Grid)
    modifies m`x
    ensures m.x >= old(m.x)
    ensures !Collides(g, m.x - MARGIN, m.y, m.w, m.h)
    ensures forall k :: old(m.x) - MARGIN <= k < m.x - MARGIN ==> Collides(g, k, m.y, m.w, m.h)
  {
    var hit := CollideMarioTile(m, g, -MARGIN, 0);
    while hit
      invariant m.x >= old(m.x)
      invariant hit == Collides(g, m.x - MARGIN, m.y, m.w, m.h)
      invariant forall k :: old(m.x) - MARGIN <= k < m.x - MARGIN ==> Collides(g, k, m.y, m.w, m.h)
      decreases TILE * |g| - (m.x - MARGIN)
    {
      CollidesBounds(g, m.x - MARGIN, m.y, m.w, m.h);
      m.x := m.x + 1;
      hit := CollideMarioTile(m, g, -MARGIN, 0);
    }
  }

  /** The landing loop (game.js:176): steps up to the first height, at or
      above the start, whose box shifted MARGIN pixels down is clear; every
      step zeroes vy and sets onGround. */
  method Land(m: Mario, g: Grid)
    modifies m`y, m`vy, m`onGround
    ensures m.y <= old(m.y)
    ensures !Collides(g, m.x, m.y + MARGIN, m.w, m.h)
    ensures forall k :: m.y + MARGIN < k <= old(m.y) + MARGIN ==> Collides(g, m.x, k, m.w, m.h)
    ensures m.y < old(m.y) ==> m.vy == 0 && m.onGround
    ensures m.y == old(m.y) ==> m.vy == old(m.vy) && m.onGround == old(m.onGround)
  {
    var hit := CollideMarioTile(m, g, 0, MARGIN);
    while hit
      invariant m.y <= old(m.y)
      invariant hit == Collides(g, m.x, m.y + MARGIN, m.w, m.h)
      invariant forall k :: m.y + MARGIN < k <= old(m.y) + MARGIN ==> Collides(g, m.x, k, m.w, m.h)
      invariant m.y < old(m.y) ==> m.vy == 0 && m.onGround
      invariant m.y == old(m.y) ==> m.vy == old(m.vy) && m.onGround == old(m.onGround)
      decreases m.y + m.h + MARGIN
    {
      CollidesBounds(g, m.x, m.y + MARGIN, m.w, m.h);
      m.y := m.y - 1;
      m.vy := 0;
      m.onGround := true;
      hit := CollideMarioTile(m, g, 0, MARGIN);
    }
  }

  /** The ceiling loop (game.js:179): steps down to the first height, at or
      below the start, whose box shifted MARGIN pixels up is clear; every step
      zeroes vy. */
  method HitCeiling(m: Mario, g: Grid)
    modifies m`y, m`vy
    ensures m.y >= old(m.y)
    ensures !Collides(g, m.x, m.y - MARGIN, m.w, m.h)
    ensures forall k :: old(m.y) - MARGIN <= k < m.y - MARGIN ==> Collides(g, m.x, k, m.w, m.h)
    ensures m.vy == if m.y > old(m.y) then 0 else old(m.vy)
  {
    var hit := CollideMarioTile(m, g, 0, -MARGIN);
    while hit
      invariant m.y >= old(m.y)
      invariant hit == Collides(g, m.x, m.y - MARGIN, m.w, m.h)
      invariant forall k :: old(m.y) - MARGIN <= k < m.y - MARGIN ==> Collides(g, m.x, k, m.w, m.h)
      invariant m.vy == if m.y > old(m.y) then 0 else old(m.vy)
      decreases TILE * Rows(g) - (m.y - MARGIN)
    {
      CollidesBounds(g, m.x, m.y - MARGIN, m.w, m.h);
      m.y := m.y + 1;
      m.vy := 0;
      hit := CollideMarioTile(m, g, 0, -MARGIN);
    }
  }

  /** The horizontal step of the resolver (game.js:164-172). When moving
      right the body backs off left, so x never increases, and the horizontal
      speed is zeroed exactly when the unshifted box still overlaps. Moving
      left is the mirror image; standing still changes nothing. */
  method ResolveHorizontal(m: Mario, g: Grid)
    modifies m`x, m`vx
    ensures old(m.vx) == 0 ==> m.x == old(m.x) && m.vx == 0
    ensures old(m.vx) > 0 ==>
              && m.x <= old(m.x)
              && !Collides(g, m.x + MARGIN, m.y, m.w, m.h)
              && (forall k :: m.x + MARGIN < k <= old(m.x) + MARGIN ==> Collides(g, k, m.y, m.w, m.h))
              && m.vx == (if Collides(g, m.x, m.y, m.w, m.h) then 0 else old(m.vx))
    ensures old(m.vx) < 0 ==>
              && m.x >= old(m.x)
              && !Collides(g, m.x - MARGIN, m.y, m.w, m.h)
              && (forall k :: old(m.x) - MARGIN <= k < m.x - MARGIN ==> Collides(g, k, m.y, m.w, m.h))
              && m.vx == (if Collides(g, m.x, m.y, m.w, m.h) then 0 else old(m.vx))
  {
    if m.vx > 0 {
      BackOffLeft(m, g);
      var stuck := CollideMarioTile(m, g, 0, 0);
      if stuck {
        m.vx := 0;
      }
    }
    if m.vx < 0 {
      BackOffRight(m, g);
      var stuck := CollideMarioTile(m, g, 0, 0);
      if stuck {
        m.vx := 0;
      }
    }
  }

  /** The vertical step of the resolver (game.js:173-180). The body first
      moves by vy and onGround is cleared. When falling it lands: onGround
      ends true exactly when it stepped up at least once, and then vy is 0.
      When rising it backs down out of a ceiling, zeroing vy if it stepped,
      and onGround stays false. */
  method ResolveVertical(m: Mario, g: Grid)
    modifies m`y, m`vy, m`onGround
    ensures old(m.vy) == 0 ==> m.y == old(m.y) && m.vy == 0 && !m.onGround
    ensures old(m.vy) > 0 ==>
              && m.y <= old(m.y) + old(m.vy)
              && !Collides(g, m.x, m.y + MARGIN, m.w, m.h)
              && (forall k :: m.y + MARGIN < k <= old(m.y) + old(m.vy) + MARGIN ==> Collides(g, m.x, k, m.w, m.h))
              && m.onGround == (m.y < old(m.y) + old(m.vy))
              && m.vy == (if m.onGround then 0 else old(m.vy))
    ensures old(m.vy) < 0 ==>
              && m.y >= old(m.y) + old(m.vy)
              && !Collides(g, m.x, m.y - MARGIN, m.w, m.h)
              && (forall k :: old(m.y) + old(m.vy) - MARGIN <= k < m.y - MARGIN ==> Collides(g, m.x, k, m.w, m.h))
              && !m.onGround
              && m.vy == (if m.y > old(m.y) + old(m.vy) then 0 else old(m.vy))
  {
    m.y := m.y + m.vy;
    m.onGround := false;
    if m.vy > 0 {
      Land(m, g);
    }
    if m.vy < 0 {
      HitCeiling(m, g);
    }
  }

  /** Resolves the player against the grid, horizontal axis first, then
      vertical (game.js:163-181): the horizontal step is taken at the old
      height, the vertical step at the resolved column. */
  method ResolveMarioTiles(m: Mario, g: Grid)
    modifies m`x, m`y, m`vx, m`vy, m`onGround
    // horizontal step, at the old height
    ensures old(m.vx) == 0 ==> m.x == old(m.x) && m.vx == 0
    ensures old(m.vx) > 0 ==>
              && m.x <= old(m.x)
              && !Collides(g, m.x + MARGIN, old(m.y), m.w, m.h)
              && (forall k :: m.x + MARGIN < k <= old(m.x) + MARGIN ==> Collides(g, k, old(m.y), m.w, m.h))
              && m.vx == (if Collides(g, m.x, old(m.y), m.w, m.h) then 0 else old(m.vx))
    ensures old(m.vx) < 0 ==>
              && m.x >= old(m.x)
              && !Collides(g, m.x - MARGIN, old(m.y), m.w, m.h)
              && (forall k :: old(m.x) - MARGIN <= k < m.x - MARGIN ==> Collides(g, k, old(m.y), m.w, m.h))
              && m.vx == (if Collides(g, m.x, old(m.y), m.w, m.h) then 0 else old(m.vx))
    // vertical step, at the resolved column
    ensures old(m.vy) == 0 ==> m.y == old(m.y) && m.vy == 0 && !m.onGround
    ensures old(m.vy) > 0 ==>
              && m.y <= old(m.y) + old(m.vy)
              && !Collides(g, m.x, m.y + MARGIN, m.w, m.h)
              && (forall k :: m.y + MARGIN < k <= old(m.y) + old(m.vy) + MARGIN ==> Collides(g, m.x, k, m.w, m.h))
              && m.onGround == (m.y < old(m.y) + old(m.vy))
              && m.vy == (if m.onGround then 0 else old(m.vy))
    ensures old(m.vy) < 0 ==>
              && m.y >= old(m.y) + old(m.vy)
              && !Collides(g, m.x, m.y - MARGIN, m.w, m.h)
              && (forall k :: old(m.y) + old(m.vy) - MARGIN <= k < m.y - MARGIN ==> Collides(g, m.x, k, m.w, m.h))
              && !m.onGround
              && m.vy == (if m.y > old(m.y) + old(m.vy) then 0 else old(m.vy))
  {
    ResolveHorizontal(m, g);
    ResolveVertical(m, g);
  }
}
