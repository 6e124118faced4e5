/** The simulated bodies: the player, coins, enemies and the goal flag
    (game.js:38-57, 113, 118, 124-133). */
module Bodies {

  /** An axis-aligned box: top-left pixel and size. */
  datatype Box = Box(x: int, y: int, w: int, h: int)

  /** Whether two boxes share interior area (the strict test used for coins
      and enemies). */
  predicate Overlaps(a: Box, b: Box)
  {
    a.x + a.w > b.x && a.x < b.x + b.w && a.y + a.h > b.y && a.y < b.y + b.h
  }

  /** A 16x16 coin; `collected` is a one-way tombstone. */
  datatype Coin = Coin(x: int, y: int, w: int, h: int, collected: bool)
  {
    function Bounds(): Box { Box(x, y, w, h) }
  }

  /** A patrolling enemy; `alive == false` is a terminal tombstone. */
  datatype Enemy = Enemy(x: int, y: int, w: int, h: int, vx: int, vy: int, alive: bool)
  {
    function Bounds(): Box { Box(x, y, w, h) }
  }

  /** The goal marker: a box spanning the pole's height; `reached` is one-way. */
  datatype Flag = Flag(x: int, y: int, w: int, h: int, reached: bool)

  /** The single player body. Its fields are updated in place by the
      collision resolver, the interaction rules and the session. The
      animation frame and timer are not modelled. */
  class Mario {
    var x: int
    var y: int
    const w: int
    const h: int
    var vx: int
    var vy: int
    var onGround: bool
    var facing: int
    var invincibleUntil: int

    /** The initial player object (game.js:39-51). */
    constructor ()
      ensures x == 80 && y == 0 && w == 28 && h == 28
      ensures vx == 0 && vy == 0 && !onGround && facing == 1 && invincibleUntil == 0
    {
      x, y, w, h := 80, 0, 28, 28;
      vx, vy := 0, 0;
      onGround := false;
      facing := 1;
      invincibleUntil := 0;
    }

    /** The player's current box. */
    function Bounds(): Box
      reads this
    {
      Box(x, y, w, h)
    }
  }
}
