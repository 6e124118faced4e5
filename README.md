# Tile-world platformer simulation in Dafny

This project models the simulation core of a small browser platformer in
`game.js`. The player (Mario) runs through a fixed 45×10 tile level,
collects coins, stomps or is hurt by patrolling enemies, and reaches a flag.
The model covers these parts of the original:

- **Tile grid** (`tiles.dfy`, module `Tiles`). Cell codes, the pixel-to-cell
  lookup `TileAt` (floor division; every cell outside the grid reads as
  empty), solidity, and the box-against-grid predicate `Collides`.
- **Bodies** (`bodies.dfy`, module `Bodies`). The player is a class whose
  fields are updated in place. Coins, enemies and the flag are values.
- **Level builder** (`level.dfy`, module `Level`). The grid is built with the
  original's loops: ground, then platforms, then pipes, then the flag pole.
  It is proved equal to a closed-form reference `LevelCell`. The coin, enemy
  and flag placements are proved too.
- **Collision resolver** (`collision.dfy`, module `Collision`). The
  collision probe `CollideMarioTile` is a nested-loop method proved against
  `Collides`. `ResolveMarioTiles` steps the player out of solid cells 1px at
  a time, horizontal axis first. Every stepping loop is proved to terminate:
  a box can only collide while it reaches into the grid.
- **Interaction rules** (`rules.dfy`, module `Rules`). Coin pickup, the flag
  trigger, enemy patrol, stomp-or-hurt classification and the camera clamp,
  written as functions of values, with the lemmas that give them meaning.
- **Session** (`session.dfy`, module `Session`). The class `Game` holds the
  globals: phase, score, coins, lives, camera offset, level width, grid,
  coins, enemies, flag and the player. Its methods are `HurtMario`,
  `StartGame`, the coin, flag and enemy passes of a frame, `UpdateMario` and
  `Tick` (the simulation part of the game loop). `Valid()` is the session
  invariant:
  - the coin count equals the number of coins collected;
  - the score is never negative;
  - the score includes the flag bonus once the flag is reached;
  - the game is over exactly when no life is left;
  - while playing, at least one life is left.

Pixel positions and velocities are integers. The camera offset is a `real`,
because the original computes it from 35% of the viewport width.
`Date.now()` is the parameter `now`, and `canvas.width` is the parameter
`viewW`. The stomp test `y + h - 8 < e.y + e.h * 0.5` is used exactly, in the
doubled form `2*(y + h - 8) < 2*e.y + e.h`.

Behaviours of the code worth knowing:

- The camera clamp applies `min` after `max`. So the offset is always at most
  `levelWidth - viewW`, but it is negative when the level is narrower than
  the viewport (`Rules.NarrowLevelCameraNegative`). It is not bounded below
  by 0.
- `startGame` does not reset the camera offset.
- The enemy wall probe reads the row that contains the enemy's bottom edge,
  `floor((y + h) / 32)`. For the spawned 28-pixel enemies that is the enemy's
  own row, not the row below it.
- The flag pole replaces the floor cell in column 42. The bottom row is
  ground everywhere except there (`Level.FloorIsSolid`).
- The flag test does not check the flag's bottom edge.

## Model

| member | source | states |
|---|---|---|
| `Tiles.TileAt` | game.js:137-143 | The lookup is total. A column outside `[0, cols)` or a row outside `[0, rows of column 0)` reads as empty (0). Inside the grid it returns the stored cell of `floor(px/32)`, `floor(py/32)`. |
| `Tiles.SolidTile` | game.js:145-147 | Whether a cell code blocks movement: ground, block, brick, pipe and flag pole do; empty, coin and flag do not. |
| `Tiles.SolidCodes` | game.js:145-147 | Of the codes 0..7, a code is solid exactly when it is not empty (0), coin (5) or flag (6). So 1, 2, 3, 4 and 7 are solid. |
| `Tiles.CollidesBounds` | game.js:149-161 | A colliding box reaches into the grid on both axes. This bounds every stepping loop of the resolver. |
| `Collision.CollideMarioTile` | game.js:149-161 | The nested scan returns true exactly when some cell covered by the shifted box is solid. |
| `Collision.BackOffLeft` | game.js:166 | The loop stops at the first position at or left of the start whose box, 2px to the right, is clear. Every position it passed was blocked, so x never increases. |
| `Collision.BackOffRight` | game.js:170 | The mirror image: the first position at or right of the start whose box, 2px to the left, is clear. |
| `Collision.Land` | game.js:176 | The loop steps up to the first height whose box, 2px lower, is clear. If it stepped at all, vy is 0 and onGround is true. Otherwise vy and onGround are unchanged. |
| `Collision.HitCeiling` | game.js:179 | The loop steps down to the first height whose box, 2px higher, is clear. It zeroes vy only if it stepped. |
| `Collision.ResolveHorizontal` | game.js:164-172 | When moving right: x does not increase, the 2px-right probe ends clear, and vx becomes 0 exactly when the box still overlaps at offset 0. Moving left is the mirror image. With vx = 0 nothing changes. |
| `Collision.ResolveVertical` | game.js:173-180 | y first moves by exactly vy. When falling, onGround ends true exactly when the loop stepped; then vy is 0 and the 2px-down probe is clear. When rising, onGround stays false. |
| `Collision.ResolveMarioTiles` | game.js:163-181 | The horizontal step runs at the old height. The vertical step runs at the resolved column. Each step has the guarantees above. |
| `Bodies.Mario.constructor` | game.js:39-51 | The initial player: at (80, 0), 28×28, at rest, facing right, not invincible. |
| `Level.BuildGround` | game.js:63-76 | A 45-column × 10-row grid. The bottom row is ground, the two rows above it are ground on columns 0-2 and 41-44, and every other cell is empty. |
| `Level.StampRect` | game.js:90-96 | Exactly the rect's cells inside the grid take the code. Every other cell keeps its value. |
| `Level.StampRects` | game.js:89-97 | After stamping a list of rects, a cell has the code exactly when some rect covers it. |
| `Level.BuildTiles` | game.js:59-119 | The built grid equals the closed form `LevelCell`. Later stamps win: pole over pipe over platform over ground. |
| `Level.BuildCoins` | game.js:111-114 | One coin per spot, in order. Each is 16×16, centred in its cell and not collected. |
| `Level.BuildEnemies` | game.js:122-134 | One enemy per spot, in order. Each is 28×28 and alive, with vx = -2 and vy = 0, flush with its column's right edge, with its top on the row above the spot. |
| `Level.BuildFlag` | game.js:117-118 | The flag box is at column 41, rows 6-9, 24 px wide and 128 px tall, not reached. |
| `Level.FloorIsSolid` | game.js:65-76 | The floor has no gaps. Every bottom-row cell is ground, except column 42, which is the flag pole. Every bottom-row cell is solid. |
| `Level.PoleColumn` | game.js:117-119 | A cell is flag pole exactly when it is in column 42, rows 6 to 9. |
| `Level.FlagSpansPole` | game.js:117-119 | The flag box covers exactly rows 6-9. Each of those rows is pole in the next column. |
| `Level.StampsDisjoint` | game.js:79-108 | No platform lies under a pipe, and the pole column holds neither, so no stamp overwrites another. Every pipe cell ends PIPE and every platform cell ends BLOCK. |
| `Rules.Pickup` | game.js:211-218 | A coin ends collected when it already was or when the player's box overlaps it. Nothing else about a coin changes. |
| `Rules.AllUncollected` | game.js:111-114 | A freshly built coin list has all its coins still to collect. |
| `Rules.PickupBalance` | game.js:211-218 | A pass moves exactly the newly counted coins from uncollected to collected. |
| `Rules.PickupIdempotent` | game.js:211-218 | A second pass with the same box counts nothing and changes nothing: pickup is one-shot. |
| `Rules.NewCoinsAtMostUncollected` | game.js:212 | Coins already collected are never counted again. |
| `Rules.ReachFlag` | game.js:221-223 | `reached` becomes true on contact and is never cleared. The 5000 bonus is paid exactly on the false-to-true transition. |
| `Rules.FlagPaysOnce` | game.js:221-223 | Two successive tests with any boxes pay at most 5000 together. |
| `Rules.WallAhead` | game.js:235-243 | The patrol's wall probe: some solid cell lies in the row holding the enemy's bottom edge, `floor((y+h)/32)`, between the columns of its left and right edges, both inclusive. |
| `Rules.PatrolVx` | game.js:235-245 | The patrol keeps the enemy's speed and changes only its direction. It reverses at a wall. The left leash sends the enemy right and the right leash sends it left; the right leash wins when both apply. |
| `Rules.MoveEnemy` | game.js:234-245 | A live enemy always moves by its velocity and keeps its speed. Its other fields are unchanged. |
| `Rules.Classify` | game.js:248-257 | The encounter of the player with a live enemy. It is Shielded exactly while the player is invincible. Otherwise it is a Stomp or a Hurt exactly when the boxes overlap, and a Stomp only while the player falls. |
| `Rules.StompFromAbove` | game.js:249-254 | A falling player that overlaps a 28px enemy, with its bottom edge 2px into the enemy's top, stomps it. |
| `Rules.NotFallingHurts` | game.js:248-257 | An overlap while not falling hurts. Invincibility skips the check entirely. |
| `Rules.CameraX` | game.js:385-386 | The offset is at most `levelWidth - viewW`. It is at least 0 when the level is at least as wide as the viewport. |
| `Rules.NarrowLevelCameraNegative` | game.js:385-386 | With a level narrower than the viewport, the offset is negative. |
| `Rules.CameraFollows` | game.js:385-386 | Between the clamps, the camera sits 35% of the viewport behind the player. |
| `Session.Game.constructor` | game.js:30-57 | The state at page load: phase Start, score 0, coins 0, 3 lives, camera 0, the level built, and the session invariant holding. |
| `Session.Game.BuildLevel` | game.js:59-135 | The level width is 45×32. The grid, coins, enemies and flag are the fresh level. |
| `Session.Game.HurtMario` | game.js:262-277 | While invincible, nothing changes. Otherwise lives drop by exactly 1, invincibility lasts until now + 2000, vx = 0 and vy = -10. With lives ≤ 0 the phase becomes GameOver; otherwise the player respawns at (80, 200) and the phase is kept. |
| `Session.Game.StartGame` | game.js:403-422 | Score 0, coins 0, 3 lives, phase Playing, a fresh level, the player at (80, 200) at rest and not invincible. The session invariant holds. |
| `Session.Game.CollectCoins` | game.js:211-218 | The coins become the pickup of the old coins. Coins and score grow by exactly 1 and by 200 per newly collected coin. The invariant is kept. |
| `Session.Game.CheckFlag` | game.js:221-223 | The flag and the score gain follow `ReachFlag`: 5000 only on the first contact. |
| `Session.Game.UpdateEnemy` | game.js:233-258 | A dead enemy changes nothing. A live one always moves and is re-aimed by the patrol. Then, unless the player is invincible, an overlap is a stomp or a hurt. A stomp kills the enemy, sets vy = -8 and adds 100. A hurt has exactly the effect of `HurtMario`. |
| `Session.Game.UpdateEnemies` | game.js:232-259 | Tombstones stay, and no enemy revives. Live enemies move and keep their speed. The score grows by 100 per stomp. At most one life is lost per pass. When invincible from the start, nothing about the player, the lives or the score changes. |
| `Session.Game.UpdateMario` | game.js:183-260 | A frame runs only while playing; otherwise nothing changes. The invariant is kept. The phase stays Playing or becomes GameOver. Score and coins never decrease, and at most one life is lost. |
| `Session.Game.Tick` | game.js:383-388 | While playing, the frame runs and the camera is set by the clamp, so it is at most `levelWidth - viewW`. Otherwise nothing changes. |

## Left out

- Drawing (`drawTile`, `drawLevel`, `drawMario`, `drawEnemies`, `drawCollectibles`), `resize`, `updateHUD` and the overlay and text updates are not modelled. They are presentation only.
- The keyboard, touch and mouse listeners, the start-screen guard, `requestAnimationFrame` and the 50 ms `dt` clamp are not modelled. They are event plumbing. Key state enters only through the velocities passed to `UpdateMario`.
- The 400 ms `setTimeout` that switches to the Win phase is not modelled, because it is asynchronous. The model keeps only `flag.reached` and the bonus, so the Win phase is never entered. The original has no guard against a stale timer after a restart, and none is invented.
- Friction (`vx *= 0.82`), run acceleration, the jump impulse and gravity 0.6 are floating-point. Their result is the integer velocity given to `UpdateMario`. The jump's clearing of `onGround` is skipped, because the resolver clears it anyway.
- The walk animation (`animFrame`, `animTimer`, driven by `dt`) is not modelled: it is presentation.
- Every `Date.now()` call within one frame reads the same value `now`.
- The string `type` tags of coins and enemies are not modelled, because each list has a single type.
- Coins and enemies are objects mutated in place in the original. Here they are values in sequences, and an update replaces the element. No other reference to them exists, so aliasing plays no part.
- `Level.StampRect` and `Level.StampRects` require rects with non-negative corners. The builder's fixed rects all have them.
- A cell missing from a ragged column is `undefined` in the original and reads as empty here. Both are non-solid.
- `Session.Game.UpdateMario`: states the session invariant, the phase transition and the bounds on score, coins and lives, not the exact new state. The exact effect of each stage is stated by `ResolveMarioTiles`, `HurtMario`, `CollectCoins`, `CheckFlag` and `UpdateEnemy`.
- `Session.Game.UpdateEnemies`: states per-enemy and per-pass properties rather than the exact result of the sequential pass. The exact effect of one enemy is stated by `UpdateEnemy`.
- `Session.Game.Tick`: states the camera clamp and the invariant, and defers the frame's effect to `UpdateMario`.
