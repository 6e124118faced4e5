/** The game session: phase, score, coin and life counters, the level's
    state, and the frame update that drives them (game.js:30-36, 183-277,
    383-388, 403-422). */
module Session {
  import opened Tiles
  import opened Bodies
  import opened Level
  import opened Collision
  import opened Rules

  datatype Phase = Start | Playing | GameOver | Win

  const SPAWN_X: int := 80
  const SPAWN_Y: int := 200
  const START_LIVES: int := 3
  const INVINCIBLE_MS: int := 2000
  const HURT_BOUNCE: int := -10
  const STOMP_BOUNCE: int := -8

  class Game {
    var state: Phase
    var score: int
    var coins: int
    var lives: int
    var cameraX: real
    var levelWidth: int
    var tiles: Grid
    var collectibles: seq<Coin>
    var enemies: seq<Enemy>
    var flag: Flag
    const mario: Mario

    /** The session invariant: the coin count is exactly the number of coins
        collected this session, the score never goes negative and includes
        the flag bonus once the flag is reached, and the game is over exactly
        when no life is left. */
    ghost predicate Valid()
      reads this
    {
      && 0 <= score
      && 0 <= coins
      && coins + Uncollected(collectibles) == |collectibles|
      && 0 <= lives <= START_LIVES
      && (state == Playing ==> lives >= 1)
      && (state == GameOver <==> lives == 0)
      && (flag.reached ==> score >= FLAG_SCORE)
    }

    /** The state when the page loads: the globals' initial values and one
        call of buildLevel (game.js:30-57, 464). */
    constructor ()
      ensures Valid()
      ensures state == Start && score == 0 && coins == 0 && lives == START_LIVES && cameraX == 0.0
      ensures levelWidth == COLS * TILE && IsLevelTiles(tiles) && IsLevelCoins(collectibles)
      ensures IsLevelEnemies(enemies) && IsLevelFlag(flag)
      ensures fresh(mario) && mario.x == 80 && mario.y == 0 && mario.w == 28 && mario.h == 28
      ensures mario.vx == 0 && mario.vy == 0 && !mario.onGround && mario.invincibleUntil == 0
    {
      state := Start;
      score, coins, lives := 0, 0, START_LIVES;
      cameraX := 0.0;
      levelWidth := 0;
      tiles, collectibles, enemies := [], [], [];
      flag := Flag(0, 0, 0, 0, false);
      mario := new Mario();
      new;
      BuildLevel();
      AllUncollected(collectibles);
    }

    /** Rebuilds the level: grid, coins, flag and enemies, all fresh
        (game.js:59-135). */
    method BuildLevel()
      modifies this`levelWidth, this`tiles, this`collectibles, this`enemies, this`flag
      ensures levelWidth == COLS * TILE
      ensures IsLevelTiles(tiles) && IsLevelCoins(collectibles)
      ensures IsLevelEnemies(enemies) && IsLevelFlag(flag)
    {
      levelWidth := COLS * TILE;
      tiles := BuildTiles();
      collectibles := BuildCoins();
      flag := BuildFlag();
      enemies := BuildEnemies();
    }

    /** Damage (game.js:262-277). While invincible nothing changes. Otherwise
        one life is lost, the player is invincible for 2000 ms, stops and
        bounces up; with no life left the game is over and the player stays
        where it is, else it respawns at the spawn point and the phase is kept. */
    method HurtMario(now: int)
      modifies this`lives, this`state, mario`x, mario`y, mario`vx, mario`vy, mario`invincibleUntil
      ensures now < old(mario.invincibleUntil) ==>
                && lives == old(lives) && state == old(state)
                && mario.x == old(mario.x) && mario.y == old(mario.y)
                && mario.vx == old(mario.vx) && mario.vy == old(mario.vy)
                && mario.invincibleUntil == old(mario.invincibleUntil)
      ensures now >= old(mario.invincibleUntil) ==>
                && lives == old(lives) - 1
                && mario.invincibleUntil == now + INVINCIBLE_MS
                && mario.vx == 0 && mario.vy == HURT_BOUNCE
                && (lives <= 0 ==> state == GameOver && mario.x == old(mario.x) && mario.y == old(mario.y))
                && (lives > 0 ==> state == old(state) && mario.x == SPAWN_X && mario.y == SPAWN_Y)
    {
      if now < mario.invincibleUntil {
        return;
      }
      lives := lives - 1;
      mario.invincibleUntil := now + INVINCIBLE_MS;
      mario.vx := 0;
      mario.vy := HURT_BOUNCE;
      if lives <= 0 {
        state := GameOver;
      } else {
        mario.x := SPAWN_X;
        mario.y := SPAWN_Y;
      }
    }

    /** Start or restart (game.js:403-422): a full reset of the counters, the
        level and the player. The camera offset and the player's facing are
        not reset. */
    method StartGame()
      modifies this`state, this`score, this`coins, this`lives
      modifies this`levelWidth, this`tiles, this`collectibles, this`enemies, this`flag
      modifies mario`x, mario`y, mario`vx, mario`vy, mario`onGround, mario`invincibleUntil
      ensures Valid()
      ensures state == Playing && score == 0 && coins == 0 && lives == START_LIVES
      ensures levelWidth == COLS * TILE && IsLevelTiles(tiles) && IsLevelCoins(collectibles)
      ensures IsLevelEnemies(enemies) && IsLevelFlag(flag)
      ensures mario.x == SPAWN_X && mario.y == SPAWN_Y && mario.vx == 0 && mario.vy == 0
      ensures !mario.onGround && mario.invincibleUntil == 0
    {
      state := Playing;
      score := 0;
      coins := 0;
      lives := START_LIVES;
      BuildLevel();
      mario.x := SPAWN_X;
      mario.y := SPAWN_Y;
      mario.vx := 0;
      mario.vy := 0;
      mario.onGround := false;
      mario.invincibleUntil := 0;
      flag := flag.(reached := false);
      AllUncollected(collectibles);
    }

    /** The coin pass of a frame (game.js:211-218): each coin not yet
        collected that the player overlaps becomes collected and adds one coin
        and 200 points. */
    method CollectCoins()
      requires Valid()
      modifies this`collectibles, this`coins, this`score
      ensures Valid()
      ensures collectibles == Pickup(old(collectibles), mario.Bounds())
      ensures coins == old(coins) + NewCoins(old(collectibles), mario.Bounds())
      ensures score == old(score) + COIN_SCORE * NewCoins(old(collectibles), mario.Bounds())
    {
      ghost var cs := collectibles;
      ghost var b := mario.Bounds();
      var i := 0;
      while i < |collectibles|
        invariant 0 <= i <= |collectibles| == |cs|
        invariant forall j :: 0 <= j < i ==> collectibles[j] == Pickup(cs, b)[j]
        invariant forall j :: i <= j < |cs| ==> collectibles[j] == cs[j]
        invariant coins == old(coins) + NewCoins(cs[..i], b)
        invariant score == old(score) + COIN_SCORE * NewCoins(cs[..i], b)
      {
        assert cs[..i + 1][..i] == cs[..i];
        var c := collectibles[i];
        if !c.collected {
          if mario.x + mario.w > c.x && mario.x < c.x + c.w && mario.y + mario.h > c.y && mario.y < c.y + c.h {
            collectibles := collectibles[i := c.(collected := true)];
            coins := coins + 1;
            score := score + COIN_SCORE;
          }
        }
        i := i + 1;
      }
      assert cs[..i] == cs;
      assert collectibles == Pickup(cs, b);
      PickupBalance(cs, b);
    }

    /** The flag test of a frame (game.js:221-223): on first contact the flag
        is reached and pays 5000 points; afterwards it never pays again. */
    method CheckFlag()
      requires Valid()
      modifies this`flag, this`score
      ensures Valid()
      ensures (flag, score - old(score)) == ReachFlag(old(flag), mario.Bounds())
    {
      if !flag.reached && mario.x + mario.w > flag.x && mario.x < flag.x + flag.w && mario.y + mario.h > flag.y {
        flag := flag.(reached := true);
        score := score + FLAG_SCORE;
      }
    }

    /** One iteration of the enemy pass (game.js:233-258). A dead enemy is
        skipped. A live one always moves and has its velocity corrected by the
        patrol; then, unless the player is invincible, an overlap is either a
        stomp (the enemy dies, the player bounces at -8, 100 points) or hurts
        the player. */
    method UpdateEnemy(i: nat, now: int, viewW: int)
      requires i < |enemies|
      modifies this`enemies, this`score, this`lives, this`state
      modifies mario`x, mario`y, mario`vx, mario`vy, mario`invincibleUntil
      ensures |enemies| == |old(enemies)|
      ensures forall j :: 0 <= j < |enemies| && j != i ==> enemies[j] == old(enemies[j])
      ensures !old(enemies[i].alive) ==>
                && enemies == old(enemies) && score == old(score)
                && lives == old(lives) && state == old(state)
                && mario.x == old(mario.x) && mario.y == old(mario.y)
                && mario.vx == old(mario.vx) && mario.vy == old(mario.vy)
                && mario.invincibleUntil == old(mario.invincibleUntil)
      ensures old(enemies[i].alive) ==>
                var moved := MoveEnemy(tiles, old(enemies[i]), cameraX, viewW);
                var k := Classify(old(mario.Bounds()), old(mario.vy), old(mario.invincibleUntil), moved, now);
                && enemies[i] == (if k == Stomp then moved.(alive := false) else moved)
                && (k != Hurt ==>
                      && lives == old(lives) && state == old(state)
                      && mario.x == old(mario.x) && mario.y == old(mario.y) && mario.vx == old(mario.vx)
                      && mario.invincibleUntil == old(mario.invincibleUntil))
                && (k == Stomp ==> mario.vy == STOMP_BOUNCE && score == old(score) + STOMP_SCORE)
                && ((k == Shielded || k == Apart) ==> mario.vy == old(mario.vy) && score == old(score))
                && (k == Hurt ==>
                      && score == old(score)
                      && lives == old(lives) - 1
                      && mario.invincibleUntil == now + INVINCIBLE_MS
                      && mario.vx == 0 && mario.vy == HURT_BOUNCE
                      && (lives <= 0 ==> state == GameOver && mario.x == old(mario.x) && mario.y == old(mario.y))
                      && (lives > 0 ==> state == old(state) && mario.x == SPAWN_X && mario.y == SPAWN_Y))
    {
      var e := enemies[i];
      if !e.alive {
        return;
      }
      e := e.(x := e.x + e.vx);
      ghost var moved := e;
      // patrol: turn back at a solid cell in the row at the enemy's bottom edge
      var left := e.x / TILE;
      var right := (e.x + e.w) / TILE;
      var row := (e.y + e.h) / TILE;
      var c := left;
      while c <= right
        invariant left <= c && e == moved
        invariant forall c' :: left <= c' < c ==> !SolidCell(tiles, c', row)
      {
        if SolidTile(TileAt(tiles, c * TILE, row * TILE)) {
          assert SolidCell(tiles, c, row);
          e := e.(vx := -e.vx);
          break;
        }
        c := c + 1;
      }
      assert e.vx == if WallAhead(tiles, moved) then -moved.vx else moved.vx;
      // leash: keep the enemy near the viewport
      if (e.x as real) < cameraX - LEASH as real {
        e := e.(vx := Abs(e.vx));
      }
      if ((e.x + e.w) as real) > cameraX + viewW as real + LEASH as real {
        e := e.(vx := -Abs(e.vx));
      }
      assert e == MoveEnemy(tiles, old(enemies[i]), cameraX, viewW);
      enemies := enemies[i := e];
      // stomp or get hurt
      if now < mario.invincibleUntil {
        return;
      }
      var overlap := mario.x + mario.w > e.x && mario.x < e.x + e.w && mario.y + mario.h > e.y && mario.y < e.y + e.h;
      if overlap {
        if mario.vy > 0 && 2 * (mario.y + mario.h - 8) < 2 * e.y + e.h {
          e := e.(alive := false);
          enemies := enemies[i := e];
          mario.vy := STOMP_BOUNCE;
          score := score + STOMP_SCORE;
        } else {
          HurtMario(now);
        }
      }
    }

    /** The enemy pass of a frame (game.js:232-259), run while playing. Dead
        enemies stay as they are and no enemy comes back to life; every live
        enemy moves by its velocity and keeps its speed; the score grows by
        100 for each enemy stomped. The player loses at most one life per pass,
        because a hit makes it invincible for the rest of the pass; and when it
        is invincible from the start, no enemy is stomped and nothing about
        the player or the score changes. */
    method UpdateEnemies(now: int, viewW: int)
      requires Valid() && state == Playing
      modifies this`enemies, this`score, this`lives, this`state
      modifies mario`x, mario`y, mario`vx, mario`vy, mario`invincibleUntil
      ensures Valid()
      ensures |enemies| == |old(enemies)|
      ensures forall j :: 0 <= j < |enemies| && !old(enemies[j].alive) ==> enemies[j] == old(enemies[j])
      ensures forall j :: 0 <= j < |enemies| && enemies[j].alive ==> old(enemies[j].alive)
      ensures forall j :: 0 <= j < |enemies| && old(enemies[j].alive) ==>
                && enemies[j].x == old(enemies[j].x) + old(enemies[j].vx)
                && Abs(enemies[j].vx) == Abs(old(enemies[j].vx))
                && enemies[j].y == old(enemies[j].y) && enemies[j].vy == old(enemies[j].vy)
                && enemies[j].w == old(enemies[j].w) && enemies[j].h == old(enemies[j].h)
      ensures score == old(score) + STOMP_SCORE * Killed(old(enemies), enemies, |enemies|)
      ensures lives == old(lives) || (lives == old(lives) - 1 && mario.invincibleUntil == now + INVINCIBLE_MS)
      ensures state == Playing || state == GameOver
      ensures now < old(mario.invincibleUntil) ==>
                && score == old(score) && lives == old(lives) && state == old(state)
                && mario.x == old(mario.x) && mario.y == old(mario.y)
                && mario.vx == old(mario.vx) && mario.vy == old(mario.vy)
                && mario.invincibleUntil == old(mario.invincibleUntil)
                && forall j :: 0 <= j < |enemies| ==> enemies[j].alive == old(enemies[j].alive)
    {
      ghost var es := enemies;
      var i := 0;
      while i < |enemies|
        invariant 0 <= i <= |enemies| == |es|
        invariant forall j :: i <= j < |es| ==> enemies[j] == es[j]
        invariant forall j :: 0 <= j < i && !es[j].alive ==> enemies[j] == es[j]
        invariant forall j :: 0 <= j < i && enemies[j].alive ==> es[j].alive
        invariant forall j :: 0 <= j < i && es[j].alive ==>
                    && enemies[j].x == es[j].x + es[j].vx && Abs(enemies[j].vx) == Abs(es[j].vx)
                    && enemies[j].y == es[j].y && enemies[j].vy == es[j].vy
                    && enemies[j].w == es[j].w && enemies[j].h == es[j].h
        invariant score == old(score) + STOMP_SCORE * Killed(es, enemies, i)
        invariant lives == old(lives) || (lives == old(lives) - 1 && mario.invincibleUntil == now + INVINCIBLE_MS)
        invariant state == Playing || (state == GameOver && lives == 0)
        invariant lives < old(lives) && lives == 0 ==> state == GameOver
        invariant lives == old(lives) ==> state == old(state)
        invariant now < old(mario.invincibleUntil) ==>
                    && score == old(score) && lives == old(lives)
                    && mario.x == old(mario.x) && mario.y == old(mario.y)
                    && mario.vx == old(mario.vx) && mario.vy == old(mario.vy)
                    && mario.invincibleUntil == old(mario.invincibleUntil)
                    && forall j :: 0 <= j < i ==> enemies[j].alive == es[j].alive
      {
        ghost var before := enemies;
        UpdateEnemy(i, now, viewW);
        KilledPrefix(es, before, enemies, i);
        i := i + 1;
      }
      assert Valid() by {
        assert lives >= 0;
      }
    }

    /** One frame of the simulation (game.js:183-260). Only while playing;
        otherwise nothing changes. `vx` and `vy` are the player's velocity
        after friction, run input, jump and gravity (game.js:186-194), which
        are floating-point and supplied here as integers. The player moves by
        vx and is resolved against the grid; falling below the grid hurts and
        ends the frame; otherwise the facing follows the velocity, and the
        coin, flag and enemy passes run in that order. */
    method UpdateMario(vx: int, vy: int, now: int, viewW: int)
      requires Valid()
      modifies this`collectibles, this`coins, this`score, this`flag, this`enemies, this`lives, this`state
      modifies mario
      ensures Valid()
      ensures old(state) != Playing ==>
                && state == old(state) && score == old(score) && coins == old(coins) && lives == old(lives)
                && collectibles == old(collectibles) && enemies == old(enemies) && flag == old(flag)
                && unchanged(mario)
      ensures old(state) == Playing ==> state == Playing || state == GameOver
      ensures score >= old(score) && coins >= old(coins)
      ensures old(lives) - 1 <= lives <= old(lives)
    {
      if state != Playing {
        return;
      }
      mario.vx := vx;
      mario.vy := vy;
      mario.x := mario.x + mario.vx;
      ResolveMarioTiles(mario, tiles);
      if mario.y > 10 * TILE {
        HurtMario(now);
        return;
      }
      mario.facing := if mario.vx < 0 then -1 else if mario.vx > 0 then 1 else mario.facing;
      CollectCoins();
      CheckFlag();
      UpdateEnemies(now, viewW);
    }

    /** The simulation part of one animation frame (game.js:383-386): while
        playing, update the player and enemies, then move the camera; the
        camera stays at most levelWidth - viewW from the left. */
    method Tick(vx: int, vy: int, now: int, viewW: int)
      requires Valid()
      modifies this`collectibles, this`coins, this`score, this`flag, this`enemies, this`lives, this`state
      modifies this`cameraX, mario
      ensures Valid()
      ensures old(state) != Playing ==>
                && state == old(state) && score == old(score) && coins == old(coins) && lives == old(lives)
                && cameraX == old(cameraX) && unchanged(mario)
                && collectibles == old(collectibles) && enemies == old(enemies) && flag == old(flag)
      ensures old(state) == Playing ==>
                && cameraX == CameraX(mario.x, viewW, levelWidth)
                && cameraX <= (levelWidth - viewW) as real
    {
      if state == Playing {
        UpdateMario(vx, vy, now, viewW);
        cameraX := CameraX(mario.x, viewW, levelWidth);
      }
    }
  }
}
