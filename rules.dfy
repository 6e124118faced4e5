/** The interaction rules of one frame as functions of values: coin pickup,
    the flag trigger, enemy patrol and the stomp-or-hurt classification, and
    the camera clamp (game.js:211-258, 385-386). */
module Rules {
  import opened Tiles
  import opened Bodies

  const COIN_SCORE: int := 200
  const FLAG_SCORE: int := 5000
  const STOMP_SCORE: int := 100

  /** How far outside the viewport an enemy may wander before it is turned back. */
  const LEASH: int := 50

  function Abs(v: int): int
  {
    if v < 0 then -v else v
  }

  // ---- Coins (game.js:211-218) ----

  /** Whether the player's box picks up this coin now. */
  predicate Grabs(b: Box, k: Coin)
  {
    !k.collected && Overlaps(b, k.Bounds())
  }

  /** The coins after one pickup pass: a coin ends collected when it already
      was or when the box overlaps it; nothing else about a coin changes. */
  function Pickup(cs: seq<Coin>, b: Box): (r: seq<Coin>)
    ensures |r| == |cs|
    ensures forall i :: 0 <= i < |cs| ==>
              r[i] == cs[i].(collected := cs[i].collected || Overlaps(b, cs[i].Bounds()))
  {
    seq(|cs|, i requires 0 <= i < |cs| => if Grabs(b, cs[i]) then cs[i].(collected := true) else cs[i])
  }

  /** Number of coins one pickup pass newly collects. */
  function NewCoins(cs: seq<Coin>, b: Box): nat
  {
    if cs == [] then 0
    else NewCoins(cs[..|cs| - 1], b) + (if Grabs(b, cs[|cs| - 1]) then 1 else 0)
  }

  /** Number of coins not yet collected. */
  function Uncollected(cs: seq<Coin>): nat
  {
    if cs == [] then 0
    else Uncollected(cs[..|cs| - 1]) + (if cs[|cs| - 1].collected then 0 else 1)
  }

  /** A freshly built coin list has every coin still to collect. */
  lemma {:induction false} AllUncollected(cs: seq<Coin>)
    requires forall i :: 0 <= i < |cs| ==> !cs[i].collected
    ensures Uncollected(cs) == |cs|
  {
    if cs != [] {
      AllUncollected(cs[..|cs| - 1]);
    }
  }

  /** Every coin a pass collects leaves the uncollected pool: the pass moves
      exactly NewCoins coins from uncollected to collected. With the session's
      count this keeps coins + uncollected equal to the number of coins. */
  lemma {:induction false} PickupBalance(cs: seq<Coin>, b: Box)
    ensures Uncollected(Pickup(cs, b)) + NewCoins(cs, b) == Uncollected(cs)
  {
    if cs != [] {
      var n := |cs| - 1;
      assert Pickup(cs, b)[..n] == Pickup(cs[..n], b);
      PickupBalance(cs[..n], b);
    }
  }

  /** A coin is counted at most once: a second pass with the same box over
      the result of a first pass collects nothing more and leaves the coins
      as they are. */
  lemma {:induction false} PickupIdempotent(cs: seq<Coin>, b: Box)
    ensures NewCoins(Pickup(cs, b), b) == 0
    ensures Pickup(Pickup(cs, b), b) == Pickup(cs, b)
  {
    if cs != [] {
      var n := |cs| - 1;
      assert Pickup(cs, b)[..n] == Pickup(cs[..n], b);
      PickupIdempotent(cs[..n], b);
    }
  }

  /** Coins already collected are never counted: a pass counts no more than
      the coins still uncollected. */
  lemma NewCoinsAtMostUncollected(cs: seq<Coin>, b: Box)
    ensures NewCoins(cs, b) <= Uncollected(cs)
  {
    PickupBalance(cs, b);
  }

  // ---- Flag (game.js:221-223) ----

  /** The flag test: horizontal overlap and the player's bottom below the
      flag's top; the flag's bottom edge is not tested. */
  predicate ReachesFlag(b: Box, f: Flag)
  {
    b.x + b.w > f.x && b.x < f.x + f.w && b.y + b.h > f.y
  }

  /** The flag after one test, and the score it pays. The bonus is paid only
      on the transition of `reached` from false to true. */
  function ReachFlag(f: Flag, b: Box): (r: (Flag, int))
    ensures r.0 == f.(reached := f.reached || ReachesFlag(b, f))
    ensures r.1 == (if !f.reached && r.0.reached then FLAG_SCORE else 0)
  {
    if !f.reached && ReachesFlag(b, f) then (f.(reached := true), FLAG_SCORE) else (f, 0)
  }

  /** The flag pays at most once, whatever boxes test it afterwards. */
  lemma FlagPaysOnce(f: Flag, b1: Box, b2: Box)
    ensures ReachFlag(f, b1).1 + ReachFlag(ReachFlag(f, b1).0, b2).1 <= FLAG_SCORE
  {
  }

  // ---- Enemy patrol (game.js:234-245) ----

  /** Whether a solid cell lies in the row at the enemy's bottom edge, in the
      columns from its left edge to its right edge (both edges inclusive). */
  ghost predicate WallAhead(g: Grid, e: Enemy)
  {
    var row := (e.y + e.h) / TILE;
    exists c :: e.x / TILE <= c <= (e.x + e.w) / TILE && SolidCell(g, c, row)
  }

  /** Whether the enemy's left edge is more than LEASH pixels left of the camera. */
  predicate PastLeftLeash(e: Enemy, camX: real)
  {
    (e.x as real) < camX - LEASH as real
  }

  /** Whether the enemy's right edge is more than LEASH pixels right of the viewport. */
  predicate PastRightLeash(e: Enemy, camX: real, viewW: int)
  {
    ((e.x + e.w) as real) > camX + viewW as real + LEASH as real
  }

  /** The enemy's velocity after it has moved: the patrol keeps its speed and
      only ever changes its direction. It turns back at a wall; the leash
      sends it right when it is far off the left of the viewport, and left
      when it is far off the right, the right leash winning if both apply. */
  ghost function PatrolVx(g: Grid, e: Enemy, camX: real, viewW: int): (v: int)
    ensures Abs(v) == Abs(e.vx)
    ensures PastRightLeash(e, camX, viewW) ==> v == -Abs(e.vx)
    ensures !PastRightLeash(e, camX, viewW) && PastLeftLeash(e, camX) ==> v == Abs(e.vx)
    ensures !PastRightLeash(e, camX, viewW) && !PastLeftLeash(e, camX) ==>
              v == (if WallAhead(g, e) then -e.vx else e.vx)
  {
    var bounced := if WallAhead(g, e) then -e.vx else e.vx;
    var leashedLeft := if PastLeftLeash(e, camX) then Abs(bounced) else bounced;
    if PastRightLeash(e, camX, viewW) then -Abs(leashedLeft) else leashedLeft
  }

  /** One patrol step of a live enemy: it always moves by its velocity, then
      its velocity is corrected. Nothing else about it changes. */
  ghost function MoveEnemy(g: Grid, e: Enemy, camX: real, viewW: int): (r: Enemy)
    ensures r.x == e.x + e.vx && r.y == e.y && r.w == e.w && r.h == e.h
    ensures r.vy == e.vy && r.alive == e.alive && Abs(r.vx) == Abs(e.vx)
  {
    var moved := e.(x := e.x + e.vx);
    moved.(vx := PatrolVx(g, moved, camX, viewW))
  }

  // ---- Player against enemy (game.js:248-258) ----

  datatype Encounter =
    | Shielded   // the player is invincible: the overlap check is skipped
    | Apart      // no overlap
    | Stomp      // falling onto the enemy's upper half
    | Hurt       // any other overlap

  /** Classifies a live enemy's encounter with the player. The stomp test
      `bottom - 8 < enemy top + enemy height / 2` is stated exactly, doubled
      to stay in integers. */
  function Classify(p: Box, pvy: int, invincibleUntil: int, e: Enemy, now: int): (k: Encounter)
    ensures k == Shielded <==> now < invincibleUntil
    ensures (k == Stomp || k == Hurt) <==> now >= invincibleUntil && Overlaps(p, e.Bounds())
    ensures k == Stomp ==> pvy > 0
  {
    if now < invincibleUntil then Shielded
    else if !Overlaps(p, e.Bounds()) then Apart
    else if pvy > 0 && 2 * (p.y + p.h - 8) < 2 * e.y + e.h then Stomp
    else Hurt
  }

  /** A falling player whose bottom edge is two pixels into the top of a
      28-pixel enemy it overlaps stomps it. */
  lemma StompFromAbove(p: Box, pvy: int, inv: int, e: Enemy, now: int)
    requires now >= inv && Overlaps(p, e.Bounds()) && e.h == 28
    requires pvy > 0 && p.y + p.h == e.y + 2
    ensures Classify(p, pvy, inv, e, now) == Stomp
  {
  }

  /** An overlap while not falling always hurts, and invincibility shields
      every overlap. */
  lemma NotFallingHurts(p: Box, pvy: int, inv: int, e: Enemy, now: int)
    ensures now >= inv && Overlaps(p, e.Bounds()) && pvy <= 0 ==> Classify(p, pvy, inv, e, now) == Hurt
    ensures now < inv ==> Classify(p, pvy, inv, e, now) == Shielded
  {
  }

  /** Number of the first n enemies that were alive before and are not after. */
  function Killed(before: seq<Enemy>, after: seq<Enemy>, n: nat): nat
    requires n <= |before| && n <= |after|
  {
    if n == 0 then 0
    else Killed(before, after, n - 1) + (if before[n - 1].alive && !after[n - 1].alive then 1 else 0)
  }

  /** The kill count of a prefix depends only on that prefix. */
  lemma {:induction false} KilledPrefix(before: seq<Enemy>, a1: seq<Enemy>, a2: seq<Enemy>, n: nat)
    requires n <= |before| && n <= |a1| && n <= |a2|
    requires forall j :: 0 <= j < n ==> a1[j] == a2[j]
    ensures Killed(before, a1, n) == Killed(before, a2, n)
  {
    if n > 0 {
      KilledPrefix(before, a1, a2, n - 1);
    }
  }

  // ---- Camera (game.js:385-386) ----

  function Max(a: real, b: real): real { if a < b then b else a }
  function Min(a: real, b: real): real { if a < b then a else b }

  /** The camera offset: 35% of the viewport behind the player, at least 0,
      then at most levelW - viewW. The upper clamp is applied last, so it
      always holds; the lower one holds only when the level is at least as
      wide as the viewport. */
  function CameraX(marioX: int, viewW: int, levelW: int): (cam: real)
    ensures cam <= (levelW - viewW) as real
    ensures levelW >= viewW ==> cam >= 0.0
  {
    Min(Max(0.0, marioX as real - viewW as real * 0.35), (levelW - viewW) as real)
  }

  /** In a level narrower than the viewport the offset is negative. */
  lemma NarrowLevelCameraNegative(marioX: int, viewW: int, levelW: int)
    requires levelW < viewW
    ensures CameraX(marioX, viewW, levelW) < 0.0
  {
  }

  /** Between the clamps the camera keeps the player 35% of the viewport in. */
  lemma CameraFollows(marioX: int, viewW: int, levelW: int)
    requires 0.0 <= marioX as real - viewW as real * 0.35 <= (levelW - viewW) as real
    ensures CameraX(marioX, viewW, levelW) == marioX as real - viewW as real * 0.35
  {
  }
}
