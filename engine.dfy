/**
 * The game: `Game.sprites` with the player's ship and its bullet pool, the collision grid, the
 * score and lives, the FSM's state and timer, the key state, and one tick of a sprite's `run`:
 * move, re-file in the grid, collide in its own cell and neighbours, then again at each
 * wrap-around duplicate position.
 *
 * Sprites are addressed by their index in `sprites`, which is also their handle in the grid.
 * An uncaught exception in the source stops the main loop for good; here it sets `halted`, and a
 * halted game does nothing more.  Three are modelled: the TypeError of a null
 * `currentNode.leave` in a collision handler; the ReferenceError of reading the bot's global
 * `nextMove` before any decision assigned it, which needs a first tick with `Date.now()` at most
 * 1200 because `aiTimer` starts at 0; and the TypeError of `isClear`'s fallback on `grid[-1]`,
 * which needs a negative spawn coordinate, whereas the source draws spawn coordinates from
 * `Math.random()` and never feeds it one.
 */
module Engine {
  import opened Wrappers
  import opened Kinds
  import opened Geometry
  import opened Sprites
  import opened SpatialGrid
  import opened GameFsm

  /**
   * What one tick reads from its environment: the clock (`Date.now()`), the frame's `delta`, the
   * heading of a rotation as a unit vector, the rotation-and-scale placement of model points, and
   * the random draws (exhaust flicker, the bot's decision, the ship-collision bonus already
   * floored, and the spawn position's two fractions).
   */
  datatype Input = Input(now: int, delta: real, heading: real -> Point, place: Placement,
                         flicker: real, decision: int, bonus: int, spawnX: real, spawnY: real)

  /** The game-wide scalars. */
  datatype Status = Status(score: int, lives: int, state: State, timer: Option<int>,
                           keys: Controls, nextMove: Option<Controls>, halted: bool)

  /**
   * The point test each variant makes: the crossing test of `pointInPolygon` for the two clients
   * (standing in for the canvas's `isPointInPath`), the bot's inline test for the bot.
   */
  predicate Inside(v: Variant, poly: seq<Point>, p: Point)
  {
    if v == Bot then BotInside(poly, p.x, p.y) else GameInside(poly, p.x, p.y)
  }

  predicate AnyInside(v: Variant, poly: seq<Point>, pts: seq<Point>)
  {
    exists m :: 0 <= m < |pts| && Inside(v, poly, pts[m])
  }

  /** The point loop of `checkCollision`: the first of the other sprite's points inside the outline. */
  method FirstInside(v: Variant, poly: seq<Point>, pts: seq<Point>) returns (found: Option<nat>)
    ensures found.None? <==> !AnyInside(v, poly, pts)
    ensures found.Some? ==> found.value < |pts| && Inside(v, poly, pts[found.value])
    ensures found.Some? ==> forall m :: 0 <= m < found.value ==> !Inside(v, poly, pts[m])
  {
    for i := 0 to |pts|
      invariant forall m :: 0 <= m < i ==> !Inside(v, poly, pts[m])
    {
      var inside;
      if v == Bot {
        inside := BotPointInside(poly, pts[i].x, pts[i].y);
      } else {
        inside := PointInPolygon(poly, pts[i].x, pts[i].y);
      }
      if inside {
        return Some(i);
      }
    }
    return None;
  }

  /** `checkCollision`'s guard: the other sprite is visible, is another sprite, and is collidable. */
  predicate Checks(k: Kind, other: Kind, otherVisible: bool, same: bool)
  {
    otherVisible && !same && other in CollidesWith(k)
  }

  /** Only ships test, and never against explosions or their own kind. */
  lemma ChecksOnlyShips(k: Kind, other: Kind, otherVisible: bool, same: bool)
    requires Checks(k, other, otherVisible, same)
    ensures Bridges(k) && other != Explosion && other != k
    ensures k == Ship ==> other == EnemyBullet || other == EnemyShip
    ensures k == EnemyShip ==> other == Bullet
  {
  }

  /** What `other.transformedPoints()` answers. */
  function PointsOf(sp: Sprite, place: Placement): seq<Point>
    reads sp
  {
    PointsAt(sp.kind, sp.Fields(), place)
  }

  /** The points a sprite of kind k with fields f answers: its position, its cache, or its outline. */
  function PointsAt(k: Kind, f: SpriteFields, place: Placement): seq<Point>
  {
    if PointLike(k) then [Point(f.x, f.y)]
    else if f.transPoints.Some? then f.transPoints.value
    else OutlineAt(k, f, place)
  }

  /**
   * What a collision check can see of a sprite: its kind, its fields less the point cache, its
   * outline, and the points it answers to `transformedPoints`.
   */
  datatype Look = Look(kind: Kind, bare: SpriteFields, outline: seq<Point>, points: seq<Point>)

  function LookOf(sp: Sprite, place: Placement): Look
    reads sp
  {
    LookAt(sp.kind, sp.Fields(), place)
  }

  function LookAt(k: Kind, f: SpriteFields, place: Placement): Look
  {
    Look(k, f.(transPoints := None), OutlineAt(k, f, place), PointsAt(k, f, place))
  }


  /** The looks of a sequence of sprites, in order. */
  ghost function LooksOf(ss: seq<Sprite>, place: Placement): (r: seq<Look>)
    reads set s | s in ss
    ensures |r| == |ss| && forall k :: 0 <= k < |ss| ==> r[k] == LookOf(ss[k], place)
  {
    if ss == [] then [] else LooksOf(ss[..|ss| - 1], place) + [LookOf(ss[|ss| - 1], place)]
  }

  /**
   * `checkCollision` by sprite h, of kind k and with the given outline, against sprite t as the
   * looks show it: t passes the guard and one of its points is inside the outline.
   */
  predicate HitsIn(v: Variant, k: Kind, outline: seq<Point>, looks: seq<Look>, h: nat, t: int)
  {
    0 <= t < |looks| && Checks(k, looks[t].kind, looks[t].bare.visible, h == t) &&
    AnyInside(v, outline, looks[t].points)
  }

  /** The position of the first sprite of a walk's chain that h hits; |chain| when there is none. */
  ghost function FirstHit(v: Variant, k: Kind, outline: seq<Point>, looks: seq<Look>, h: nat, chain: seq<int>): (i: nat)
    ensures i <= |chain| && (i < |chain| ==> HitsIn(v, k, outline, looks, h, chain[i]))
    ensures forall m :: 0 <= m < i ==> !HitsIn(v, k, outline, looks, h, chain[m])
  {
    if chain == [] then 0
    else if HitsIn(v, k, outline, looks, h, chain[0]) then 0
    else 1 + FirstHit(v, k, outline, looks, h, chain[1..])
  }

  /** The part of a walk's chain that is checked: up to and including the first hit. */
  ghost function Checked(v: Variant, k: Kind, outline: seq<Point>, looks: seq<Look>, h: nat, chain: seq<int>): seq<int>
  {
    var i := FirstHit(v, k, outline, looks, h, chain);
    if i < |chain| then chain[..i + 1] else chain
  }

  /** The first of the candidates' chains in which h hits a sprite; |chains| when there is none. */
  ghost function FirstLoud(v: Variant, k: Kind, outline: seq<Point>, looks: seq<Look>, h: nat, chains: seq<seq<int>>): (i: nat)
    ensures i <= |chains| && (i < |chains| ==> FirstHit(v, k, outline, looks, h, chains[i]) < |chains[i]|)
    ensures forall j :: 0 <= j < i ==> FirstHit(v, k, outline, looks, h, chains[j]) == |chains[j]|
  {
    if chains == [] then 0
    else if FirstHit(v, k, outline, looks, h, chains[0]) < |chains[0]| then 0
    else 1 + FirstLoud(v, k, outline, looks, h, chains[1..])
  }

  /** Sprite h never checks itself, so how the looks show h does not matter to its walks. */
  lemma {:induction false} FirstHitIgnoresOwn(v: Variant, k: Kind, outline: seq<Point>, looks: seq<Look>, h: nat,
                                              chain: seq<int>, own: Look)
    requires h < |looks|
    ensures FirstHit(v, k, outline, looks[h := own], h, chain) == FirstHit(v, k, outline, looks, h, chain)
  {
    if chain != [] {
      FirstHitIgnoresOwn(v, k, outline, looks, h, chain[1..], own);
    }
  }

  lemma FirstLoudIgnoresOwn(v: Variant, k: Kind, outline: seq<Point>, looks: seq<Look>, h: nat,
                                               chains: seq<seq<int>>, own: Look)
    requires h < |looks|
    ensures FirstLoud(v, k, outline, looks[h := own], h, chains) == FirstLoud(v, k, outline, looks, h, chains)
    ensures forall j :: 0 <= j < |chains| ==>
      FirstHit(v, k, outline, looks[h := own], h, chains[j]) == FirstHit(v, k, outline, looks, h, chains[j])
  {
    forall j | 0 <= j < |chains|
      ensures FirstHit(v, k, outline, looks[h := own], h, chains[j]) == FirstHit(v, k, outline, looks, h, chains[j])
    {
      FirstHitIgnoresOwn(v, k, outline, looks, h, chains[j], own);
    }
    FirstLoudAt(v, k, outline, looks[h := own], h, chains, FirstLoud(v, k, outline, looks, h, chains));
  }

  /**
   * The walks of one candidate loop as `FirstLoud` has them: every chain whole when no walk meets
   * a hit, otherwise the chains before the first such walk whole and that walk up to its hit.
   */
  ghost predicate WalksAre(v: Variant, k: Kind, outline: seq<Point>, looks: seq<Look>, h: nat,
                           chains: seq<seq<int>>, walks: seq<seq<int>>)
  {
    var first := FirstLoud(v, k, outline, looks, h, chains);
    (first == |chains| ==> walks == chains) &&
    (first < |chains| ==>
       first < |walks| && walks[..first] == chains[..first] &&
       walks[first] == Checked(v, k, outline, looks, h, chains[first]))
  }

  /** Whether h's own look is `own` or another does not change what its walks are. */
  lemma WalksIgnoreOwn(v: Variant, k: Kind, outline: seq<Point>, looks: seq<Look>, h: nat,
                       chains: seq<seq<int>>, walks: seq<seq<int>>, own: Look)
    requires h < |looks|
    ensures FirstLoud(v, k, outline, looks[h := own], h, chains) == FirstLoud(v, k, outline, looks, h, chains)
    ensures WalksAre(v, k, outline, looks[h := own], h, chains, walks) <==> WalksAre(v, k, outline, looks, h, chains, walks)
  {
    FirstLoudIgnoresOwn(v, k, outline, looks, h, chains, own);
  }

  /**
   * The offsets of one of `run`'s duplicate passes along the given axes; None when the pass is
   * skipped because the sprite does not bridge, has no cell, lacks an offset, or there is nothing
   * to check.
   */
  function PassShift(k: Kind, links: Option<Links>, alongX: bool, alongY: bool, cands: seq<int>): (d: Option<(int, int)>)
    ensures d.Some? <==> Takes(k, links, alongX, alongY) && cands != []
    ensures d.Some? ==> (alongX <==> d.value.0 != 0) && (alongY <==> d.value.1 != 0)
  {
    if Takes(k, links, alongX, alongY) && cands != [] then
      Some((if alongX then links.value.dupeH.value else 0, if alongY then links.value.dupeV.value else 0))
    else None
  }

  /** Fields f moved by whole offsets d. */
  function Shifted(f: SpriteFields, d: (int, int)): SpriteFields
  {
    f.(x := f.x + d.0 as real, y := f.y + d.1 as real)
  }

  /**
   * Whether the passes of `run` before `stage` meet no hit, judged on one state: the sprite of
   * kind k with fields f and cell links `links`, the looks, and the candidates' chains.  Pass 0
   * checks at the sprite's own outline, passes 1 to 3 at its outline shifted as `PassShift` says.
   */
  ghost predicate QuietBefore(v: Variant, stage: nat, k: Kind, f: SpriteFields, links: Option<Links>, looks: seq<Look>,
                              h: nat, chains: seq<seq<int>>, cands: seq<int>, place: Placement)
  {
    stage == 0 ||
    (QuietBefore(v, stage - 1, k, f, links, looks, h, chains, cands, place) &&
     PassQuiet(v, stage - 1, k, f, links, looks, h, chains, cands, place))
  }

  /** The passes before `stage + 1` are quiet when those before `stage` and pass `stage` are; all four imply any prefix. */
  lemma {:induction false} QuietBeforeNext(v: Variant, stage: nat, k: Kind, f: SpriteFields, links: Option<Links>, looks: seq<Look>,
                        h: nat, chains: seq<seq<int>>, cands: seq<int>, place: Placement)
    requires stage <= 3
    decreases 3 - stage
    ensures QuietBefore(v, stage + 1, k, f, links, looks, h, chains, cands, place) ==
      (QuietBefore(v, stage, k, f, links, looks, h, chains, cands, place) &&
       PassQuiet(v, stage, k, f, links, looks, h, chains, cands, place))
    ensures QuietBefore(v, 4, k, f, links, looks, h, chains, cands, place) ==>
      QuietBefore(v, stage + 1, k, f, links, looks, h, chains, cands, place)
  {
    if stage < 3 {
      QuietBeforeNext(v, stage + 1, k, f, links, looks, h, chains, cands, place);
    }
  }

  /** Whether pass `stage` alone meets no hit, on the same terms as `QuietBefore`. */
  ghost predicate PassQuiet(v: Variant, stage: nat, k: Kind, f: SpriteFields, links: Option<Links>, looks: seq<Look>,
                            h: nat, chains: seq<seq<int>>, cands: seq<int>, place: Placement)
  {
    var d := if stage == 0 then Some((0, 0)) else PassShift(k, links, stage != 2, stage != 1, cands);
    d.None? || FirstLoud(v, k, OutlineAt(k, Shifted(f, d.value), place), looks, h, chains) == |chains|
  }

  /** A walk that ended at a hit checked its chain up to that sprite. */
  lemma CheckedUpTo(v: Variant, k: Kind, outline: seq<Point>, looks: seq<Look>, h: nat, chain: seq<int>, n: nat)
    requires 0 < n <= |chain| && HitsIn(v, k, outline, looks, h, chain[n - 1])
    requires forall m :: 0 <= m < n - 1 ==> !HitsIn(v, k, outline, looks, h, chain[m])
    ensures FirstHit(v, k, outline, looks, h, chain) == n - 1
    ensures Checked(v, k, outline, looks, h, chain) == chain[..n]
  {
    var i := FirstHit(v, k, outline, looks, h, chain);
    assert !(i < n - 1) && !(n - 1 < i);
  }

  /** A walk that met no hit checked its whole chain. */
  lemma CheckedAll(v: Variant, k: Kind, outline: seq<Point>, looks: seq<Look>, h: nat, chain: seq<int>)
    requires forall m :: 0 <= m < |chain| ==> !HitsIn(v, k, outline, looks, h, chain[m])
    ensures FirstHit(v, k, outline, looks, h, chain) == |chain|
    ensures Checked(v, k, outline, looks, h, chain) == chain
  {
  }

  /** The candidate at i is the first whose walk meets a hit, or none does (i == |chains|). */
  lemma FirstLoudAt(v: Variant, k: Kind, outline: seq<Point>, looks: seq<Look>, h: nat, chains: seq<seq<int>>, i: nat)
    requires i <= |chains| && (i < |chains| ==> FirstHit(v, k, outline, looks, h, chains[i]) < |chains[i]|)
    requires forall j :: 0 <= j < i ==> FirstHit(v, k, outline, looks, h, chains[j]) == |chains[j]|
    ensures FirstLoud(v, k, outline, looks, h, chains) == i
  {
    var f := FirstLoud(v, k, outline, looks, h, chains);
    assert !(f < i) && !(i < f);
  }

  /**
   * Where the candidate loop stands: with no hit yet (`loud` false) each walk checked its whole
   * chain; once one walk met a hit, the walks up to and including it are as `FirstLoud` says.
   */
  ghost predicate LoudSoFar(v: Variant, k: Kind, outline: seq<Point>, looks: seq<Look>, h: nat,
                            chains: seq<seq<int>>, walks: seq<seq<int>>, loud: bool)
  {
    |walks| <= |chains| &&
    (!loud ==>
       walks == chains[..|walks|] &&
       forall j :: 0 <= j < |walks| ==> FirstHit(v, k, outline, looks, h, chains[j]) == |chains[j]|) &&
    (loud ==>
       var first := FirstLoud(v, k, outline, looks, h, chains);
       first < |walks| && walks[..first] == chains[..first] &&
       walks[first] == Checked(v, k, outline, looks, h, chains[first]))
  }

  /** One more walk, which checked its chain as it was if no walk before it met a hit. */
  lemma LoudSoFarNext(v: Variant, k: Kind, outline: seq<Point>, looks: seq<Look>, h: nat,
                      chains: seq<seq<int>>, walks: seq<seq<int>>, loud: bool, w: seq<int>)
    requires LoudSoFar(v, k, outline, looks, h, chains, walks, loud) && |walks| < |chains|
    requires !loud ==> w == Checked(v, k, outline, looks, h, chains[|walks|])
    ensures LoudSoFar(v, k, outline, looks, h, chains, walks + [w],
                      loud || FirstHit(v, k, outline, looks, h, chains[|walks|]) < |chains[|walks|]|)
  {
    var i := |walks|;
    assert (walks + [w])[..i] == walks;
    if !loud {
      if FirstHit(v, k, outline, looks, h, chains[i]) < |chains[i]| {
        FirstLoudAt(v, k, outline, looks, h, chains, i);
      } else {
        assert chains[..i + 1] == chains[..i] + [chains[i]];
      }
    } else {
      var first := FirstLoud(v, k, outline, looks, h, chains);
      assert (walks + [w])[..first] == walks[..first];
    }
  }

  /** The finished candidate loop, in terms of `FirstLoud`. */
  lemma LoudDone(v: Variant, k: Kind, outline: seq<Point>, looks: seq<Look>, h: nat,
                 chains: seq<seq<int>>, walks: seq<seq<int>>, loud: bool)
    requires LoudSoFar(v, k, outline, looks, h, chains, walks, loud) && (loud || |walks| == |chains|)
    ensures (FirstLoud(v, k, outline, looks, h, chains) == |chains| <==> !loud) &&
      WalksAre(v, k, outline, looks, h, chains, walks)
  {
    if !loud {
      FirstLoudAt(v, k, outline, looks, h, chains, |chains|);
    }
  }

  /** A snapshot of what a collision check may change, point caches aside. */
  datatype Scene = Scene(status: Status, sprites: seq<Sprite>, lists: map<Cell, seq<int>>,
                         current: seq<Option<Cell>>, next: seq<int>, looks: seq<Look>)

  /**
   * A walk along `chain` so far: it checked a prefix of the chain, found no hit before the last
   * sprite it checked, and `hit` tells whether that one was a hit.
   */
  ghost predicate WalkSoFar(v: Variant, k: Kind, outline: seq<Point>, looks: seq<Look>, h: nat,
                            chain: seq<int>, visited: seq<int>, hit: bool)
  {
    |visited| <= |chain| && visited == chain[..|visited|] &&
    (forall m :: 0 <= m < |visited| - 1 ==> !HitsIn(v, k, outline, looks, h, visited[m])) &&
    (visited == [] ==> !hit) &&
    (visited != [] ==> (hit <==> HitsIn(v, k, outline, looks, h, visited[|visited| - 1])))
  }

  /** Checking the next sprite of the chain extends the walk. */
  lemma WalkSoFarNext(v: Variant, k: Kind, outline: seq<Point>, looks: seq<Look>, h: nat,
                      chain: seq<int>, visited: seq<int>, rest: seq<int>)
    requires WalkSoFar(v, k, outline, looks, h, chain, visited, false)
    requires rest != [] && visited + rest == chain
    ensures WalkSoFar(v, k, outline, looks, h, chain, visited + [rest[0]], HitsIn(v, k, outline, looks, h, rest[0]))
    ensures (visited + [rest[0]]) + rest[1..] == chain
  {
    assert chain[..|visited| + 1] == visited + [rest[0]];
    assert rest == [rest[0]] + rest[1..];
  }

  /** A finished walk, stopped at a hit or at the end of its chain, checked what `Checked` says. */
  lemma WalkDone(v: Variant, k: Kind, outline: seq<Point>, looks: seq<Look>, h: nat,
                 chain: seq<int>, visited: seq<int>, hit: bool)
    requires WalkSoFar(v, k, outline, looks, h, chain, visited, hit)
    requires hit || visited == chain
    ensures visited == Checked(v, k, outline, looks, h, chain)
    ensures var first := FirstHit(v, k, outline, looks, h, chain);
      (first == |chain| <==> !hit) && (hit ==> chain[first] == visited[|visited| - 1])
  {
    if hit {
      CheckedUpTo(v, k, outline, looks, h, chain, |visited|);
    } else {
      if visited != [] {
        assert !HitsIn(v, k, outline, looks, h, visited[|visited| - 1]);
      }
      CheckedAll(v, k, outline, looks, h, chain);
    }
  }

  /** Whether `collision` on a sprite of kind k leaves an explosion at the other sprite. */
  predicate Explodes(k: Kind)
  {
    k == Ship || k == EnemyShip
  }

  /**
   * What `collision` on a sprite of kind k, hit by one of kind other, does to the game-wide
   * scalars: for the ship, player_died and, in the clients, a life lost and the bonus when it
   * rammed an enemy ship; an enemy ship or a bullet in no cell halts; a client's own bullet in a
   * cell scores 100 for an enemy ship; an explosion changes nothing.
   */
  function Impact(v: Variant, s: Status, k: Kind, other: Kind, inCell: bool, bonus: int): Status
  {
    if k == Ship then
      s.(state := PlayerDied, lives := if HasLives(v) then s.lives - 1 else s.lives,
         score := if HasLives(v) && other == EnemyShip then s.score + bonus else s.score)
    else if k == EnemyShip then s.(halted := !inCell)
    else if PointLike(k) then
      s.(halted := !inCell,
         score := if inCell && k == Bullet && HasLives(v) && other == EnemyShip then s.score + 100 else s.score)
    else s
  }

  /** `o.collision(h)` and then, unless that halted, `h.collision(o)`: the scalars afterwards. */
  function BothImpacts(v: Variant, s: Status, hk: Kind, ok: Kind, hInCell: bool, oInCell: bool, bonus: int): Status
  {
    var first := Impact(v, s, ok, hk, oInCell, bonus);
    if first.halted then first else Impact(v, first, hk, ok, hInCell, bonus)
  }

  class Game {
    const variant: Variant
    const canvasWidth: int
    const canvasHeight: int
    const grid: Grid
    /** `Game.sprites`: the ship at 0, its bullets at 1 .. 10, then whatever joined later. */
    var sprites: seq<Sprite>
    var score: int
    var lives: int
    /** `Game.FSM.state` and `Game.FSM.timer`. */
    var state: State
    var timer: Option<int>
    /** `KEY_STATUS` for the clients. */
    var keys: Controls
    /** The bot's global `nextMove`, unset until its first decision. */
    var nextMove: Option<Controls>
    var halted: bool

    function Scalars(): Status
      reads this
    {
      Status(score, lives, state, timer, keys, nextMove, halted)
    }

    ghost predicate Valid()
      reads this, grid, grid.head, grid.nodes
    {
      Arena(grid, sprites, canvasWidth, canvasHeight) &&
      TimerOnlyWhileWaiting(Machine(state, timer)) &&
      (variant == Bot ==> state != EndGame)
    }

    /** How every sprite looks to a collision check. */
    ghost function Looks(place: Placement): (r: seq<Look>)
      reads this, set s | s in sprites
      ensures |r| == |sprites| && forall k :: 0 <= k < |sprites| ==> r[k] == LookOf(sprites[k], place)
    {
      LooksOf(sprites, place)
    }

    /**
     * Nothing has changed since the old state but the point caches of sprites other than h: the
     * scalars, the sprites, the grid's links, sprite h and how every sprite looks are as they were.
     */
    twostate predicate OthersCached(h: nat, place: Placement)
      reads this, grid, set s | s in sprites
    {
      SceneOf(place) == old(SceneOf(place)) && h < |sprites| && sprites[h].Fields() == old(sprites[h].Fields())
    }

    /** The scalars, the sprites, the grid's links and how every sprite looks. */
    ghost function SceneOf(place: Placement): Scene
      reads this, grid, set s | s in sprites
    {
      Scene(Scalars(), sprites, grid.lists, grid.current, grid.next, Looks(place))
    }

    /** The sprites from index n on are new explosions at the given positions, in order. */
    ghost predicate Blasted(n: nat, at: seq<(real, real)>)
      reads this, set s | s in sprites
    {
      |sprites| == n + |at| &&
      forall k :: n <= k < |sprites| ==>
        sprites[k].kind == Explosion && sprites[k].Fields() == Defaults(Explosion, true).(x := at[k - n].0, y := at[k - n].1)
    }

    /**
     * The start-up: the grid, the ship (visible only in the bot), and the ten bullets of its
     * pool, all in `Game.sprites` and none in a cell yet.  The FSM starts in boot.
     */
    constructor (v: Variant, canvasW: int, canvasH: int)
      requires canvasW >= 0 && canvasH >= 0 && CellsAcross(canvasW) >= 1 && CellsAcross(canvasH) >= 1
      ensures Valid() && fresh(grid) && fresh(grid.head)
      ensures variant == v && canvasWidth == canvasW && canvasHeight == canvasH
      ensures Scalars() == Status(0, 0, Boot, None, Idle, None, false)
      ensures |sprites| == BulletMaxCount + 1 && forall k :: 0 <= k < |sprites| ==> fresh(sprites[k])
      ensures sprites[0].Fields() == Defaults(Ship, v == Bot)
      ensures forall k :: 1 <= k < |sprites| ==> sprites[k].Fields() == Defaults(Bullet, false)
      ensures (forall c :: grid.InGrid(c) ==> grid.lists[c] == []) &&
        forall k :: 0 <= k < |sprites| ==> grid.current[k].None?
    {
      var g := new Grid(canvasW, canvasH);
      var ship := new Sprite(Ship, v == Bot);
      var added := g.AddSprite();
      var pool := BulletPool(g, ship);
      variant, canvasWidth, canvasHeight, grid := v, canvasW, canvasH, g;
      sprites := [ship] + pool;
      score, lives, state, timer := 0, 0, Boot, None;
      keys, nextMove, halted := Idle, None, false;
    }

    /** The ten bullets of the ship's pool, each filed in the grid and in no cell. */
    static method BulletPool(g: Grid, ship: Sprite) returns (pool: seq<Sprite>)
      requires g.Valid() && g.Consistent() && g.Count() == 1
      requires (forall c :: g.InGrid(c) ==> g.lists[c] == []) && forall k :: 0 <= k < |g.current| ==> g.current[k].None?
      modifies g
      ensures g.Valid() && g.Consistent() && g.Count() == 1 + BulletMaxCount && |pool| == BulletMaxCount
      ensures (forall c :: g.InGrid(c) ==> g.lists[c] == []) && forall k :: 0 <= k < |g.current| ==> g.current[k].None?
      ensures forall k :: 0 <= k < |pool| ==>
        fresh(pool[k]) && pool[k].kind == Bullet && pool[k].Fields() == Defaults(Bullet, false)
      ensures (forall a, b :: 0 <= a < b < |pool| ==> pool[a] != pool[b]) && forall k :: 0 <= k < |pool| ==> pool[k] != ship
    {
      pool := [];
      while |pool| < BulletMaxCount
        invariant |pool| <= BulletMaxCount
        invariant g.Valid() && g.Consistent() && g.Count() == 1 + |pool|
        invariant forall c :: g.InGrid(c) ==> g.lists[c] == []
        invariant forall k :: 0 <= k < |g.current| ==> g.current[k].None?
        invariant forall k :: 0 <= k < |pool| ==>
          fresh(pool[k]) && pool[k].kind == Bullet && pool[k].Fields() == Defaults(Bullet, false)
        invariant forall a, b :: 0 <= a < b < |pool| ==> pool[a] != pool[b]
        invariant forall k :: 0 <= k < |pool| ==> pool[k] != ship
      {
        var b := new Sprite(Bullet, false);
        var added := g.AddSprite();
        pool := pool + [b];
      }
    }

    /**
     * `Game.sprites.push` of a new visible sprite of kind k at (x, y), in no cell yet:
     * `explosionAt` for explosions, and the remote callbacks for enemy ships and bullets.
     */
    method Push(k: Kind, x: real, y: real) returns (h: nat)
      requires Valid() && k != Ship && k != Bullet
      modifies this, grid
      ensures Valid() && Scalars() == old(Scalars())
      ensures h == old(|sprites|) && |sprites| == h + 1 && sprites[..h] == old(sprites)
      ensures fresh(sprites[h]) && sprites[h].kind == k
      ensures sprites[h].Fields() == Defaults(k, true).(x := x, y := y)
      ensures grid.lists == old(grid.lists) && grid.current == old(grid.current) + [None]
      ensures grid.next == old(grid.next) + [-1] && unchanged(grid.head)
    {
      var sp := new Sprite(k, true);
      sp.x, sp.y := x, y;
      h := grid.AddSprite();
      sprites := sprites + [sp];
    }

    /** `explosionAt`: a visible explosion at (x, y) joins the sprites. */
    method ExplosionAt(x: real, y: real)
      requires Valid()
      modifies this, grid
      ensures Valid() && Scalars() == old(Scalars())
      ensures Retreats(old(grid.lists), old(grid.current), old(grid.next), grid.lists, grid.current, grid.next)
      ensures var n := old(|sprites|);
        |sprites| == n + 1 && sprites[..n] == old(sprites) && fresh(sprites[n]) && sprites[n].kind == Explosion &&
        sprites[n].Fields() == Defaults(Explosion, true).(x := x, y := y)
      ensures grid.lists == old(grid.lists) && grid.current == old(grid.current) + [None]
      ensures grid.next == old(grid.next) + [-1] && unchanged(grid.head)
    {
      AppendRetreats(grid.lists, grid.current, grid.next);
      var n := Push(Explosion, x, y);
    }

    /** `die`: hidden, marked for the sweep, and out of its cell. */
    method Die(h: nat)
      requires Valid() && h < |sprites|
      modifies grid, grid.head, sprites[h]
      ensures Valid()
      ensures sprites[h].Fields() == old(sprites[h].Fields()).(visible := false, reap := true)
      ensures grid.lists == Unlinked(old(grid.lists), old(grid.current[h]), h)
      ensures grid.current == old(grid.current)[h := None] && grid.next[h] == -1
      ensures old(grid.current[h]).None? ==> grid.lists == old(grid.lists) && grid.next == old(grid.next)
    {
      sprites[h].visible := false;
      sprites[h].reap := true;
      grid.Detach(h);
    }

    // ---------------------------------------------------------------------------------------------
    // The `collision` handlers.
    // ---------------------------------------------------------------------------------------------

    /**
     * The ship is hit by sprite o: an explosion at o, player_died, the ship hidden and out of its
     * cell; in the clients a life lost and, when o is an enemy ship, the random bonus scored.
     */
    method ShipHit(h: nat, o: nat, bonus: int)
      requires Valid() && !halted && h < |sprites| && o < |sprites| && sprites[h].kind == Ship
      modifies this, grid, grid.head, sprites[h]
      ensures Valid() && Retreats(old(grid.lists), old(grid.current), old(grid.next), grid.lists, grid.current, grid.next)
      ensures var n := old(|sprites|);
        |sprites| == n + 1 && sprites[..n] == old(sprites) && fresh(sprites[n]) && sprites[n].kind == Explosion &&
        sprites[n].Fields() == Defaults(Explosion, true).(x := old(sprites[o].x), y := old(sprites[o].y))
      ensures sprites[h].Fields() == old(sprites[h].Fields()).(visible := false)
      ensures Scalars() == old(Scalars()).(state := PlayerDied,
        lives := if HasLives(variant) then old(lives) - 1 else old(lives),
        score := if HasLives(variant) && sprites[o].kind == EnemyShip then old(score) + bonus else old(score))
      ensures grid.lists == Unlinked(old(grid.lists), old(grid.current[h]), h)
      ensures grid.current == (old(grid.current) + [None])[h := None]
    {
      ghost var lists0, cur0, next0 := grid.lists, grid.current, grid.next;
      var rammed := sprites[o].kind == EnemyShip;
      ExplosionAt(sprites[o].x, sprites[o].y);
      ghost var lists1, cur1, next1 := grid.lists, grid.current, grid.next;
      assert sprites[h] == old(sprites[h]) && sprites[o] == old(sprites[o]);
      ShipDown(h, rammed, bonus);
      RetreatsTrans(lists0, cur0, next0, lists1, cur1, next1, grid.lists, grid.current, grid.next);
    }

    /** The ship's part of a death: player_died, the ship withdrawn, and the clients' life lost. */
    method ShipDown(h: nat, rammed: bool, bonus: int)
      requires Valid() && h < |sprites| && sprites[h].kind == Ship
      modifies this, grid, grid.head, sprites[h]
      ensures Valid() && sprites == old(sprites)
      ensures Retreats(old(grid.lists), old(grid.current), old(grid.next), grid.lists, grid.current, grid.next)
      ensures sprites[h].Fields() == old(sprites[h].Fields()).(visible := false)
      ensures Scalars() == old(Scalars()).(state := PlayerDied,
        lives := if HasLives(variant) then old(lives) - 1 else old(lives),
        score := if HasLives(variant) && rammed then old(score) + bonus else old(score))
      ensures grid.lists == Unlinked(old(grid.lists), old(grid.current[h]), h)
      ensures grid.current == old(grid.current)[h := None]
    {
      state := PlayerDied;
      Withdraw(h);
      LoseLife(rammed, bonus);
    }

    /** A ship that was hit: hidden, and out of its cell if it has one. */
    method Withdraw(h: nat)
      requires Valid() && h < |sprites|
      modifies grid, grid.head, sprites[h]
      ensures Valid() && Retreats(old(grid.lists), old(grid.current), old(grid.next), grid.lists, grid.current, grid.next)
      ensures sprites[h].Fields() == old(sprites[h].Fields()).(visible := false)
      ensures grid.lists == Unlinked(old(grid.lists), old(grid.current[h]), h)
      ensures grid.current == old(grid.current)[h := None]
    {
      ghost var lists0, cur0, next0 := grid.lists, grid.current, grid.next;
      sprites[h].visible := false;
      grid.Detach(h);
      DetachRetreats(lists0, cur0, next0, grid.lists, grid.current, grid.next, h);
    }

    /** The clients' cost of a death: a life, and the bonus when an enemy ship was rammed. */
    method LoseLife(rammed: bool, bonus: int)
      modifies this
      ensures sprites == old(sprites)
      ensures Scalars() == old(Scalars()).(
        lives := if HasLives(variant) then old(lives) - 1 else old(lives),
        score := if HasLives(variant) && rammed then old(score) + bonus else old(score))
    {
      if HasLives(variant) {
        lives := lives - 1;
        if rammed {
          score := score + bonus;
        }
      }
    }

    /**
     * An enemy ship is hit: an explosion at o, the ship hidden and out of its cell.  Its cell is
     * read without a null check, so an enemy ship hit a second time in one pass halts the game.
     */
    method EnemyShipHit(h: nat, o: nat)
      requires Valid() && !halted && h < |sprites| && o < |sprites| && sprites[h].kind == EnemyShip
      modifies this, grid, grid.head, sprites[h]
      ensures Valid() && Retreats(old(grid.lists), old(grid.current), old(grid.next), grid.lists, grid.current, grid.next)
      ensures var n := old(|sprites|);
        |sprites| == n + 1 && sprites[..n] == old(sprites) && fresh(sprites[n]) && sprites[n].kind == Explosion &&
        sprites[n].Fields() == Defaults(Explosion, true).(x := old(sprites[o].x), y := old(sprites[o].y))
      ensures sprites[h].Fields() == old(sprites[h].Fields()).(visible := false)
      ensures Scalars() == old(Scalars()).(halted := old(grid.current[h]).None?)
      ensures grid.lists == Unlinked(old(grid.lists), old(grid.current[h]), h)
      ensures grid.current == (old(grid.current) + [None])[h := None]
    {
      ghost var lists0, cur0, next0 := grid.lists, grid.current, grid.next;
      ExplosionAt(sprites[o].x, sprites[o].y);
      sprites[h].visible := false;
      if grid.current[h].None? {
        halted := true;
        assert grid.current == (cur0 + [None])[h := None];
        return;
      }
      ghost var lists1, cur1, next1 := grid.lists, grid.current, grid.next;
      grid.Detach(h);
      DetachRetreats(lists1, cur1, next1, grid.lists, grid.current, grid.next, h);
      RetreatsTrans(lists0, cur0, next0, lists1, cur1, next1, grid.lists, grid.current, grid.next);
    }

    /**
     * A bullet (the player's or an enemy's) is hit: `time` reset, hidden and out of its cell, or a
     * halt when it has no cell.  A client's own bullet scores 100 for hitting an enemy ship.
     */
    method BulletHit(h: nat, o: nat)
      requires Valid() && !halted && h < |sprites| && o < |sprites| && PointLike(sprites[h].kind)
      modifies this, grid, grid.head, sprites[h]
      ensures Valid() && Retreats(old(grid.lists), old(grid.current), old(grid.next), grid.lists, grid.current, grid.next)
      ensures sprites == old(sprites)
      ensures sprites[h].Fields() == old(sprites[h].Fields()).(time := 0.0, visible := false)
      ensures Scalars() == old(Scalars()).(halted := old(grid.current[h]).None?,
        score := if old(grid.current[h]).Some? && sprites[h].kind == Bullet && HasLives(variant) &&
                    sprites[o].kind == EnemyShip
                 then old(score) + 100 else old(score))
      ensures grid.lists == Unlinked(old(grid.lists), old(grid.current[h]), h)
      ensures grid.current == old(grid.current)[h := None]
    {
      ghost var lists0, cur0, next0 := grid.lists, grid.current, grid.next;
      sprites[h].time := 0.0;
      sprites[h].visible := false;
      if grid.current[h].None? {
        halted := true;
        assert grid.current == cur0[h := None];
        RetreatsRefl(lists0, cur0, next0);
        return;
      }
      grid.Detach(h);
      DetachRetreats(lists0, cur0, next0, grid.lists, grid.current, grid.next, h);
      if sprites[h].kind == Bullet && HasLives(variant) && sprites[o].kind == EnemyShip {
        score := score + 100;
      }
    }

    /** `h.collision(o)`, by h's kind; an explosion's handler does nothing. */
    method Collide(h: nat, o: nat, bonus: int)
      requires Valid() && !halted && h < |sprites| && o < |sprites|
      modifies this, grid, grid.head, sprites[h]
      ensures Valid() && Retreats(old(grid.lists), old(grid.current), old(grid.next), grid.lists, grid.current, grid.next)
      ensures |sprites| >= old(|sprites|) && sprites[..old(|sprites|)] == old(sprites)
      ensures forall k :: old(|sprites|) <= k < |sprites| ==> fresh(sprites[k])
      ensures sprites[h].x == old(sprites[h].x) && sprites[h].y == old(sprites[h].y)
      ensures sprites[h].kind != Explosion ==> !sprites[h].visible
      ensures sprites[h].kind == Explosion ==>
        Scalars() == old(Scalars()) && sprites == old(sprites) && sprites[h].Fields() == old(sprites[h].Fields())
      ensures !HasLives(variant) ==> score == old(score) && lives == old(lives)
      ensures Scalars() == Impact(variant, old(Scalars()), sprites[h].kind, sprites[o].kind, old(grid.current[h]).Some?, bonus)
      ensures Blasted(old(|sprites|), if Explodes(sprites[h].kind) then [(old(sprites[o].x), old(sprites[o].y))] else [])
      ensures sprites[h].kind != Explosion ==> halted || grid.current[h].None?
      ensures forall k :: 0 <= k < old(|sprites|) && k != h ==> grid.current[k] == old(grid.current[k])
    {
      var k := sprites[h].kind;
      if k == Ship {
        ShipHit(h, o, bonus);
      } else if k == EnemyShip {
        EnemyShipHit(h, o);
      } else if PointLike(k) {
        BulletHit(h, o);
      } else {
        RetreatsRefl(grid.lists, grid.current, grid.next);
      }
    }

    // ---------------------------------------------------------------------------------------------
    // Collision testing.
    // ---------------------------------------------------------------------------------------------

    /**
     * `checkCollision(other)` for sprite h against sprite o: when o passes the guard, its points
     * (computed and cached if need be) are tested against h's outline at h's current position,
     * and on the first point inside, `o.collision(h)` and then `h.collision(o)` run.
     */
    method CheckCollision(h: nat, o: nat, input: Input) returns (hit: bool)
      requires Valid() && !halted && h < |sprites| && o < |sprites|
      modifies this, grid, grid.head, set s | s in sprites
      ensures Valid() && Retreats(old(grid.lists), old(grid.current), old(grid.next), grid.lists, grid.current, grid.next)
      ensures |sprites| >= old(|sprites|) && sprites[..old(|sprites|)] == old(sprites)
      ensures forall k :: old(|sprites|) <= k < |sprites| ==> fresh(sprites[k])
      ensures sprites[h].x == old(sprites[h].x) && sprites[h].y == old(sprites[h].y) &&
        (sprites[h].visible ==> old(sprites[h].visible))
      ensures hit <==> (Checks(sprites[h].kind, sprites[o].kind, old(sprites[o].visible), h == o) &&
        AnyInside(variant, old(sprites[h].Outline(input.place)), old(PointsOf(sprites[o], input.place))))
      ensures hit ==> !sprites[o].visible && (halted || !sprites[h].visible || sprites[h].kind == Explosion)
      ensures hit ==> halted || grid.current[o].None?
      ensures hit ==> Scalars() == BothImpacts(variant, old(Scalars()), sprites[h].kind, sprites[o].kind,
        old(grid.current[h]).Some?, old(grid.current[o]).Some?, input.bonus)
      ensures hit ==> var first := Impact(variant, old(Scalars()), sprites[o].kind, sprites[h].kind, old(grid.current[o]).Some?, input.bonus);
        Blasted(old(|sprites|),
          (if Explodes(sprites[o].kind) then [(old(sprites[h].x), old(sprites[h].y))] else []) +
          (if !first.halted && Explodes(sprites[h].kind) then [(old(sprites[o].x), old(sprites[o].y))] else []))
      ensures !hit ==> (Scalars() == old(Scalars()) && sprites == old(sprites) && grid.lists == old(grid.lists) &&
        grid.current == old(grid.current) && grid.next == old(grid.next))
      ensures !hit ==> forall k :: 0 <= k < |sprites| && k != o ==> sprites[k].Fields() == old(sprites[k].Fields())
      ensures !hit ==> sprites[o].Fields() == old(sprites[o].Fields()).(transPoints :=
        if Checks(sprites[h].kind, sprites[o].kind, old(sprites[o].visible), h == o) && !PointLike(sprites[o].kind)
        then Some(old(PointsOf(sprites[o], input.place))) else old(sprites[o].transPoints))
    {
      if !Checks(sprites[h].kind, sprites[o].kind, sprites[o].visible, h == o) {
        RetreatsRefl(grid.lists, grid.current, grid.next);
        return false;
      }
      hit := Probe(h, o, input);
      if !hit {
        RetreatsRefl(grid.lists, grid.current, grid.next);
        return;
      }
      Respond(h, o, input.bonus);
    }

    /** The point test of `checkCollision`: o's points, cached on o if it has an outline, against h's outline. */
    method Probe(h: nat, o: nat, input: Input) returns (hit: bool)
      requires Valid() && h < |sprites| && o < |sprites| && h != o
      modifies sprites[o]
      ensures hit == AnyInside(variant, old(sprites[h].Outline(input.place)), old(PointsOf(sprites[o], input.place)))
      ensures sprites[o].Fields() == old(sprites[o].Fields()).(transPoints :=
        if !PointLike(sprites[o].kind) then Some(old(PointsOf(sprites[o], input.place))) else old(sprites[o].transPoints))
    {
      var sp, other := sprites[h], sprites[o];
      var pts := other.TransformedPoints(input.place);
      var poly := sp.Outline(input.place);
      var found := FirstInside(variant, poly, pts);
      hit := found.Some?;
    }

    /** A hit: `o.collision(h)`, then `h.collision(o)` unless the first halted the game. */
    method Respond(h: nat, o: nat, bonus: int)
      requires Valid() && !halted && h < |sprites| && o < |sprites| && h != o && sprites[o].kind != Explosion
      modifies this, grid, grid.head, sprites[h], sprites[o]
      ensures Valid() && Retreats(old(grid.lists), old(grid.current), old(grid.next), grid.lists, grid.current, grid.next)
      ensures |sprites| >= old(|sprites|) && sprites[..old(|sprites|)] == old(sprites)
      ensures forall k :: old(|sprites|) <= k < |sprites| ==> fresh(sprites[k])
      ensures sprites[h].x == old(sprites[h].x) && sprites[h].y == old(sprites[h].y) &&
        (sprites[h].visible ==> old(sprites[h].visible))
      ensures !sprites[o].visible && (halted || !sprites[h].visible || sprites[h].kind == Explosion)
      ensures halted || grid.current[o].None?
      ensures Scalars() == BothImpacts(variant, old(Scalars()), sprites[h].kind, sprites[o].kind,
        old(grid.current[h]).Some?, old(grid.current[o]).Some?, bonus)
      ensures var first := Impact(variant, old(Scalars()), sprites[o].kind, sprites[h].kind, old(grid.current[o]).Some?, bonus);
        Blasted(old(|sprites|),
          (if Explodes(sprites[o].kind) then [(old(sprites[h].x), old(sprites[h].y))] else []) +
          (if !first.halted && Explodes(sprites[h].kind) then [(old(sprites[o].x), old(sprites[o].y))] else []))
    {
      ghost var lists0, cur0, next0 := grid.lists, grid.current, grid.next;
      ghost var atH := if Explodes(sprites[o].kind) then [(sprites[h].x, sprites[h].y)] else [];
      Collide(o, h, bonus);
      if halted {
        assert atH + [] == atH;
        return;
      }
      ghost var lists1, cur1, next1 := grid.lists, grid.current, grid.next;
      ghost var sprites1 := sprites;
      assert sprites[o] != sprites[h] && grid.current[h] == old(grid.current[h]);
      Reply(h, o, bonus, old(|sprites|), atH);
      StepPreserves(old(sprites), sprites1, sprites, old(|sprites|));
      RetreatsTrans(lists0, cur0, next0, lists1, cur1, next1, grid.lists, grid.current, grid.next);
      assert forall k :: old(|sprites|) <= k < |sprites1| ==> sprites[k] == sprites1[k];
      assert sprites[h] == sprites1[h] == old(sprites[h]) && sprites[o] == sprites1[o];
    }

    /**
     * The second half of a hit, `h.collision(o)`, after `o.collision(h)` left the explosions
     * `made` from index n on; h's explosion, if any, joins them.
     */
    method Reply(h: nat, o: nat, bonus: int, ghost n: nat, ghost made: seq<(real, real)>)
      requires Valid() && !halted && h < n && o < n && Blasted(n, made)
      modifies this, grid, grid.head, sprites[h]
      ensures Valid() && Retreats(old(grid.lists), old(grid.current), old(grid.next), grid.lists, grid.current, grid.next)
      ensures |sprites| >= old(|sprites|) && sprites[..old(|sprites|)] == old(sprites)
      ensures forall k :: old(|sprites|) <= k < |sprites| ==> fresh(sprites[k])
      ensures sprites[h].x == old(sprites[h].x) && sprites[h].y == old(sprites[h].y)
      ensures sprites[h].kind != Explosion ==> !sprites[h].visible
      ensures sprites[h].visible ==> old(sprites[h].visible)
      ensures Scalars() == Impact(variant, old(Scalars()), sprites[h].kind, sprites[o].kind, old(grid.current[h]).Some?, bonus)
      ensures Blasted(n, made + if Explodes(sprites[h].kind) then [(old(sprites[o].x), old(sprites[o].y))] else [])
      ensures forall k :: 0 <= k < old(|sprites|) && k != h ==> grid.current[k] == old(grid.current[k])
    {
      var at := [(sprites[o].x, sprites[o].y)];
      Collide(h, o, bonus);
      ghost var all := made + if Explodes(sprites[h].kind) then at else [];
      forall k | n <= k < |sprites|
        ensures sprites[k].kind == Explosion &&
          sprites[k].Fields() == Defaults(Explosion, true).(x := all[k - n].0, y := all[k - n].1)
      {
        if k < n + |made| {
          assert sprites[k] == old(sprites[k]) && all[k - n] == made[k - n];
        } else {
          assert all[k - n] == at[0];
        }
      }
    }

    /**
     * `checkCollisionsAgainst(candidates)`: each candidate's cell list is walked from the
     * candidate, a collision check at every step.  `walks` holds what each walk checked.  Until
     * the first hit everything is as it was, so the walks up to and including the first one that
     * meets a hit check the candidates' chains as they were at the start; with no hit at all only
     * other sprites' point caches have changed.  Every candidate is walked unless the game halts.
     * `scene` and `fields` are the state at entry.
     */
    method CheckAgainst(h: nat, cands: seq<int>, input: Input, ghost scene: Scene, ghost fields: SpriteFields)
      returns (ghost walks: seq<seq<int>>)
      requires Valid() && !halted && h < |sprites|
      requires forall m :: 0 <= m < |cands| ==> 0 <= cands[m] < |sprites|
      requires scene == SceneOf(input.place) && fields == sprites[h].Fields()
      modifies this, grid, grid.head, set s | s in sprites
      ensures Valid() && Retreats(old(grid.lists), old(grid.current), old(grid.next), grid.lists, grid.current, grid.next)
      ensures |sprites| >= old(|sprites|) && sprites[..old(|sprites|)] == old(sprites)
      ensures forall k :: old(|sprites|) <= k < |sprites| ==> fresh(sprites[k])
      ensures sprites[h].x == old(sprites[h].x) && sprites[h].y == old(sprites[h].y) &&
        (sprites[h].visible ==> old(sprites[h].visible))
      ensures |walks| <= |cands| && (!halted ==> |walks| == |cands|)
      ensures var chains := ChainsIn(scene.lists, scene.current, cands);
        var outline := OutlineAt(sprites[h].kind, fields, input.place);
        WalksAre(variant, sprites[h].kind, outline, scene.looks, h, chains, walks) &&
        (FirstLoud(variant, sprites[h].kind, outline, scene.looks, h, chains) == |cands| ==>
           SceneOf(input.place) == scene && sprites[h].Fields() == fields)
    {
      ghost var me := sprites[h];
      ghost var chains := ChainsIn(grid.lists, grid.current, cands);
      ghost var outline := OutlineAt(me.kind, fields, input.place);
      ghost var loud;
      walks, loud := CheckFrom(h, cands, input, scene, fields, me, chains, outline);
      LoudDone(variant, me.kind, outline, scene.looks, h, chains, walks, loud);
    }

    /** What the candidate loop keeps: `LoudSoFar`, and until a hit the scene and h's fields as they were. */
    ghost predicate Checking(h: nat, place: Placement, scene: Scene, fields: SpriteFields, me: Sprite,
                             chains: seq<seq<int>>, outline: seq<Point>, walks: seq<seq<int>>, loud: bool)
      reads this, grid, me, set s | s in sprites
    {
      h < |sprites| && sprites[h] == me &&
      LoudSoFar(variant, me.kind, outline, scene.looks, h, chains, walks, loud) &&
      (!loud ==> SceneOf(place) == scene && me.Fields() == fields)
    }

    /** The loop of `CheckAgainst`: a walk from each candidate in turn, until the end or a halt. */
    method CheckFrom(h: nat, cands: seq<int>, input: Input, ghost scene: Scene, ghost fields: SpriteFields,
                     ghost me: Sprite, ghost chains: seq<seq<int>>, ghost outline: seq<Point>)
      returns (ghost walks: seq<seq<int>>, ghost loud: bool)
      requires Valid() && !halted
      requires forall m :: 0 <= m < |cands| ==> 0 <= cands[m] < |sprites|
      requires Checking(h, input.place, scene, fields, me, chains, outline, [], false)
      requires outline == OutlineAt(me.kind, fields, input.place)
      requires chains == ChainsIn(scene.lists, scene.current, cands)
      modifies this, grid, grid.head, set s | s in sprites
      ensures Valid() && Retreats(old(grid.lists), old(grid.current), old(grid.next), grid.lists, grid.current, grid.next)
      ensures |sprites| >= old(|sprites|) && sprites[..old(|sprites|)] == old(sprites)
      ensures forall k :: old(|sprites|) <= k < |sprites| ==> fresh(sprites[k])
      ensures me.x == old(me.x) && me.y == old(me.y) && (me.visible ==> old(me.visible))
      ensures Checking(h, input.place, scene, fields, me, chains, outline, walks, loud)
      ensures (loud || |walks| == |cands|) && (!halted ==> |walks| == |cands|)
    {
      RetreatsRefl(grid.lists, grid.current, grid.next);
      loud := false;
      walks := [];
      for i := 0 to |cands|
        invariant Valid() && !halted
        invariant |sprites| >= old(|sprites|) && sprites[..old(|sprites|)] == old(sprites)
        invariant forall k :: old(|sprites|) <= k < |sprites| ==> fresh(sprites[k])
        invariant Retreats(old(grid.lists), old(grid.current), old(grid.next), grid.lists, grid.current, grid.next)
        invariant me.x == old(me.x) && me.y == old(me.y) && (me.visible ==> old(me.visible))
        invariant |walks| == i && Checking(h, input.place, scene, fields, me, chains, outline, walks, loud)
      {
        ghost var lists0, cur0, next0 := grid.lists, grid.current, grid.next;
        ghost var sprites0 := sprites;
        walks, loud := CheckNext(h, cands[i], input, scene, fields, me, chains, outline, walks, loud);
        forall k | old(|sprites|) <= k < |sprites0|
          ensures fresh(sprites[k])
        {
          assert sprites[k] == sprites[..|sprites0|][k] == sprites0[k];
        }
        StepPreserves(old(sprites), sprites0, sprites, old(|sprites|));
        RetreatsTrans(old(grid.lists), old(grid.current), old(grid.next), lists0, cur0, next0,
                      grid.lists, grid.current, grid.next);
        if halted {
          return;
        }
      }
    }

    /** One turn of the candidate loop: the walk from `c`, the `|walks|`-th candidate. */
    method CheckNext(h: nat, c: int, input: Input, ghost scene: Scene, ghost fields: SpriteFields,
                     ghost me: Sprite, ghost chains: seq<seq<int>>, ghost outline: seq<Point>,
                     ghost walks: seq<seq<int>>, ghost loud: bool)
      returns (ghost walks': seq<seq<int>>, ghost loud': bool)
      requires Valid() && !halted && 0 <= c < |sprites|
      requires Checking(h, input.place, scene, fields, me, chains, outline, walks, loud)
      requires outline == OutlineAt(me.kind, fields, input.place)
      requires |walks| < |chains| && chains[|walks|] == ChainIn(scene.lists, scene.current, c)
      modifies this, grid, grid.head, set s | s in sprites
      ensures Valid() && Retreats(old(grid.lists), old(grid.current), old(grid.next), grid.lists, grid.current, grid.next)
      ensures |sprites| >= old(|sprites|) && sprites[..old(|sprites|)] == old(sprites)
      ensures forall k :: old(|sprites|) <= k < |sprites| ==> fresh(sprites[k])
      ensures me.x == old(me.x) && me.y == old(me.y) && (me.visible ==> old(me.visible))
      ensures |walks'| == |walks| + 1 && (halted ==> loud')
      ensures Checking(h, input.place, scene, fields, me, chains, outline, walks', loud')
    {
      // after a hit the walk starts from the state as it then is
      ghost var now := if loud then SceneOf(input.place) else scene;
      ghost var nowFields := if loud then me.Fields() else fields;
      ghost var chain := ChainIn(now.lists, now.current, c);
      ghost var nowOutline := OutlineAt(me.kind, nowFields, input.place);
      ghost var w, hit := WalkFrom(h, c, input, now, nowFields, me, chain, nowOutline);
      WalkDone(variant, me.kind, nowOutline, now.looks, h, chain, w, hit);
      LoudSoFarNext(variant, me.kind, outline, scene.looks, h, chains, walks, loud, w);
      loud' := loud || FirstHit(variant, me.kind, outline, scene.looks, h, chains[|walks|]) < |chains[|walks|]|;
      walks' := walks + [w];
    }

    /**
     * The `do ... while (ref)` walk along `nextSprite` from `start`.  It ends at null, and it
     * terminates because each check either unlinks a sprite or leaves every link as it was.
     * `visited` is what it checked: the chain from `start` as the walk began, up to and
     * including the first sprite h hits.  A hit unlinks that sprite or halts, so the walk stops
     * there; with no hit only other sprites' point caches have changed.
     */
    method Walk(h: nat, start: int, input: Input) returns (ghost visited: seq<int>)
      requires Valid() && !halted && h < |sprites| && 0 <= start < |sprites|
      modifies this, grid, grid.head, set s | s in sprites
      ensures Valid() && Retreats(old(grid.lists), old(grid.current), old(grid.next), grid.lists, grid.current, grid.next)
      ensures |sprites| >= old(|sprites|) && sprites[..old(|sprites|)] == old(sprites)
      ensures forall k :: old(|sprites|) <= k < |sprites| ==> fresh(sprites[k])
      ensures sprites[h].x == old(sprites[h].x) && sprites[h].y == old(sprites[h].y) &&
        (sprites[h].visible ==> old(sprites[h].visible))
      ensures var chain := ChainIn(old(grid.lists), old(grid.current), start);
        var outline := old(sprites[h].Outline(input.place));
        var first := FirstHit(variant, sprites[h].kind, outline, old(Looks(input.place)), h, chain);
        visited == Checked(variant, sprites[h].kind, outline, old(Looks(input.place)), h, chain) &&
        (first == |chain| ==> OthersCached(h, input.place)) &&
        (first < |chain| ==> !sprites[chain[first]].visible)
    {
      ghost var me := sprites[h];
      ghost var fields := me.Fields();
      ghost var scene := SceneOf(input.place);
      ghost var chain := ChainIn(grid.lists, grid.current, start);
      ghost var outline := OutlineAt(me.kind, fields, input.place);
      ghost var hit;
      visited, hit := WalkFrom(h, start, input, scene, fields, me, chain, outline);
      WalkDone(variant, me.kind, outline, scene.looks, h, chain, visited, hit);
    }

    /** The loop of `Walk`, from `start` to null or a halt, with the walk's bookkeeping as its invariant. */
    method WalkFrom(h: nat, start: int, input: Input, ghost scene: Scene, ghost fields: SpriteFields, ghost me: Sprite,
                    ghost chain: seq<int>, ghost outline: seq<Point>)
      returns (ghost visited: seq<int>, ghost hit: bool)
      requires Valid() && !halted && 0 <= start < |sprites|
      requires Walking(h, input.place, scene, fields, me, chain, outline, [], false, start)
      requires outline == OutlineAt(me.kind, fields, input.place)
      modifies this, grid, grid.head, set s | s in sprites
      ensures Valid() && Retreats(old(grid.lists), old(grid.current), old(grid.next), grid.lists, grid.current, grid.next)
      ensures |sprites| >= old(|sprites|) && sprites[..old(|sprites|)] == old(sprites)
      ensures forall k :: old(|sprites|) <= k < |sprites| ==> fresh(sprites[k])
      ensures me.x == old(me.x) && me.y == old(me.y) && (me.visible ==> old(me.visible))
      ensures Walking(h, input.place, scene, fields, me, chain, outline, visited, hit, -1)
    {
      RetreatsRefl(grid.lists, grid.current, grid.next);
      hit := false;
      visited := [];
      var ref := start;
      while ref != -1
        invariant Valid() && !halted && (ref == -1 || 0 <= ref < |sprites|)
        invariant |sprites| >= old(|sprites|) && sprites[..old(|sprites|)] == old(sprites)
        invariant forall k :: old(|sprites|) <= k < |sprites| ==> fresh(sprites[k])
        invariant Retreats(old(grid.lists), old(grid.current), old(grid.next), grid.lists, grid.current, grid.next)
        invariant Walking(h, input.place, scene, fields, me, chain, outline, visited, hit, ref)
        invariant me.x == old(me.x) && me.y == old(me.y) && (me.visible ==> old(me.visible))
        decreases LinkedTotal(grid.current), RemainingIn(grid.lists, grid.owner, ref)
      {
        ghost var lists0, cur0, next0 := grid.lists, grid.current, grid.next;
        ghost var sprites0 := sprites;
        var hitNow, after;
        hitNow, after, visited := Visit(h, ref, input, scene, fields, me, chain, outline, visited);
        StepPreserves(old(sprites), sprites0, sprites, old(|sprites|));
        RetreatsTrans(old(grid.lists), old(grid.current), old(grid.next), lists0, cur0, next0,
                      grid.lists, grid.current, grid.next);
        hit := hitNow;
        if halted {
          return;
        }
        ref := after;
      }
    }

    /**
     * Where the walk stands: `visited` is a prefix of `chain` (the chain as the walk began)
     * with no hit before its last element, `ref` is where the rest of the chain starts, and
     * until a hit the scene and h's own fields are as they were.
     */
    ghost predicate Walking(h: nat, place: Placement, scene: Scene, fields: SpriteFields, me: Sprite,
                            chain: seq<int>, outline: seq<Point>, visited: seq<int>, hit: bool, ref: int)
      reads this, grid, me, set s | s in sprites
    {
      h < |sprites| && sprites[h] == me &&
      WalkSoFar(variant, me.kind, outline, scene.looks, h, chain, visited, hit) &&
      (!hit ==> SceneOf(place) == scene && me.Fields() == fields) &&
      (ref != -1 ==> !hit && visited + ChainIn(scene.lists, scene.current, ref) == chain) &&
      (ref == -1 ==> visited != [] && (hit || visited == chain)) &&
      (hit ==> visited != [] && visited[|visited| - 1] < |sprites| && !sprites[visited[|visited| - 1]].visible)
    }

    /** One turn of the walk's loop: `Step` at `ref`, with the walk's bookkeeping carried along. */
    method Visit(h: nat, ref: nat, input: Input, ghost scene: Scene, ghost fields: SpriteFields, ghost me: Sprite,
                 ghost chain: seq<int>, ghost outline: seq<Point>, ghost visited: seq<int>)
      returns (hit: bool, after: int, ghost visited': seq<int>)
      requires Valid() && !halted && ref < |sprites|
      requires Walking(h, input.place, scene, fields, me, chain, outline, visited, false, ref)
      requires outline == OutlineAt(me.kind, fields, input.place)
      modifies this, grid, grid.head, set s | s in sprites
      ensures Valid() && Retreats(old(grid.lists), old(grid.current), old(grid.next), grid.lists, grid.current, grid.next)
      ensures |sprites| >= old(|sprites|) && sprites[..old(|sprites|)] == old(sprites)
      ensures forall k :: old(|sprites|) <= k < |sprites| ==> fresh(sprites[k])
      ensures me.x == old(me.x) && me.y == old(me.y) && (me.visible ==> old(me.visible))
      ensures after == -1 || 0 <= after < |sprites|
      ensures LinkedTotal(grid.current) < old(LinkedTotal(grid.current)) ||
        (LinkedTotal(grid.current) == old(LinkedTotal(grid.current)) &&
         RemainingIn(grid.lists, grid.owner, after) < old(RemainingIn(grid.lists, grid.owner, ref)))
      ensures visited' == visited + [ref] && (halted ==> hit)
      ensures Walking(h, input.place, scene, fields, me, chain, outline, visited', hit, if halted then -1 else after)
    {
      grid.ChainNext(ref);
      ghost var rest := ChainIn(scene.lists, scene.current, ref);
      ghost var next0 := grid.next;
      assert rest[0] == ref && (next0[ref] == -1 <==> rest[1..] == []) &&
        (next0[ref] != -1 ==> rest[1..] == ChainIn(scene.lists, scene.current, next0[ref]));
      WalkSoFarNext(variant, me.kind, outline, scene.looks, h, chain, visited, rest);
      hit, after := Step(h, ref, input);
      visited' := visited + [ref];
      if !hit {
        assert grid.next == next0;
      }
    }

    /** One step of the walk: the check against `ref`, then `ref.nextSprite` as it is afterwards. */
    method Step(h: nat, ref: nat, input: Input) returns (hit: bool, after: int)
      requires Valid() && !halted && h < |sprites| && ref < |sprites|
      modifies this, grid, grid.head, set s | s in sprites
      ensures Valid() && Retreats(old(grid.lists), old(grid.current), old(grid.next), grid.lists, grid.current, grid.next)
      ensures |sprites| >= old(|sprites|) && sprites[..old(|sprites|)] == old(sprites)
      ensures forall k :: old(|sprites|) <= k < |sprites| ==> fresh(sprites[k])
      ensures sprites[h].x == old(sprites[h].x) && sprites[h].y == old(sprites[h].y) &&
        (sprites[h].visible ==> old(sprites[h].visible))
      ensures after == grid.next[ref] && (after == -1 || 0 <= after < |sprites|)
      ensures LinkedTotal(grid.current) < old(LinkedTotal(grid.current)) ||
        (LinkedTotal(grid.current) == old(LinkedTotal(grid.current)) &&
         RemainingIn(grid.lists, grid.owner, after) < old(RemainingIn(grid.lists, grid.owner, ref)))
      ensures hit == HitsIn(variant, sprites[h].kind, OutlineAt(sprites[h].kind, old(sprites[h].Fields()), input.place),
        old(Looks(input.place)), h, ref)
      ensures hit ==> !sprites[ref].visible && (halted || after == -1)
      ensures !hit ==> OthersCached(h, input.place)
    {
      ghost var lists0, cur0, next0, owner0 := grid.lists, grid.current, grid.next, grid.owner;
      ghost var looks0 := Looks(input.place);
      grid.WalkStep(ref);
      hit := CheckCollision(h, ref, input);
      grid.WalkStep(ref);
      if LinkedTotal(grid.current) == LinkedTotal(cur0) {
        assert grid.next[ref] == grid.next[..|next0|][ref] == next0[ref];
        RemainingFrame(lists0, owner0, grid.owner, next0[ref]);
      }
      after := grid.next[ref];
      if hit && !halted {
        assert grid.SpriteShape(ref, grid.next, grid.owner, grid.lists);
      }
      if !hit {
        forall k | 0 <= k < |sprites|
          ensures LookOf(sprites[k], input.place) == looks0[k]
        {
          assert sprites[k] == old(sprites[k]);
        }
        assert Looks(input.place) == looks0;
      }
    }

    /** The links of sprite h's cell, if it has one. */
    function CellLinks(h: nat): (r: Option<Links>)
      requires Valid() && h < |sprites|
      reads this, grid, grid.head, grid.nodes
      ensures r.Some? <==> grid.current[h].Some?
      ensures r.Some? ==> var c := grid.current[h].value;
        r.value.dupeH == DupeOffset(c.i, grid.width, canvasWidth) &&
        r.value.dupeV == DupeOffset(c.j, grid.height, canvasHeight)
    {
      match grid.current[h]
      case None => None
      case Some(c) =>
        assert grid.SpriteShape(h, grid.next, grid.owner, grid.lists);
        Some(grid.nodes[c.i, c.j])
    }

    /**
     * One of `run`'s passes at a wrap-around duplicate position: when the pass is taken (see
     * `PassShift`), sprite h is shifted by the offsets, its candidates' walks run at the shifted
     * outline against the sprites as they were, and h is shifted back if it still has a cell
     * afterwards (a sprite that lost its cell in the pass stays shifted).
     */
    method ShiftedPass(h: nat, alongX: bool, alongY: bool, cands: seq<int>, input: Input,
                       ghost scene: Scene, ghost fields: SpriteFields, ghost links: Option<Links>)
      returns (ghost walks: seq<seq<int>>)
      requires Valid() && !halted && h < |sprites|
      requires forall m :: 0 <= m < |cands| ==> 0 <= cands[m] < |sprites|
      requires scene == SceneOf(input.place) && fields == sprites[h].Fields() && links == CellLinks(h)
      modifies this, grid, grid.head, set s | s in sprites
      ensures Valid() && Retreats(old(grid.lists), old(grid.current), old(grid.next), grid.lists, grid.current, grid.next)
      ensures |sprites| >= old(|sprites|) && sprites[..old(|sprites|)] == old(sprites)
      ensures forall k :: old(|sprites|) <= k < |sprites| ==> fresh(sprites[k])
      ensures sprites[h].visible ==> old(sprites[h].visible)
      ensures var d := PassShift(sprites[h].kind, links, alongX, alongY, cands);
        (d.None? || (!halted && grid.current[h].Some?) ==>
          sprites[h].x == old(sprites[h].x) && sprites[h].y == old(sprites[h].y)) &&
        (d.Some? && (halted || grid.current[h].None?) ==>
          sprites[h].x == old(sprites[h].x) + d.value.0 as real && sprites[h].y == old(sprites[h].y) + d.value.1 as real)
      ensures var d := PassShift(sprites[h].kind, links, alongX, alongY, cands);
        d.None? ==>
          walks == [] && Scalars() == old(Scalars()) && sprites == old(sprites) && grid.lists == old(grid.lists) &&
          grid.current == old(grid.current) && grid.next == old(grid.next) &&
          (forall k :: 0 <= k < |sprites| ==> sprites[k].Fields() == old(sprites[k].Fields())) &&
          SceneOf(input.place) == scene && sprites[h].Fields() == fields
      ensures var d := PassShift(sprites[h].kind, links, alongX, alongY, cands);
        d.Some? ==>
          var outline := OutlineAt(sprites[h].kind, Shifted(fields, d.value), input.place);
          var chains := ChainsIn(scene.lists, scene.current, cands);
          WalksAre(variant, sprites[h].kind, outline, scene.looks, h, chains, walks) &&
          (FirstLoud(variant, sprites[h].kind, outline, scene.looks, h, chains) == |cands| ==>
             SceneOf(input.place) == scene && sprites[h].Fields() == fields)
    {
      // With no candidates the source shifts and shifts back, which is no change on exact numbers.
      var d := PassShift(sprites[h].kind, CellLinks(h), alongX, alongY, cands);
      if d.None? {
        RetreatsRefl(grid.lists, grid.current, grid.next);
        return [];
      }
      walks := ShiftedCheck(h, d.value, cands, input, scene, fields);
    }

    /**
     * The taken half of a duplicate pass: sprite h shifted by d, its candidates' walks, and the
     * shift back when h still has a cell and the game goes on.  The shift changes how h looks and
     * nothing else, and h never checks itself, so the walks are those of the state before the
     * shift with h's outline shifted.
     */
    method ShiftedCheck(h: nat, d: (int, int), cands: seq<int>, input: Input, ghost scene0: Scene, ghost f0: SpriteFields)
      returns (ghost walks: seq<seq<int>>)
      requires Valid() && !halted && h < |sprites| && grid.current[h].Some?
      requires forall m :: 0 <= m < |cands| ==> 0 <= cands[m] < |sprites|
      requires scene0 == SceneOf(input.place) && f0 == sprites[h].Fields()
      modifies this, grid, grid.head, set s | s in sprites
      ensures Valid() && Retreats(old(grid.lists), old(grid.current), old(grid.next), grid.lists, grid.current, grid.next)
      ensures |sprites| >= old(|sprites|) && sprites[..old(|sprites|)] == old(sprites)
      ensures forall k :: old(|sprites|) <= k < |sprites| ==> fresh(sprites[k])
      ensures sprites[h].visible ==> old(sprites[h].visible)
      ensures !halted && grid.current[h].Some? ==> sprites[h].x == old(sprites[h].x) && sprites[h].y == old(sprites[h].y)
      ensures halted || grid.current[h].None? ==>
        sprites[h].x == old(sprites[h].x) + d.0 as real && sprites[h].y == old(sprites[h].y) + d.1 as real
      ensures var outline := OutlineAt(sprites[h].kind, Shifted(f0, d), input.place);
        var chains := ChainsIn(scene0.lists, scene0.current, cands);
        WalksAre(variant, sprites[h].kind, outline, scene0.looks, h, chains, walks) &&
        (FirstLoud(variant, sprites[h].kind, outline, scene0.looks, h, chains) == |cands| ==>
           SceneOf(input.place) == scene0 && sprites[h].Fields() == f0)
    {
      assert h < |scene0.looks| && scene0.looks[h] == LookAt(sprites[h].kind, f0, input.place);
      ghost var quiet;
      walks, quiet := ShiftedWalks(h, d, cands, input, scene0, f0);
      if halted || grid.current[h].None? {
        return;
      }
      // A cell kept through the pass is the same cell, so its offsets are the ones added.
      ShiftBack(h, d, input.place, scene0, f0, quiet);
    }

    /** Sprite h shifted by d, then its candidates' walks, as seen from the state before the shift. */
    method ShiftedWalks(h: nat, d: (int, int), cands: seq<int>, input: Input, ghost scene0: Scene, ghost f0: SpriteFields)
      returns (ghost walks: seq<seq<int>>, ghost quiet: bool)
      requires Valid() && !halted && h < |sprites| && grid.current[h].Some?
      requires forall m :: 0 <= m < |cands| ==> 0 <= cands[m] < |sprites|
      requires scene0 == SceneOf(input.place) && f0 == sprites[h].Fields()
      modifies this, grid, grid.head, set s | s in sprites
      ensures Valid() && Retreats(old(grid.lists), old(grid.current), old(grid.next), grid.lists, grid.current, grid.next)
      ensures |sprites| >= old(|sprites|) && sprites[..old(|sprites|)] == old(sprites)
      ensures forall k :: old(|sprites|) <= k < |sprites| ==> fresh(sprites[k])
      ensures sprites[h].x == f0.x + d.0 as real && sprites[h].y == f0.y + d.1 as real &&
        (sprites[h].visible ==> f0.visible)
      ensures var outline := OutlineAt(sprites[h].kind, Shifted(f0, d), input.place);
        var chains := ChainsIn(scene0.lists, scene0.current, cands);
        WalksAre(variant, sprites[h].kind, outline, scene0.looks, h, chains, walks) &&
        (quiet <==> FirstLoud(variant, sprites[h].kind, outline, scene0.looks, h, chains) == |cands|)
      ensures quiet ==>
        !halted && grid.current[h].Some? && sprites[h].Fields() == Shifted(f0, d) &&
        SceneOf(input.place) == scene0.(looks := scene0.looks[h := LookAt(sprites[h].kind, Shifted(f0, d), input.place)])
    {
      ghost var me := sprites[h];
      Shift(h, d.0, d.1, input.place);
      ghost var own := LookOf(sprites[h], input.place);
      ghost var outline := sprites[h].Outline(input.place);
      ghost var chains := ChainsIn(grid.lists, grid.current, cands);
      walks := CheckAgainst(h, cands, input, SceneOf(input.place), sprites[h].Fields());
      WalksIgnoreOwn(variant, me.kind, outline, scene0.looks, h, chains, walks, own);
      quiet := FirstLoud(variant, me.kind, outline, scene0.looks, h, chains) == |cands|;
    }

    /** Sprite h shifted back by d; after a quiet pass everything is as before the shift. */
    method ShiftBack(h: nat, d: (int, int), ghost place: Placement, ghost scene0: Scene, ghost f0: SpriteFields, ghost quiet: bool)
      requires Valid() && h < |sprites|
      requires h < |scene0.looks| && scene0.looks[h] == LookAt(sprites[h].kind, f0, place)
      requires quiet ==>
        sprites[h].Fields() == Shifted(f0, d) &&
        SceneOf(place) == scene0.(looks := scene0.looks[h := LookAt(sprites[h].kind, Shifted(f0, d), place)])
      modifies sprites[h]
      ensures sprites[h].Fields() == Shifted(old(sprites[h].Fields()), (-d.0, -d.1))
      ensures quiet ==> sprites[h].Fields() == f0 && SceneOf(place) == scene0
    {
      Shift(h, -d.0, -d.1, place);
      if quiet {
        assert sprites[h].Fields() == f0;
        assert Looks(place) == scene0.looks;
      }
    }

    /**
     * One pass of `mainLoop`: the FSM's handler, then `run` on each sprite that was in
     * `Game.sprites` when the pass began, in order, each one seeing what its predecessors left.
     * Explosions made during the pass first run on the next one; nothing runs once halted.
     * `publish` tells whether the ship published a key frame.
     */
    method Frame(input: Input) returns (posted: Option<int>, publish: bool)
      requires Valid() && !halted
      modifies this, grid, grid.head, set s | s in sprites
      ensures Valid()
      ensures |sprites| >= old(|sprites|) && sprites[..old(|sprites|)] == old(sprites)
      ensures forall k :: old(|sprites|) <= k < |sprites| ==> fresh(sprites[k])
      ensures posted == (if PostsScore(variant, Machine(old(state), old(timer)), old(lives), input.now) then Some(old(score)) else None)
    {
      posted := ExecuteFsm(input);
      publish := false;
      var n := |sprites|;
      var h := 0;
      while h < n && !halted
        invariant 0 <= h <= n == old(|sprites|) <= |sprites|
        invariant Valid() && sprites[..n] == old(sprites)
        invariant forall k :: n <= k < |sprites| ==> fresh(sprites[k])
        decreases n - h
      {
        var published := Run(h, input);
        publish := publish || published;
        h := h + 1;
      }
    }

    /**
     * `run` for sprite h: move; then, unless that halted the game, re-file h under the cell of its
     * new position, collect the candidates of that cell and its neighbours, and check them at h's
     * own position and at each duplicate position.  An invisible sprite changes nothing.
     */
    method Run(h: nat, input: Input) returns (publish: bool)
      requires Valid() && !halted && h < |sprites|
      modifies this, grid, grid.head, set s | s in sprites
      ensures Valid()
      ensures |sprites| >= old(|sprites|) && sprites[..old(|sprites|)] == old(sprites)
      ensures forall k :: old(|sprites|) <= k < |sprites| ==> fresh(sprites[k])
      ensures !old(sprites[h].visible) ==> (Scalars() == old(Scalars()) && sprites == old(sprites) &&
        grid.lists == old(grid.lists) && grid.current == old(grid.current) && grid.next == old(grid.next) &&
        forall k :: 0 <= k < |sprites| ==> sprites[k].Fields() == old(sprites[k].Fields()))
      ensures !halted && sprites[h].visible && grid.current[h].Some? ==>
        grid.current[h].value == CellAt(sprites[h].x, sprites[h].y, grid.width, grid.height)
    {
      if !sprites[h].visible {
        // `move` and `updateGrid` return at once and there are no candidates to check.
        return false;
      }
      publish := Move(h, input);
      if halted {
        return;
      }
      Collisions(h, input);
    }

    /** The part of `run` after `move`: re-file sprite h, then check its candidates. */
    method Collisions(h: nat, input: Input)
      requires Valid() && !halted && h < |sprites|
      modifies this, grid, grid.head, set s | s in sprites
      ensures Valid()
      ensures |sprites| >= old(|sprites|) && sprites[..old(|sprites|)] == old(sprites)
      ensures forall k :: old(|sprites|) <= k < |sprites| ==> fresh(sprites[k])
      ensures !halted && sprites[h].visible && grid.current[h].Some? ==>
        grid.current[h].value == CellAt(sprites[h].x, sprites[h].y, grid.width, grid.height)
    {
      var cands := Refile(h);
      if cands == [] {
        // Every check, at home and at each duplicate position, walks no list.
        return;
      }
      Passes(h, cands, input, SceneOf(input.place), sprites[h].Fields(), CellLinks(h), sprites[h]);
    }

    /**
     * `updateGrid` and `findCollisionCanidates` for sprite h: a visible sprite is filed under the
     * cell of its position, and the candidates are the heads of that cell's and its neighbours'
     * lists; an invisible sprite is left where it is, with no candidates.
     */
    method Refile(h: nat) returns (cands: seq<int>)
      requires Valid() && h < |sprites|
      modifies grid, grid.head
      ensures Valid()
      ensures forall m :: 0 <= m < |cands| ==> 0 <= cands[m] < |sprites|
      ensures sprites[h].visible ==>
        var c := CellAt(sprites[h].x, sprites[h].y, grid.width, grid.height);
        grid.current == old(grid.current)[h := Some(c)] &&
        cands == Fronts(grid.ListsOf(Neighbourhood(c, grid.width, grid.height)))
      ensures !sprites[h].visible ==> (cands == [] &&
        grid.lists == old(grid.lists) && grid.current == old(grid.current) && grid.next == old(grid.next))
    {
      var sp := sprites[h];
      grid.UpdateGrid(h, sp.visible, sp.x, sp.y);
      assert grid.SpriteShape(h, grid.next, grid.owner, grid.lists);
      cands := grid.Candidates(sp.visible, grid.current[h]);
    }

    /**
     * `run`'s collision checks: pass 0 at the sprite's own position, then the duplicate passes 1
     * (horizontal), 2 (vertical) and 3 (diagonal); a halt ends them.  `scene`, `fields` and `links`
     * are the state at entry.  When none of the four passes meets a hit, judged on that state,
     * everything is as it was but other sprites' point caches.
     */
    method Passes(h: nat, cands: seq<int>, input: Input, ghost scene: Scene, ghost fields: SpriteFields,
                  ghost links: Option<Links>, ghost me: Sprite)
      requires Valid() && !halted && h < |sprites| && sprites[h] == me
      requires forall m :: 0 <= m < |cands| ==> 0 <= cands[m] < |sprites|
      requires scene == SceneOf(input.place) && fields == me.Fields() && links == CellLinks(h)
      modifies this, grid, grid.head, set s | s in sprites
      ensures Valid() && Retreats(old(grid.lists), old(grid.current), old(grid.next), grid.lists, grid.current, grid.next)
      ensures |sprites| >= old(|sprites|) && sprites[..old(|sprites|)] == old(sprites)
      ensures forall k :: old(|sprites|) <= k < |sprites| ==> fresh(sprites[k])
      ensures me.visible ==> old(me.visible)
      ensures !halted && grid.current[h].Some? ==> me.x == old(me.x) && me.y == old(me.y)
      ensures QuietBefore(variant, 4, me.kind, fields, links, scene.looks, h,
                          ChainsIn(scene.lists, scene.current, cands), cands, input.place) ==>
        SceneOf(input.place) == scene && me.Fields() == fields
    {
      RetreatsRefl(grid.lists, grid.current, grid.next);
      ghost var quiet := true;
      ghost var chains := ChainsIn(scene.lists, scene.current, cands);
      for stage := 0 to 4
        invariant Valid() && !halted
        invariant |sprites| >= old(|sprites|) && sprites[..old(|sprites|)] == old(sprites)
        invariant forall k :: old(|sprites|) <= k < |sprites| ==> fresh(sprites[k])
        invariant Retreats(old(grid.lists), old(grid.current), old(grid.next), grid.lists, grid.current, grid.next)
        invariant (me.visible ==> old(me.visible)) && (grid.current[h].Some? ==> me.x == old(me.x) && me.y == old(me.y))
        invariant quiet == QuietBefore(variant, stage, me.kind, fields, links, scene.looks, h, chains, cands, input.place)
        invariant quiet ==> SceneOf(input.place) == scene && me.Fields() == fields && CellLinks(h) == links
      {
        ghost var lists0, cur0, next0 := grid.lists, grid.current, grid.next;
        ghost var sprites0 := sprites;
        assert sprites[h] == sprites[..old(|sprites|)][h] == me;
        quiet := PassNext(h, stage, cands, input, scene, fields, links, me, chains, quiet);
        QuietBeforeNext(variant, stage, me.kind, fields, links, scene.looks, h, chains, cands, input.place);
        forall k | old(|sprites|) <= k < |sprites0|
          ensures fresh(sprites[k])
        {
          assert sprites[k] == sprites[..|sprites0|][k] == sprites0[k];
        }
        StepPreserves(old(sprites), sprites0, sprites, old(|sprites|));
        RetreatsTrans(old(grid.lists), old(grid.current), old(grid.next), lists0, cur0, next0,
                      grid.lists, grid.current, grid.next);
        if halted {
          return;
        }
      }
    }

    /** One turn of the pass loop: pass `stage`, and whether the passes so far met no hit. */
    method PassNext(h: nat, stage: nat, cands: seq<int>, input: Input, ghost scene: Scene, ghost fields: SpriteFields,
                    ghost links: Option<Links>, ghost me: Sprite, ghost chains: seq<seq<int>>, ghost quiet: bool)
      returns (ghost quiet': bool)
      requires Valid() && !halted && h < |sprites| && sprites[h] == me && stage <= 3
      requires forall m :: 0 <= m < |cands| ==> 0 <= cands[m] < |sprites|
      requires chains == ChainsIn(scene.lists, scene.current, cands)
      requires quiet ==> SceneOf(input.place) == scene && me.Fields() == fields && CellLinks(h) == links
      modifies this, grid, grid.head, set s | s in sprites
      ensures Valid() && Retreats(old(grid.lists), old(grid.current), old(grid.next), grid.lists, grid.current, grid.next)
      ensures |sprites| >= old(|sprites|) && sprites[..old(|sprites|)] == old(sprites)
      ensures forall k :: old(|sprites|) <= k < |sprites| ==> fresh(sprites[k])
      ensures me.visible ==> old(me.visible)
      ensures !halted && grid.current[h].Some? ==> me.x == old(me.x) && me.y == old(me.y)
      ensures quiet' == (quiet && PassQuiet(variant, stage, me.kind, fields, links, scene.looks, h, chains, cands, input.place))
      ensures quiet' ==> SceneOf(input.place) == scene && me.Fields() == fields && CellLinks(h) == links && !halted
    {
      // after a hit the pass starts from the state as it then is
      ghost var now := if quiet then scene else SceneOf(input.place);
      ghost var nowFields := if quiet then fields else me.Fields();
      ghost var nowLinks := if quiet then links else CellLinks(h);
      ghost var q := Pass(h, stage, cands, input, now, nowFields, nowLinks);
      quiet' := quiet && q;
    }

    /** Pass `stage` of `run` alone, from the state `scene`, `fields`, `links`; `quiet` tells whether it meets no hit. */
    method Pass(h: nat, stage: nat, cands: seq<int>, input: Input, ghost scene: Scene, ghost fields: SpriteFields,
                ghost links: Option<Links>) returns (ghost quiet: bool)
      requires Valid() && !halted && h < |sprites| && stage <= 3
      requires forall m :: 0 <= m < |cands| ==> 0 <= cands[m] < |sprites|
      requires scene == SceneOf(input.place) && fields == sprites[h].Fields() && links == CellLinks(h)
      modifies this, grid, grid.head, set s | s in sprites
      ensures Valid() && Retreats(old(grid.lists), old(grid.current), old(grid.next), grid.lists, grid.current, grid.next)
      ensures |sprites| >= old(|sprites|) && sprites[..old(|sprites|)] == old(sprites)
      ensures forall k :: old(|sprites|) <= k < |sprites| ==> fresh(sprites[k])
      ensures sprites[h].visible ==> old(sprites[h].visible)
      ensures !halted && grid.current[h].Some? ==> sprites[h].x == old(sprites[h].x) && sprites[h].y == old(sprites[h].y)
      ensures quiet == PassQuiet(variant, stage, sprites[h].kind, fields, links, scene.looks, h,
                                 ChainsIn(scene.lists, scene.current, cands), cands, input.place)
      ensures quiet ==> SceneOf(input.place) == scene && sprites[h].Fields() == fields && !halted
    {
      if stage == 0 {
        quiet := HomePass(h, stage, cands, input, scene, fields, links);
      } else {
        quiet := DupePass(h, stage, cands, input, scene, fields, links);
      }
    }

    /** Pass 0: the candidates checked at h's own position. */
    method HomePass(h: nat, stage: nat, cands: seq<int>, input: Input, ghost scene: Scene, ghost fields: SpriteFields,
                    ghost links: Option<Links>) returns (ghost quiet: bool)
      requires Valid() && !halted && h < |sprites| && stage == 0
      requires forall m :: 0 <= m < |cands| ==> 0 <= cands[m] < |sprites|
      requires scene == SceneOf(input.place) && fields == sprites[h].Fields() && links == CellLinks(h)
      modifies this, grid, grid.head, set s | s in sprites
      ensures Valid() && Retreats(old(grid.lists), old(grid.current), old(grid.next), grid.lists, grid.current, grid.next)
      ensures |sprites| >= old(|sprites|) && sprites[..old(|sprites|)] == old(sprites)
      ensures forall k :: old(|sprites|) <= k < |sprites| ==> fresh(sprites[k])
      ensures sprites[h].visible ==> old(sprites[h].visible)
      ensures !halted && grid.current[h].Some? ==> sprites[h].x == old(sprites[h].x) && sprites[h].y == old(sprites[h].y)
      ensures quiet == PassQuiet(variant, stage, sprites[h].kind, fields, links, scene.looks, h,
                                 ChainsIn(scene.lists, scene.current, cands), cands, input.place)
      ensures quiet ==> SceneOf(input.place) == scene && sprites[h].Fields() == fields && !halted
    {
      assert Shifted(fields, (0, 0)) == fields;
      ghost var walks := CheckAgainst(h, cands, input, scene, fields);
      quiet := FirstLoud(variant, sprites[h].kind, OutlineAt(sprites[h].kind, fields, input.place), scene.looks, h,
                         ChainsIn(scene.lists, scene.current, cands)) == |cands|;
    }

    /** Passes 1 to 3: the candidates checked at the horizontal, vertical or diagonal duplicate. */
    method DupePass(h: nat, stage: nat, cands: seq<int>, input: Input, ghost scene: Scene, ghost fields: SpriteFields,
                    ghost links: Option<Links>) returns (ghost quiet: bool)
      requires Valid() && !halted && h < |sprites| && 1 <= stage <= 3
      requires forall m :: 0 <= m < |cands| ==> 0 <= cands[m] < |sprites|
      requires scene == SceneOf(input.place) && fields == sprites[h].Fields() && links == CellLinks(h)
      modifies this, grid, grid.head, set s | s in sprites
      ensures Valid() && Retreats(old(grid.lists), old(grid.current), old(grid.next), grid.lists, grid.current, grid.next)
      ensures |sprites| >= old(|sprites|) && sprites[..old(|sprites|)] == old(sprites)
      ensures forall k :: old(|sprites|) <= k < |sprites| ==> fresh(sprites[k])
      ensures sprites[h].visible ==> old(sprites[h].visible)
      ensures !halted && grid.current[h].Some? ==> sprites[h].x == old(sprites[h].x) && sprites[h].y == old(sprites[h].y)
      ensures quiet == PassQuiet(variant, stage, sprites[h].kind, fields, links, scene.looks, h,
                                 ChainsIn(scene.lists, scene.current, cands), cands, input.place)
      ensures quiet ==> SceneOf(input.place) == scene && sprites[h].Fields() == fields && !halted
    {
      ghost var walks := ShiftedPass(h, stage != 2, stage != 1, cands, input, scene, fields, links);
      quiet := PassQuiet(variant, stage, sprites[h].kind, fields, links, scene.looks, h,
                         ChainsIn(scene.lists, scene.current, cands), cands, input.place);
    }

    // ---------------------------------------------------------------------------------------------
    // The FSM's side effects.
    // ---------------------------------------------------------------------------------------------

    /**
     * `Game.FSM.execute()`: the handler of the current state.  Boot drops the fire key in the
     * clients; start hides every player bullet and, in the clients, resets score and lives;
     * spawn_ship places the ship at the drawn position and, when that spot is clear, stops it,
     * turns it upright and shows it; end_game posts the score as it returns to start.  The state
     * and timer move as `Execute` says; a spot whose clearness cannot be read halts the game.
     */
    method ExecuteFsm(input: Input) returns (posted: Option<int>)
      requires Valid() && !halted
      modifies this, set s | s in sprites
      ensures Valid() && sprites == old(sprites) && nextMove == old(nextMove)
      ensures var spot := SpawnSpot(input);
        var clear := old(SpotClear(spot.x, spot.y));
        var m := Machine(old(state), old(timer));
        (halted <==> m.state == SpawnShip && clear.None?) &&
        (!halted ==> Machine(state, timer) == Execute(variant, m, old(lives), input.now, clear.Some? && clear.value))
      ensures posted == (if PostsScore(variant, Machine(old(state), old(timer)), old(lives), input.now) then Some(old(score)) else None)
      ensures keys == if old(state) == Boot && HasLives(variant) then old(keys).(space := false) else old(keys)
      ensures old(state) == Start && HasLives(variant) ==> score == 0 && lives == StartingLives(variant)
      ensures old(state) != Start || !HasLives(variant) ==> score == old(score) && lives == old(lives)
      ensures old(state) == Start ==> forall k :: 0 <= k < |sprites| ==>
        sprites[k].Fields() == if sprites[k].kind == Bullet then old(sprites[k].Fields()).(visible := false) else old(sprites[k].Fields())
      ensures old(state) == SpawnShip ==> (
        var spot := SpawnSpot(input);
        var placed := old(sprites[0].Fields()).(x := spot.x, y := spot.y);
        var clear := old(SpotClear(spot.x, spot.y));
        sprites[0].Fields() == (if clear == Some(true) then placed.(rot := 0.0, velX := 0.0, velY := 0.0, visible := true) else placed) &&
        forall k :: 1 <= k < |sprites| ==> sprites[k].Fields() == old(sprites[k].Fields()))
      ensures old(state) != Start && old(state) != SpawnShip ==>
        forall k :: 0 <= k < |sprites| ==> sprites[k].Fields() == old(sprites[k].Fields())
    {
      posted := None;
      if state == SpawnShip {
        SpawnStep(input);
      } else {
        ClearOnlyMattersInSpawn(variant, Machine(state, timer), lives, input.now);
        if state == Start {
          StartStep(input);
        } else {
          posted := Bookkeeping(input);
        }
      }
    }

    /** spawn_ship's tick: the placement, then the move to run when the spot was clear. */
    method SpawnStep(input: Input)
      requires Valid() && !halted && state == SpawnShip
      modifies this, sprites[0]
      ensures Valid() && sprites == old(sprites) && nextMove == old(nextMove)
      ensures keys == old(keys) && score == old(score) && lives == old(lives)
      ensures var spot := SpawnSpot(input);
        var clear := old(SpotClear(spot.x, spot.y));
        var placed := old(sprites[0].Fields()).(x := spot.x, y := spot.y);
        (halted <==> clear.None?) &&
        (!halted ==> Machine(state, timer) == Execute(variant, Machine(SpawnShip, old(timer)), old(lives), input.now, clear.value)) &&
        sprites[0].Fields() == (if clear == Some(true) then placed.(rot := 0.0, velX := 0.0, velY := 0.0, visible := true) else placed)
    {
      var m := Machine(state, timer);
      var c := PlaceShip(input);
      if c.None? {
        halted := true;
        return;
      }
      Advance(m, lives, input.now, c.value);
    }

    /** start's tick: its effects, then the move to spawn_ship. */
    method StartStep(input: Input)
      requires Valid() && state == Start
      modifies this, set s | s in sprites
      ensures Valid() && sprites == old(sprites) && nextMove == old(nextMove)
      ensures keys == old(keys) && halted == old(halted)
      ensures Machine(state, timer) == Execute(variant, Machine(Start, old(timer)), old(lives), input.now, false)
      ensures HasLives(variant) ==> score == 0 && lives == StartingLives(variant)
      ensures !HasLives(variant) ==> score == old(score) && lives == old(lives)
      ensures forall k :: 0 <= k < |sprites| ==>
        sprites[k].Fields() == if sprites[k].kind == Bullet then old(sprites[k].Fields()).(visible := false) else old(sprites[k].Fields())
    {
      var m := Machine(state, timer);
      var oldLives := lives;
      EnterStart();
      Advance(m, oldLives, input.now, false);
    }

    /**
     * The handlers that touch no sprite: boot drops the fire key in the clients, end_game posts
     * the score on the tick it returns to start, and the rest only move the FSM.
     */
    method Bookkeeping(input: Input) returns (posted: Option<int>)
      requires Valid() && state != Start && state != SpawnShip
      modifies this
      ensures Valid() && sprites == old(sprites) && nextMove == old(nextMove) && halted == old(halted)
      ensures Machine(state, timer) == Execute(variant, Machine(old(state), old(timer)), old(lives), input.now, false)
      ensures posted == (if PostsScore(variant, Machine(old(state), old(timer)), old(lives), input.now) then Some(old(score)) else None)
      ensures keys == if old(state) == Boot && HasLives(variant) then old(keys).(space := false) else old(keys)
      ensures score == old(score) && lives == old(lives)
    {
      var m := Machine(state, timer);
      posted := None;
      if state == Boot && HasLives(variant) {
        keys := keys.(space := false);
      } else if state == EndGame && PostsScore(variant, m, lives, input.now) {
        posted := Some(score);
      }
      Advance(m, lives, input.now, false);
    }

    /** `start`'s effects: the player bullets are hidden and, in the clients, score and lives reset. */
    method EnterStart()
      requires Valid()
      modifies this, set s | s in sprites
      ensures Valid() && sprites == old(sprites)
      ensures Scalars() == if HasLives(variant) then old(Scalars()).(score := 0, lives := StartingLives(variant)) else old(Scalars())
      ensures forall k :: 0 <= k < |sprites| ==>
        sprites[k].Fields() == if sprites[k].kind == Bullet then old(sprites[k].Fields()).(visible := false) else old(sprites[k].Fields())
    {
      HideBullets();
      if HasLives(variant) {
        score, lives := 0, StartingLives(variant);
      }
    }

    /**
     * `spawn_ship`'s effects: the ship moves to the drawn spot and, when `isClear` says the spot
     * is clear, stops, turns upright and shows.  `None` is a clearness that cannot be read.
     */
    method PlaceShip(input: Input) returns (clear: Option<bool>)
      requires Valid()
      modifies sprites[0]
      ensures var spot := SpawnSpot(input);
        var placed := old(sprites[0].Fields()).(x := spot.x, y := spot.y);
        clear == old(SpotClear(spot.x, spot.y)) &&
        sprites[0].Fields() == (if clear == Some(true) then placed.(rot := 0.0, velX := 0.0, velY := 0.0, visible := true) else placed)
    {
      var spot := SpawnSpot(input);
      // `isClear` reads the ship's cell and the other sprites, none of which the placement changes.
      clear := SpotClear(spot.x, spot.y);
      sprites[0].Respawn(spot.x, spot.y, clear == Some(true));
    }

    /** The transition of state and timer, which keeps the FSM's part of `Valid`. */
    method Advance(m: Machine, oldLives: int, now: int, clear: bool)
      requires Valid() && m == Machine(state, timer)
      modifies this
      ensures Valid() && Machine(state, timer) == Execute(variant, m, oldLives, now, clear)
      ensures sprites == old(sprites) && Scalars() == old(Scalars()).(state := state, timer := timer)
    {
      var next := Execute(variant, m, oldLives, now, clear);
      ExecuteKeepsTimerInvariant(variant, m, oldLives, now, clear);
      if variant == Bot {
        BotNeverEnds(m, oldLives, now, clear);
      }
      state, timer := next.state, next.timer;
    }

    /** The spawn position: `Math.floor` of each canvas side times its random fraction. */
    function SpawnSpot(input: Input): (p: Point)
    {
      Point((canvasWidth as real * input.spawnX).Floor as real, (canvasHeight as real * input.spawnY).Floor as real)
    }

    /** `Game.ship.isClear()` with the ship at (x, y). */
    function SpotClear(x: real, y: real): (r: Option<bool>)
      requires Valid()
      reads this, grid, grid.head, grid.nodes, sprites
      ensures grid.current[0].Some? ==> grid.InGrid(grid.current[0].value)
      ensures r.None? <==> grid.current[0].None? && FallbackCell(x, y, grid.width, grid.height).None?
      ensures r.Some? ==>
        var c := if grid.current[0].Some? then grid.current[0].value else FallbackCell(x, y, grid.width, grid.height).value;
        (r.value <==> grid.NeighbourhoodClear(c, CollidesWith(Ship), sprites))
    {
      assert grid.SpriteShape(0, grid.next, grid.owner, grid.lists);
      grid.IsClear(CollidesWith(Ship), grid.current[0], x, y, sprites)
    }

    /** `start`'s loop: every player bullet is hidden, and nothing else changes. */
    method HideBullets()
      requires Valid()
      modifies set s | s in sprites
      ensures forall k :: 0 <= k < |sprites| ==>
        sprites[k].Fields() == if sprites[k].kind == Bullet then old(sprites[k].Fields()).(visible := false) else old(sprites[k].Fields())
    {
      for i := 0 to |sprites|
        invariant forall k :: 0 <= k < i ==>
          sprites[k].Fields() == if sprites[k].kind == Bullet then old(sprites[k].Fields()).(visible := false) else old(sprites[k].Fields())
        invariant forall k :: i <= k < |sprites| ==> sprites[k].Fields() == old(sprites[k].Fields())
      {
        if sprites[i].kind == Bullet {
          sprites[i].visible := false;
        }
      }
    }

    // ---------------------------------------------------------------------------------------------
    // `move` and the pre-moves.
    // ---------------------------------------------------------------------------------------------

    /** The keys the ship obeys this tick: the bot's decision, or the clients' key state. */
    function Held(): Controls
      reads this
      requires variant == Bot ==> nextMove.Some?
    {
      if variant == Bot then nextMove.value else keys
    }

    /**
     * The bot's "derpy" decision: more than 1200 ms after the last one, a new move is drawn and
     * the decision time reset.  Reading the keys of a move never drawn halts the game.
     */
    method Decide(input: Input)
      requires Valid() && variant == Bot
      modifies this, sprites[0]
      ensures sprites == old(sprites)
      ensures var due := DecisionDue(input.now, old(sprites[0].aiTimer));
        nextMove == (if due then Some(DerpyMove(input.decision)) else old(nextMove)) &&
        sprites[0].Fields() == old(sprites[0].Fields()).(aiTimer := if due then input.now else old(sprites[0].aiTimer))
      ensures Scalars() == old(Scalars()).(nextMove := nextMove, halted := old(halted) || nextMove.None?)
    {
      var ship := sprites[0];
      if DecisionDue(input.now, ship.aiTimer) {
        ship.aiTimer := input.now;
        nextMove := Some(DerpyMove(input.decision));
      }
      if nextMove.None? {
        halted := true;
      }
    }

    /** The ship's bullet pool, `Game.ship.bullets`. */
    function Pool(): seq<Sprite>
      reads this
      requires |sprites| > BulletMaxCount
    {
      sprites[1..BulletMaxCount + 1]
    }

    /**
     * The ship's pre-move with held keys c.  When it fires, the first hidden bullet of its pool
     * is launched from the ship's position and velocity before the pre-move (the loop in the
     * source runs before the speed limit, the only later step that changes them).
     */
    method Pilot(c: Controls, input: Input) returns (publish: bool)
      requires Valid()
      modifies sprites[0], set b | b in Pool()
      ensures var f := old(sprites[0].Fields()); var dir := input.heading(f.rot);
        sprites[0].Fields() == ShipPreMoved(f, c, dir.x, dir.y, input.flicker, input.delta) &&
        publish == (KeyChanged(Steering(c.left, c.right), c.up, f.prevRot, f.prevUp) ||
                    (f.keyFrame + 1) % KeyFramePeriod(variant) == 0)
      ensures var f := old(sprites[0].Fields()); var dir := input.heading(f.rot);
        var fired := if Fires(f.bulletCounter, c, input.delta) then FirstHidden(old(Visibility(Pool()))) else None;
        (fired.Some? ==> sprites[fired.value + 1].Fields() == Launched(old(sprites[fired.value + 1].Fields()), f, dir)) &&
        forall k :: 1 <= k <= BulletMaxCount && fired != Some(k - 1) ==> sprites[k].Fields() == old(sprites[k].Fields())
    {
      var ship := sprites[0];
      var dir := input.heading(ship.rot);
      if Fires(ship.bulletCounter, c, input.delta) {
        Volley(dir);
      }
      publish := ship.ShipPreMove(c, dir.x, dir.y, input.flicker, input.delta, KeyFramePeriod(variant));
    }

    /** The firing loop over the pool, from the ship as it is now. */
    method Volley(dir: Point)
      requires Valid()
      modifies set b | b in Pool()
      ensures var f := sprites[0].Fields(); var fired := FirstHidden(old(Visibility(Pool())));
        f == old(sprites[0].Fields()) &&
        (fired.Some? ==> sprites[fired.value + 1].Fields() == Launched(old(sprites[fired.value + 1].Fields()), f, dir)) &&
        forall k :: 1 <= k <= BulletMaxCount && fired != Some(k - 1) ==> sprites[k].Fields() == old(sprites[k].Fields())
    {
      var ship := sprites[0];
      var pool := Pool();
      var fired := FireFirstHidden(pool, ship.x, ship.y, ship.velX, ship.velY, dir.x, dir.y);
      assert forall k :: 1 <= k <= BulletMaxCount ==> sprites[k] == pool[k - 1];
    }

    /** The start of the ship's `move`: the outline cache dropped, and the bot's decision. */
    method Prepare(input: Input)
      requires Valid() && !halted
      modifies this, sprites[0]
      ensures Valid() && sprites == old(sprites)
      ensures var due := variant == Bot && DecisionDue(input.now, old(sprites[0].aiTimer));
        nextMove == (if due then Some(DerpyMove(input.decision)) else old(nextMove)) &&
        sprites[0].Fields() == old(sprites[0].Fields()).(transPoints := None, aiTimer := if due then input.now else old(sprites[0].aiTimer)) &&
        Scalars() == old(Scalars()).(nextMove := nextMove, halted := variant == Bot && nextMove.None?)
    {
      sprites[0].transPoints := None;
      if variant == Bot {
        Decide(input);
      }
    }

    /** The ship's pre-move with the held keys, its Euler step and its wrap. */
    method Fly(input: Input) returns (publish: bool)
      requires Valid() && (variant == Bot ==> nextMove.Some?)
      modifies sprites[0], set b | b in Pool()
      ensures
        var f := old(sprites[0].Fields()); var dir := input.heading(f.rot); var c := Held();
        sprites[0].Fields() == Wrapped(Integrated(ShipPreMoved(f, c, dir.x, dir.y, input.flicker, input.delta), input.delta),
                                       canvasWidth as real, canvasHeight as real) &&
        publish == (KeyChanged(Steering(c.left, c.right), c.up, f.prevRot, f.prevUp) ||
                    (f.keyFrame + 1) % KeyFramePeriod(variant) == 0)
      ensures
        var f := old(sprites[0].Fields()); var dir := input.heading(f.rot);
        var fired := if Fires(f.bulletCounter, Held(), input.delta) then FirstHidden(old(Visibility(Pool()))) else None;
        (fired.Some? ==> sprites[fired.value + 1].Fields() == Launched(old(sprites[fired.value + 1].Fields()), f, dir)) &&
        forall k :: 1 <= k <= BulletMaxCount && fired != Some(k - 1) ==> sprites[k].Fields() == old(sprites[k].Fields())
    {
      var ship := sprites[0];
      publish := Pilot(Held(), input);
      ship.Integrate(input.delta);
      ship.WrapPostMove(canvasWidth as real, canvasHeight as real);
    }

    /**
     * `move` for a visible enemy ship: the outline cache dropped, the speed limit, thrust from
     * the remote `accb` flag, the Euler step and the wrap.
     */
    method MoveEnemyShip(h: nat, input: Input)
      requires Valid() && h < |sprites| && sprites[h].kind == EnemyShip
      modifies sprites[h]
      ensures var f := old(sprites[h].Fields()).(transPoints := None); var dir := input.heading(f.rot);
        sprites[h].Fields() == Wrapped(Integrated(Thrusted(SpeedLimited(f), f.accb, dir.x, dir.y, input.flicker), input.delta),
                                       canvasWidth as real, canvasHeight as real)
    {
      var sp := sprites[h];
      var dir := input.heading(sp.rot);
      sp.transPoints := None;
      sp.LimitSpeed();
      sp.ApplyThrust(sp.accb, dir.x, dir.y, input.flicker);
      sp.Integrate(input.delta);
      sp.WrapPostMove(canvasWidth as real, canvasHeight as real);
    }

    /** `move` for a visible bullet of either side: its lifetime, the Euler step and the wrap. */
    method MoveBullet(h: nat, input: Input)
      requires Valid() && h < |sprites| && PointLike(sprites[h].kind)
      modifies sprites[h]
      ensures sprites[h].Fields() == Wrapped(Integrated(LifetimeTicked(old(sprites[h].Fields()).(transPoints := None), input.delta),
                                                        input.delta), canvasWidth as real, canvasHeight as real)
    {
      var sp := sprites[h];
      sp.transPoints := None;
      sp.LifetimeTick(input.delta);
      sp.Integrate(input.delta);
      sp.WrapPostMove(canvasWidth as real, canvasHeight as real);
    }

    /**
     * `move` for a visible explosion: it grows by `delta`, and past the variant's maximum scale it
     * dies (hidden, marked for the sweep, out of its cell); then the Euler step, with no wrap.
     */
    method MoveExplosion(h: nat, input: Input)
      requires Valid() && h < |sprites| && sprites[h].kind == Explosion && sprites[h].visible
      modifies grid, grid.head, sprites[h]
      ensures Valid() && Retreats(old(grid.lists), old(grid.current), old(grid.next), grid.lists, grid.current, grid.next)
      ensures var g := old(sprites[h].Fields()).(transPoints := None, scale := old(sprites[h].scale) + input.delta);
        var dies := g.scale > ExplosionMaxScale(variant);
        sprites[h].Fields() == Integrated(if dies then g.(visible := false, reap := true) else g, input.delta) &&
        (dies ==> grid.lists == Unlinked(old(grid.lists), old(grid.current[h]), h) && grid.current == old(grid.current)[h := None]) &&
        (!dies ==> grid.lists == old(grid.lists) && grid.current == old(grid.current) && grid.next == old(grid.next))
    {
      var sp := sprites[h];
      sp.transPoints := None;
      var dies := sp.Grow(input.delta, ExplosionMaxScale(variant));
      RetreatsRefl(grid.lists, grid.current, grid.next);
      if dies {
        ghost var lists0, cur0, next0 := grid.lists, grid.current, grid.next;
        Die(h);
        DetachRetreats(lists0, cur0, next0, grid.lists, grid.current, grid.next, h);
      }
      sp.Integrate(input.delta);
    }

    /**
     * `move` for sprite h: nothing at all for an invisible sprite; otherwise the outline cache is
     * dropped and the kind's own update runs.  Only the ship's move can halt the game (the bot's
     * unset move) or publish a key frame, and only it touches other sprites (its bullets).
     */
    method Move(h: nat, input: Input) returns (publish: bool)
      requires Valid() && !halted && h < |sprites|
      modifies this, grid, grid.head, set s | s in sprites
      ensures Valid() && sprites == old(sprites)
      ensures Scalars().(nextMove := old(nextMove), halted := old(halted)) == old(Scalars())
      ensures (halted || publish) ==> h == 0 && old(sprites[h].visible)
      ensures halted ==> variant == Bot
      ensures !old(sprites[h].visible) ==> (Scalars() == old(Scalars()) &&
        grid.lists == old(grid.lists) && grid.current == old(grid.current) && grid.next == old(grid.next) &&
        forall k :: 0 <= k < |sprites| ==> sprites[k].Fields() == old(sprites[k].Fields()))
      ensures old(sprites[h].visible) && !halted ==> sprites[h].transPoints.None?
      ensures old(sprites[h].visible) && !halted && sprites[h].kind != Explosion ==>
        0.0 <= sprites[h].x <= canvasWidth as real && 0.0 <= sprites[h].y <= canvasHeight as real
      ensures old(sprites[h].visible) && !halted && Bridges(sprites[h].kind) ==> sprites[h].visible
      ensures forall k :: 0 <= k < |sprites| && k != h && (h != 0 || k > BulletMaxCount) ==>
        sprites[k].Fields() == old(sprites[k].Fields())
      ensures Retreats(old(grid.lists), old(grid.current), old(grid.next), grid.lists, grid.current, grid.next)
      ensures sprites[h].kind != Explosion ==>
        grid.lists == old(grid.lists) && grid.current == old(grid.current) && grid.next == old(grid.next)
    {
      var sp := sprites[h];
      publish := false;
      if !sp.visible {
        RetreatsRefl(grid.lists, grid.current, grid.next);
        return;
      }
      if sp.kind == Ship {
        RetreatsRefl(grid.lists, grid.current, grid.next);
        publish := MoveShip(input);
      } else {
        MoveOther(h, input);
      }
    }

    /** `move` for the visible ship: `Prepare`, then `Fly` unless the bot has no move yet. */
    method MoveShip(input: Input) returns (publish: bool)
      requires Valid() && !halted && sprites[0].visible
      modifies this, sprites[0], set b | b in Pool()
      ensures Valid() && sprites == old(sprites)
      ensures Scalars().(nextMove := old(nextMove), halted := old(halted)) == old(Scalars())
      ensures halted ==> variant == Bot && !publish
      ensures !halted ==> (sprites[0].transPoints.None? && sprites[0].visible &&
        0.0 <= sprites[0].x <= canvasWidth as real && 0.0 <= sprites[0].y <= canvasHeight as real)
    {
      Prepare(input);
      if halted {
        return false;
      }
      publish := Fly(input);
    }

    /** `move` for a visible sprite other than the ship, by kind. */
    method MoveOther(h: nat, input: Input)
      requires Valid() && h < |sprites| && sprites[h].kind != Ship && sprites[h].visible
      modifies grid, grid.head, sprites[h]
      ensures Valid()
      ensures sprites[h].transPoints.None?
      ensures sprites[h].kind != Explosion ==>
        0.0 <= sprites[h].x <= canvasWidth as real && 0.0 <= sprites[h].y <= canvasHeight as real
      ensures sprites[h].kind == EnemyShip ==> sprites[h].visible
      ensures Retreats(old(grid.lists), old(grid.current), old(grid.next), grid.lists, grid.current, grid.next)
      ensures sprites[h].kind != Explosion ==>
        grid.lists == old(grid.lists) && grid.current == old(grid.current) && grid.next == old(grid.next)
    {
      var k := sprites[h].kind;
      if k == EnemyShip {
        MoveEnemyShip(h, input);
      } else if PointLike(k) {
        MoveBullet(h, input);
      } else {
        MoveExplosion(h, input);
      }
      if k != Explosion {
        RetreatsRefl(grid.lists, grid.current, grid.next);
      }
    }

    /** Sprite h moved by whole offsets (dx, dy). */
    method Shift(h: nat, dx: int, dy: int, ghost place: Placement)
      requires Valid() && h < |sprites|
      modifies sprites[h]
      ensures sprites[h].Fields() == Shifted(old(sprites[h].Fields()), (dx, dy))
      ensures Looks(place) == old(Looks(place))[h := LookAt(sprites[h].kind, sprites[h].Fields(), place)]
    {
      ghost var looks0 := Looks(place);
      var sp := sprites[h];
      sp.x, sp.y := sp.x + dx as real, sp.y + dy as real;
      forall k | 0 <= k < |sprites| && k != h
        ensures LookOf(sprites[k], place) == looks0[k]
      {
        assert sprites[k] != sprites[h];
      }
    }
  }

  /**
   * Whether a pass at a duplicate position runs: the sprite bridges, has a cell, and the cell's
   * offsets along the pass's axes are set and non-zero.
   */
  predicate Takes(k: Kind, links: Option<Links>, alongX: bool, alongY: bool)
  {
    Bridges(k) && links.Some? &&
    (alongX ==> Truthy(links.value.dupeH)) && (alongY ==> Truthy(links.value.dupeV))
  }

  /** Two steps that each keep the old sprites as a prefix keep it together. */
  lemma StepPreserves(s0: seq<Sprite>, s1: seq<Sprite>, s2: seq<Sprite>, n: nat)
    requires n <= |s0| == |s0| && |s0| <= |s1| <= |s2| && s1[..|s0|] == s0 && s2[..|s1|] == s1
    ensures s2[..n] == s0[..n]
  {
    assert s2[..n] == s2[..|s1|][..n];
  }

  /**
   * The sprites and the grid agree: one grid handle per sprite, every sprite distinct, the ship
   * first and alone of its kind, and its ten bullets after it.
   */
  ghost predicate Arena(grid: Grid, sprites: seq<Sprite>, canvasWidth: int, canvasHeight: int)
    reads grid, grid.head, grid.nodes
  {
    grid.Valid() && grid.Consistent() && |sprites| == grid.Count() &&
    grid.canvasWidth == canvasWidth >= 0 && grid.canvasHeight == canvasHeight >= 0 &&
    |sprites| > BulletMaxCount && sprites[0].kind == Ship &&
    (forall k :: 1 <= k < |sprites| ==> sprites[k].kind != Ship) &&
    (forall k :: 1 <= k <= BulletMaxCount ==> sprites[k].kind == Bullet) &&
    (forall a, b :: 0 <= a < b < |sprites| ==> sprites[a] != sprites[b])
  }

  /** A new unlinked sprite is a retreat. */
  lemma AppendRetreats(lists: map<Cell, seq<int>>, cur: seq<Option<Cell>>, next: seq<int>)
    ensures Retreats(lists, cur, next, lists, cur + [None], next + [-1])
  {
    LinkedTotalAppend(cur);
    assert (cur + [None])[..|cur|] == cur && (next + [-1])[..|next|] == next;
  }

  /** Unlinking sprite h is a retreat: one fewer linked sprite, or nothing changed at all. */
  lemma DetachRetreats(lists0: map<Cell, seq<int>>, cur0: seq<Option<Cell>>, next0: seq<int>,
                       lists1: map<Cell, seq<int>>, cur1: seq<Option<Cell>>, next1: seq<int>, h: int)
    requires 0 <= h < |cur0| && cur1 == cur0[h := None]
    requires cur0[h].None? ==> lists1 == lists0 && next1 == next0
    ensures Retreats(lists0, cur0, next0, lists1, cur1, next1)
  {
    if cur0[h].Some? {
      LinkedTotalClear(cur0, h);
    } else {
      assert cur1 == cur0;
      RetreatsRefl(lists0, cur0, next0);
    }
  }
}
