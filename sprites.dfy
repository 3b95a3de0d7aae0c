/**
 * Sprites: the per-kind constants of the prototypes, the mutable sprite object, and the
 * per-tick updates a sprite makes to its own fields (integration, edge wrap, steering, thrust,
 * the fire cooldown, the speed limit, key frames, bullet lifetime and explosion growth).
 *
 * Trigonometry is an input: a thrust or bullet direction is given as a unit vector (dirX, dirY),
 * and the rotation-and-scale part of `Matrix.configure` is a `Placement`.
 */
module Sprites {
  import opened Wrappers
  import opened Kinds
  import opened Geometry

  const ShipMaxSpeed: real := 8.0
  const ShipRotationRate: real := 5.0
  const BulletDelay: real := 10.0
  const BulletMaxCount: nat := 10
  /** `BULLET_LIFETIME`; the enemy bullet's literal 50 is the same value. */
  const BulletLifetime: real := 50.0
  /** Thrust magnitude, bullet speed and nose offset used by the ships. */
  const Thrust: real := 0.5
  const BulletSpeed: real := 6.0
  const NoseOffset: real := 4.0

  /** The rotation-and-scale part of the sprite transform applied to model points. */
  type Placement = (seq<Point>, real, real) -> seq<Point>

  /** `collidesWith`: the kinds a sprite tests against its own outline. */
  function CollidesWith(k: Kind): (r: seq<Kind>)
    ensures Explosion !in r && k !in r
    ensures r != [] <==> k == Ship || k == EnemyShip
  {
    match k
    case Ship => [EnemyBullet, EnemyShip]
    case EnemyShip => [Bullet]
    case _ => []
  }

  /** `bridgesH` and `bridgesV`: bullets and explosions never take the shifted passes. */
  predicate Bridges(k: Kind)
  {
    k == Ship || k == EnemyShip
  }

  /** The model outline: the ships' triangle, a bullet's single point, nothing for an explosion. */
  function Shape(k: Kind): seq<Point>
  {
    match k
    case Ship | EnemyShip => [Point(-5.0, 4.0), Point(0.0, -12.0), Point(5.0, 4.0)]
    case Bullet | EnemyBullet => [Point(0.0, 0.0)]
    case Explosion => []
  }

  /** A bullet reports its position as its only point instead of a transformed outline. */
  predicate PointLike(k: Kind)
  {
    k == Bullet || k == EnemyBullet
  }

  // -----------------------------------------------------------------------------------------------
  // Pure per-tick rules.
  // -----------------------------------------------------------------------------------------------

  /** The single fix-up `move` applies to the rotation: one step of 360 either way. */
  function NormalizeRotation(r: real): real
  {
    if r > 360.0 then r - 360.0 else if r < 0.0 then r + 360.0 else r
  }

  /** A rotation in [0, 360] advanced by at most a full turn stays in [0, 360]. */
  lemma RotationStaysInRange(rot: real, step: real)
    requires 0.0 <= rot <= 360.0 && -360.0 <= step <= 360.0
    ensures 0.0 <= NormalizeRotation(rot + step) <= 360.0
  {
  }

  /** The fix-up only fires above 360: a rotation of exactly 360 is kept, so [0, 360) is not an invariant. */
  lemma RotationKeeps360()
    ensures NormalizeRotation(360.0) == 360.0
    ensures NormalizeRotation(355.0 + 5.0) == 360.0
  {
  }

  /** `wrapPostMove` along one axis: past the far edge to 0, before 0 to the far edge. */
  function WrapAxis(v: real, side: real): (r: real)
    requires side >= 0.0
    ensures 0.0 <= r <= side
    ensures 0.0 <= v <= side ==> r == v
    ensures v > side ==> r == 0.0
    ensures v < 0.0 ==> r == side
  {
    if v > side then 0.0 else if v < 0.0 then side else v
  }

  /** Steering from the left and right keys: left wins; neither stops the turn. */
  function Steering(left: bool, right: bool): (r: real)
    ensures r < 0.0 <==> left
    ensures r > 0.0 <==> !left && right
    ensures r == 0.0 || r == ShipRotationRate || r == -ShipRotationRate
  {
    if left then -ShipRotationRate else if right then ShipRotationRate else 0.0
  }

  /** The speed limit tests `sqrt(vx² + vy²) > 8`, that is vx² + vy² > 64. */
  predicate TooFast(vx: real, vy: real)
  {
    vx * vx + vy * vy > ShipMaxSpeed * ShipMaxSpeed
  }

  /** A key frame is published when the turn rate or the thrust key differs from the last tick's. */
  predicate KeyChanged(velRot: real, up: bool, prevRot: real, prevUp: bool)
  {
    velRot != prevRot || up != prevUp
  }

  /** Key frame period of the periodic publish: every 30 ticks in the bot, every 60 in the clients. */
  function KeyFramePeriod(v: Variant): (p: int)
    ensures p > 0
  {
    if v == Bot then 30 else 60
  }

  /** How far an explosion grows before it dies. */
  function ExplosionMaxScale(v: Variant): real
  {
    if v == App then 15.0 else 8.0
  }

  /** The index of the first false entry, the first hidden bullet in pool order. */
  function FirstHidden(visible: seq<bool>): (r: Option<nat>)
    ensures r.Some? <==> exists k :: 0 <= k < |visible| && !visible[k]
    ensures r.Some? ==> r.value < |visible| && !visible[r.value]
    ensures r.Some? ==> forall k :: 0 <= k < r.value ==> visible[k]
  {
    if visible == [] then None
    else if !visible[0] then Some(0)
    else match FirstHidden(visible[1..])
      case None => None
      case Some(k) => Some(k + 1)
  }

  // -----------------------------------------------------------------------------------------------
  // The bot's "derpy" decision table.
  // -----------------------------------------------------------------------------------------------

  /** Held keys, the bot's `nextMove`. */
  datatype Controls = Controls(left: bool, right: bool, up: bool, space: bool)

  const Idle := Controls(false, false, false, false)

  /**
   * The `switch` on `Math.round(Math.random() * 4)`.  Case 2 has no `break`, so its assignment
   * is overwritten by case 3's.
   */
  function DerpyMove(decision: int): (m: Controls)
    ensures 0 <= decision <= 4 ==> m != Idle
  {
    var fallsThrough := decision == 2;
    if decision == 0 then Controls(false, true, false, false)
    else if decision == 1 then Controls(true, false, false, true)
    else if decision == 3 || fallsThrough then Controls(false, false, false, true)
    else if decision == 4 then Controls(false, false, true, false)
    else Idle
  }

  /** Decision 2 ends up "shoot only": no turn and no engine, whatever its log line says. */
  lemma DerpyTwoOnlyShoots()
    ensures DerpyMove(2) == Controls(false, false, false, true)
  {
  }

  /** Of the five outcomes of the draw, only four distinct moves come out. */
  lemma DerpyHasFourMoves()
    ensures (set d | 0 <= d <= 4 :: DerpyMove(d)) ==
      {Controls(false, true, false, false), Controls(true, false, false, true),
       Controls(false, false, false, true), Controls(false, false, true, false)}
  {
    var s := set d | 0 <= d <= 4 :: DerpyMove(d);
    assert DerpyMove(0) in s && DerpyMove(1) in s && DerpyMove(3) in s && DerpyMove(4) in s;
    forall m | m in s
      ensures m in {Controls(false, true, false, false), Controls(true, false, false, true),
                    Controls(false, false, false, true), Controls(false, false, true, false)}
    {
      var d :| 0 <= d <= 4 && DerpyMove(d) == m;
    }
  }

  /** The bot makes a new decision only when more than 1200 ms have passed since the last one. */
  predicate DecisionDue(now: int, aiTimer: int)
  {
    now - aiTimer > 1200
  }

  /** `move`'s cooldown step: the fire counter counts down by `delta` only while it is positive. */
  function Cooled(counter: real, delta: real): (r: real)
    ensures counter <= 0.0 ==> r == counter
  {
    if counter > 0.0 then counter - delta else counter
  }

  // -----------------------------------------------------------------------------------------------
  // The player's ship's pre-move on its own fields.
  // -----------------------------------------------------------------------------------------------

  /** The ship fires on this tick: the fire key is held and the counter has cooled to 0 or below. */
  predicate Fires(counter: real, c: Controls, delta: real)
  {
    c.space && Cooled(counter, delta) <= 0.0
  }

  /**
   * `Ship.preMove` on the ship's own fields, with held keys c and heading (dirX, dirY): the turn
   * rate from the steering keys, thrust, the cooldown (reset to the fire delay when it fires),
   * the speed limit, and the key-frame bookkeeping.  The position and rotation are left to `move`.
   */
  function ShipPreMoved(f: SpriteFields, c: Controls, dirX: real, dirY: real, draw: real, delta: real): (r: SpriteFields)
    ensures r.velRot == Steering(c.left, c.right)
    ensures r.prevRot == r.velRot && r.prevUp == c.up && r.keyFrame == f.keyFrame + 1
    ensures r.bulletCounter == if Fires(f.bulletCounter, c, delta) then BulletDelay else Cooled(f.bulletCounter, delta)
    ensures r.(velRot := f.velRot, accX := f.accX, accY := f.accY, exhaustVisible := f.exhaustVisible,
               bulletCounter := f.bulletCounter, velX := f.velX, velY := f.velY,
               prevRot := f.prevRot, prevUp := f.prevUp, keyFrame := f.keyFrame) == f
  {
    var limited := SpeedLimited(Armed(f, c, dirX, dirY, draw, delta));
    limited.(prevRot := limited.velRot, prevUp := c.up, keyFrame := limited.keyFrame + 1)
  }

  /** The first half of the ship's pre-move: the turn rate, thrust, and the fire cooldown. */
  function Armed(f: SpriteFields, c: Controls, dirX: real, dirY: real, draw: real, delta: real): (r: SpriteFields)
    ensures r.(velRot := f.velRot, accX := f.accX, accY := f.accY, exhaustVisible := f.exhaustVisible,
               bulletCounter := f.bulletCounter) == f
  {
    var thrusted := Thrusted(f.(velRot := Steering(c.left, c.right)), c.up, dirX, dirY, draw);
    thrusted.(bulletCounter := if Fires(f.bulletCounter, c, delta) then BulletDelay else Cooled(f.bulletCounter, delta))
  }

  /** After firing, the ship cannot fire on the next tick unless that tick is at least the fire delay long. */
  lemma FireDelayHolds(f: SpriteFields, c: Controls, dirX: real, dirY: real, draw: real, delta: real,
                       c': Controls, delta': real)
    requires Fires(f.bulletCounter, c, delta)
    ensures Fires(ShipPreMoved(f, c, dirX, dirY, draw, delta).bulletCounter, c', delta') ==> delta' >= BulletDelay
  {
  }

  /** Holding the same keys on the next tick triggers no change-driven key frame. */
  lemma SteadyKeysPublishNothing(f: SpriteFields, c: Controls, dirX: real, dirY: real, draw: real, delta: real)
    ensures var r := ShipPreMoved(f, c, dirX, dirY, draw, delta);
      !KeyChanged(Steering(c.left, c.right), c.up, r.prevRot, r.prevUp)
  {
  }

  // -----------------------------------------------------------------------------------------------
  // The sprite object.
  // -----------------------------------------------------------------------------------------------

  /** Every mutable field of a sprite at one moment. */
  datatype SpriteFields = SpriteFields(
    x: real, y: real, rot: real, scale: real,
    velX: real, velY: real, velRot: real, accX: real, accY: real,
    visible: bool, reap: bool, transPoints: Option<seq<Point>>,
    time: real, bulletCounter: real, keyFrame: int, prevRot: real, prevUp: bool,
    accb: bool, exhaustVisible: bool, aiTimer: int)

  /** A fresh sprite of kind k: at the origin, at rest, ships at scale 1.5 and the rest at 1. */
  function Defaults(k: Kind, visible: bool): (f: SpriteFields)
    ensures f.visible == visible && !f.reap && f.transPoints.None?
    ensures f.x == 0.0 && f.y == 0.0 && f.velX == 0.0 && f.velY == 0.0 && f.velRot == 0.0
    ensures f.scale == if Bridges(k) then 1.5 else 1.0
  {
    SpriteFields(0.0, 0.0, 0.0, if k == Ship || k == EnemyShip then 1.5 else 1.0,
                 0.0, 0.0, 0.0, 0.0, 0.0, visible, false, None,
                 0.0, 0.0, 0, 0.0, false, false, false, 0)
  }

  /**
   * Thrust: with the engine on, acceleration 0.5 along the heading (dirX, dirY) and the exhaust
   * shown iff the random draw exceeds 0.1; with it off, no acceleration and no exhaust.
   */
  function Thrusted(f: SpriteFields, engine: bool, dirX: real, dirY: real, draw: real): (r: SpriteFields)
    ensures r.(accX := f.accX, accY := f.accY, exhaustVisible := f.exhaustVisible) == f
    ensures engine ==> r.accX == Thrust * dirX && r.accY == Thrust * dirY && (r.exhaustVisible <==> draw > 0.1)
    ensures !engine ==> r.accX == 0.0 && r.accY == 0.0 && !r.exhaustVisible
  {
    if engine then f.(accX := Thrust * dirX, accY := Thrust * dirY, exhaustVisible := draw > 0.1)
    else f.(accX := 0.0, accY := 0.0, exhaustVisible := false)
  }

  /**
   * The speed limit: above the maximum speed both velocity components shrink by 5%; at or
   * below it nothing changes.  The limit never speeds a sprite up.
   */
  function SpeedLimited(f: SpriteFields): (r: SpriteFields)
    ensures r.(velX := f.velX, velY := f.velY) == f
    ensures TooFast(f.velX, f.velY) ==> r.velX == 0.95 * f.velX && r.velY == 0.95 * f.velY
    ensures !TooFast(f.velX, f.velY) ==> r == f
  {
    if TooFast(f.velX, f.velY) then f.(velX := 0.95 * f.velX, velY := 0.95 * f.velY) else f
  }

  /**
   * `move`'s Euler step: the velocity from the acceleration, the position from the new velocity,
   * and the rotation from the turn rate with the single fix-up.  Nothing else changes.
   */
  function Integrated(f: SpriteFields, delta: real): (r: SpriteFields)
    ensures r.(x := f.x, y := f.y, velX := f.velX, velY := f.velY, rot := f.rot) == f
    ensures r.velX == f.velX + f.accX * delta && r.velY == f.velY + f.accY * delta
    ensures r.x == f.x + r.velX * delta && r.y == f.y + r.velY * delta
    ensures r.rot == NormalizeRotation(f.rot + f.velRot * delta)
  {
    var vx, vy := f.velX + f.accX * delta, f.velY + f.accY * delta;
    f.(velX := vx, velY := vy, x := f.x + vx * delta, y := f.y + vy * delta,
       rot := NormalizeRotation(f.rot + f.velRot * delta))
  }

  /** `wrapPostMove` on a sprite's fields: the position ends up on the canvas, nothing else changes. */
  function Wrapped(f: SpriteFields, canvasWidth: real, canvasHeight: real): (r: SpriteFields)
    requires canvasWidth >= 0.0 && canvasHeight >= 0.0
    ensures r.(x := f.x, y := f.y) == f
    ensures 0.0 <= r.x <= canvasWidth && 0.0 <= r.y <= canvasHeight
    ensures 0.0 <= f.x <= canvasWidth && 0.0 <= f.y <= canvasHeight ==> r == f
  {
    f.(x := WrapAxis(f.x, canvasWidth), y := WrapAxis(f.y, canvasHeight))
  }

  /** Wrapping twice is wrapping once. */
  lemma WrappedIdempotent(f: SpriteFields, canvasWidth: real, canvasHeight: real)
    requires canvasWidth >= 0.0 && canvasHeight >= 0.0
    ensures Wrapped(Wrapped(f, canvasWidth, canvasHeight), canvasWidth, canvasHeight) == Wrapped(f, canvasWidth, canvasHeight)
  {
  }

  /**
   * A bullet's pre-move: a visible bullet ages by `delta`; once past the lifetime it is hidden
   * with its age back at 0.  Only the age and the visibility change, and a hidden bullet stays
   * hidden.
   */
  function LifetimeTicked(f: SpriteFields, delta: real): (r: SpriteFields)
    ensures r.(visible := f.visible, time := f.time) == f
    ensures r.visible ==> f.visible
    ensures f.visible && f.time + delta > BulletLifetime ==> !r.visible && r.time == 0.0
    ensures f.visible && f.time + delta <= BulletLifetime ==> r.visible && r.time == f.time + delta
    ensures !f.visible ==> r.time == (if f.time > BulletLifetime then 0.0 else f.time)
  {
    var t := if f.visible then f.time + delta else f.time;
    if t > BulletLifetime then f.(visible := false, time := 0.0) else f.(time := t)
  }

  /** A bullet's fields after n pre-moves of the same `delta`. */
  function Aged(f: SpriteFields, delta: real, n: nat): SpriteFields
  {
    if n == 0 then f else LifetimeTicked(Aged(f, delta, n - 1), delta)
  }

  /**
   * A bullet fired at age 0 survives exactly the ticks whose ages stay within the lifetime: with
   * n ticks of the same positive `delta`, it is still visible while n * delta <= 50.
   */
  lemma {:induction false} BulletLivesItsLifetime(f: SpriteFields, delta: real, n: nat)
    requires f.visible && f.time == 0.0 && delta > 0.0 && n as real * delta <= BulletLifetime
    ensures Aged(f, delta, n).visible && Aged(f, delta, n).time == n as real * delta
  {
    if n > 0 {
      BulletLivesItsLifetime(f, delta, n - 1);
    }
  }

  /** ... and is hidden, its age back at 0, on the first tick that takes it past the lifetime. */
  lemma BulletDiesAfterItsLifetime(f: SpriteFields, delta: real, n: nat)
    requires f.visible && f.time == 0.0 && delta > 0.0 && n >= 1
    requires (n - 1) as real * delta <= BulletLifetime < n as real * delta
    ensures !Aged(f, delta, n).visible && Aged(f, delta, n).time == 0.0
  {
    BulletLivesItsLifetime(f, delta, n - 1);
    assert (n - 1) as real * delta + delta == n as real * delta;
  }

  /** A bullet fired from a ship with fields `ship` along the heading `dir`: at the nose, with the ship's velocity added. */
  function Launched(b: SpriteFields, ship: SpriteFields, dir: Point): (r: SpriteFields)
    ensures r.visible && r.(x := b.x, y := b.y, velX := b.velX, velY := b.velY, visible := b.visible) == b
    ensures r.x == ship.x + dir.x * NoseOffset && r.y == ship.y + dir.y * NoseOffset
    ensures r.velX == BulletSpeed * dir.x + ship.velX && r.velY == BulletSpeed * dir.y + ship.velY
  {
    b.(x := ship.x + dir.x * NoseOffset, y := ship.y + dir.y * NoseOffset,
       velX := BulletSpeed * dir.x + ship.velX, velY := BulletSpeed * dir.y + ship.velY, visible := true)
  }

  /** The squared speed of a sprite. */
  function SpeedSquared(f: SpriteFields): real
  {
    f.velX * f.velX + f.velY * f.velY
  }

  /** The speed limit never speeds a sprite up. */
  lemma SpeedLimitNeverSpeedsUp(f: SpriteFields)
    ensures SpeedSquared(SpeedLimited(f)) <= SpeedSquared(f)
  {
  }

  /** Nor does the ship's pre-move: thrust changes the acceleration only, and the limit can only slow. */
  lemma ShipPreMoveNeverSpeedsUp(f: SpriteFields, c: Controls, dirX: real, dirY: real, draw: real, delta: real)
    ensures SpeedSquared(ShipPreMoved(f, c, dirX, dirY, draw, delta)) <= SpeedSquared(f)
  {
    SpeedLimitNeverSpeedsUp(Armed(f, c, dirX, dirY, draw, delta));
  }

  /** Above the speed limit, one application brings the squared speed down by the factor 0.9025. */
  lemma SpeedLimitScales(f: SpriteFields)
    requires TooFast(f.velX, f.velY)
    ensures SpeedSquared(SpeedLimited(f)) == 0.9025 * SpeedSquared(f)
  {
  }

  /**
   * The outline a sprite of kind k with fields f has: its model points placed by its rotation
   * and scale and moved to its position, or the position alone for a bullet.
   */
  function OutlineAt(k: Kind, f: SpriteFields, place: Placement): seq<Point>
  {
    if PointLike(k) then [Point(f.x, f.y)] else Translate(place(Shape(k), f.rot, f.scale), f.x, f.y)
  }

  class Sprite {
    /** `name`: which prototype this sprite was built from. */
    const kind: Kind
    var x: real
    var y: real
    var rot: real
    var scale: real
    var velX: real
    var velY: real
    var velRot: real
    var accX: real
    var accY: real
    var visible: bool
    var reap: bool
    /** `transPoints`: the outline cached by `transformedPoints`, cleared by `move`. */
    var transPoints: Option<seq<Point>>
    /** Bullets: ticks lived. */
    var time: real
    /** Ships: fire cooldown, frame counter and the last published turn rate and thrust key. */
    var bulletCounter: real
    var keyFrame: int
    var prevRot: real
    var prevUp: bool
    /** Enemy ships: the remote thrust flag. */
    var accb: bool
    /** The exhaust child's visibility. */
    var exhaustVisible: bool
    /** The bot's ship: time of its last decision. */
    var aiTimer: int

    function Fields(): SpriteFields
      reads this
    {
      SpriteFields(x, y, rot, scale, velX, velY, velRot, accX, accY, visible, reap, transPoints,
                   time, bulletCounter, keyFrame, prevRot, prevUp, accb, exhaustVisible, aiTimer)
    }

    /** The prototype defaults of a fresh sprite of kind k (only the bot's ship starts visible). */
    constructor (k: Kind, startVisible: bool)
      ensures kind == k
      ensures Fields() == Defaults(k, startVisible)
    {
      kind := k;
      visible := startVisible;
      reap := false;
      transPoints := None;
      x, y, rot := 0.0, 0.0, 0.0;
      scale := if k == Ship || k == EnemyShip then 1.5 else 1.0;
      velX, velY, velRot := 0.0, 0.0, 0.0;
      accX, accY := 0.0, 0.0;
      time := 0.0;
      bulletCounter := 0.0;
      keyFrame := 0;
      prevRot, prevUp := 0.0, false;
      accb := false;
      exhaustVisible := false;
      aiTimer := 0;
    }

    /** The outline at the sprite's current position, rotation and scale. */
    function Outline(place: Placement): seq<Point>
      reads this
    {
      OutlineAt(kind, Fields(), place)
    }

    /**
     * The Euler step of `move`: velocity from acceleration, position from the new velocity,
     * rotation from the turn rate with the single fix-up.
     */
    method Integrate(delta: real)
      modifies this
      ensures Fields() == Integrated(old(Fields()), delta)
    {
      velX := velX + accX * delta;
      velY := velY + accY * delta;
      x := x + velX * delta;
      y := y + velY * delta;
      rot := rot + velRot * delta;
      if rot > 360.0 {
        rot := rot - 360.0;
      } else if rot < 0.0 {
        rot := rot + 360.0;
      }
    }

    /**
     * `spawn_ship` on the ship: it moves to (px, py) and, when that spot is clear, stops, turns
     * upright and shows.
     */
    method Respawn(px: real, py: real, clear: bool)
      modifies this
      ensures var placed := old(Fields()).(x := px, y := py);
        Fields() == if clear then placed.(rot := 0.0, velX := 0.0, velY := 0.0, visible := true) else placed
    {
      x, y := px, py;
      if clear {
        rot, velX, velY, visible := 0.0, 0.0, 0.0, true;
      }
    }

    /** `wrapPostMove`: the hard wrap at the canvas edges. */
    method WrapPostMove(canvasWidth: real, canvasHeight: real)
      requires canvasWidth >= 0.0 && canvasHeight >= 0.0
      modifies this
      ensures Fields() == Wrapped(old(Fields()), canvasWidth, canvasHeight)
    {
      if x > canvasWidth {
        x := 0.0;
      } else if x < 0.0 {
        x := canvasWidth;
      }
      if y > canvasHeight {
        y := 0.0;
      } else if y < 0.0 {
        y := canvasHeight;
      }
    }

    /**
     * `transformedPoints`: a bullet answers its position; any other sprite answers its cached
     * outline if it has one, and otherwise computes the outline here and caches it.
     */
    method TransformedPoints(place: Placement) returns (pts: seq<Point>)
      modifies this
      ensures PointLike(kind) ==> pts == [Point(x, y)] && Fields() == old(Fields())
      ensures !PointLike(kind) && old(transPoints).Some? ==> pts == old(transPoints).value
      ensures !PointLike(kind) && old(transPoints).None? ==> pts == Outline(place)
      ensures !PointLike(kind) ==> Fields() == old(Fields()).(transPoints := Some(pts))
    {
      if PointLike(kind) {
        return [Point(x, y)];
      }
      if transPoints.Some? {
        return transPoints.value;
      }
      pts := Translate(place(Shape(kind), rot, scale), x, y);
      transPoints := Some(pts);
    }

    /** Turn rate from the steering keys. */
    method Steer(left: bool, right: bool)
      modifies this
      ensures Fields() == old(Fields()).(velRot := Steering(left, right))
    {
      if left {
        velRot := -ShipRotationRate;
      } else if right {
        velRot := ShipRotationRate;
      } else {
        velRot := 0.0;
      }
    }

    /** Thrust along the heading (dirX, dirY), as `Thrusted` says. */
    method ApplyThrust(engine: bool, dirX: real, dirY: real, draw: real)
      modifies this
      ensures Fields() == Thrusted(old(Fields()), engine, dirX, dirY, draw)
    {
      if engine {
        accX := Thrust * dirX;
        accY := Thrust * dirY;
        exhaustVisible := draw > 0.1;
      } else {
        accX := 0.0;
        accY := 0.0;
        exhaustVisible := false;
      }
    }

    /** The fire cooldown counts down by `delta` only while it is positive. */
    method CoolDown(delta: real)
      modifies this
      ensures old(bulletCounter) > 0.0 ==> bulletCounter == old(bulletCounter) - delta
      ensures Fields() == old(Fields()).(bulletCounter := Cooled(old(bulletCounter), delta))
    {
      if bulletCounter > 0.0 {
        bulletCounter := bulletCounter - delta;
      }
    }

    /** Steering, thrust and the fire cooldown, as `Armed` says. */
    method Arm(c: Controls, dirX: real, dirY: real, draw: real, delta: real)
      modifies this
      ensures Fields() == Armed(old(Fields()), c, dirX, dirY, draw, delta)
    {
      ghost var f := Fields();
      Steer(c.left, c.right);
      ApplyThrust(c.up, dirX, dirY, draw);
      assert Fields() == Thrusted(f.(velRot := Steering(c.left, c.right)), c.up, dirX, dirY, draw);
      CoolDown(delta);
      if c.space && bulletCounter <= 0.0 {
        bulletCounter := BulletDelay;
      }
    }

    /** The speed limit, as `SpeedLimited` says. */
    method LimitSpeed()
      modifies this
      ensures Fields() == SpeedLimited(old(Fields()))
    {
      if velX * velX + velY * velY > ShipMaxSpeed * ShipMaxSpeed {
        velX := velX * 0.95;
        velY := velY * 0.95;
      }
    }

    /**
     * The key-frame bookkeeping at the end of a ship's pre-move: `changed` tells whether the
     * change-triggered publish happens, `periodic` whether the frame-count one does.  The last
     * published turn rate and key are overwritten on every tick.
     */
    method KeyFrameTick(up: bool, period: int) returns (changed: bool, periodic: bool)
      requires period > 0
      modifies this
      ensures changed == KeyChanged(old(velRot), up, old(prevRot), old(prevUp))
      ensures periodic == ((old(keyFrame) + 1) % period == 0)
      ensures Fields() == old(Fields()).(prevRot := old(velRot), prevUp := up, keyFrame := old(keyFrame) + 1)
    {
      changed := velRot != prevRot || up != prevUp;
      prevRot, prevUp := velRot, up;
      keyFrame := keyFrame + 1;
      periodic := keyFrame % period == 0;
    }

    /**
     * The player's ship's pre-move on its own fields, with held keys c: the update `ShipPreMoved`
     * describes, and whether a key frame is published, on a change of turn rate or thrust key or
     * on every period-th tick.
     */
    method ShipPreMove(c: Controls, dirX: real, dirY: real, draw: real, delta: real, period: int) returns (publish: bool)
      requires period > 0
      modifies this
      ensures Fields() == ShipPreMoved(old(Fields()), c, dirX, dirY, draw, delta)
      ensures publish == (KeyChanged(Steering(c.left, c.right), c.up, old(prevRot), old(prevUp)) ||
                          (old(keyFrame) + 1) % period == 0)
    {
      Arm(c, dirX, dirY, draw, delta);
      LimitSpeed();
      var changed, periodic := KeyFrameTick(c.up, period);
      publish := changed || periodic;
    }

    /**
     * A bullet's pre-move: `time` grows while the bullet is visible; past the lifetime the bullet
     * is hidden and `time` returns to 0.  The bullet stays linked in its cell.
     */
    method LifetimeTick(delta: real)
      modifies this
      ensures Fields() == LifetimeTicked(old(Fields()), delta)
    {
      if visible {
        time := time + delta;
      }
      if time > BulletLifetime {
        visible := false;
        time := 0.0;
      }
    }

    /** A fired bullet: placed at (px, py) with velocity (vx, vy), and shown. */
    method Launch(px: real, py: real, vx: real, vy: real)
      modifies this
      ensures Fields() == old(Fields()).(x := px, y := py, velX := vx, velY := vy, visible := true)
    {
      x, y := px, py;
      velX, velY := vx, vy;
      visible := true;
    }

    /**
     * An explosion's pre-move: `scale` grows by `delta` while visible; `dies` tells whether it
     * has passed `maxScale` and now calls `die`.
     */
    method Grow(delta: real, maxScale: real) returns (dies: bool)
      modifies this
      ensures Fields() == old(Fields()).(scale := if old(visible) then old(scale) + delta else old(scale))
      ensures dies == (scale > maxScale)
    {
      if visible {
        scale := scale + delta;
      }
      dies := scale > maxScale;
    }
  }

  /** Whether each sprite of a pool is visible. */
  ghost function Visibility(pool: seq<Sprite>): (r: seq<bool>)
    reads set b | b in pool
    ensures |r| == |pool| && forall k :: 0 <= k < |pool| ==> r[k] == pool[k].visible
  {
    if pool == [] then [] else [pool[0].visible] + Visibility(pool[1..])
  }

  /**
   * The firing loop: the first hidden bullet of the pool, if any, is placed at the ship's nose
   * (4 units along the heading), given the ship's velocity plus 6 along the heading, and shown.
   * Other bullets are untouched.
   */
  method FireFirstHidden(pool: seq<Sprite>, shipX: real, shipY: real, shipVelX: real, shipVelY: real,
                         dirX: real, dirY: real) returns (fired: Option<nat>)
    requires forall a, b :: 0 <= a < b < |pool| ==> pool[a] != pool[b]
    modifies set b | b in pool
    ensures fired == FirstHidden(old(Visibility(pool)))
    ensures fired.Some? ==> (fired.value < |pool| &&
      pool[fired.value].Fields() == old(pool[fired.value].Fields()).(
        x := shipX + dirX * NoseOffset, y := shipY + dirY * NoseOffset,
        velX := BulletSpeed * dirX + shipVelX, velY := BulletSpeed * dirY + shipVelY, visible := true))
    ensures forall k :: 0 <= k < |pool| && Some(k) != fired ==> pool[k].Fields() == old(pool[k].Fields())
  {
    ghost var vis := Visibility(pool);
    var i := 0;
    while i < |pool|
      invariant 0 <= i <= |pool|
      invariant forall k :: 0 <= k < i ==> vis[k]
      invariant forall k :: 0 <= k < |pool| ==> pool[k].Fields() == old(pool[k].Fields())
    {
      if !pool[i].visible {
        pool[i].Launch(shipX + dirX * NoseOffset, shipY + dirY * NoseOffset,
                       BulletSpeed * dirX + shipVelX, BulletSpeed * dirY + shipVelY);
        FirstHiddenAt(vis, i);
        return Some(i);
      }
      i := i + 1;
    }
    FirstHiddenNone(vis);
    return None;
  }

  /** The first hidden entry is the one every earlier entry is visible before. */
  lemma FirstHiddenAt(visible: seq<bool>, i: nat)
    requires i < |visible| && !visible[i] && forall k :: 0 <= k < i ==> visible[k]
    ensures FirstHidden(visible) == Some(i)
  {
  }

  /** No hidden entry, no bullet. */
  lemma FirstHiddenNone(visible: seq<bool>)
    requires forall k :: 0 <= k < |visible| ==> visible[k]
    ensures FirstHidden(visible) == None
  {
  }
}
