# mmo-asteroids: a verified model of the simulation core

This project models the single-threaded simulation of mmo-asteroids, a multiplayer Asteroids
clone for the browser. The simulation appears three times in the repository:

- `app/game.js`, the current client;
- `game.js`, the older client;
- `bot/bot.js`, the headless "derpy" bot.

The three copies share one engine and differ in a few constants and handlers. The model
therefore has one engine and a `Variant` (`App`, `Legacy`, `Bot`) that selects:

- the starting lives: 4, 7, or none for the bot;
- the explosion's maximum scale: 15, 8, 8;
- the key-frame period: 60, 60, 30;
- whether a player bullet hitting an enemy ship scores 100, and whether ramming an enemy ship costs a life and pays the random bonus: the clients only;
- the bot's FSM, which has no lives and no `end_game`;
- the bot's random decision table.

What is modelled, module by module:

- `Geometry`: sprite outlines as sequences of points. The two point-in-polygon tests are the even-odd crossing test of `game.js`'s `pointInPolygon` (crossings left of the point, half-open on the lower vertex) and the bot's inline one (crossings right of the point, strict on `y`). There are proofs that both tests ignore a common translation and that a point beyond every vertex on the counting side is outside.
- `Sprites`: the per-kind constants (`collidesWith`, bridging, model outlines) and the `Sprite` class with its mutable fields. It holds one method per step of `move`: the Euler step with the single rotation fix-up, the hard wrap, steering, thrust, the fire cooldown, the speed limit, key frames, the bullet lifetime, explosion growth, and the ship's firing loop over its bullet pool. Each method is specified by a pure function on the fields, and the gameplay properties are proved about those functions.
- `SpatialGrid`: the collision grid as a `Grid` class. The `GridNode` links live in a `array2`, and the intrusive `nextSprite` lists use a head table and a per-sprite `next` sequence, with a ghost map of each cell's contents. It covers `updateGrid`, `enter`, `leave`, `die`'s unlink, `isEmpty`, `findCollisionCanidates`, `isClear` and the four construction loops, each proved against the ghost contents.
- `GameFsm`: `Game.FSM`'s transition on state and timer, and its timing properties (respawn after a second, restart after five).
- `Engine`: the `Game` object. It holds the sprites, score, lives, FSM state and timer, key state, the bot's `nextMove`, and a `halted` flag for an uncaught exception. It models one `mainLoop` pass (`Frame`) in full, and one sprite's `run` (`Run`). That covers `move`, re-filing in the grid, the collision walk over the 3x3 neighbourhood, the collision handlers of every kind, and the three checks at the wrap-around duplicate positions. It also models the FSM's side effects.
- `Findings`: the stale-outline defect of the duplicate passes (see "## Findings").

The source end of each piece:

- Randomness, `Date.now()`, trigonometry and the frame's `delta` become an `Input` record. That record holds:
  - the clock;
  - `delta`;
  - the heading of a rotation as a unit vector;
  - the rotation-and-scale part of `Matrix.configure`;
  - the exhaust flicker draw, one per frame;
  - the bot's decision;
  - the floored collision bonus, one per frame;
  - the two spawn fractions.
- Remote sprites arrive through `Engine.Game.Push`.
- An uncaught exception halts the game. The cases are:
  - the `TypeError` of `this.currentNode.leave` on a null node, in the enemy ship's and the bullets' collision handlers. It happens when the hit sprite has no cell, for example because an earlier hit in the same pass already took it out of its cell.
  - the `ReferenceError` of reading the bot's undeclared global `nextMove` (bot/bot.js:493) before any decision has assigned it. The `this.nextMove` property set at bot/bot.js:407 is a different variable. Because `aiTimer` starts at 0 (bot/bot.js:380), the first tick decides whenever `Date.now()` is above 1200. So this halt needs a first tick with the clock at most 1200, which a real clock never gives.
  - the `TypeError` of `isClear`'s fallback reading `grid[-1]`. It needs a negative spawn coordinate. The source spawns at `Math.floor(canvas side * Math.random())`, which is never negative (app/game.js:1126-1127), so this halt cannot happen in the source. The model keeps `spawnX` and `spawnY` unconstrained and keeps the halt.

## Model

| member | source | states |
|---|---|---|
| Geometry.Translate | app/game.js:526-539 | the placed outline has the model outline's length and each point moved by the sprite's position |
| Geometry.Next | game.js:420-436 | the index of the edge's other end: the next vertex, wrapping from the last to the first |
| Geometry.PointInPolygon | game.js:420-436 | the loop's `oddNodes` is the parity of the edges crossing the point's row strictly left of it |
| Geometry.Prev | bot/bot.js:297-297 | the bot's `j`: the previous vertex, with the last one before the first |
| Geometry.BotPointInside | bot/bot.js:295-306 | the loop's `inside` is the parity of the edges crossing the point's row strictly right of it |
| Geometry.GameCrossXTranslate | game.js:428-428 | where an edge meets a row moves with the edge when both are shifted |
| Geometry.BotCrossXTranslate | bot/bot.js:302-302 | the same for the bot's crossing abscissa |
| Geometry.GameParityShifted | game.js:420-436 | shifting every vertex and the point by one offset leaves every prefix parity of the crossing count unchanged |
| Geometry.GameCrossesMoved | game.js:426-430 | one edge counts as crossed at a shifted position exactly when it did before |
| Geometry.GameInsideMoved | game.js:420-436 | a polygon placed further along contains a point exactly when the polygon at home contains that point moved back |
| Geometry.BotParityShifted | bot/bot.js:296-306 | the bot's prefix parities are unchanged by a common shift |
| Geometry.BotCrossesMoved | bot/bot.js:301-303 | one edge counts for the bot at a shifted position exactly when it did before |
| Geometry.BotInsideMoved | bot/bot.js:295-306 | the same for the bot's test: a shifted outline tests the point as the home outline tests it moved back |
| Geometry.GameOutsideRows | game.js:426-427 | a polygon wholly above or below the point's row (as the half-open test sees it) never contains the point |
| Geometry.BotOutsideRows | bot/bot.js:301-302 | a polygon wholly on one side of the bot's strict row test never contains the point |
| Geometry.CrossingBetween | game.js:428-428 | where a straddling edge meets the row lies between the edge's two abscissae |
| Geometry.GameOutsideLeft | game.js:426-430 | a point at or left of every vertex is outside for `pointInPolygon` |
| Geometry.BotCrossingBetween | bot/bot.js:301-302 | the bot's crossing abscissa lies between the straddling edge's abscissae |
| Geometry.BotOutsideRight | bot/bot.js:301-303 | a point at or right of every vertex is outside for the bot |
| Sprites.CollidesWith | app/game.js:597-597 | only ships test outlines; no kind tests itself or an explosion |
| Sprites.RotationStaysInRange | app/game.js:403-408 | a rotation in [0, 360] moved by at most a full turn stays in [0, 360] after the fix-up |
| Sprites.RotationKeeps360 | app/game.js:403-408 | the fix-up keeps exactly 360, and a 355 turned by 5 ends at 360 |
| Sprites.WrapAxis | app/game.js:560-571 | a coordinate past the far edge goes to 0, before 0 goes to the far edge, otherwise stays, and always ends on the canvas |
| Sprites.Steering | app/game.js:601-607 | the turn rate is negative iff left is held, positive iff only right is, and always 0 or plus or minus 5 |
| Sprites.KeyFramePeriod | bot/bot.js:567-568 | the periodic key frame comes every 30 ticks in the bot and every 60 in the clients, always a positive period |
| Sprites.FirstHidden | app/game.js:628-629 | the first hidden bullet of the pool: present iff some bullet is hidden, it is hidden, and every earlier one is visible |
| Sprites.DerpyMove | bot/bot.js:435-489 | each of the five outcomes of the draw presses some key |
| Sprites.DerpyTwoOnlyShoots | bot/bot.js:456-472 | decision 2 falls through to case 3 and only shoots |
| Sprites.DerpyHasFourMoves | bot/bot.js:435-489 | the five outcomes give exactly four distinct key sets |
| Sprites.Cooled | app/game.js:620-622 | a counter at or below 0 is left alone |
| Sprites.ShipPreMoved | app/game.js:600-686 | the ship's turn rate comes from the keys; the fire counter resets to 10 when it fires and otherwise cools; the last key frame records this tick's turn and thrust key; and the frame count grows by one. Thrust and speed are the only other changes. |
| Sprites.Armed | app/game.js:601-627 | the first half of the pre-move changes only the turn rate, acceleration, exhaust and fire counter |
| Sprites.FireDelayHolds | app/game.js:620-627 | after the ship fires, it can fire on the next tick only if that tick is at least the fire delay long |
| Sprites.SteadyKeysPublishNothing | app/game.js:658-672 | holding the same keys on the next tick triggers no change-driven key frame |
| Sprites.Defaults | app/game.js:297-334 | a fresh sprite is at the origin at rest, unlinked and uncached, at scale 1.5 for ships and 1 otherwise |
| Sprites.Thrusted | app/game.js:609-618 | engine on: acceleration 0.5 along the heading, exhaust shown iff the draw exceeds 0.1; engine off: no acceleration and no exhaust; nothing else changes |
| Sprites.SpeedLimited | app/game.js:651-655 | above speed 8 both velocity components shrink by 5%; at or below it nothing changes |
| Sprites.Integrated | app/game.js:397-408 | velocity from acceleration, position from the new velocity, rotation from the turn rate with the single fix-up, nothing else |
| Sprites.Wrapped | app/game.js:560-571 | after the wrap the position is on the canvas, a position already on it is kept, and nothing else changes |
| Sprites.WrappedIdempotent | app/game.js:560-571 | wrapping twice is wrapping once |
| Sprites.LifetimeTicked | app/game.js:845-854 | a visible bullet ages by delta and, once past 50, is hidden with its age reset; nothing else changes, and a hidden bullet stays hidden |
| Sprites.BulletLivesItsLifetime | app/game.js:845-854 | a bullet fired at age 0 is still visible after n equal ticks while n times delta is at most 50 |
| Sprites.BulletDiesAfterItsLifetime | app/game.js:845-854 | it is hidden, its age back at 0, on the first tick that takes it past 50 |
| Sprites.Launched | app/game.js:629-638 | a fired bullet is shown at the ship's nose, 4 along the heading, with the ship's velocity plus 6 along the heading |
| Sprites.SpeedLimitNeverSpeedsUp | app/game.js:651-655 | the speed limit never increases the speed |
| Sprites.ShipPreMoveNeverSpeedsUp | app/game.js:600-686 | neither does the ship's whole pre-move |
| Sprites.SpeedLimitScales | app/game.js:651-655 | above the limit one application multiplies the squared speed by 0.9025 |
| Sprites.Sprite.constructor | app/game.js:297-334 | a new sprite of the kind has the prototype defaults |
| Sprites.Sprite.Integrate | app/game.js:397-408 | the fields after the Euler step are as `Integrated` says |
| Sprites.Sprite.Respawn | app/game.js:1125-1135 | the ship moves to the drawn spot and, iff the spot is clear, is stopped, upright and shown |
| Sprites.Sprite.WrapPostMove | app/game.js:560-571 | the fields after the wrap are as `Wrapped` says |
| Sprites.Sprite.TransformedPoints | app/game.js:526-539 | a bullet answers its position; another sprite answers its cache if set, otherwise its current outline, and caches the answer |
| Sprites.Sprite.Steer | app/game.js:601-607 | only the turn rate changes, to `Steering` of the keys |
| Sprites.Sprite.ApplyThrust | app/game.js:609-618 | the fields after thrust are as `Thrusted` says |
| Sprites.Sprite.CoolDown | app/game.js:620-622 | the fire counter drops by delta iff it is positive; nothing else changes |
| Sprites.Sprite.Arm | app/game.js:601-627 | steering, thrust and the cooldown or reset of the fire counter, as `Armed` says |
| Sprites.Sprite.LimitSpeed | app/game.js:651-655 | the fields after the limit are as `SpeedLimited` says |
| Sprites.Sprite.KeyFrameTick | app/game.js:658-686 | reports whether the turn rate or thrust key changed and whether the new frame count is a multiple of the period; records this tick's values |
| Sprites.Sprite.ShipPreMove | app/game.js:600-686 | the ship's fields after its pre-move are as `ShipPreMoved` says, and it publishes iff a key changed or the period came round |
| Sprites.Sprite.LifetimeTick | app/game.js:845-854 | the bullet's fields after its pre-move are as `LifetimeTicked` says |
| Sprites.Sprite.Launch | app/game.js:635-639 | a bullet is placed, given its velocity and shown; nothing else changes |
| Sprites.Sprite.Grow | app/game.js:945-953 | a visible explosion grows by delta, and it dies iff its scale now exceeds the maximum |
| Sprites.FireFirstHidden | app/game.js:628-648 | exactly the first hidden bullet of the pool, if any, is launched from the nose; every other bullet is untouched |
| SpatialGrid.Round | app/game.js:1187-1188 | `Math.round`: the nearest integer, halves rounded up |
| SpatialGrid.AxisIndex | app/game.js:416-421 | the cell index along one axis: the floor when on the grid, 0 past the far edge, the last index before 0 |
| SpatialGrid.CellAt | app/game.js:414-423 | the cell a sprite is filed under always exists |
| SpatialGrid.AxisIndexCovers | app/game.js:416-417 | a coordinate inside the grid lies inside the cell it is filed under |
| SpatialGrid.FallbackAxisIndex | app/game.js:543-547 | `isClear`'s fallback index is only defined for a non-negative floor; it is the floor on the grid and 0 past it |
| SpatialGrid.FallbackCell | app/game.js:543-547 | the fallback cell exists iff both floors are non-negative, and then is on the grid |
| SpatialGrid.Fronts | app/game.js:475-489 | the candidates are exactly the first members of the non-empty lists |
| SpatialGrid.NorthOf | app/game.js:1201-1202 | the north link stays in the column, wraps from row 0 to the last, and south of it is back |
| SpatialGrid.SouthOf | app/game.js:1202-1202 | the south link stays in the column and on the grid |
| SpatialGrid.WestOf | app/game.js:1203-1204 | the west link stays in the row, wraps from column 0 to the last, and east of it is back |
| SpatialGrid.EastOf | app/game.js:1204-1204 | the east link stays in the row and on the grid |
| SpatialGrid.Neighbourhood | app/game.js:475-489 | nine cells, all on the grid |
| SpatialGrid.NeighbourhoodIsTorusNeighbours | app/game.js:475-489 | a cell is among the nine iff it is at most one step away along each axis, around the torus |
| SpatialGrid.RingNearSteps | app/game.js:1201-1204 | one step around a ring is the same, the next (wrapping) or the previous index |
| SpatialGrid.LinkCells | app/game.js:1198-1207 | every cell gets its four wrap-around neighbours and no offsets |
| SpatialGrid.VerticalDupes | app/game.js:1209-1212 | row 0 gets +canvasHeight, the last row -canvasHeight, every other link is kept |
| SpatialGrid.HorizontalDupes | app/game.js:1214-1217 | column 0 gets +canvasWidth, the last column -canvasWidth, the vertical offsets are kept |
| SpatialGrid.Remove | app/game.js:977-987 | unlinking drops one entry iff the sprite is in the list and adds nothing |
| SpatialGrid.RemoveAt | app/game.js:977-987 | removing the first occurrence keeps the entries before and after it in order |
| SpatialGrid.LinkedStep | app/game.js:492-496 | walking `nextSprite` reaches null exactly at the end of the cell's list, and otherwise the next member |
| SpatialGrid.LinkedPush | app/game.js:972-975 | `enter` makes the sprite the head, followed by the old list |
| SpatialGrid.LinkedSplice | app/game.js:977-987 | `leave`'s relink yields the list without that member, still well linked |
| SpatialGrid.Grid.constructor | app/game.js:1187-1217 | the grid is `round(side / 60)` cells along each side, fully linked, and every list is empty |
| SpatialGrid.Grid.Enter | app/game.js:972-975 | the sprite heads the cell's list, the old list follows it, and the grid stays well formed |
| SpatialGrid.Grid.Leave | app/game.js:977-987 | the cell's list loses the sprite if it was there, and that sprite's link is nulled; otherwise nothing changes |
| SpatialGrid.Grid.Splice | app/game.js:983-986 | the predecessor (or the cell) skips the sprite, which leaves the list and is nulled |
| SpatialGrid.Grid.UpdateGrid | app/game.js:414-431 | a visible sprite ends in exactly the list of its position's cell and out of its old one; an invisible one changes nothing |
| SpatialGrid.Grid.Detach | app/game.js:518-525 | the sprite leaves its cell's list, if it has one, and its `currentNode` is cleared |
| SpatialGrid.Grid.AddSprite | app/game.js:1096-1103 | a new sprite joins unlinked under the next handle |
| SpatialGrid.Grid.WalkStep | app/game.js:490-498 | following `nextSprite` gets strictly closer to the end of the walk |
| SpatialGrid.Grid.EmptyFrom | app/game.js:996-1007 | the walk from a member answers true iff no later member is visible and collidable |
| SpatialGrid.Grid.IsEmpty | app/game.js:996-1007 | `isEmpty` is true iff no sprite in the cell is visible and named in the collidables |
| SpatialGrid.Grid.LinkedNeighbourhood | app/game.js:475-489 | following the nodes' links reaches exactly the nine cells of the neighbourhood |
| SpatialGrid.Grid.OccupiedHeads | app/game.js:475-489 | the non-null heads of the cells read from the table are the fronts of their lists |
| SpatialGrid.Grid.Candidates | app/game.js:475-489 | no candidates for an invisible or unfiled sprite, otherwise the heads of the nine lists in visiting order |
| SpatialGrid.Grid.IsClear | app/game.js:540-559 | true with nothing to collide with; undefined iff there is no current cell and the fallback index is negative; otherwise true iff none of the nine cells holds a blocker |
| SpatialGrid.Grid.CellsEmpty | app/game.js:549-558 | the chained `isEmpty` calls succeed iff none of the cells holds a blocker |
| SpatialGrid.Grid.NeighbourhoodEmpty | app/game.js:549-558 | the nine `isEmpty` calls all succeed iff no cell of the neighbourhood holds a blocker |
| GameFsm.StartingLives | app/game.js:1121-1121 | `start` gives 4 lives in app/game.js and 7 in game.js |
| GameFsm.Wait | app/game.js:1141-1149 | a waiting state starts its timer on first use and moves on, clearing it, once more than the delay has passed |
| GameFsm.Execute | app/game.js:1105-1171 | the transition of every state, including the clients' immediate end_game below zero lives and the bot staying put without end_game |
| GameFsm.ExecuteKeepsTimerInvariant | app/game.js:1138-1166 | the timer is only ever set in player_died and end_game |
| GameFsm.ClearOnlyMattersInSpawn | app/game.js:1125-1135 | only spawn_ship's transition depends on whether the spot is clear |
| GameFsm.BotNeverEnds | bot/bot.js:824-868 | the bot never reaches end_game |
| GameFsm.FirstWaitingTickStays | app/game.js:1142-1149 | the first waiting tick only starts the timer |
| GameFsm.RespawnWaits | app/game.js:1138-1151 | with lives left, player_died waits as long as no tick is more than a second after the first |
| GameFsm.RespawnAfterASecond | app/game.js:1138-1151 | the first tick more than a second after the death's first tick respawns, with the timer cleared |
| GameFsm.GameOverRestarts | app/game.js:1138-1166 | below zero lives the clients go to end_game, wait more than five seconds, restart and post the score |
| Engine.FirstInside | app/game.js:506-514 | the first of the other sprite's points inside the outline, or none iff no point is inside |
| Engine.ChecksOnlyShips | app/game.js:500-502 | a check only runs for a ship against an enemy bullet or ship, or for an enemy ship against a player bullet |
| Engine.Game.constructor | app/game.js:1219-1240 | the ship (visible only in the bot) and ten hidden bullets, none filed in the grid, score and lives 0, state boot |
| Engine.Game.Push | app/game.js:1397-1406 | a remote sprite joins visible at its position and unfiled; nothing else changes |
| Engine.Game.ExplosionAt | app/game.js:1096-1103 | a new visible explosion at (x, y) is appended; nothing else changes |
| Engine.Game.Die | app/game.js:518-525 | the sprite is hidden and marked for reaping and leaves its cell |
| Engine.Game.ShipHit | app/game.js:692-708 | the ship's collision: explosion at the other sprite, state player_died, ship hidden and out of its cell, and in the clients one life less and the bonus iff the other is an enemy ship |
| Engine.Game.Withdraw | app/game.js:700-704 | the ship is hidden and out of its cell |
| Engine.Game.LoseLife | app/game.js:705-707 | the clients lose a life and gain the bonus iff an enemy ship was rammed; the bot changes nothing |
| Engine.Game.EnemyShipHit | app/game.js:809-815 | explosion at the other sprite, ship hidden and out of its cell, and a halt iff it had no cell |
| Engine.Game.BulletHit | app/game.js:855-862 | the bullet's age is reset, it is hidden and out of its cell, and a halt iff it had no cell; a client's own bullet hitting an enemy ship scores 100 |
| Engine.Game.Collide | app/game.js:509-510 | a handler's effect on the scalars is `Impact` of its kind, the other's kind and whether it has a cell; a ship or enemy ship leaves one explosion at the other sprite; a handler never moves the sprite and hides any sprite but an explosion; an explosion's handler does nothing; the bot's score and lives never change |
| Engine.FirstHit | app/game.js:492-496 | the position in a walk's chain of the first sprite the tester hits, with no hit before it; the chain's length when there is none |
| Engine.FirstLoud | app/game.js:490-498 | the first candidate whose walk meets a hit, every earlier walk meeting none; the number of candidates when none does |
| Engine.FirstHitIgnoresOwn | app/game.js:500-502 | a sprite never checks itself, so how it looks does not move the first hit of any walk |
| Engine.FirstLoudIgnoresOwn | app/game.js:500-502 | nor the first candidate whose walk meets a hit |
| Engine.WalksIgnoreOwn | app/game.js:352-358 | walks judged with the tester looking shifted are the walks judged on the looks before the shift |
| Engine.WalkDone | app/game.js:492-496 | a walk that stopped at a hit or at the end of its chain checked exactly the chain up to and including its first hit |
| Engine.LoudDone | app/game.js:490-498 | a finished candidate loop met a hit iff some walk did, and its walks are as `FirstLoud` says |
| Engine.PassShift | app/game.js:352-388 | a duplicate pass is taken iff the sprite bridges along the pass's axes, its node has those offsets and there are candidates; a taken pass moves along exactly those axes |
| SpatialGrid.Grid.ChainNext | app/game.js:492-496 | the walk from a sprite checks it first and then exactly the walk from its `nextSprite`, or nothing more when that is null |
| Engine.Game.CheckCollision | app/game.js:499-515 | a hit iff the guard passes and a point of the other lies in the outline at the current position; on a hit the scalars become `BothImpacts` (the other's handler, then the tester's unless the first halted) and the explosions they leave are appended in that order; otherwise only the other's outline cache changes |
| Engine.Game.Probe | app/game.js:503-514 | the point loop answers whether a point of the other lies in the outline, and the other caches its points |
| Engine.Game.Respond | app/game.js:509-510 | `other.collision(this)` then `this.collision(other)`: the scalars become `BothImpacts` of the two kinds and cells, and exactly the explosions of the two handlers are appended, the other's first, the tester's only if the game did not halt; the other ends hidden and the tester hidden, halted or an explosion |
| Engine.Game.Reply | app/game.js:510-510 | the tester's own handler after the other's: the scalars as `Impact` says, and the tester's explosion, if it leaves one, joins those already made |
| Engine.Game.CheckAgainst | app/game.js:490-498 | from the state at entry, the walks before the first that meets a hit check their candidates' whole chains and that one checks its chain up to the hit; with no hit only other sprites' caches change; every candidate is walked unless the game halts; the tester never moves |
| Engine.Game.CheckFrom | app/game.js:491-497 | the `for` loop over the candidates keeps the record of its walks (`Checking`) and walks them all unless the game halts |
| Engine.Game.CheckNext | app/game.js:492-496 | one more candidate's walk, from the state as it then is, extends that record |
| Engine.Game.Walk | app/game.js:492-496 | the `do ... while` walk from `start` checks exactly the chain of `start`'s cell list as it was, up to and including the first sprite the tester hits, which ends hidden; with no hit only other sprites' caches change; it ends, keeps the grid well formed and only unlinks |
| Engine.Game.WalkFrom | app/game.js:492-496 | the loop runs to null or a halt and keeps the walk's bookkeeping (`Walking`) |
| Engine.Game.Visit | app/game.js:493-495 | one turn checks `ref`, adds it to what was checked, and goes on from the rest of the chain unless there was a hit |
| Engine.Game.Step | app/game.js:494-495 | a hit iff the tester hits `ref` as the sprites looked before; a hit hides `ref` and ends the walk or halts; with no hit only other caches change; then the follower as it is afterwards, with fewer linked sprites or strictly less of the walk left |
| Engine.Game.CellLinks | app/game.js:1209-1217 | a filed sprite's node carries the border offsets of its column and row |
| Engine.Game.ShiftedPass | app/game.js:352-388 | a duplicate pass is taken as `PassShift` says; a taken pass walks the candidates' chains at the outline shifted by the node's offsets, against the sprites as they were, and with no hit leaves everything as it was but other caches; the sprite is shifted back iff it keeps its cell; no pass means no change |
| Engine.Game.ShiftedCheck | app/game.js:353-361 | the taken half: the walks as from the unshifted state with the shifted outline, the sprite back in place iff it keeps its cell and the game goes on |
| Engine.Game.ShiftedWalks | app/game.js:353-357 | after the shift the walks are those of the unshifted state at the shifted outline; they meet no hit iff `FirstLoud` says so, and then only the sprite's own look changed |
| Engine.Game.ShiftBack | app/game.js:359-361 | the sprite moves back by the offsets; after a pass with no hit the whole scene is as before the shift |
| Engine.Game.Frame | app/game.js:1270-1308 | the FSM's handler, then `run` for each sprite present at the start: the game stays well formed, those sprites stay in place with any new ones after them, and a score is posted exactly when end_game returns to start |
| Engine.Game.Run | app/game.js:336-389 | an invisible sprite changes nothing; a sprite that ends visible and filed is filed under the cell of its position |
| Engine.Game.Collisions | app/game.js:339-388 | after re-filing and the checks, a visible filed sprite is in the cell of its position |
| Engine.Game.Refile | app/game.js:339-345 | a visible sprite is filed under its position's cell and gets the heads of the nine lists; an invisible one nothing |
| Engine.Game.Passes | app/game.js:347-388 | the home check and the three duplicate passes in order; when none of them, judged on the state at entry, meets a hit, everything is as it was but other sprites' caches; a still-filed sprite ends where it was |
| Engine.Game.PassNext | app/game.js:347-388 | one pass of that sequence: the passes so far stay quiet iff they were and this one is, and a later pass starts from the state as it then is |
| Engine.Game.Pass | app/game.js:347-388 | one pass alone is quiet iff `PassQuiet` holds on the state at entry, and then nothing but other caches changed |
| Engine.Game.HomePass | app/game.js:347-348 | pass 0 walks the candidates at the sprite's own outline |
| Engine.Game.DupePass | app/game.js:352-388 | passes 1 to 3 walk them at the horizontal, vertical or diagonal duplicate |
| Engine.Game.ExecuteFsm | app/game.js:1105-1169 | the state and timer move as `Execute` says; boot drops the fire key in the clients; start hides every player bullet and resets the clients' score and lives; spawn_ship places the ship; the score is posted as end_game returns to start; a spot whose clearness cannot be read halts |
| Engine.Game.SpawnStep | app/game.js:1125-1135 | spawn_ship's tick: the ship placed, the move to run iff the spot is clear, and a halt iff its clearness cannot be read |
| Engine.Game.StartStep | app/game.js:1111-1124 | start's tick: bullets hidden, the clients' score and lives reset, and the move to spawn_ship |
| Engine.Game.Bookkeeping | app/game.js:1106-1164 | the handlers that touch no sprite: the fire key dropped at boot in the clients, the score posted exactly when end_game returns to start, score and lives kept |
| Engine.Game.EnterStart | app/game.js:1111-1124 | every player bullet hidden, nothing else about the sprites changed, and the clients' score 0 and lives reset |
| Engine.Game.PlaceShip | app/game.js:1125-1135 | the ship is placed at the drawn spot, and is reset and shown iff the spot is clear |
| Engine.Game.Advance | app/game.js:1167-1169 | the state and timer become `Execute`'s answer; nothing else changes |
| Engine.Game.SpotClear | app/game.js:540-559 | the ship's `isClear` at the spot: undefined iff the ship is unfiled and the fallback index is negative, otherwise true iff no neighbouring cell holds an enemy bullet or ship |
| Engine.Game.HideBullets | app/game.js:1112-1118 | every player bullet is hidden and every other sprite is unchanged |
| Engine.Game.Decide | bot/bot.js:431-490 | a decision is made iff more than 1200 ms have passed, and the timer restarts then; an unset move halts |
| Engine.Game.Pilot | bot/bot.js:492-581 | the ship's fields after its pre-move are as `ShipPreMoved` says with the held keys, publishing as the key-frame rule says, and exactly the first hidden bullet is launched when the ship fires |
| Engine.Game.Volley | app/game.js:628-648 | only the first hidden bullet is launched from the nose and the ship is untouched |
| Engine.Game.Prepare | bot/bot.js:204-208 | the outline cache is dropped and the bot decides as `Decide` says; the clients never halt here |
| Engine.Game.Fly | app/game.js:391-413 | the ship's fields become wrap of the Euler step of its pre-move, and the bullets as `Pilot` says |
| Engine.Game.MoveEnemyShip | app/game.js:789-807 | speed limit, then remote thrust, the Euler step and the wrap |
| Engine.Game.MoveBullet | app/game.js:845-854 | the lifetime tick, the Euler step and the wrap |
| Engine.Game.MoveExplosion | app/game.js:945-953 | the explosion grows, and dies and leaves its cell iff it is past the variant's maximum, then integrates without a wrap |
| Engine.Game.Move | app/game.js:391-413 | an invisible sprite changes nothing; a moved sprite's cache is dropped, it stays on the canvas unless it is an explosion, and only the ship's move touches other sprites, halts or publishes |
| Engine.Game.MoveShip | app/game.js:600-686 | the ship stays visible and on the canvas with its cache dropped, and only the bot can halt here |
| Engine.Game.MoveOther | app/game.js:391-413 | a non-ship sprite's move drops its cache, keeps it on the canvas unless it is an explosion, and touches the grid only for a dying explosion |
| Engine.Game.Shift | app/game.js:353-353 | the sprite moves by the duplicate offset, and of all the sprites' looks only its own changes |
| Findings.OwnOutline | bot/bot.js:327-340 | `transformedPoints()` answers the cache when set and otherwise the outline here, and the cache holds the answer afterwards |
| Findings.PassesAsWritten | bot/bot.js:166-201 | as written, the duplicate pass always answers exactly what the home pass did |
| Findings.PassesCorrected | app/game.js:352-363 | corrected, the home pass tests the outline at home |
| Findings.DuplicatePassMirrors | app/game.js:336-389 | a corrected duplicate pass hits iff the point carried back across the border is inside the home outline |
| Findings.StaleOutlineMissesWrappedHit | bot/bot.js:275-315 | a ship poking across the right edge hits a bullet at the left edge when corrected, and misses it as written |
| Findings.BotCounterexample | bot/bot.js:295-306 | the bot's test finds the point inside the wrapped triangle and outside the home one |
| Findings.GameCounterexample | game.js:420-436 | `pointInPolygon` finds the point inside the wrapped triangle and outside the home one |

## Left out

- Rendering, audio and text: `draw`, `configureTransform`'s canvas calls, `Text`, `SFX`, the grid overlay, the extra-life icons and the frame-rate counter. None of them feeds the simulation.
- Input handlers: `KEY_STATUS` is a field that the model only reads. `window.gameStart` is not modelled.
- The Firebase feeds. Remote ships and bullets join through `Engine.Game.Push`, and `child_changed`/`child_removed` are not modelled. `fref.remove()`, `myship.set` and the bullet and score publishes become the `publish` and `posted` results and nothing else.
- Engine.Game.Push: an added sprite takes only its position from the snapshot. The remote velocity, acceleration, rotation and thrust flag are left at the defaults.
- The remote sprites are keyed by Firebase key in the source (`Game.sprites[key]`). Here they are appended under the next index. So `mainLoop`'s `for ... in` over `Game.sprites` (app/game.js:1289-1300) runs the string-keyed remote sprites after all integer-indexed ones, while the model runs sprites in arrival order.
- Trigonometry, `Math.random()`, `Date.now()` and the frame's `delta` are inputs. Arithmetic uses exact reals, not IEEE doubles.
- The reap sweep of `mainLoop` is not modelled. This covers the `splice` of reaped sprites and its index bookkeeping, which can skip the sprite after a reaped one. A reaped sprite stays in `sprites`, hidden, and running it changes nothing. Explosions added during a pass first run on the next pass.
- The canvas's `isPointInPath`: the model uses `pointInPolygon`'s crossing test for both clients, on the outline at the current position.
- The hunter bot (`botType == "hunter"`) is not modelled. The asteroid branch of `start` and game.js's `new_level` state are not modelled either: nothing in the core creates an asteroid or enters that state.
- `acc.rot` is always 0 and is not modelled. The exhaust child is a flag.
- The score display (`setScore`/`deltaScore` redraws) is not modelled. Only the score's value is.
- The duplicate passes' shift-and-shift-back with no candidates, and of an invisible sprite, is modelled as no change. That is exact on reals. On doubles it can leave a rounding error.
- Engine.Game.MoveShip: states only that the ship stays visible and on the canvas and that only the bot can halt. The exact new fields are stated by `Engine.Game.Fly` and `Engine.Game.Prepare`, which it calls.
- Engine.Game.Collide: states what every handler keeps, not each handler's full effect. Those are stated by `Engine.Game.ShipHit`, `Engine.Game.EnemyShipHit` and `Engine.Game.BulletHit`.
- Engine.Game.Frame: states the frame's invariants and the posted score. It does not restate what each `run` does; that is stated by the methods below it.
- Engine.Game.Run: states what an invisible sprite keeps and where a filed sprite ends. It does not lift the collision statement of `Engine.Game.Passes` through `move` and re-filing.
- Engine.Game.Collisions: states where a filed sprite ends. It does not restate `Engine.Game.Passes`'s collision statement in terms of its own entry state, from before re-filing.
- Engine.Game.Passes: after a pass that meets a hit, it states the frame facts and the position only. What the later passes then check, from the changed state, is stated per pass by `Engine.Game.PassNext` and `Engine.Game.Pass`, not for the whole sequence.
- Engine.Game.Walk and Engine.Game.Step: the effects of a hit on the scalars and the new explosions are stated by `Engine.Game.CheckCollision`. They are not lifted to the walk.
- Engine.Game.CheckCollision: in the bot it tests the outline at the sprite's current position. That is the corrected duplicate pass, not bot/bot.js:282's outline read from the `transformedPoints()` cache. The as-written behaviour is `Findings.PassesAsWritten`; see "## Findings".
- Engine.Game.CheckCollision: every ram of one frame scores the same bonus, `Input.bonus`. The source draws `Math.floor(100 * Math.random())` afresh for each ship collision (app/game.js:706-707). A hidden ship keeps testing its other candidates and passes (app/game.js:489-502), so it can ram two enemy ships in one frame. The source then scores b1 + b2; the model can only score 2 * b, so totals with b1 != b2 are not reached. The same holds for `Engine.Game.Respond`, `Engine.Game.Reply`, `Engine.Game.Collide`, `Engine.Game.ShipHit` and `Engine.Game.LoseLife`, which take that one draw as a parameter.
- Engine.Game.MoveEnemyShip and Engine.Game.Pilot: the exhaust flicker is one draw, `Input.flicker`, shared by the local ship and every enemy ship in a frame. The source draws `Math.random() > 0.1` separately for each (app/game.js:800). The draw only sets the exhaust's visibility, which affects drawing alone.
- Engine.Game.Probe: likewise builds the tester's polygon at its current position, not from the cache bot/bot.js:282 reads. See "## Findings".

Where the repository's written description and its code differ, the model follows the code:

- The rotation fix-up only fires above 360, so a rotation of exactly 360 survives. The range kept is [0, 360], not [0, 360).
- player_died moves to end_game at once when lives are below zero, not at zero and not after the one-second wait.
- The bot's periodic key frame comes every 30 ticks, not 60.

## Findings

| source | as written | input that shows it | evidently intended | confidence | as-written member | corrected member |
|---|---|---|---|---|---|---|
| bot/bot.js:275-315 | a duplicate pass builds the tester's polygon from `this.transformedPoints()`, which the home pass has already cached at the home position, so it re-tests the home outline (game.js:420-436 does the same when it uses `pointInPolygon`) | bot, ship at (999, 350), rotation 0, scale 1.5, on a 1000-wide canvas, enemy bullet at (1, 350) | each pass tests the outline drawn at the duplicate position, as app/game.js:352-363 does through the canvas path | not executed | Findings.StaleOutlineMissesWrappedHit | Findings.DuplicatePassMirrors |
