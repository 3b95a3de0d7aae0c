/**
 * `Game.FSM`: the game's progression through boot, start, spawn_ship, run, player_died and
 * end_game, with the one `timer` field the two waiting states share.  This module holds the
 * transition on (state, timer); the side effects of the states (hiding bullets, resetting score
 * and lives, placing the ship) are in the Engine module, which uses this function as its
 * specification.
 */
module GameFsm {
  import opened Wrappers
  import opened Kinds

  datatype State = Boot | Start | SpawnShip | Run | PlayerDied | EndGame

  /** The FSM's `state` and its shared `timer` (null until a waiting state first runs). */
  datatype Machine = Machine(state: State, timer: Option<int>)

  /** The two clients count lives; the bot has neither lives nor an end_game state. */
  predicate HasLives(v: Variant)
  {
    v != Bot
  }

  /** `start`'s lives: `STARTING_LIVES` (4) in app/game.js, 7 in game.js. */
  function StartingLives(v: Variant): (r: int)
    requires HasLives(v)
    ensures r > 0
  {
    if v == App then 4 else 7
  }

  /** Player_died waits this long before respawning, end_game this long before restarting. */
  const RespawnDelay: int := 1000
  const RestartDelay: int := 5000

  /**
   * A waiting state at time `now`: the timer starts now if it is null; once more than `delay`
   * has passed since it started, the timer is cleared and the machine moves to `target`.
   */
  function Wait(m: Machine, now: int, delay: int, target: State): (r: Machine)
    ensures var t := if m.timer.None? then now else m.timer.value;
      if now - t > delay then r == Machine(target, None) else r == Machine(m.state, Some(t))
  {
    var t := if m.timer.None? then now else m.timer.value;
    if now - t > delay then Machine(target, None) else Machine(m.state, Some(t))
  }

  /** Player_died goes straight to end_game when the player has run out of lives. */
  predicate OutOfLives(v: Variant, lives: int)
  {
    HasLives(v) && lives < 0
  }

  /**
   * `FSM.execute()` on state and timer, at time `now`, with `lives` the current `Game.lives` and
   * `clear` what `Game.ship.isClear()` answers in spawn_ship.  The bot never reaches end_game
   * (it has no such handler), so its machine is left as it is there.
   */
  function Execute(v: Variant, m: Machine, lives: int, now: int, clear: bool): (r: Machine)
    ensures m.state == Boot ==> r == Machine(Start, m.timer)
    ensures m.state == Start ==> r == Machine(SpawnShip, m.timer)
    ensures m.state == SpawnShip ==> (r.state == Run <==> clear) && (!clear ==> r == m) && r.timer == m.timer
    ensures m.state == Run ==> r == m
    ensures m.state == PlayerDied && OutOfLives(v, lives) ==> r == Machine(EndGame, m.timer)
    ensures m.state == PlayerDied && !OutOfLives(v, lives) ==>
      var t := if m.timer.None? then now else m.timer.value;
      (r.state == SpawnShip <==> now - t > RespawnDelay) &&
      (r.state == SpawnShip ==> r.timer == None) &&
      (r.state != SpawnShip ==> r == Machine(PlayerDied, Some(t)))
    ensures m.state == EndGame && HasLives(v) ==>
      var t := if m.timer.None? then now else m.timer.value;
      (r.state == Start <==> now - t > RestartDelay) &&
      (r.state == Start ==> r.timer == None) &&
      (r.state != Start ==> r == Machine(EndGame, Some(t)))
  {
    match m.state
    case Boot => Machine(Start, m.timer)
    case Start => Machine(SpawnShip, m.timer)
    case SpawnShip => if clear then Machine(Run, m.timer) else m
    case Run => m
    case PlayerDied =>
      if OutOfLives(v, lives) then Machine(EndGame, m.timer) else Wait(m, now, RespawnDelay, SpawnShip)
    case EndGame =>
      if HasLives(v) then Wait(m, now, RestartDelay, Start) else m
  }

  /** Whether end_game posts the score on this tick: exactly when it moves back to start. */
  predicate PostsScore(v: Variant, m: Machine, lives: int, now: int)
  {
    m.state == EndGame && Execute(v, m, lives, now, false).state == Start
  }

  /** The timer is only ever set while the machine is waiting in player_died or end_game. */
  ghost predicate TimerOnlyWhileWaiting(m: Machine)
  {
    m.timer.Some? ==> m.state == PlayerDied || m.state == EndGame
  }

  /** Every transition keeps the timer to the waiting states. */
  lemma ExecuteKeepsTimerInvariant(v: Variant, m: Machine, lives: int, now: int, clear: bool)
    requires TimerOnlyWhileWaiting(m)
    ensures TimerOnlyWhileWaiting(Execute(v, m, lives, now, clear))
  {
  }

  /** Only spawn_ship looks at whether the spot is clear. */
  lemma ClearOnlyMattersInSpawn(v: Variant, m: Machine, lives: int, now: int)
    requires m.state != SpawnShip
    ensures forall clear :: Execute(v, m, lives, now, clear) == Execute(v, m, lives, now, false)
  {
  }

  /** The bot never enters end_game. */
  lemma BotNeverEnds(m: Machine, lives: int, now: int, clear: bool)
    requires m.state != EndGame
    ensures Execute(Bot, m, lives, now, clear).state != EndGame
  {
  }

  /** The first tick of a wait never completes it: the timer starts at `now` and nothing else moves. */
  lemma FirstWaitingTickStays(v: Variant, m: Machine, lives: int, now: int, clear: bool)
    requires m.timer.None? && (m.state == PlayerDied || m.state == EndGame)
    requires m.state == PlayerDied ==> !OutOfLives(v, lives)
    requires m.state == EndGame ==> HasLives(v)
    ensures Execute(v, m, lives, now, clear) == Machine(m.state, Some(now))
  {
  }

  /** The machine after one `execute` per tick, at the given times. */
  function Ticks(v: Variant, m: Machine, lives: int, times: seq<int>): (r: Machine)
    decreases |times|
  {
    if times == [] then m else Ticks(v, Execute(v, m, lives, times[0], false), lives, times[1..])
  }

  /**
   * A player who died with lives left waits at player_died as long as no tick comes more than a
   * second after the first one; the timer keeps the time of that first tick.
   */
  lemma {:induction false} RespawnWaits(v: Variant, t0: int, lives: int, times: seq<int>)
    requires !OutOfLives(v, lives)
    requires forall k :: 0 <= k < |times| ==> times[k] - t0 <= RespawnDelay
    ensures Ticks(v, Machine(PlayerDied, Some(t0)), lives, times) == Machine(PlayerDied, Some(t0))
  {
    if times != [] {
      RespawnWaits(v, t0, lives, times[1..]);
    }
  }

  /**
   * From a fresh death with lives left, the first tick more than a second after the first
   * waiting tick respawns the ship, and the timer is null again.
   */
  lemma RespawnAfterASecond(v: Variant, lives: int, times: seq<int>, later: int)
    requires !OutOfLives(v, lives) && times != []
    requires forall k :: 0 <= k < |times| ==> times[k] - times[0] <= RespawnDelay
    requires later - times[0] > RespawnDelay
    ensures Ticks(v, Machine(PlayerDied, None), lives, times + [later]) == Machine(SpawnShip, None)
  {
    var t0 := times[0];
    var m1 := Execute(v, Machine(PlayerDied, None), lives, t0, false);
    assert m1 == Machine(PlayerDied, Some(t0));
    assert (times + [later])[1..] == times[1..] + [later];
    TicksSplit(v, m1, lives, times[1..], [later]);
    RespawnWaits(v, t0, lives, times[1..]);
  }

  /** Ticking through a + b is ticking through a, then through b. */
  lemma {:induction false} TicksSplit(v: Variant, m: Machine, lives: int, a: seq<int>, b: seq<int>)
    ensures Ticks(v, m, lives, a + b) == Ticks(v, Ticks(v, m, lives, a), lives, b)
    decreases |a|
  {
    if a == [] {
      assert a + b == b;
    } else {
      assert (a + b)[1..] == a[1..] + b;
      TicksSplit(v, Execute(v, m, lives, a[0], false), lives, a[1..], b);
    }
  }

  /**
   * The clients' game over: once lives are below zero, player_died goes to end_game, which
   * waits more than five seconds (timed from its first tick) and then restarts.
   */
  lemma GameOverRestarts(v: Variant, lives: int, t1: int, t2: int)
    requires HasLives(v) && lives < 0 && t2 - t1 > RestartDelay
    ensures var m1 := Execute(v, Machine(PlayerDied, None), lives, t1, false);
      m1 == Machine(EndGame, None) &&
      Execute(v, m1, lives, t1, false) == Machine(EndGame, Some(t1)) &&
      Execute(v, Machine(EndGame, Some(t1)), lives, t2, false) == Machine(Start, None) &&
      PostsScore(v, Machine(EndGame, Some(t1)), lives, t2)
  {
  }
}
