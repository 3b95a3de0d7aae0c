/**
 * The duplicate passes of `run` against a stale outline.  A sprite on a border cell is checked a
 * second (third, fourth) time at the position of its wrapped copy, the far side of the canvas.
 * In bot/bot.js, and in game.js when it falls back to `pointInPolygon`, the tester's own polygon
 * comes from `this.transformedPoints()`, which caches on first use and is only cleared by
 * `move`: the home pass fills the cache at the home position, so every duplicate pass tests the
 * home outline again and the wrapped copy never hits anything.  app/game.js asks the canvas
 * about the path drawn at the shifted position, which is what the passes are for; the engine
 * model does that in every variant.
 *
 * Polygons here are already rotated and scaled (`base`); x, y place them, dx, dy is the
 * border cell's duplicate offset, and p is one point of the other sprite.
 */
module Findings {
  import opened Wrappers
  import opened Kinds
  import opened Geometry
  import opened Engine

  /**
   * The tester's `transformedPoints()`: the cached polygon when there is one, otherwise the
   * outline at the current position; either way the answer is what the cache holds afterwards.
   */
  function OwnOutline(cache: Option<seq<Point>>, base: seq<Point>, x: real, y: real): (r: (seq<Point>, Option<seq<Point>>))
    ensures r.1 == Some(r.0) && |r.0| == (if cache.Some? then |cache.value| else |base|)
    ensures cache.Some? ==> r.0 == cache.value
  {
    var pts := if cache.Some? then cache.value else Translate(base, x, y);
    (pts, Some(pts))
  }

  /**
   * As written: the home pass and then one duplicate pass, for a point p of a candidate, with the
   * tester's cache cleared by `move`.  The answer is (home hit, duplicate hit).
   */
  function PassesAsWritten(v: Variant, base: seq<Point>, x: real, y: real, dx: real, dy: real, p: Point): (r: (bool, bool))
    ensures r.0 == Inside(v, Translate(base, x, y), p)
    ensures r.1 == r.0
  {
    var (home, cache) := OwnOutline(None, base, x, y);
    var (dupe, _) := OwnOutline(cache, base, x + dx, y + dy);
    (Inside(v, home, p), Inside(v, dupe, p))
  }

  /** As intended: each pass tests the outline at the position the pass is made from. */
  function PassesCorrected(v: Variant, base: seq<Point>, x: real, y: real, dx: real, dy: real, p: Point): (r: (bool, bool))
    ensures r.0 == Inside(v, Translate(base, x, y), p)
  {
    (Inside(v, Translate(base, x, y), p), Inside(v, Translate(base, x + dx, y + dy), p))
  }

  /**
   * The corrected duplicate pass hits exactly when the point, carried back across the border,
   * lies inside the home outline: it is the home test of the wrapped copy, in either variant.
   */
  lemma DuplicatePassMirrors(v: Variant, base: seq<Point>, x: real, y: real, dx: real, dy: real, p: Point)
    ensures PassesCorrected(v, base, x, y, dx, dy, p).1 == Inside(v, Translate(base, x, y), Point(p.x - dx, p.y - dy))
  {
    DuplicatePassTestsShifted(v, base, x, y, dx, dy, p);
    if v == Bot {
      BotWrappedCopy(v, base, x, y, dx, dy, p);
    } else {
      GameWrappedCopy(v, base, x, y, dx, dy, p);
    }
  }

  lemma DuplicatePassTestsShifted(v: Variant, base: seq<Point>, x: real, y: real, dx: real, dy: real, p: Point)
    ensures PassesCorrected(v, base, x, y, dx, dy, p).1 == Inside(v, Translate(base, x + dx, y + dy), p)
  {
  }

  /** The bot's test of the shifted outline is its home test of the point carried back. */
  lemma BotWrappedCopy(v: Variant, base: seq<Point>, x: real, y: real, dx: real, dy: real, p: Point)
    requires v == Bot
    ensures Inside(v, Translate(base, x + dx, y + dy), p) == Inside(v, Translate(base, x, y), Point(p.x - dx, p.y - dy))
  {
    var far, home, q := Translate(base, x + dx, y + dy), Translate(base, x, y), Point(p.x - dx, p.y - dy);
    BotInsideMoved(base, x, y, dx, dy, p.x, p.y);
    InsideIsBotTest(v, far, p);
    InsideIsBotTest(v, home, q);
  }

  /** The same for `pointInPolygon`, the test of both clients here. */
  lemma GameWrappedCopy(v: Variant, base: seq<Point>, x: real, y: real, dx: real, dy: real, p: Point)
    requires v != Bot
    ensures Inside(v, Translate(base, x + dx, y + dy), p) == Inside(v, Translate(base, x, y), Point(p.x - dx, p.y - dy))
  {
    var far, home, q := Translate(base, x + dx, y + dy), Translate(base, x, y), Point(p.x - dx, p.y - dy);
    GameInsideMoved(base, x, y, dx, dy, p.x, p.y);
    InsideIsGameTest(v, far, p);
    InsideIsGameTest(v, home, q);
  }

  lemma InsideIsBotTest(v: Variant, poly: seq<Point>, p: Point)
    requires v == Bot
    ensures Inside(v, poly, p) == BotInside(poly, p.x, p.y)
  {
  }

  lemma InsideIsGameTest(v: Variant, poly: seq<Point>, p: Point)
    requires v != Bot
    ensures Inside(v, poly, p) == GameInside(poly, p.x, p.y)
  {
  }

  /** The ship's triangle at rotation 0 and the ship's scale 1.5. */
  const ShipAtRest: seq<Point> := [Point(-7.5, 6.0), Point(0.0, -18.0), Point(7.5, 6.0)]

  /**
   * A ship at (999, 350) on a 1000-wide canvas, on the rightmost column (duplicate offset
   * -1000), and an enemy bullet at (1, 350): the ship's nose pokes across the right edge and
   * its wrapped copy covers the bullet.  The corrected duplicate pass sees the hit; as written,
   * in the bot and in game.js's fallback, that pass repeats the home test and misses it.
   */
  lemma StaleOutlineMissesWrappedHit(v: Variant)
    requires v != App
    ensures PassesCorrected(v, ShipAtRest, 999.0, 350.0, -1000.0, 0.0, Point(1.0, 350.0)).1
    ensures !PassesAsWritten(v, ShipAtRest, 999.0, 350.0, -1000.0, 0.0, Point(1.0, 350.0)).1
  {
    var home := Translate(ShipAtRest, 999.0, 350.0);
    var dupe := Translate(ShipAtRest, 999.0 + -1000.0, 350.0 + 0.0);
    assert home == [Point(991.5, 356.0), Point(999.0, 332.0), Point(1006.5, 356.0)];
    assert dupe == [Point(-8.5, 356.0), Point(-1.0, 332.0), Point(6.5, 356.0)];
    if v == Bot {
      BotCounterexample(home, dupe);
    } else {
      GameCounterexample(home, dupe);
    }
  }

  /** The bot's test on the two triangles: the point crosses one edge of the copy, two of the home outline. */
  lemma BotCounterexample(home: seq<Point>, dupe: seq<Point>)
    requires home == [Point(991.5, 356.0), Point(999.0, 332.0), Point(1006.5, 356.0)]
    requires dupe == [Point(-8.5, 356.0), Point(-1.0, 332.0), Point(6.5, 356.0)]
    ensures BotInside(dupe, 1.0, 350.0) && !BotInside(home, 1.0, 350.0)
  {
    assert !BotCrosses(dupe[0], dupe[2], 1.0, 350.0);
    assert BotCrossX(dupe[1], dupe[0], 350.0) == -6.625;
    assert !BotCrosses(dupe[1], dupe[0], 1.0, 350.0);
    assert BotCrossX(dupe[2], dupe[1], 350.0) == 4.625;
    assert BotCrosses(dupe[2], dupe[1], 1.0, 350.0);
    assert Prev(0, 3) == 2 && Prev(1, 3) == 0 && Prev(2, 3) == 1;
    assert BotParity(dupe, 1.0, 350.0, 1) == false;
    assert BotParity(dupe, 1.0, 350.0, 2) == false;
    assert BotParity(dupe, 1.0, 350.0, 3) == true;
    assert !BotCrosses(home[0], home[2], 1.0, 350.0);
    assert BotCrossX(home[1], home[0], 350.0) == 993.375;
    assert BotCrosses(home[1], home[0], 1.0, 350.0);
    assert BotCrossX(home[2], home[1], 350.0) == 1004.625;
    assert BotCrosses(home[2], home[1], 1.0, 350.0);
    assert BotParity(home, 1.0, 350.0, 1) == false;
    assert BotParity(home, 1.0, 350.0, 2) == true;
    assert BotParity(home, 1.0, 350.0, 3) == false;
  }

  /** game.js's `pointInPolygon` on the two triangles: one crossing left of the point on the copy, none on the home outline. */
  lemma GameCounterexample(home: seq<Point>, dupe: seq<Point>)
    requires home == [Point(991.5, 356.0), Point(999.0, 332.0), Point(1006.5, 356.0)]
    requires dupe == [Point(-8.5, 356.0), Point(-1.0, 332.0), Point(6.5, 356.0)]
    ensures GameInside(dupe, 1.0, 350.0) && !GameInside(home, 1.0, 350.0)
  {
    assert Next(0, 3) == 1 && Next(1, 3) == 2 && Next(2, 3) == 0;
    assert GameCrossX(dupe[0], dupe[1], 350.0) == -6.625;
    assert GameEdgeCrosses(dupe, 0, 1.0, 350.0);
    assert GameCrossX(dupe[1], dupe[2], 350.0) == 4.625;
    assert !GameEdgeCrosses(dupe, 1, 1.0, 350.0);
    assert !GameEdgeCrosses(dupe, 2, 1.0, 350.0);
    assert GameParity(dupe, 1.0, 350.0, 1) && GameParity(dupe, 1.0, 350.0, 2) && GameParity(dupe, 1.0, 350.0, 3);
    assert GameCrossX(home[0], home[1], 350.0) == 993.375;
    assert !GameEdgeCrosses(home, 0, 1.0, 350.0);
    assert GameCrossX(home[1], home[2], 350.0) == 1004.625;
    assert !GameEdgeCrosses(home, 1, 1.0, 350.0);
    assert !GameEdgeCrosses(home, 2, 1.0, 350.0);
    assert !GameParity(home, 1.0, 350.0, 1) && !GameParity(home, 1.0, 350.0, 2) && !GameParity(home, 1.0, 350.0, 3);
  }
}
