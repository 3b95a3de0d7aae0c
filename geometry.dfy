/**
 * World-space polygons and the two crossing-number (ray casting) point-in-polygon tests of the
 * engine: `Sprite.pointInPolygon` of game.js, and the test written inline in `Sprite.checkCollision`
 * of bot/bot.js.  The source keeps a polygon as a flat array [x0, y0, x1, y1, ...]; here it is a
 * sequence of points.
 */
module Geometry {

  datatype Point = Point(x: real, y: real)

  /** The polygon moved by (dx, dy): the translation part of `Matrix.configure`. */
  function Translate(poly: seq<Point>, dx: real, dy: real): (r: seq<Point>)
    ensures |r| == |poly|
    ensures forall k :: 0 <= k < |poly| ==> r[k] == Point(poly[k].x + dx, poly[k].y + dy)
  {
    if poly == [] then [] else [Point(poly[0].x + dx, poly[0].y + dy)] + Translate(poly[1..], dx, dy)
  }

  // ---------------------------------------------------------------------------------------------
  // game.js `pointInPolygon`: edge k joins vertex k to vertex k+1 (the last wraps to vertex 0);
  // the edge straddles y when one end is strictly below y and the other at or above it, and it
  // counts when the crossing abscissa lies strictly left of x.
  // ---------------------------------------------------------------------------------------------

  predicate GameStraddles(a: Point, b: Point, y: real)
  {
    (a.y < y && b.y >= y) || (b.y < y && a.y >= y)
  }

  /** Abscissa where the line through a and b meets the row y, as game.js computes it. */
  function GameCrossX(a: Point, b: Point, y: real): real
    requires a.y != b.y
  {
    a.x + (y - a.y) / (b.y - a.y) * (b.x - a.x)
  }

  /** The division is only evaluated for a straddling edge, whose end ordinates differ. */
  predicate GameCrosses(a: Point, b: Point, x: real, y: real)
  {
    GameStraddles(a, b, y) && GameCrossX(a, b, y) < x
  }

  /** The vertex after vertex k, wrapping the last one to vertex 0. */
  function Next(k: nat, n: nat): (j: nat)
    requires k < n
    ensures j < n
    ensures k + 1 < n ==> j == k + 1
    ensures k + 1 == n ==> j == 0
  {
    if k + 1 == n then 0 else k + 1
  }

  /** Edge k of a polygon: from vertex k to the next vertex. */
  predicate GameEdgeCrosses(poly: seq<Point>, k: nat, x: real, y: real)
    requires k < |poly|
  {
    GameCrosses(poly[k], poly[Next(k, |poly|)], x, y)
  }

  /** Parity of the number of crossing edges among edges 0 .. k-1. */
  function GameParity(poly: seq<Point>, x: real, y: real, k: nat): bool
    requires k <= |poly|
  {
    if k == 0 then false else GameParity(poly, x, y, k - 1) != GameEdgeCrosses(poly, k - 1, x, y)
  }

  /** The reference meaning of `pointInPolygon`: every edge visited once, parity flipped per crossing. */
  predicate GameInside(poly: seq<Point>, x: real, y: real)
  {
    GameParity(poly, x, y, |poly|)
  }

  /**
   * The loop of game.js `pointInPolygon`, with `j` the index of the next vertex, reset to 0 once it
   * reaches the end.  For a one-vertex polygon the source reads past the end of the array, where the
   * undefined ordinate makes both comparisons false: the guarded read below does the same.
   */
  method PointInPolygon(points: seq<Point>, x: real, y: real) returns (oddNodes: bool)
    ensures oddNodes == GameInside(points, x, y)
  {
    var n := |points|;
    var j := 1;
    oddNodes := false;
    var i := 0;
    while i < n
      invariant 0 <= i <= n
      invariant i < n ==> j == if i + 1 < n || n == 1 then i + 1 else 0
      invariant oddNodes == GameParity(points, x, y, i)
    {
      var y0 := points[i].y;
      if j < n {
        var y1 := points[j].y;
        if (y0 < y && y1 >= y) || (y1 < y && y0 >= y) {
          if GameCrossX(points[i], points[j], y) < x {
            oddNodes := !oddNodes;
          }
        }
      }
      j := j + 1;
      if j == n {
        j := 0;
      }
      i := i + 1;
    }
  }

  // ---------------------------------------------------------------------------------------------
  // bot/bot.js inline test: vertex i is paired with the previous vertex j (vertex 0 with the last);
  // the edge counts when exactly one end lies strictly above py (greater ordinate) and px is
  // strictly left of the crossing abscissa.
  // ---------------------------------------------------------------------------------------------

  function Prev(i: nat, n: nat): (j: nat)
    requires i < n
    ensures j < n
    ensures i == 0 ==> j == n - 1
    ensures i > 0 ==> j + 1 == i
  {
    if i == 0 then n - 1 else i - 1
  }

  /** Abscissa where the line through vi and vj meets the row py, as bot/bot.js computes it. */
  function BotCrossX(vi: Point, vj: Point, py: real): real
    requires vi.y != vj.y
  {
    (vj.x - vi.x) * (py - vi.y) / (vj.y - vi.y) + vi.x
  }

  /** Short-circuit evaluation keeps the division to edges with yi != yj. */
  predicate BotCrosses(vi: Point, vj: Point, px: real, py: real)
  {
    ((vi.y > py) != (vj.y > py)) && px < BotCrossX(vi, vj, py)
  }

  function BotParity(poly: seq<Point>, px: real, py: real, k: nat): bool
    requires k <= |poly|
  {
    if k == 0 then false
    else BotParity(poly, px, py, k - 1) != BotCrosses(poly[k - 1], poly[Prev(k - 1, |poly|)], px, py)
  }

  predicate BotInside(poly: seq<Point>, px: real, py: real)
  {
    BotParity(poly, px, py, |poly|)
  }

  /** The inner loop of bot/bot.js `checkCollision`: `for (i = 0, j = n - 1; i < n; j = i++)`. */
  method BotPointInside(poly: seq<Point>, px: real, py: real) returns (inside: bool)
    ensures inside == BotInside(poly, px, py)
  {
    var n := |poly|;
    inside := false;
    var i := 0;
    var j := n - 1;
    while i < n
      invariant 0 <= i <= n
      invariant i < n ==> j == (if i == 0 then n - 1 else i - 1)
      invariant inside == BotParity(poly, px, py, i)
    {
      var xi, yi := poly[i].x, poly[i].y;
      var xj, yj := poly[j].x, poly[j].y;
      var intersect := ((yi > py) != (yj > py)) && (px < BotCrossX(poly[i], poly[j], py));
      if intersect {
        inside := !inside;
      }
      j := i;
      i := i + 1;
    }
  }

  // ---------------------------------------------------------------------------------------------
  // Properties of the two tests.
  // ---------------------------------------------------------------------------------------------

  lemma GameCrossXTranslate(a: Point, b: Point, y: real, dx: real, dy: real)
    requires a.y != b.y
    ensures GameCrossX(Point(a.x + dx, a.y + dy), Point(b.x + dx, b.y + dy), y + dy) == GameCrossX(a, b, y) + dx
  {
    assert (y + dy) - (a.y + dy) == y - a.y;
    assert (b.y + dy) - (a.y + dy) == b.y - a.y;
    assert (b.x + dx) - (a.x + dx) == b.x - a.x;
  }

  lemma BotCrossXTranslate(vi: Point, vj: Point, py: real, dx: real, dy: real)
    requires vi.y != vj.y
    ensures BotCrossX(Point(vi.x + dx, vi.y + dy), Point(vj.x + dx, vj.y + dy), py + dy) == BotCrossX(vi, vj, py) + dx
  {
    assert (vj.x + dx) - (vi.x + dx) == vj.x - vi.x;
    assert (py + dy) - (vi.y + dy) == py - vi.y;
    assert (vj.y + dy) - (vi.y + dy) == vj.y - vi.y;
  }

  /**
   * Shifting every vertex and the point by the same offset leaves the game.js test unchanged;
   * (x', y') is the shifted point.
   */
  lemma {:induction false} GameParityShifted(a: seq<Point>, b: seq<Point>, x: real, y: real, x': real, y': real,
                                             dx: real, dy: real, k: nat)
    requires |a| == |b| && k <= |a| && x' == x + dx && y' == y + dy
    requires forall m :: 0 <= m < |a| ==> b[m] == Point(a[m].x + dx, a[m].y + dy)
    ensures GameParity(b, x', y', k) == GameParity(a, x, y, k)
  {
    if k > 0 {
      GameParityShifted(a, b, x, y, x', y', dx, dy, k - 1);
      var j := Next(k - 1, |a|);
      GameCrossesMoved(a[k - 1], a[j], x, y, x', y', dx, dy);
    }
  }

  lemma GameCrossesMoved(a: Point, b: Point, x: real, y: real, x': real, y': real, dx: real, dy: real)
    requires x' == x + dx && y' == y + dy
    ensures GameCrosses(Point(a.x + dx, a.y + dy), Point(b.x + dx, b.y + dy), x', y') == GameCrosses(a, b, x, y)
  {
    if GameStraddles(a, b, y) {
      GameCrossXTranslate(a, b, y, dx, dy);
    }
  }

  /**
   * A polygon placed dx, dy further along contains a point exactly when the polygon at home
   * contains that point moved back by dx, dy.
   */
  lemma GameInsideMoved(base: seq<Point>, x: real, y: real, dx: real, dy: real, px: real, py: real)
    ensures GameInside(Translate(base, x + dx, y + dy), px, py) == GameInside(Translate(base, x, y), px - dx, py - dy)
  {
    GameParityShifted(Translate(base, x, y), Translate(base, x + dx, y + dy), px - dx, py - dy, px, py, dx, dy, |base|);
  }

  /** Shifting every vertex and the point by the same offset leaves the bot/bot.js test unchanged. */
  lemma {:induction false} BotParityShifted(a: seq<Point>, b: seq<Point>, px: real, py: real, px': real, py': real,
                                            dx: real, dy: real, k: nat)
    requires |a| == |b| && k <= |a| && px' == px + dx && py' == py + dy
    requires forall m :: 0 <= m < |a| ==> b[m] == Point(a[m].x + dx, a[m].y + dy)
    ensures BotParity(b, px', py', k) == BotParity(a, px, py, k)
  {
    if k > 0 {
      BotParityShifted(a, b, px, py, px', py', dx, dy, k - 1);
      var j := Prev(k - 1, |a|);
      BotCrossesMoved(a[k - 1], a[j], px, py, px', py', dx, dy);
    }
  }

  lemma BotCrossesMoved(vi: Point, vj: Point, px: real, py: real, px': real, py': real, dx: real, dy: real)
    requires px' == px + dx && py' == py + dy
    ensures BotCrosses(Point(vi.x + dx, vi.y + dy), Point(vj.x + dx, vj.y + dy), px', py') == BotCrosses(vi, vj, px, py)
  {
    if (vi.y > py) != (vj.y > py) {
      BotCrossXTranslate(vi, vj, py, dx, dy);
    }
  }

  /** The same for the bot's test. */
  lemma BotInsideMoved(base: seq<Point>, x: real, y: real, dx: real, dy: real, px: real, py: real)
    ensures BotInside(Translate(base, x + dx, y + dy), px, py) == BotInside(Translate(base, x, y), px - dx, py - dy)
  {
    BotParityShifted(Translate(base, x, y), Translate(base, x + dx, y + dy), px - dx, py - dy, px, py, dx, dy, |base|);
  }

  /** Every vertex at or above y (ordinate >= y), or every vertex strictly below y. */
  predicate OutsideRows(poly: seq<Point>, y: real)
  {
    (forall k :: 0 <= k < |poly| ==> poly[k].y >= y) || (forall k :: 0 <= k < |poly| ==> poly[k].y < y)
  }

  /** No edge straddles a row outside the polygon's vertical extent, so game.js reports "outside". */
  lemma {:induction false} GameOutsideRows(poly: seq<Point>, x: real, y: real, k: nat)
    requires k <= |poly| && OutsideRows(poly, y)
    ensures !GameParity(poly, x, y, k)
  {
    if k > 0 {
      GameOutsideRows(poly, x, y, k - 1);
      assert !GameStraddles(poly[k - 1], poly[Next(k - 1, |poly|)], y);
    }
  }

  /** The same for bot/bot.js, whose straddle test splits at "strictly above py". */
  lemma {:induction false} BotOutsideRows(poly: seq<Point>, px: real, py: real, k: nat)
    requires k <= |poly|
    requires (forall m :: 0 <= m < |poly| ==> poly[m].y > py) || (forall m :: 0 <= m < |poly| ==> poly[m].y <= py)
    ensures !BotParity(poly, px, py, k)
  {
    if k > 0 {
      BotOutsideRows(poly, px, py, k - 1);
      var vi, vj := poly[k - 1], poly[Prev(k - 1, |poly|)];
      assert (vi.y > py) == (vj.y > py);
    }
  }

  /** A quotient of a numerator between 0 and its (non-zero) denominator lies in [0, 1]. */
  lemma FractionInUnit(num: real, den: real)
    requires den != 0.0
    requires (0.0 <= num <= den) || (den <= num <= 0.0)
    ensures 0.0 <= num / den <= 1.0
    decreases if den < 0.0 then 1 else 0
  {
    if den > 0.0 {
      var t := num / den;
      assert t * den == num;
      NonNegativeQuotient(num, den);
      if t > 1.0 {
        PositiveProduct(t - 1.0, den);
        assert false;
      }
    } else {
      FractionInUnit(-num, -den);
      assert num / den == (-num) / (-den);
    }
  }

  lemma NonNegativeQuotient(num: real, den: real)
    requires den > 0.0 && num >= 0.0
    ensures num / den >= 0.0
  {
  }

  lemma PositiveProduct(a: real, b: real)
    requires a > 0.0 && b > 0.0
    ensures a * b > 0.0
  {
  }

  lemma NonNegativeProduct(a: real, b: real)
    requires a >= 0.0 && b >= 0.0
    ensures a * b >= 0.0
  {
  }

  /** A fraction t in [0, 1] of a signed length d lies between 0 and d. */
  lemma ScaledBetween(t: real, d: real)
    requires 0.0 <= t <= 1.0
    ensures (0.0 <= t * d <= d) || (d <= t * d <= 0.0)
  {
    if d >= 0.0 {
      NonNegativeProduct(t, d);
      NonNegativeProduct(1.0 - t, d);
    } else {
      NonNegativeProduct(t, -d);
      NonNegativeProduct(1.0 - t, -d);
    }
  }

  /** Where a straddling edge meets the row y, its abscissa lies between the edge's two abscissae. */
  lemma CrossingBetween(a: Point, b: Point, y: real)
    requires GameStraddles(a, b, y)
    ensures var cx := GameCrossX(a, b, y);
            (a.x <= cx || b.x <= cx) && (cx <= a.x || cx <= b.x)
  {
    FractionInUnit(y - a.y, b.y - a.y);
    ScaledBetween((y - a.y) / (b.y - a.y), b.x - a.x);
  }

  /** A point at or left of every vertex is outside for game.js, which counts crossings left of x. */
  lemma {:induction false} GameOutsideLeft(poly: seq<Point>, x: real, y: real, k: nat)
    requires k <= |poly|
    requires forall m :: 0 <= m < |poly| ==> x <= poly[m].x
    ensures !GameParity(poly, x, y, k)
  {
    if k > 0 {
      GameOutsideLeft(poly, x, y, k - 1);
      var a, b := poly[k - 1], poly[Next(k - 1, |poly|)];
      if GameStraddles(a, b, y) {
        CrossingBetween(a, b, y);
      }
    }
  }

  /** The bot's crossing abscissa also lies between the abscissae of the straddling edge. */
  lemma BotCrossingBetween(vi: Point, vj: Point, py: real)
    requires (vi.y > py) != (vj.y > py)
    ensures var cx := BotCrossX(vi, vj, py);
            (vi.x <= cx || vj.x <= cx) && (cx <= vi.x || cx <= vj.x)
  {
    var num, den, d := py - vi.y, vj.y - vi.y, vj.x - vi.x;
    FractionInUnit(num, den);
    var t := num / den;
    assert d * num / den == t * d;
    assert BotCrossX(vi, vj, py) == t * d + vi.x;
    ScaledBetween(t, d);
  }

  /** A point at or right of every vertex is outside for bot/bot.js, which counts crossings right of px. */
  lemma {:induction false} BotOutsideRight(poly: seq<Point>, px: real, py: real, k: nat)
    requires k <= |poly|
    requires forall m :: 0 <= m < |poly| ==> poly[m].x <= px
    ensures !BotParity(poly, px, py, k)
  {
    if k > 0 {
      BotOutsideRight(poly, px, py, k - 1);
      var vi, vj := poly[k - 1], poly[Prev(k - 1, |poly|)];
      if (vi.y > py) != (vj.y > py) {
        BotCrossingBetween(vi, vj, py);
      }
    }
  }
}
