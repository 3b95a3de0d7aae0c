/**
 * The spatial grid: a gridWidth x gridHeight torus of cells (`GridNode`), each the head of an
 * intrusive singly linked list of the sprites in it.  Sprites live in an arena and are addressed
 * by handle (0, 1, ...); the arena keeps, per sprite, the two grid-membership fields of the
 * source's Sprite: `nextSprite` (the next handle in the cell list, -1 for null) and `currentNode`.
 */
module SpatialGrid {
  import opened Wrappers
  import opened Kinds
  import opened Sprites

  /** `GRID_SIZE`: the side of a cell in world units. */
  const GridSize: real := 60.0

  /** The cell `grid[i][j]`: column i, row j. */
  datatype Cell = Cell(i: int, j: int)

  /** JavaScript `Math.round`: the nearest integer, halves rounded up. */
  function Round(v: real): (r: int)
    ensures v - 0.5 < r as real <= v + 0.5
  {
    (v + 0.5).Floor
  }

  /** Cells across a canvas side: `Math.round(side / GRID_SIZE)`. */
  function CellsAcross(side: int): int
  {
    Round(side as real / GridSize)
  }

  /**
   * `updateGrid`'s index along one axis: `Math.floor(v / GRID_SIZE)`, then an index at or past the
   * end becomes 0 and a negative one becomes n - 1.
   */
  function AxisIndex(v: real, n: int): (r: int)
    requires n >= 1
    ensures 0 <= r < n
    ensures 0 <= (v / GridSize).Floor < n ==> r == (v / GridSize).Floor
    ensures (v / GridSize).Floor >= n ==> r == 0
    ensures (v / GridSize).Floor < 0 ==> r == n - 1
  {
    var g := (v / GridSize).Floor;
    var g' := if g >= n then 0 else g;
    if g' < 0 then n - 1 else g'
  }

  /** The cell `updateGrid` files a sprite at (x, y) under. */
  function CellAt(x: real, y: real, width: int, height: int): (c: Cell)
    requires width >= 1 && height >= 1
    ensures 0 <= c.i < width && 0 <= c.j < height
  {
    Cell(AxisIndex(x, width), AxisIndex(y, height))
  }

  /** A coordinate inside the grid's extent lies inside the cell it is filed under. */
  lemma AxisIndexCovers(v: real, n: int)
    requires n >= 1 && 0.0 <= v < GridSize * n as real
    ensures GridSize * AxisIndex(v, n) as real <= v < GridSize * (AxisIndex(v, n) + 1) as real
  {
    var q := v / GridSize;
    var g := q.Floor;
    assert q * GridSize == v;
    assert 0.0 <= q < n as real;
    assert 0 <= g < n;
    assert g as real <= q < g as real + 1.0;
  }

  /**
   * `isClear`'s index along one axis when the sprite has no cell: only the upper bound is clamped,
   * so a negative index reads `grid[-1]`, which is undefined, and the next property access throws.
   * That failure is None.
   */
  function FallbackAxisIndex(v: real, n: int): (r: Option<int>)
    requires n >= 1
    ensures r.Some? <==> (v / GridSize).Floor >= 0
    ensures r.Some? ==> 0 <= r.value < n
    ensures r.Some? && (v / GridSize).Floor < n ==> r.value == (v / GridSize).Floor
  {
    var g := (v / GridSize).Floor;
    var g' := if g >= n then 0 else g;
    if g' < 0 then None else Some(g')
  }

  /** The cell `isClear` falls back to for a sprite with no `currentNode`, or None when that read fails. */
  function FallbackCell(x: real, y: real, width: int, height: int): (r: Option<Cell>)
    requires width >= 1 && height >= 1
    ensures r.Some? <==> (x / GridSize).Floor >= 0 && (y / GridSize).Floor >= 0
    ensures r.Some? ==> 0 <= r.value.i < width && 0 <= r.value.j < height
  {
    match (FallbackAxisIndex(x, width), FallbackAxisIndex(y, height))
    case (Some(i), Some(j)) => Some(Cell(i, j))
    case _ => None
  }

  /** The first member of each non-empty list, in order. */
  function Fronts(ls: seq<seq<int>>): (r: seq<int>)
    ensures |r| <= |ls|
    ensures forall t :: t in r <==> exists m :: 0 <= m < |ls| && ls[m] != [] && ls[m][0] == t
  {
    if ls == [] then []
    else (if ls[0] == [] then [] else [ls[0][0]]) + Fronts(ls[1..])
  }

  // -----------------------------------------------------------------------------------------------
  // Wrap-around neighbours and border offsets, as the construction loops set them.
  // -----------------------------------------------------------------------------------------------

  function NorthOf(c: Cell, height: int): (r: Cell)
    requires height >= 1 && 0 <= c.j < height
    ensures r.i == c.i && 0 <= r.j < height
    ensures SouthOf(r, height) == c
  {
    Cell(c.i, if c.j == 0 then height - 1 else c.j - 1)
  }

  function SouthOf(c: Cell, height: int): (r: Cell)
    requires height >= 1 && 0 <= c.j < height
    ensures r.i == c.i && 0 <= r.j < height
  {
    Cell(c.i, if c.j == height - 1 then 0 else c.j + 1)
  }

  function WestOf(c: Cell, width: int): (r: Cell)
    requires width >= 1 && 0 <= c.i < width
    ensures r.j == c.j && 0 <= r.i < width
    ensures EastOf(r, width) == c
  {
    Cell(if c.i == 0 then width - 1 else c.i - 1, c.j)
  }

  function EastOf(c: Cell, width: int): (r: Cell)
    requires width >= 1 && 0 <= c.i < width
    ensures r.j == c.j && 0 <= r.i < width
  {
    Cell(if c.i == width - 1 then 0 else c.i + 1, c.j)
  }

  /**
   * Horizontal offset of column i: +canvasWidth on column 0, -canvasWidth on the last column (the
   * second assignment wins on a one-column grid), null elsewhere.
   */
  function DupeOffset(k: int, cells: int, side: int): Option<int>
  {
    if k == cells - 1 then Some(-side) else if k == 0 then Some(side) else None
  }

  /** JavaScript truthiness of a `dupe` entry: present and non-zero. */
  predicate Truthy(d: Option<int>)
  {
    d.Some? && d.value != 0
  }

  /** One `GridNode` without its list head: neighbours and border offsets. */
  datatype Links = Links(north: Cell, south: Cell, east: Cell, west: Cell, dupeH: Option<int>, dupeV: Option<int>)

  /** Every cell of a width x height grid. */
  ghost function AllCells(width: int, height: int): (r: set<Cell>)
    ensures forall c :: c in r <==> 0 <= c.i < width && 0 <= c.j < height
  {
    set i, j | 0 <= i < width && 0 <= j < height :: Cell(i, j)
  }

  /** The 3x3 neighbourhood in the order `findCollisionCanidates` and `isClear` visit it. */
  function Neighbourhood(c: Cell, width: int, height: int): (r: seq<Cell>)
    requires width >= 1 && height >= 1 && 0 <= c.i < width && 0 <= c.j < height
    ensures |r| == 9
    ensures forall m :: 0 <= m < 9 ==> 0 <= r[m].i < width && 0 <= r[m].j < height
  {
    var n, s := NorthOf(c, height), SouthOf(c, height);
    [c, n, s, EastOf(c, width), WestOf(c, width),
     EastOf(n, width), WestOf(n, width), EastOf(s, width), WestOf(s, width)]
  }

  /** b is at most one step from a around a ring of n positions. */
  predicate RingNear(a: int, b: int, n: int)
    requires n >= 1
  {
    var d := (b - a) % n;
    d == 0 || d == 1 % n || d == n - 1
  }

  /** The 3x3 neighbourhood is exactly the set of cells at most one step away on the torus. */
  lemma NeighbourhoodIsTorusNeighbours(c: Cell, d: Cell, width: int, height: int)
    requires width >= 1 && height >= 1 && 0 <= c.i < width && 0 <= c.j < height
    requires 0 <= d.i < width && 0 <= d.j < height
    ensures d in Neighbourhood(c, width, height) <==> RingNear(c.i, d.i, width) && RingNear(c.j, d.j, height)
  {
    RingNearSteps(c.i, d.i, width);
    RingNearSteps(c.j, d.j, height);
    var n, s := NorthOf(c, height), SouthOf(c, height);
    var r := Neighbourhood(c, width, height);
    var cols := {c.i, EastOf(c, width).i, WestOf(c, width).i};
    var rows := {c.j, n.j, s.j};
    if d.i in cols && d.j in rows {
      if d.i == c.i {
        if d.j == c.j { assert d == r[0]; } else if d.j == n.j { assert d == r[1]; } else { assert d == r[2]; }
      } else if d.i == EastOf(c, width).i {
        if d.j == c.j { assert d == r[3]; } else if d.j == n.j { assert d == r[5]; } else { assert d == r[7]; }
      } else {
        if d.j == c.j { assert d == r[4]; } else if d.j == n.j { assert d == r[6]; } else { assert d == r[8]; }
      }
    }
  }

  /** One step around the ring is the same column, the next one (wrapping) or the previous one. */
  lemma RingNearSteps(a: int, b: int, n: int)
    requires n >= 1 && 0 <= a < n && 0 <= b < n
    ensures RingNear(a, b, n) <==> (b == a || b == (if a == n - 1 then 0 else a + 1) || b == (if a == 0 then n - 1 else a - 1))
  {
    if b >= a {
      assert (b - a) % n == b - a;
    } else {
      assert (b - a) % n == b - a + n;
    }
  }

  /** The `GridNode` links of cell (i, j) of a w x h grid, with the offsets dh and dv. */
  function LinksAt(i: int, j: int, w: int, h: int, dh: Option<int>, dv: Option<int>): Links
    requires 0 <= i < w && 0 <= j < h
  {
    Links(NorthOf(Cell(i, j), h), SouthOf(Cell(i, j), h), EastOf(Cell(i, j), w), WestOf(Cell(i, j), w), dh, dv)
  }

  /** The construction's second loop: each cell's wrap-around north, south, east and west. */
  method LinkCells(w: int, h: int) returns (a: array2<Links>)
    requires w >= 1 && h >= 1
    ensures fresh(a) && a.Length0 == w && a.Length1 == h
    ensures forall i, j :: 0 <= i < w && 0 <= j < h ==> a[i, j] == LinksAt(i, j, a.Length0, a.Length1, None, None)
  {
    a := new Links[w, h];
    for i := 0 to w
      invariant forall i', j' :: 0 <= i' < i && 0 <= j' < h ==> a[i', j'] == LinksAt(i', j', a.Length0, a.Length1, None, None)
    {
      for j := 0 to h
        invariant forall i', j' :: 0 <= i' < i && 0 <= j' < h ==> a[i', j'] == LinksAt(i', j', a.Length0, a.Length1, None, None)
        invariant forall j' :: 0 <= j' < j ==> a[i, j'] == LinksAt(i, j', a.Length0, a.Length1, None, None)
      {
        a[i, j] := Links(Cell(i, if j == 0 then h - 1 else j - 1), Cell(i, if j == h - 1 then 0 else j + 1),
                         Cell(if i == w - 1 then 0 else i + 1, j), Cell(if i == 0 then w - 1 else i - 1, j),
                         None, None);
      }
    }
  }

  /** The construction's third loop: +canvasHeight on row 0, -canvasHeight on the last row. */
  method VerticalDupes(a: array2<Links>, side: int)
    requires a.Length0 >= 1 && a.Length1 >= 1
    requires forall i, j :: 0 <= i < a.Length0 && 0 <= j < a.Length1 ==> a[i, j] == LinksAt(i, j, a.Length0, a.Length1, None, None)
    modifies a
    ensures forall i, j :: 0 <= i < a.Length0 && 0 <= j < a.Length1 ==>
      a[i, j] == LinksAt(i, j, a.Length0, a.Length1, None, DupeOffset(j, a.Length1, side))
  {
    var h := a.Length1;
    for i := 0 to a.Length0
      invariant forall i', j' :: 0 <= i' < a.Length0 && 0 <= j' < h ==>
        a[i', j'] == LinksAt(i', j', a.Length0, a.Length1, None, if i' < i then DupeOffset(j', h, side) else None)
    {
      a[i, 0] := a[i, 0].(dupeV := Some(side));
      a[i, h - 1] := a[i, h - 1].(dupeV := Some(-side));
    }
  }

  /** The construction's fourth loop: +canvasWidth on column 0, -canvasWidth on the last column. */
  method HorizontalDupes(a: array2<Links>, side: int, side': int)
    requires a.Length0 >= 1 && a.Length1 >= 1
    requires forall i, j :: 0 <= i < a.Length0 && 0 <= j < a.Length1 ==>
      a[i, j] == LinksAt(i, j, a.Length0, a.Length1, None, DupeOffset(j, a.Length1, side'))
    modifies a
    ensures forall i, j :: 0 <= i < a.Length0 && 0 <= j < a.Length1 ==>
      a[i, j] == LinksAt(i, j, a.Length0, a.Length1, DupeOffset(i, a.Length0, side), DupeOffset(j, a.Length1, side'))
  {
    var w := a.Length0;
    for j := 0 to a.Length1
      invariant forall i', j' :: 0 <= i' < w && 0 <= j' < a.Length1 ==>
        a[i', j'] == LinksAt(i', j', a.Length0, a.Length1, if j' < j then DupeOffset(i', w, side) else None, DupeOffset(j', a.Length1, side'))
    {
      a[0, j] := a[0, j].(dupeH := Some(side));
      a[w - 1, j] := a[w - 1, j].(dupeH := Some(-side));
    }
  }

  /** A cell list with the first occurrence of s spliced out. */
  function Remove(l: seq<int>, s: int): (r: seq<int>)
    ensures s !in l ==> r == l
    ensures |r| == (if s in l then |l| - 1 else |l|)
    ensures forall t :: t in r ==> t in l
  {
    if l == [] then [] else if l[0] == s then l[1..] else [l[0]] + Remove(l[1..], s)
  }

  /** Removing the entry at k, the first s, keeps the entries before and after it in order. */
  lemma {:induction false} RemoveAt(l: seq<int>, k: nat, s: int)
    requires k < |l| && l[k] == s && forall m :: 0 <= m < k ==> l[m] != s
    ensures Remove(l, s) == l[..k] + l[k + 1..]
  {
    if k > 0 {
      RemoveAt(l[1..], k - 1, s);
      assert l[1..][..k - 1] + l[1..][k..] == l[1..k] + l[k + 1..];
      assert [l[0]] + l[1..k] == l[..k];
    }
  }

  /** The list with s unlinked from the cell it was in, if any. */
  ghost function Unlinked(lists: map<Cell, seq<int>>, cell: Option<Cell>, s: int): map<Cell, seq<int>>
  {
    if cell.Some? && cell.value in lists then lists[cell.value := Remove(lists[cell.value], s)] else lists
  }

  /** A sprite that `isEmpty` counts: visible and named in the collidables. */
  predicate Blocks(sp: Sprite, collidables: seq<Kind>)
    reads sp
  {
    sp.visible && sp.kind in collidables
  }

  /**
   * l is the chain that starts at hd and follows `next` to -1; every member is owned by c, and no
   * member occurs twice.
   */
  ghost predicate Linked(l: seq<int>, hd: int, next: seq<int>, owner: seq<Option<Cell>>, c: Cell)
  {
    |owner| == |next| &&
    hd == (if l == [] then -1 else l[0]) &&
    (forall k :: 0 <= k < |l| ==>
       0 <= l[k] < |next| && owner[l[k]] == Some(c) && next[l[k]] == (if k + 1 < |l| then l[k + 1] else -1)) &&
    (forall k1, k2 :: 0 <= k1 < k2 < |l| ==> l[k1] != l[k2])
  }

  /** The k-th member of a chain: in range, owned by c, and linked to the next member. */
  lemma LinkedAt(l: seq<int>, hd: int, next: seq<int>, owner: seq<Option<Cell>>, c: Cell, k: int)
    requires Linked(l, hd, next, owner, c) && 0 <= k < |l|
    ensures 0 <= l[k] < |next| && owner[l[k]] == Some(c)
    ensures next[l[k]] == (if k + 1 < |l| then l[k + 1] else -1)
  {
  }

  /** Walking a chain: `ref` is null exactly at the end, and otherwise its `next` is the following member. */
  lemma LinkedStep(l: seq<int>, hd: int, next: seq<int>, owner: seq<Option<Cell>>, c: Cell, k: nat, ref: int)
    requires Linked(l, hd, next, owner, c) && k <= |l| && ref == (if k < |l| then l[k] else -1)
    ensures ref == -1 <==> k == |l|
    ensures ref != -1 ==> 0 <= ref < |next| && next[ref] == (if k + 1 < |l| then l[k + 1] else -1)
  {
    if k < |l| {
      LinkedAt(l, hd, next, owner, c, k);
    }
  }

  /** A chain is untouched by updates to sprites outside it. */
  lemma LinkedFrame(l: seq<int>, hd: int, next: seq<int>, owner: seq<Option<Cell>>, c: Cell,
                    next': seq<int>, owner': seq<Option<Cell>>)
    requires Linked(l, hd, next, owner, c)
    requires |next'| == |owner'| >= |next|
    requires forall k :: 0 <= k < |l| ==> next'[l[k]] == next[l[k]] && owner'[l[k]] == owner[l[k]]
    ensures Linked(l, hd, next', owner', c)
  {
  }

  /** Pushing an unowned sprite on the front of a chain. */
  lemma LinkedPush(l: seq<int>, hd: int, next: seq<int>, owner: seq<Option<Cell>>, c: Cell, s: int)
    requires Linked(l, hd, next, owner, c) && 0 <= s < |next| && owner[s] == None
    ensures Linked([s] + l, s, next[s := hd], owner[s := Some(c)], c)
  {
    var l' := [s] + l;
    var next', owner' := next[s := hd], owner[s := Some(c)];
    forall k | 0 <= k < |l|
      ensures l[k] != s
    {
      assert owner[l[k]] == Some(c);
    }
    forall k | 0 <= k < |l'|
      ensures 0 <= l'[k] < |next'| && owner'[l'[k]] == Some(c)
      ensures next'[l'[k]] == (if k + 1 < |l'| then l'[k + 1] else -1)
    {
      if k > 0 {
        LinkedAt(l, hd, next, owner, c, k - 1);
        assert l'[k] == l[k - 1] != s;
      } else {
        assert next'[s] == hd;
      }
    }
    assert Linked(l', s, next', owner', c);
  }

  /** Splicing the k-th member s out of a chain, relinking its predecessor (or the head) past it. */
  lemma LinkedSplice(l: seq<int>, hd: int, next: seq<int>, owner: seq<Option<Cell>>, c: Cell, k: nat)
    requires Linked(l, hd, next, owner, c) && k < |l|
    ensures var s := l[k];
      var next' := if k == 0 then next[s := -1] else next[l[k - 1] := next[s]][s := -1];
      var hd' := if k == 0 then next[s] else hd;
      Linked(l[..k] + l[k + 1..], hd', next', owner[s := None], c)
  {
    var s := l[k];
    var l' := l[..k] + l[k + 1..];
    var next' := if k == 0 then next[s := -1] else next[l[k - 1] := next[s]][s := -1];
    var owner' := owner[s := None];
    forall m | 0 <= m < |l'|
      ensures l'[m] == (if m < k then l[m] else l[m + 1])
    {
    }
    LinkedAt(l, hd, next, owner, c, k);
    forall m | 0 <= m < |l'|
      ensures 0 <= l'[m] < |next'| && owner'[l'[m]] == Some(c)
      ensures next'[l'[m]] == (if m + 1 < |l'| then l'[m + 1] else -1)
    {
      var n := if m < k then m else m + 1;
      LinkedAt(l, hd, next, owner, c, n);
      assert l'[m] == l[n] && n != k;
      assert l[n] != s;
      if m + 1 < k {
        assert l[n] != l[k - 1];
        assert next'[l'[m]] == l[m + 1] == l'[m + 1];
      } else if m + 1 == k {
        assert next'[l'[m]] == next[s];
      } else if k > 0 {
        assert l[n] != l[k - 1];
        assert next'[l'[m]] == next[l[m + 1]];
      }
    }
    forall m1, m2 | 0 <= m1 < m2 < |l'|
      ensures l'[m1] != l'[m2]
    {
      var n1 := if m1 < k then m1 else m1 + 1;
      var n2 := if m2 < k then m2 else m2 + 1;
      assert l'[m1] == l[n1] && l'[m2] == l[n2];
    }
    var hd' := if k == 0 then next[s] else hd;
    if k == 0 {
      LinkedAt(l, hd, next, owner, c, 0);
    }
    assert Linked(l', hd', next', owner', c);
  }

  // -----------------------------------------------------------------------------------------------
  // The grid object.
  // -----------------------------------------------------------------------------------------------

  class Grid {
    /** gridWidth and gridHeight. */
    const width: int
    const height: int
    /** Game.canvasWidth and Game.canvasHeight, the border offsets. */
    const canvasWidth: int
    const canvasHeight: int
    /** Each cell's `nextSprite`: the handle of the first sprite in its list, or -1. */
    const head: array2<int>
    /** Each cell's neighbours and `dupe` offsets. */
    const nodes: array2<Links>
    /** Each sprite's `nextSprite`: the next handle in its cell list, or -1. */
    var next: seq<int>
    /** Each sprite's `currentNode`. */
    var current: seq<Option<Cell>>

    /** The contents of each cell list, from the head. */
    ghost var lists: map<Cell, seq<int>>
    /** The cell whose list a sprite is linked into, if any. */
    ghost var owner: seq<Option<Cell>>

    predicate InGrid(c: Cell)
    {
      0 <= c.i < width && 0 <= c.j < height
    }

    /** Cell list c is linked through `head` and `next`, its members owned by c and distinct. */
    ghost predicate ListOk(c: Cell)
      reads this, head
      requires InGrid(c) && c in lists && head.Length0 == width && head.Length1 == height
    {
      Linked(lists[c], head[c.i, c.j], next, owner, c)
    }

    /** An unlinked sprite has a null `nextSprite`; a linked one is in its owner's list. */
    ghost predicate SpriteShape(s: int, next: seq<int>, owner: seq<Option<Cell>>, lists: map<Cell, seq<int>>)
      requires 0 <= s < |owner| == |next|
    {
      match owner[s]
      case None => next[s] == -1
      case Some(c) => InGrid(c) && c in lists && s in lists[c]
    }

    ghost predicate SpriteOk(s: int)
      reads this
      requires 0 <= s < |owner| == |next|
    {
      SpriteShape(s, next, owner, lists)
    }

    ghost predicate Valid()
      reads this, head, nodes
    {
      width >= 1 && height >= 1 &&
      head.Length0 == width && head.Length1 == height &&
      nodes.Length0 == width && nodes.Length1 == height &&
      (forall i, j :: 0 <= i < width && 0 <= j < height ==> nodes[i, j] == LinksAt(i, j, width, height, DupeOffset(i, width, canvasWidth), DupeOffset(j, height, canvasHeight))) &&
      |next| == |current| == |owner| &&
      (forall c :: InGrid(c) ==> c in lists) &&
      (forall c :: InGrid(c) ==> Linked(lists[c], head[c.i, c.j], next, owner, c)) &&
      (forall s :: 0 <= s < |owner| ==> SpriteShape(s, next, owner, lists))
    }

    /** Every sprite's `currentNode` names the cell it is linked into. */
    ghost predicate Consistent()
      reads this
    {
      current == owner
    }

    function Count(): nat
      reads this
    {
      |next|
    }

    /**
     * The grid construction of the page/bot start-up: the cells with empty lists, then the
     * positional references, then the vertical and horizontal border offsets.
     */
    constructor (canvasW: int, canvasH: int)
      requires CellsAcross(canvasW) >= 1 && CellsAcross(canvasH) >= 1
      ensures Valid() && Consistent()
      ensures width == CellsAcross(canvasW) && height == CellsAcross(canvasH)
      ensures canvasWidth == canvasW && canvasHeight == canvasH
      ensures next == [] && forall c :: InGrid(c) ==> lists[c] == []
      ensures fresh(head) && fresh(nodes)
    {
      var w, h := CellsAcross(canvasW), CellsAcross(canvasH);
      var heads := new int[w, h]((i, j) => -1);
      var nodes' := LinkCells(w, h);
      VerticalDupes(nodes', canvasH);
      HorizontalDupes(nodes', canvasW, canvasH);
      width, height := w, h;
      canvasWidth, canvasHeight := canvasW, canvasH;
      head, nodes := heads, nodes';
      next, current := [], [];
      owner := [];
      lists := map c | c in AllCells(w, h) :: [];
    }

    /** `enter`: s becomes the head of cell c's list, and the previous list follows it unchanged. */
    method Enter(c: Cell, s: int)
      requires Valid() && InGrid(c) && 0 <= s < Count() && owner[s] == None
      modifies this, head
      ensures Valid()
      ensures lists == old(lists)[c := [s] + old(lists[c])]
      ensures owner == old(owner)[s := Some(c)] && current == old(current)
      ensures next == old(next)[s := old(head[c.i, c.j])]
    {
      ghost var l := lists[c];
      ghost var next0, owner0, lists0 := next, owner, lists;
      assert ListOk(c);
      LinkedPush(l, head[c.i, c.j], next, owner, c, s);
      next := next[s := head[c.i, c.j]];
      head[c.i, c.j] := s;
      lists := lists[c := [s] + l];
      owner := owner[s := Some(c)];
      forall d | InGrid(d)
        ensures Linked(lists[d], head[d.i, d.j], next, owner, d)
      {
        if d != c {
          assert old(ListOk(d));
          forall m | 0 <= m < |lists0[d]|
            ensures lists0[d][m] != s
          {
            assert owner0[lists0[d][m]] == Some(d);
          }
          LinkedFrame(lists0[d], head[d.i, d.j], next0, owner0, d, next, owner);
        }
      }
      forall t | 0 <= t < |owner|
        ensures SpriteShape(t, next, owner, lists)
      {
        assert old(SpriteOk(t));
      }
    }

    /**
     * `leave`: walk the chain from the cell node until the link that points at s, then splice s
     * out and null its `nextSprite`.  A sprite not in the list leaves everything unchanged.
     */
    method Leave(c: Cell, s: int)
      requires Valid() && InGrid(c) && 0 <= s < Count()
      modifies this, head
      ensures Valid()
      ensures lists == old(lists)[c := Remove(old(lists[c]), s)]
      ensures current == old(current)
      ensures s in old(lists[c]) ==> owner == old(owner)[s := None] && next[s] == -1
      ensures s !in old(lists[c]) ==> owner == old(owner) && next == old(next) && unchanged(head)
    {
      ghost var l := lists[c];
      assert ListOk(c);
      var prev := -1;
      var cur := head[c.i, c.j];
      ghost var k := 0;
      while cur != -1 && cur != s
        invariant 0 <= k <= |l|
        invariant cur == (if k < |l| then l[k] else -1)
        invariant prev == (if k == 0 then -1 else l[k - 1])
        invariant forall m :: 0 <= m < k ==> l[m] != s
        modifies {}
        decreases |l| - k
      {
        LinkedAt(l, head[c.i, c.j], next, owner, c, k);
        prev := cur;
        cur := next[cur];
        k := k + 1;
      }
      if cur == -1 {
        assert lists == lists[c := Remove(l, s)];
        return;
      }
      RemoveAt(l, k, s);
      Splice(c, s, k, prev);
    }

    /** The relinking step of `leave`: the link before s (or the cell node) skips s, and s is nulled. */
    method Splice(c: Cell, s: int, ghost k: nat, prev: int)
      requires Valid() && InGrid(c) && k < |lists[c]| && lists[c][k] == s
      requires prev == (if k == 0 then -1 else lists[c][k - 1])
      modifies this, head
      ensures Valid()
      ensures lists == old(lists)[c := old(lists[c])[..k] + old(lists[c])[k + 1..]]
      ensures owner == old(owner)[s := None] && next[s] == -1 && current == old(current)
    {
      ghost var l := lists[c];
      ghost var next0, owner0, lists0 := next, owner, lists;
      assert ListOk(c);
      LinkedAt(l, head[c.i, c.j], next, owner, c, k);
      LinkedSplice(l, head[c.i, c.j], next, owner, c, k);
      var after := next[s];
      if prev == -1 {
        head[c.i, c.j] := after;
      } else {
        next := next[prev := after];
      }
      next := next[s := -1];
      lists := lists[c := l[..k] + l[k + 1..]];
      owner := owner[s := None];
      forall t | 0 <= t < |owner0|
        ensures SpriteShape(t, next0, owner0, lists0)
      {
        assert old(SpriteOk(t));
      }
      assert forall d :: InGrid(d) ==> d in lists0 && d in lists;
      forall d | InGrid(d) && d != c
        ensures Linked(lists0[d], head[d.i, d.j], next0, owner0, d)
      {
        assert old(ListOk(d));
        assert d == Cell(d.i, d.j) && c == Cell(c.i, c.j);
        assert d.i != c.i || d.j != c.j;
      }
      LeaveRest(c, s, k, next0, owner0, lists0);
    }

    /**
     * `updateGrid` for sprite s: a visible sprite is filed under the cell of (x, y); it leaves its
     * old cell and enters the new one only when the two differ.  An invisible sprite is untouched.
     */
    method UpdateGrid(s: int, visible: bool, x: real, y: real)
      requires Valid() && Consistent() && 0 <= s < Count()
      modifies this, head
      ensures Valid() && Consistent()
      ensures !visible ==> lists == old(lists) && current == old(current) && next == old(next) && unchanged(head)
      ensures visible ==> current == old(current)[s := Some(CellAt(x, y, width, height))]
      ensures visible && old(current[s]) == Some(CellAt(x, y, width, height)) ==>
        lists == old(lists) && next == old(next) && unchanged(head)
      ensures visible && old(current[s]) != Some(CellAt(x, y, width, height)) ==>
        var n := CellAt(x, y, width, height);
        lists == Unlinked(old(lists), old(current[s]), s)[n := [s] + old(lists[n])]
    {
      if !visible {
        return;
      }
      var n := CellAt(x, y, width, height);
      if current[s] != Some(n) {
        ghost var lists0 := lists;
        if current[s].Some? {
          var oc := current[s].value;
          assert old(SpriteOk(s));
          Leave(oc, s);
        }
        assert lists == Unlinked(lists0, old(current[s]), s);
        assert lists[n] == old(lists[n]);
        Enter(n, s);
        current := current[s := Some(n)];
      }
    }

    /** Unlinking a dying or hit sprite: leave its cell, if it has one, and clear `currentNode`. */
    method Detach(s: int)
      requires Valid() && Consistent() && 0 <= s < Count()
      modifies this, head
      ensures Valid() && Consistent()
      ensures lists == Unlinked(old(lists), old(current[s]), s)
      ensures current == old(current)[s := None] && next[s] == -1
      ensures old(current[s]).None? ==> lists == old(lists) && next == old(next) && unchanged(head)
    {
      assert SpriteOk(s);
      if current[s].Some? {
        Leave(current[s].value, s);
        current := current[s := None];
      }
    }

    /** A new sprite joins the arena unlinked; its handle is the next free index. */
    method AddSprite() returns (s: int)
      requires Valid() && Consistent()
      modifies this
      ensures Valid() && Consistent()
      ensures s == old(Count()) && Count() == s + 1
      ensures next == old(next) + [-1] && current == old(current) + [None] && lists == old(lists)
    {
      s := |next|;
      next := next + [-1];
      current := current + [None];
      owner := owner + [None];
      forall d | InGrid(d)
        ensures Linked(lists[d], head[d.i, d.j], next, owner, d)
      {
        assert old(ListOk(d));
        LinkedFrame(lists[d], head[d.i, d.j], old(next), old(owner), d, next, owner);
      }
      forall t | 0 <= t < |owner|
        ensures SpriteShape(t, next, owner, lists)
      {
        if t < s {
          assert old(SpriteOk(t));
        }
      }
    }

    /** Following `nextSprite` from a sprite gets strictly closer to the end of the walk. */
    lemma WalkStep(ref: int)
      requires Valid() && 0 <= ref < |next|
      ensures RemainingIn(lists, owner, next[ref]) < RemainingIn(lists, owner, ref)
      ensures next[ref] == -1 || 0 <= next[ref] < |next|
    {
      assert SpriteShape(ref, next, owner, lists);
      if owner[ref].Some? {
        var c := owner[ref].value;
        var l := lists[c];
        var k := IndexOf(l, ref);
        LinkedAt(l, head[c.i, c.j], next, owner, c, k);
        if k + 1 < |l| {
          LinkedAt(l, head[c.i, c.j], next, owner, c, k + 1);
          IndexOfDistinct(l, k + 1);
        }
      }
    }

    /**
     * A walk from ref visits ref first and, after it, exactly the walk from `ref.nextSprite`, or
     * nothing more when that is null.
     */
    lemma ChainNext(ref: int)
      requires Valid() && Consistent() && 0 <= ref < |next|
      ensures var c := ChainIn(lists, current, ref);
        c != [] && c[0] == ref && (next[ref] == -1 <==> |c| == 1) &&
        (next[ref] != -1 ==> 0 <= next[ref] < |next| && c[1..] == ChainIn(lists, current, next[ref]))
    {
      assert SpriteShape(ref, next, owner, lists);
      if owner[ref].Some? {
        var c := owner[ref].value;
        var l := lists[c];
        var k := IndexOf(l, ref);
        LinkedAt(l, head[c.i, c.j], next, owner, c, k);
        if k + 1 < |l| {
          LinkedAt(l, head[c.i, c.j], next, owner, c, k + 1);
          IndexOfDistinct(l, k + 1);
          assert l[k..][1..] == l[k + 1..];
        }
      }
    }

    // ---------------------------------------------------------------------------------------------
    // Read-only queries.
    // ---------------------------------------------------------------------------------------------

    /** No sprite in cell d's list is visible and named in the collidables. */
    ghost predicate NoBlocker(d: Cell, collidables: seq<Kind>, sprites: seq<Sprite>)
      reads this, sprites
      requires d in lists && |sprites| == |next|
      requires forall m :: 0 <= m < |lists[d]| ==> 0 <= lists[d][m] < |next|
    {
      forall m :: 0 <= m < |lists[d]| ==> !Blocks(sprites[lists[d][m]], collidables)
    }

    /** No cell of c's 3x3 neighbourhood holds a blocker. */
    ghost predicate NeighbourhoodClear(c: Cell, collidables: seq<Kind>, sprites: seq<Sprite>)
      reads this, head, nodes, sprites
      requires Valid() && InGrid(c) && |sprites| == Count()
    {
      forall d :: d in Neighbourhood(c, width, height) ==> NoBlocker(d, collidables, sprites)
    }

    /** The walk of `isEmpty` from `ref`, the k-th member of cell c's chain, to the end. */
    function EmptyFrom(c: Cell, ghost k: nat, ref: int, collidables: seq<Kind>, sprites: seq<Sprite>): (r: bool)
      requires Valid() && InGrid(c) && |sprites| == Count()
      requires k <= |lists[c]| && ref == (if k < |lists[c]| then lists[c][k] else -1)
      reads this, head, nodes, sprites
      ensures r <==> forall m :: k <= m < |lists[c]| ==> !Blocks(sprites[lists[c][m]], collidables)
      decreases |lists[c]| - k
    {
      assert Linked(lists[c], head[c.i, c.j], next, owner, c);
      LinkedStep(lists[c], head[c.i, c.j], next, owner, c, k, ref);
      if ref == -1 then true
      else if Blocks(sprites[ref], collidables) then false
      else EmptyFrom(c, k + 1, next[ref], collidables, sprites)
    }

    /** `isEmpty`: true iff no sprite in the cell is both visible and named in the collidables. */
    function IsEmpty(c: Cell, collidables: seq<Kind>, sprites: seq<Sprite>): (r: bool)
      requires Valid() && InGrid(c) && |sprites| == Count()
      reads this, head, nodes, sprites
      ensures Linked(lists[c], head[c.i, c.j], next, owner, c)
      ensures r <==> NoBlocker(c, collidables, sprites)
    {
      assert Linked(lists[c], head[c.i, c.j], next, owner, c);
      EmptyFrom(c, 0, head[c.i, c.j], collidables, sprites)
    }

    /** The own cell and its eight neighbours, reached through the nodes' links. */
    function LinkedNeighbourhood(c: Cell): (r: seq<Cell>)
      requires Valid() && InGrid(c)
      reads this, head, nodes
      ensures r == Neighbourhood(c, width, height)
    {
      var node := nodes[c.i, c.j];
      var n := nodes[node.north.i, node.north.j];
      var so := nodes[node.south.i, node.south.j];
      [c, node.north, node.south, node.east, node.west, n.east, n.west, so.east, so.west]
    }

    /** The lists of the given cells, in order. */
    ghost function ListsOf(cells: seq<Cell>): (r: seq<seq<int>>)
      reads this
      requires forall m :: 0 <= m < |cells| ==> cells[m] in lists
      ensures |r| == |cells| && forall m :: 0 <= m < |cells| ==> r[m] == lists[cells[m]]
    {
      if cells == [] then [] else [lists[cells[0]]] + ListsOf(cells[1..])
    }

    /** The non-null list heads of the given cells, in order. */
    function OccupiedHeads(cells: seq<Cell>): (r: seq<int>)
      requires Valid() && forall m :: 0 <= m < |cells| ==> InGrid(cells[m])
      reads this, head, nodes
      ensures r == Fronts(ListsOf(cells))
      ensures forall m :: 0 <= m < |r| ==> 0 <= r[m] < |next|
    {
      if cells == [] then []
      else
        var c := cells[0];
        var h := head[c.i, c.j];
        assert Linked(lists[c], h, next, owner, c);
        (if h != -1 then [h] else []) + OccupiedHeads(cells[1..])
    }

    /**
     * `findCollisionCanidates`: nothing for an invisible sprite or one without a cell; otherwise
     * the heads of the non-empty lists among its cell and the eight neighbours, in that order.
     */
    function Candidates(visible: bool, cn: Option<Cell>): (r: seq<int>)
      requires Valid() && (cn.Some? ==> InGrid(cn.value))
      reads this, head, nodes
      ensures !visible || cn.None? ==> r == []
      ensures |r| <= 9 && forall m :: 0 <= m < |r| ==> 0 <= r[m] < Count()
      ensures visible && cn.Some? ==>
        var cells := Neighbourhood(cn.value, width, height);
        r == Fronts(ListsOf(cells))
    {
      if !visible || cn.None? then []
      else OccupiedHeads(LinkedNeighbourhood(cn.value))
    }

    /**
     * `isClear`: true for a sprite that collides with nothing; otherwise its cell (or the fallback
     * cell at (x, y) when it has none) and the eight neighbours must all be empty.  None is the
     * failed read of a negative fallback index.
     */
    function IsClear(collidables: seq<Kind>, cn: Option<Cell>, x: real, y: real, sprites: seq<Sprite>): (r: Option<bool>)
      requires Valid() && (cn.Some? ==> InGrid(cn.value)) && |sprites| == Count()
      reads this, head, nodes, sprites
      ensures collidables == [] ==> r == Some(true)
      ensures r.None? <==> collidables != [] && cn.None? && FallbackCell(x, y, width, height).None?
      ensures r.Some? && collidables != [] ==>
        var c := if cn.Some? then cn.value else FallbackCell(x, y, width, height).value;
        (r.value <==> NeighbourhoodClear(c, collidables, sprites))
    {
      if |collidables| == 0 then Some(true)
      else
        var cell := if cn.Some? then cn else FallbackCell(x, y, width, height);
        if cell.None? then None
        else
          Some(NeighbourhoodEmpty(cell.value, collidables, sprites))
    }

    /**
     * The conjunction `isClear` evaluates: `isEmpty` on the cell, north, south, east, west,
     * north-east, north-west, south-east and south-west, in that order.
     */
    function NeighbourhoodEmpty(c: Cell, collidables: seq<Kind>, sprites: seq<Sprite>): (r: bool)
      requires Valid() && InGrid(c) && |sprites| == Count()
      reads this, head, nodes, sprites
      ensures r <==> NeighbourhoodClear(c, collidables, sprites)
    {
      var nb := LinkedNeighbourhood(c);
      var r := CellsEmpty(nb, collidables, sprites);
      assert r <==> forall m :: 0 <= m < |nb| ==> NoBlocker(nb[m], collidables, sprites);
      r
    }

    /** `isEmpty` on each of the cells, left to right, stopping at the first occupied one. */
    function CellsEmpty(cells: seq<Cell>, collidables: seq<Kind>, sprites: seq<Sprite>): (r: bool)
      requires Valid() && |sprites| == Count() && forall m :: 0 <= m < |cells| ==> InGrid(cells[m])
      reads this, head, nodes, sprites
      ensures r <==> forall m :: 0 <= m < |cells| ==> NoBlocker(cells[m], collidables, sprites)
    {
      if cells == [] then true
      else IsEmpty(cells[0], collidables, sprites) && CellsEmpty(cells[1..], collidables, sprites)
    }

    /** After the splice of `Leave`, every other cell list and every sprite is still well formed. */
    ghost method LeaveRest(c: Cell, s: int, k: nat, next0: seq<int>, owner0: seq<Option<Cell>>,
                           lists0: map<Cell, seq<int>>)
      requires width >= 1 && height >= 1 && head.Length0 == width && head.Length1 == height
      requires forall d :: InGrid(d) ==> d in lists0 && d in lists
      requires InGrid(c) && k < |lists0[c]| && lists0[c][k] == s
      requires lists == lists0[c := lists0[c][..k] + lists0[c][k + 1..]]
      requires ListOk(c)
      requires forall d :: InGrid(d) && d != c ==> Linked(lists0[d], head[d.i, d.j], next0, owner0, d)
      requires |next0| == |owner0| == |next| == |owner| && 0 <= s < |owner0| && owner0[s] == Some(c)
      requires owner == owner0[s := None]
      requires forall t :: 0 <= t < |next| && owner0[t] != Some(c) ==> next[t] == next0[t]
      requires forall t :: 0 <= t < |owner0| ==> SpriteShape(t, next0, owner0, lists0)
      requires next[s] == -1
      ensures forall d :: InGrid(d) ==> Linked(lists[d], head[d.i, d.j], next, owner, d)
      ensures forall t :: 0 <= t < |owner| ==> SpriteShape(t, next, owner, lists)
    {
      var l := lists0[c];
      var l' := lists[c];
      forall d | InGrid(d)
        ensures Linked(lists[d], head[d.i, d.j], next, owner, d)
      {
        if d != c {
          forall m | 0 <= m < |lists0[d]|
            ensures next[lists0[d][m]] == next0[lists0[d][m]] && owner[lists0[d][m]] == owner0[lists0[d][m]]
          {
            assert owner0[lists0[d][m]] == Some(d);
          }
          LinkedFrame(lists0[d], head[d.i, d.j], next0, owner0, d, next, owner);
        }
      }
      forall t | 0 <= t < |owner|
        ensures SpriteShape(t, next, owner, lists)
      {
        assert SpriteShape(t, next0, owner0, lists0);
        if t != s && owner[t] == Some(c) {
          assert t in l;
          var m :| 0 <= m < |l| && l[m] == t;
          if m < k { assert l'[m] == t; } else { assert m != k; assert l'[m - 1] == t; }
        }
      }
    }
  }

  // -----------------------------------------------------------------------------------------------
  // What a collision pass can do to the lists it walks.
  // -----------------------------------------------------------------------------------------------

  /** The position of the first t in l. */
  function IndexOf(l: seq<int>, t: int): (k: nat)
    requires t in l
    ensures k < |l| && l[k] == t && forall m :: 0 <= m < k ==> l[m] != t
  {
    if l[0] == t then 0 else 1 + IndexOf(l[1..], t)
  }

  /** In a list without repeats, the member at k is found at k. */
  lemma IndexOfDistinct(l: seq<int>, k: nat)
    requires k < |l| && forall k1, k2 :: 0 <= k1 < k2 < |l| ==> l[k1] != l[k2]
    ensures IndexOf(l, l[k]) == k
  {
    var m := IndexOf(l, l[k]);
    assert !(m < k) && !(k < m);
  }

  /**
   * How much of a walk along `nextSprite` is left at ref: the members from ref to the end of its
   * cell list, 1 for an unlinked sprite (whose `nextSprite` is null), 0 for null.
   */
  ghost function RemainingIn(lists: map<Cell, seq<int>>, owner: seq<Option<Cell>>, ref: int): nat
  {
    if 0 <= ref < |owner| && owner[ref].Some? && owner[ref].value in lists && ref in lists[owner[ref].value]
    then |lists[owner[ref].value]| - IndexOf(lists[owner[ref].value], ref)
    else if ref == -1 then 0 else 1
  }

  /** Sprites added after ref leave what is left of a walk from ref as it was. */
  lemma RemainingFrame(lists: map<Cell, seq<int>>, owner0: seq<Option<Cell>>, owner1: seq<Option<Cell>>, ref: int)
    requires |owner0| <= |owner1| && owner1[..|owner0|] == owner0
    requires ref == -1 || 0 <= ref < |owner0|
    ensures RemainingIn(lists, owner1, ref) == RemainingIn(lists, owner0, ref)
  {
    if ref != -1 {
      assert owner1[ref] == owner1[..|owner0|][ref];
    }
  }

  /**
   * The sprites a walk along `nextSprite` from ref visits: ref and the members after it in its
   * cell list, or ref alone when it is in no cell.
   */
  ghost function ChainIn(lists: map<Cell, seq<int>>, cur: seq<Option<Cell>>, ref: int): seq<int>
  {
    if 0 <= ref < |cur| && cur[ref].Some? && cur[ref].value in lists && ref in lists[cur[ref].value]
    then lists[cur[ref].value][IndexOf(lists[cur[ref].value], ref)..]
    else [ref]
  }

  /** The walks from each of the candidates. */
  ghost function ChainsIn(lists: map<Cell, seq<int>>, cur: seq<Option<Cell>>, cands: seq<int>): (r: seq<seq<int>>)
    ensures |r| == |cands| && forall i :: 0 <= i < |cands| ==> r[i] == ChainIn(lists, cur, cands[i])
  {
    if cands == [] then [] else [ChainIn(lists, cur, cands[0])] + ChainsIn(lists, cur, cands[1..])
  }

  /** The number of sprites with a `currentNode`. */
  function LinkedTotal(cur: seq<Option<Cell>>): (n: nat)
    ensures n <= |cur|
  {
    if cur == [] then 0 else (if cur[|cur| - 1].Some? then 1 else 0) + LinkedTotal(cur[..|cur| - 1])
  }

  /** Clearing a set `currentNode` lowers the count by one. */
  lemma {:induction false} LinkedTotalClear(cur: seq<Option<Cell>>, s: int)
    requires 0 <= s < |cur| && cur[s].Some?
    ensures LinkedTotal(cur[s := None]) == LinkedTotal(cur) - 1
  {
    var last := |cur| - 1;
    if s < last {
      assert cur[s := None][..last] == cur[..last][s := None];
      LinkedTotalClear(cur[..last], s);
    } else {
      assert cur[s := None][..last] == cur[..last];
    }
  }

  /** A new, unlinked sprite leaves the count as it is. */
  lemma LinkedTotalAppend(cur: seq<Option<Cell>>)
    ensures LinkedTotal(cur + [None]) == LinkedTotal(cur)
  {
    assert (cur + [None])[..|cur|] == cur;
  }

  /** Every index of cur0 keeps its cell in cur1 or has lost it; cur1 may be longer. */
  ghost predicate OnlyCleared(cur0: seq<Option<Cell>>, cur1: seq<Option<Cell>>)
  {
    |cur0| <= |cur1| && forall k :: 0 <= k < |cur0| ==> cur1[k] == cur0[k] || cur1[k].None?
  }

  /**
   * What a collision check may do to the grid: sprites lose their cells and new unlinked sprites
   * are added; either fewer sprites are linked than before, or the lists and the old sprites'
   * links are exactly as they were.
   */
  ghost predicate Retreats(lists0: map<Cell, seq<int>>, cur0: seq<Option<Cell>>, next0: seq<int>,
                           lists1: map<Cell, seq<int>>, cur1: seq<Option<Cell>>, next1: seq<int>)
  {
    OnlyCleared(cur0, cur1) &&
    (LinkedTotal(cur1) < LinkedTotal(cur0) ||
     (LinkedTotal(cur1) == LinkedTotal(cur0) && lists1 == lists0 &&
      cur1[..|cur0|] == cur0 && |next0| <= |next1| && next1[..|next0|] == next0))
  }

  lemma RetreatsRefl(lists: map<Cell, seq<int>>, cur: seq<Option<Cell>>, next: seq<int>)
    ensures Retreats(lists, cur, next, lists, cur, next)
  {
    assert cur[..|cur|] == cur && next[..|next|] == next;
  }

  lemma RetreatsTrans(lists0: map<Cell, seq<int>>, cur0: seq<Option<Cell>>, next0: seq<int>,
                      lists1: map<Cell, seq<int>>, cur1: seq<Option<Cell>>, next1: seq<int>,
                      lists2: map<Cell, seq<int>>, cur2: seq<Option<Cell>>, next2: seq<int>)
    requires Retreats(lists0, cur0, next0, lists1, cur1, next1)
    requires Retreats(lists1, cur1, next1, lists2, cur2, next2)
    ensures Retreats(lists0, cur0, next0, lists2, cur2, next2)
  {
    if LinkedTotal(cur2) == LinkedTotal(cur0) {
      assert cur2[..|cur0|] == cur1[..|cur1|][..|cur0|];
      assert next2[..|next0|] == next2[..|next1|][..|next0|];
    }
  }
}
