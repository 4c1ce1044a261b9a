/**
 * The coverage grid of AbstractAutoMowerModel: one byte per pixel of the
 * border's bounding box, 0 outside the lawn, 1 for lawn not yet mowed and
 * 2 for mowed lawn, with two counters (lawn pixels and mowed pixels) that
 * the updates keep equal to the grid's contents.
 */
module Coverage {
  import opened Geometry

  const OUTSIDE: int := 0
  const MOWABLE: int := 1
  const MOWED: int := 2

  predicate IsLawn(v: int) { v != OUTSIDE }

  predicate IsMowed(v: int) { v == MOWED }

  /** Java's (int) cast of a double: truncation toward zero. */
  function Trunc(r: real): (i: int)
    ensures r >= 0.0 ==> 0.0 <= i as real <= r < i as real + 1.0
    ensures r < 0.0 ==> i as real - 1.0 < r <= i as real <= 0.0
  {
    if r >= 0.0 then r.Floor else -((-r).Floor)
  }

  /** (int) Math.ceil(r). */
  function Ceil(r: real): (i: int)
    ensures r <= i as real < r + 1.0
  {
    -((-r).Floor)
  }

  /** Number of cells of a row whose value satisfies p. */
  function CountRow(row: seq<int>, p: int -> bool): nat
  {
    CountRowTo(row, |row|, p)
  }

  /** Cells among the first m of a row whose value satisfies p. */
  function CountRowTo(row: seq<int>, m: nat, p: int -> bool): nat
    requires m <= |row|
  {
    if m == 0 then 0 else CountRowTo(row, m - 1, p) + (if p(row[m - 1]) then 1 else 0)
  }

  /** Number of cells of the grid whose value satisfies p. */
  function Count(c: seq<seq<int>>, p: int -> bool): nat
  {
    CountTo(c, |c|, p)
  }

  /** Cells of the first n columns whose value satisfies p. */
  function CountTo(c: seq<seq<int>>, n: nat, p: int -> bool): nat
    requires n <= |c|
  {
    if n == 0 then 0 else CountTo(c, n - 1, p) + CountRow(c[n - 1], p)
  }

  function Indicator(b: bool): int { if b then 1 else 0 }

  lemma {:induction false} CountRowToUpdate(row: seq<int>, m: nat, y: nat, w: int, p: int -> bool)
    requires y < |row| && m <= |row|
    ensures CountRowTo(row[y := w], m, p)
            == CountRowTo(row, m, p) + (if y < m then Indicator(p(w)) - Indicator(p(row[y])) else 0)
  {
    if m > 0 {
      CountRowToUpdate(row, m - 1, y, w, p);
    }
  }

  lemma {:induction false} CountToUpdate(c: seq<seq<int>>, n: nat, x: nat, y: nat, w: int, p: int -> bool)
    requires x < |c| && y < |c[x]| && n <= |c|
    ensures CountTo(c[x := c[x][y := w]], n, p)
            == CountTo(c, n, p) + (if x < n then Indicator(p(w)) - Indicator(p(c[x][y])) else 0)
  {
    if n > 0 {
      CountToUpdate(c, n - 1, x, y, w, p);
      if n - 1 == x {
        CountRowToUpdate(c[x], |c[x]|, y, w, p);
      }
    }
  }

  /** Writing one cell changes a count by at most that one cell. */
  lemma CountUpdate(c: seq<seq<int>>, x: nat, y: nat, w: int, p: int -> bool)
    requires x < |c| && y < |c[x]|
    ensures Count(c[x := c[x][y := w]], p) == Count(c, p) - Indicator(p(c[x][y])) + Indicator(p(w))
  {
    CountToUpdate(c, |c|, x, y, w, p);
  }

  lemma {:induction false} CountRowPointwise(r: seq<int>, s: seq<int>, m: nat, p: int -> bool, q: int -> bool)
    requires m <= |r| == |s|
    requires forall j :: 0 <= j < |r| && p(r[j]) ==> q(s[j])
    ensures CountRowTo(r, m, p) <= CountRowTo(s, m, q)
  {
    if m > 0 {
      CountRowPointwise(r, s, m - 1, p, q);
    }
  }

  lemma {:induction false} CountToPointwise(c: seq<seq<int>>, d: seq<seq<int>>, n: nat, p: int -> bool, q: int -> bool)
    requires SameShape(c, d) && n <= |c|
    requires forall i, j :: 0 <= i < |c| && 0 <= j < |c[i]| && p(c[i][j]) ==> q(d[i][j])
    ensures CountTo(c, n, p) <= CountTo(d, n, q)
  {
    if n > 0 {
      CountToPointwise(c, d, n - 1, p, q);
      CountRowPointwise(c[n - 1], d[n - 1], |c[n - 1]|, p, q);
    }
  }

  /**
   * When every cell satisfying p in c sits where d satisfies q, c has no
   * more p-cells than d has q-cells.
   */
  lemma CountPointwise(c: seq<seq<int>>, d: seq<seq<int>>, p: int -> bool, q: int -> bool)
    requires SameShape(c, d)
    requires forall i, j :: 0 <= i < |c| && 0 <= j < |c[i]| && p(c[i][j]) ==> q(d[i][j])
    ensures Count(c, p) <= Count(d, q)
  {
    CountToPointwise(c, d, |c|, p, q);
  }

  lemma {:induction false} CountRowToNone(r: seq<int>, m: nat, p: int -> bool)
    requires m <= |r|
    requires forall j :: 0 <= j < |r| ==> !p(r[j])
    ensures CountRowTo(r, m, p) == 0
  {
    if m > 0 {
      CountRowToNone(r, m - 1, p);
    }
  }

  lemma {:induction false} CountToNone(c: seq<seq<int>>, n: nat, p: int -> bool)
    requires n <= |c|
    requires forall i, j :: 0 <= i < |c| && 0 <= j < |c[i]| ==> !p(c[i][j])
    ensures CountTo(c, n, p) == 0
  {
    if n > 0 {
      CountToNone(c, n - 1, p);
      CountRowToNone(c[n - 1], |c[n - 1]|, p);
    }
  }

  /** A grid with no cell satisfying p counts none. */
  lemma CountNone(c: seq<seq<int>>, p: int -> bool)
    requires forall i, j :: 0 <= i < |c| && 0 <= j < |c[i]| ==> !p(c[i][j])
    ensures Count(c, p) == 0
  {
    CountToNone(c, |c|, p);
  }

  predicate SameShape(c: seq<seq<int>>, d: seq<seq<int>>)
  {
    |c| == |d| && forall i :: 0 <= i < |c| ==> |c[i]| == |d[i]|
  }

  predicate Rectangular(c: seq<seq<int>>, w: int, h: int)
  {
    |c| == w && forall i :: 0 <= i < |c| ==> |c[i]| == h
  }

  /** Every cell is 0, 1 or 2. */
  predicate CellValues(c: seq<seq<int>>)
  {
    forall i, j :: 0 <= i < |c| && 0 <= j < |c[i]| ==> OUTSIDE <= c[i][j] <= MOWED
  }

  /** Mowed pixels are lawn pixels, so they never outnumber them. */
  lemma MowedWithinLawn(c: seq<seq<int>>)
    ensures Count(c, IsMowed) <= Count(c, IsLawn)
  {
    CountPointwise(c, c, IsMowed, IsLawn);
  }

  /** The grid initCoverage builds: 1 where the pixel's corner lies inside the lawn, 0 elsewhere. */
  function InitialCells(minX: int, minY: int, w: nat, h: nat, isInside: Point -> bool): (c: seq<seq<int>>)
    ensures Rectangular(c, w, h) && CellValues(c)
    ensures forall i, j :: 0 <= i < w && 0 <= j < h ==> (c[i][j] == MOWABLE <==> isInside(Point((minX + i) as real, (minY + j) as real)))
    ensures forall i, j :: 0 <= i < w && 0 <= j < h ==> c[i][j] != MOWED
  {
    seq(w, i requires 0 <= i < w =>
      seq(h, j requires 0 <= j < h =>
        if isInside(Point((minX + i) as real, (minY + j) as real)) then MOWABLE else OUTSIDE))
  }

  /**
   * Whether grid cell (x, y) is reached by the mower's disc around grid
   * cell (cx, cy): inside the (2r+1)-square the loops walk and within the
   * squared radius rSq.
   */
  predicate InDisc(x: int, y: int, cx: int, cy: int, r: int, rSq: real)
  {
    cx - r <= x <= cx + r && cy - r <= y <= cy + r
    && SquaredOffset(x - cx, y - cy) as real <= rSq
  }

  function SquaredOffset(dx: int, dy: int): int
  {
    dx * dx + dy * dy
  }

  /**
   * The grid after updateCoverage: each lawn cell of the disc becomes mowed;
   * no other cell changes, and no cell changes except from 1 to 2.
   */
  function Mow(c: seq<seq<int>>, cx: int, cy: int, r: int, rSq: real): (m: seq<seq<int>>)
    ensures SameShape(c, m)
    ensures forall i, j :: 0 <= i < |c| && 0 <= j < |c[i]| ==>
              m[i][j] == c[i][j] || (c[i][j] == MOWABLE && m[i][j] == MOWED)
    ensures forall i, j :: 0 <= i < |c| && 0 <= j < |c[i]| && InDisc(i, j, cx, cy, r, rSq) ==> m[i][j] != MOWABLE
  {
    seq(|c|, i requires 0 <= i < |c| =>
      seq(|c[i]|, j requires 0 <= j < |c[i]| =>
        if c[i][j] == MOWABLE && InDisc(i, j, cx, cy, r, rSq) then MOWED else c[i][j]))
  }

  /** Mowing the same spot twice leaves the grid as mowing it once. */
  lemma MowIdempotent(c: seq<seq<int>>, cx: int, cy: int, r: int, rSq: real)
    ensures Mow(Mow(c, cx, cy, r, rSq), cx, cy, r, rSq) == Mow(c, cx, cy, r, rSq)
  {
    var m := Mow(c, cx, cy, r, rSq);
    var mm := Mow(m, cx, cy, r, rSq);
    assert |mm| == |m|;
    forall i | 0 <= i < |m|
      ensures mm[i] == m[i]
    {
      assert |mm[i]| == |m[i]|;
    }
  }

  /**
   * Mowing keeps the number of lawn pixels and never lowers the number of
   * mowed ones.
   */
  lemma MowKeepsLawn(c: seq<seq<int>>, cx: int, cy: int, r: int, rSq: real)
    ensures Count(Mow(c, cx, cy, r, rSq), IsLawn) == Count(c, IsLawn)
    ensures Count(Mow(c, cx, cy, r, rSq), IsMowed) >= Count(c, IsMowed)
  {
    var m := Mow(c, cx, cy, r, rSq);
    CountPointwise(c, m, IsLawn, IsLawn);
    CountPointwise(m, c, IsLawn, IsLawn);
    CountPointwise(c, m, IsMowed, IsMowed);
  }

  /**
   * The loops of updateCoverage only walk the square of half-width
   * ceil(pixelRadius); for a non-negative radius that square holds the
   * whole disc, so the square bound loses no cell.
   */
  lemma SquareHoldsDisc(dx: int, dy: int, pixelRadius: real)
    requires pixelRadius >= 0.0
    requires (dx * dx + dy * dy) as real <= pixelRadius * pixelRadius
    ensures -Ceil(pixelRadius) <= dx <= Ceil(pixelRadius)
    ensures -Ceil(pixelRadius) <= dy <= Ceil(pixelRadius)
  {
    var c := Ceil(pixelRadius);
    RealSquareMonotone(pixelRadius, c as real);
    assert (c * c) as real == c as real * c as real;
    OutsideSquare(dx, c);
    OutsideSquare(dy, c);
  }

  lemma RealSquareMonotone(u: real, v: real)
    requires 0.0 <= u <= v
    ensures u * u <= v * v
  {
    assert u * u <= u * v;
    assert u * v <= v * v;
  }

  lemma OutsideSquare(d: int, c: int)
    requires c >= 0
    ensures d > c || d < -c ==> d * d > c * c
  {
    if d <= c && d >= -c {
      return;
    }
    var a := if d > 0 then d else -d;
    assert a * a == d * d;
    assert a * a > c * a by {
      assert a > c;
    }
    assert c * a >= c * c;
  }

  /** The share of the lawn that has been mowed. */
  function Ratio(mowed: int, total: int): (r: real)
    requires 0 <= mowed <= total
    ensures total == 0 ==> r == 0.0
    ensures 0.0 <= r <= 1.0
    ensures total > 0 ==> r * total as real == mowed as real
  {
    if total == 0 then 0.0 else mowed as real / total as real
  }

  /** Whether cell (i, j) comes before cell (x, y) in the column-by-column order of the loops. */
  predicate Before(i: int, j: int, x: int, y: int)
  {
    i < x || (i == x && j < y)
  }

  /** The cells before (x, y) already hold `done`; the others still hold `base`. */
  predicate Progress(c: seq<seq<int>>, done: seq<seq<int>>, base: seq<seq<int>>, x: int, y: int)
  {
    SameShape(c, done) && SameShape(c, base)
    && forall i, j :: 0 <= i < |c| && 0 <= j < |c[i]| ==>
         c[i][j] == (if Before(i, j, x, y) then done[i][j] else base[i][j])
  }

  /** Writing cell (x, y) with its finished value moves the loops one cell on. */
  lemma ProgressStep(c: seq<seq<int>>, done: seq<seq<int>>, base: seq<seq<int>>, x: int, y: int, v: int)
    requires Progress(c, done, base, x, y)
    requires 0 <= x < |c| && 0 <= y < |c[x]| && v == done[x][y]
    ensures Progress(c[x := c[x][y := v]], done, base, x, y + 1)
  {
  }

  /** A cell that already holds its finished value moves the loops one cell on unchanged. */
  lemma ProgressKeep(c: seq<seq<int>>, done: seq<seq<int>>, base: seq<seq<int>>, x: int, y: int)
    requires Progress(c, done, base, x, y)
    requires 0 <= x < |c| && 0 <= y < |c[x]| && c[x][y] == done[x][y]
    ensures Progress(c, done, base, x, y + 1)
  {
  }

  /** Writing a value 0, 1 or 2 keeps every cell 0, 1 or 2. */
  lemma CellValuesStep(c: seq<seq<int>>, x: int, y: int, v: int)
    requires CellValues(c) && 0 <= x < |c| && 0 <= y < |c[x]| && OUTSIDE <= v <= MOWED
    ensures CellValues(c[x := c[x][y := v]])
  {
  }

  /** The array holds exactly the cells c. */
  ghost predicate Mirrors(g: array2<int>, c: seq<seq<int>>)
    reads g
  {
    Rectangular(c, g.Length0, g.Length1)
    && forall i, j :: 0 <= i < g.Length0 && 0 <= j < g.Length1 ==> g[i, j] == c[i][j]
  }

  function Blank(w: nat, h: nat): (c: seq<seq<int>>)
    ensures Rectangular(c, w, h) && CellValues(c)
    ensures forall i, j :: 0 <= i < w && 0 <= j < h ==> c[i][j] == OUTSIDE
  {
    seq(w, i => seq(h, j => OUTSIDE))
  }

  /** The inner loop of initCoverage: column x of the grid. */
  method InitColumn(g: array2<int>, x: int, minX: int, minY: int, isInside: Point -> bool,
                    ghost c: seq<seq<int>>, total: int)
    returns (ghost c': seq<seq<int>>, total': int)
    requires 0 <= x < g.Length0
    requires Mirrors(g, c) && CellValues(c)
    requires Progress(c, InitialCells(minX, minY, g.Length0, g.Length1, isInside), Blank(g.Length0, g.Length1), x, 0)
    requires total == Count(c, IsLawn) && Count(c, IsMowed) == 0
    modifies g
    ensures Mirrors(g, c') && CellValues(c')
    ensures Progress(c', InitialCells(minX, minY, g.Length0, g.Length1, isInside), Blank(g.Length0, g.Length1), x + 1, 0)
    ensures total' == Count(c', IsLawn) && Count(c', IsMowed) == 0
  {
    ghost var target := InitialCells(minX, minY, g.Length0, g.Length1, isInside);
    ghost var blank := Blank(g.Length0, g.Length1);
    c', total' := c, total;
    var y := 0;
    while y < g.Length1
      modifies g
      invariant 0 <= y <= g.Length1
      invariant Mirrors(g, c') && CellValues(c')
      invariant Progress(c', target, blank, x, y)
      invariant total' == Count(c', IsLawn) && Count(c', IsMowed) == 0
    {
      var p := Point((minX + x) as real, (minY + y) as real);
      var v := if isInside(p) then MOWABLE else OUTSIDE;
      CountUpdate(c', x, y, v, IsLawn);
      CountUpdate(c', x, y, v, IsMowed);
      ProgressStep(c', target, blank, x, y, v);
      CellValuesStep(c', x, y, v);
      g[x, y] := v;
      c' := c'[x := c'[x][y := v]];
      if v == MOWABLE {
        total' := total' + 1;
      }
      y := y + 1;
    }
  }

  /** The inner loop of updateCoverage: rows minY..maxY of column x. */
  method MowColumn(g: array2<int>, x: int, cx: int, cy: int, r: int, rSq: real, minY: int, maxY: int,
                   ghost c0: seq<seq<int>>, ghost c: seq<seq<int>>, total: int, mowed: int)
    returns (ghost c': seq<seq<int>>, mowed': int)
    requires 0 <= x < g.Length0 && cx - r <= x <= cx + r
    requires minY == (if 0 > cy - r then 0 else cy - r)
    requires maxY == (if g.Length1 - 1 < cy + r then g.Length1 - 1 else cy + r)
    requires Mirrors(g, c) && CellValues(c)
    requires Progress(c, Mow(c0, cx, cy, r, rSq), c0, x, 0)
    requires total == Count(c, IsLawn) && mowed == Count(c, IsMowed)
    modifies g
    ensures Mirrors(g, c') && CellValues(c')
    ensures Progress(c', Mow(c0, cx, cy, r, rSq), c0, x + 1, 0)
    ensures total == Count(c', IsLawn) && mowed' == Count(c', IsMowed)
  {
    ghost var target := Mow(c0, cx, cy, r, rSq);
    c', mowed' := c, mowed;
    var y := minY;
    assert Progress(c', target, c0, x, minY);
    while y <= maxY
      modifies g
      invariant minY <= y && (minY <= maxY ==> y <= maxY + 1)
      invariant Mirrors(g, c') && CellValues(c')
      invariant Progress(c', target, c0, x, y)
      invariant total == Count(c', IsLawn) && mowed' == Count(c', IsMowed)
    {
      if g[x, y] == MOWABLE {
        var dx := x - cx;
        var dy := y - cy;
        if SquaredOffset(dx, dy) as real <= rSq {
          CountUpdate(c', x, y, MOWED, IsLawn);
          CountUpdate(c', x, y, MOWED, IsMowed);
          ProgressStep(c', target, c0, x, y, MOWED);
          CellValuesStep(c', x, y, MOWED);
          g[x, y] := MOWED;
          c' := c'[x := c'[x][y := MOWED]];
          mowed' := mowed' + 1;
        } else {
          ProgressKeep(c', target, c0, x, y);
        }
      } else {
        ProgressKeep(c', target, c0, x, y);
      }
      y := y + 1;
    }
  }

  /** The outer loop of updateCoverage: columns minX..maxX of the square around (cx, cy). */
  method MowDisc(g: array2<int>, cx: int, cy: int, r: int, rSq: real,
                 ghost c0: seq<seq<int>>, total: int, mowed: int)
    returns (ghost c: seq<seq<int>>, mowed': int)
    requires Mirrors(g, c0) && CellValues(c0)
    requires total == Count(c0, IsLawn) && mowed == Count(c0, IsMowed)
    modifies g
    ensures Mirrors(g, c) && CellValues(c)
    ensures c == Mow(c0, cx, cy, r, rSq)
    ensures total == Count(c, IsLawn) && mowed' == Count(c, IsMowed)
  {
    var gridWidth, gridHeight := g.Length0, g.Length1;
    var minX := if 0 > cx - r then 0 else cx - r;
    var maxX := if gridWidth - 1 < cx + r then gridWidth - 1 else cx + r;
    var minY := if 0 > cy - r then 0 else cy - r;
    var maxY := if gridHeight - 1 < cy + r then gridHeight - 1 else cy + r;
    ghost var target := Mow(c0, cx, cy, r, rSq);
    c, mowed' := c0, mowed;
    var x := minX;
    while x <= maxX
      modifies g
      invariant minX <= x && (minX <= maxX ==> x <= maxX + 1)
      invariant Mirrors(g, c) && CellValues(c)
      invariant Progress(c, target, c0, x, 0)
      invariant total == Count(c, IsLawn) && mowed' == Count(c, IsMowed)
    {
      c, mowed' := MowColumn(g, x, cx, cy, r, rSq, minY, maxY, c0, c, total, mowed');
      x := x + 1;
    }
    ProgressComplete(c, target, c0, x);
  }

  /** The outer loop of initCoverage: every column of a blank grid. */
  method InitGrid(g: array2<int>, minX: int, minY: int, isInside: Point -> bool)
    returns (ghost c: seq<seq<int>>, total: int)
    requires Mirrors(g, Blank(g.Length0, g.Length1))
    modifies g
    ensures Mirrors(g, c) && CellValues(c)
    ensures c == InitialCells(minX, minY, g.Length0, g.Length1, isInside)
    ensures total == Count(c, IsLawn) && Count(c, IsMowed) == 0
  {
    ghost var blank := Blank(g.Length0, g.Length1);
    ghost var target := InitialCells(minX, minY, g.Length0, g.Length1, isInside);
    c, total := blank, 0;
    CountNone(c, IsLawn);
    CountNone(c, IsMowed);
    var x := 0;
    while x < g.Length0
      modifies g
      invariant 0 <= x <= g.Length0
      invariant Mirrors(g, c) && CellValues(c)
      invariant Progress(c, target, blank, x, 0)
      invariant total == Count(c, IsLawn) && Count(c, IsMowed) == 0
    {
      c, total := InitColumn(g, x, minX, minY, isInside, c, total);
      x := x + 1;
    }
    ProgressComplete(c, target, blank, x);
  }

  /** When the loops have passed every cell that differs, the cells are done. */
  lemma ProgressComplete(c: seq<seq<int>>, done: seq<seq<int>>, base: seq<seq<int>>, x: int)
    requires Progress(c, done, base, x, 0)
    requires forall i, j :: 0 <= i < |c| && 0 <= j < |c[i]| && i >= x ==> done[i][j] == base[i][j]
    ensures c == done
  {
    forall i | 0 <= i < |c|
      ensures c[i] == done[i]
    {
    }
  }

  class CoverageGrid {
    var grid: array2<int>
    /** The grid's contents as a value. */
    ghost var cells: seq<seq<int>>
    var gridMinX: int
    var gridMinY: int
    var totalMowablePixels: int
    var mowedPixels: int
    var coverageInitialized: bool

    ghost predicate Valid()
      reads this, grid
    {
      Mirrors(grid, cells)
      && CellValues(cells)
      && totalMowablePixels == Count(cells, IsLawn)
      && mowedPixels == Count(cells, IsMowed)
      && 0 <= mowedPixels <= totalMowablePixels
    }

    constructor()
      ensures Valid() && !coverageInitialized
      ensures totalMowablePixels == 0 && mowedPixels == 0
    {
      grid := new int[0, 0];
      cells := [];
      gridMinX, gridMinY := 0, 0;
      totalMowablePixels, mowedPixels := 0, 0;
      coverageInitialized := false;
    }

    /**
     * initCoverage: a fresh grid over the bounding box (minX, minY, w, h)
     * of the border, one pixel wider and higher than the box, with every
     * lawn pixel counted and none mowed.
     */
    method InitCoverage(minX: int, minY: int, w: nat, h: nat, isInside: Point -> bool)
      modifies this
      ensures Valid() && coverageInitialized && fresh(grid)
      ensures gridMinX == minX && gridMinY == minY
      ensures cells == InitialCells(minX, minY, w + 1, h + 1, isInside)
      ensures mowedPixels == 0
    {
      var g := new int[w + 1, h + 1]((i, j) => OUTSIDE);
      var total;
      ghost var c;
      c, total := InitGrid(g, minX, minY, isInside);
      grid, cells := g, c;
      gridMinX, gridMinY := minX, minY;
      totalMowablePixels, mowedPixels := total, 0;
      coverageInitialized := true;
    }

    /**
     * updateCoverage: the lawn pixels of the disc of radius pixelRadius
     * around the (truncated) position become mowed, each one counted once.
     * Before initialisation nothing happens.
     */
    method UpdateCoverage(pos: Point, pixelRadius: real)
      requires Valid()
      modifies this, grid
      ensures Valid() && grid == old(grid)
      ensures gridMinX == old(gridMinX) && gridMinY == old(gridMinY)
      ensures coverageInitialized == old(coverageInitialized)
      ensures totalMowablePixels == old(totalMowablePixels)
      ensures !coverageInitialized ==> cells == old(cells)
      ensures coverageInitialized ==>
                cells == Mow(old(cells), Trunc(pos.x) - gridMinX, Trunc(pos.y) - gridMinY,
                             Ceil(pixelRadius), pixelRadius * pixelRadius)
    {
      if !coverageInitialized {
        return;
      }
      var r := Ceil(pixelRadius);
      var cx := Trunc(pos.x) - gridMinX;
      var cy := Trunc(pos.y) - gridMinY;
      var mowed;
      ghost var c;
      c, mowed := MowDisc(grid, cx, cy, r, pixelRadius * pixelRadius, cells, totalMowablePixels, mowedPixels);
      MowedWithinLawn(c);
      cells, mowedPixels := c, mowed;
    }

    /** getCoveragePercentage: mowed pixels over lawn pixels, 0 while there is no lawn. */
    function CoveragePercentage(): (r: real)
      reads this, grid
      requires Valid()
      ensures totalMowablePixels == 0 ==> r == 0.0
      ensures 0.0 <= r <= 1.0
      ensures totalMowablePixels > 0 ==> r * totalMowablePixels as real == mowedPixels as real
    {
      Ratio(mowedPixels, totalMowablePixels)
    }
  }
}
