/** The Minesweeper board of board.go: three boolean grids indexed
    `[x, y]`, mine placement around a protected cell, the flood-fill
    reveal, neighbour counts, the win test, and the inclusive rectangle
    iterator every board loop is written with. */
module Board {
  import opened GoInt

  type Cell = (int, int)

  // ---------------------------------------------------------------
  // Row-major enumeration of an inclusive rectangle
  // ---------------------------------------------------------------

  /** The cells `(x, y) .. (maxX, y)` of one row. */
  function RowFrom(x: int, y: int, maxX: int): seq<Cell>
    decreases maxX - x
  {
    if x > maxX then [] else [(x, y)] + RowFrom(x + 1, y, maxX)
  }

  /** The rows `y .. maxY`, each from `minX` to `maxX`. */
  function RowsFrom(minX: int, maxX: int, y: int, maxY: int): seq<Cell>
    decreases maxY - y
  {
    if y > maxY then [] else RowFrom(minX, y, maxX) + RowsFrom(minX, maxX, y + 1, maxY)
  }

  /** Every cell of the inclusive rectangle spanned by two corners, in the
      order BoardIterator yields them. */
  function Cells(x1: int, y1: int, x2: int, y2: int): seq<Cell>
  {
    RowsFrom(Min(x1, x2), Max(x1, x2), Min(y1, y2), Max(y1, y2))
  }

  predicate InRect(p: Cell, minX: int, minY: int, maxX: int, maxY: int)
  {
    minX <= p.0 <= maxX && minY <= p.1 <= maxY
  }

  /** Each cell appears at most once. */
  predicate Distinct<X(==)>(s: seq<X>)
  {
    forall i, j :: 0 <= i < j < |s| ==> s[i] != s[j]
  }

  /** Rows in increasing y, and x increasing within a row. */
  predicate RowMajor(s: seq<Cell>)
  {
    forall i, j :: 0 <= i < j < |s| ==> s[i].1 < s[j].1 || (s[i].1 == s[j].1 && s[i].0 < s[j].0)
  }

  lemma {:induction false} RowFromFacts(x: int, y: int, maxX: int)
    ensures forall p :: p in RowFrom(x, y, maxX) <==> p.1 == y && x <= p.0 <= maxX
    ensures RowMajor(RowFrom(x, y, maxX))
    decreases maxX - x
  {
    if x <= maxX {
      RowFromFacts(x + 1, y, maxX);
      var s := RowFrom(x, y, maxX);
      assert s == [(x, y)] + RowFrom(x + 1, y, maxX);
      forall i, j | 0 <= i < j < |s|
        ensures s[i].1 < s[j].1 || (s[i].1 == s[j].1 && s[i].0 < s[j].0)
      {
        if i == 0 {
          assert s[j] in RowFrom(x + 1, y, maxX);
        } else {
          assert s[i] == RowFrom(x + 1, y, maxX)[i - 1];
        }
      }
    }
  }

  lemma {:induction false} RowFromLength(x: int, y: int, maxX: int)
    ensures |RowFrom(x, y, maxX)| == if x > maxX then 0 else maxX - x + 1
    decreases maxX - x
  {
    if x <= maxX {
      RowFromLength(x + 1, y, maxX);
    }
  }

  lemma {:induction false} RowsFromFacts(minX: int, maxX: int, y: int, maxY: int)
    ensures forall p :: p in RowsFrom(minX, maxX, y, maxY) <==> InRect(p, minX, y, maxX, maxY)
    ensures RowMajor(RowsFrom(minX, maxX, y, maxY))
    decreases maxY - y
  {
    if y <= maxY {
      RowFromFacts(minX, y, maxX);
      RowsFromFacts(minX, maxX, y + 1, maxY);
      var a, b := RowFrom(minX, y, maxX), RowsFrom(minX, maxX, y + 1, maxY);
      var s := a + b;
      forall i, j | 0 <= i < j < |s|
        ensures s[i].1 < s[j].1 || (s[i].1 == s[j].1 && s[i].0 < s[j].0)
      {
        if j < |a| {
          assert s[i] == a[i] && s[j] == a[j];
        } else if i < |a| {
          assert s[i] in a && s[j] in b;
        } else {
          assert s[i] == b[i - |a|] && s[j] == b[j - |a|];
        }
      }
    }
  }

  /** Row-major order implies no cell repeats. */
  lemma {:induction false} RowMajorDistinct(s: seq<Cell>)
    requires RowMajor(s)
    ensures Distinct(s)
  {
  }

  /** The enumeration covers exactly the normalised rectangle, once each,
      in row-major order. */
  lemma {:induction false} CellsEnumerateRect(x1: int, y1: int, x2: int, y2: int)
    ensures forall p :: p in Cells(x1, y1, x2, y2) <==>
      InRect(p, Min(x1, x2), Min(y1, y2), Max(x1, x2), Max(y1, y2))
    ensures Distinct(Cells(x1, y1, x2, y2))
    ensures RowMajor(Cells(x1, y1, x2, y2))
  {
    RowsFromFacts(Min(x1, x2), Max(x1, x2), Min(y1, y2), Max(y1, y2));
    RowMajorDistinct(Cells(x1, y1, x2, y2));
  }

  /** The cells a whole-board iterator yields are exactly the board's. */
  lemma {:induction false} BoardCells(w: int, h: int)
    requires w >= 1 && h >= 1
    ensures forall p :: p in Cells(0, 0, w - 1, h - 1) <==> 0 <= p.0 < w && 0 <= p.1 < h
  {
    CellsEnumerateRect(0, 0, w - 1, h - 1);
  }

  lemma {:induction false} RowsFromLength(minX: int, maxX: int, y: int, maxY: int)
    requires minX <= maxX + 1 && y <= maxY + 1
    ensures |RowsFrom(minX, maxX, y, maxY)| == (maxX - minX + 1) * (maxY - y + 1)
    decreases maxY - y
  {
    if y <= maxY {
      RowFromLength(minX, y, maxX);
      RowsFromLength(minX, maxX, y + 1, maxY);
      var w, k := maxX - minX + 1, maxY - y;
      assert |RowsFrom(minX, maxX, y, maxY)| == w + w * k;
      assert w * (k + 1) == w + w * k;
    }
  }

  /** Cell `(x, y)` comes before the cursor `(cx, cy)` in row-major order,
      that is, an iterator at the cursor has already yielded it. */
  predicate Visited(x: int, y: int, cx: int, cy: int)
  {
    y < cy || (y == cy && x < cx)
  }

  /** A `w` by `h` board enumerates `w*h` cells. (With `w` or `h` zero
      the min/max normalisation turns `0..-1` into `-1..0`, so the loops
      over the whole board need a non-empty board.) */
  lemma {:induction false} BoardCellCount(w: int, h: int)
    requires w >= 1 && h >= 1
    ensures |Cells(0, 0, w - 1, h - 1)| == w * h
  {
    RowsFromLength(0, w - 1, 0, h - 1);
  }

  /** What an iterator at `(cx, cy)` has still to yield. */
  function Pending(cx: int, cy: int, minX: int, maxX: int, maxY: int): seq<Cell>
  {
    if cy > maxY then [] else RowFrom(cx, cy, maxX) + RowsFrom(minX, maxX, cy + 1, maxY)
  }

  /** The successor GetNext moves to. */
  function Advance(cx: int, cy: int, minX: int, maxX: int): Cell
  {
    if cx + 1 > maxX then (minX, cy + 1) else (cx + 1, cy)
  }

  /** One step of a row-major walk over columns `minX..maxX` visits
      exactly the cell it yields. */
  lemma {:induction false} VisitedAdvance(a: int, b: int, x: int, y: int, minX: int, maxX: int)
    requires minX <= a <= maxX && minX <= x <= maxX
    ensures var n := Advance(x, y, minX, maxX);
      Visited(a, b, n.0, n.1) <==> Visited(a, b, x, y) || (a == x && b == y)
  {
  }

  lemma {:induction false} PendingStep(cx: int, cy: int, minX: int, maxX: int, maxY: int)
    requires minX <= cx <= maxX
    ensures var n := Advance(cx, cy, minX, maxX);
      && (Pending(cx, cy, minX, maxX, maxY) != [] ==>
            Pending(cx, cy, minX, maxX, maxY) == [(cx, cy)] + Pending(n.0, n.1, minX, maxX, maxY))
      && (Pending(cx, cy, minX, maxX, maxY) == [] ==> Pending(n.0, n.1, minX, maxX, maxY) == [])
  {
    var p := Pending(cx, cy, minX, maxX, maxY);
    if cy <= maxY {
      var rest := RowsFrom(minX, maxX, cy + 1, maxY);
      assert RowFrom(cx, cy, maxX) == [(cx, cy)] + RowFrom(cx + 1, cy, maxX);
      assert p == RowFrom(cx, cy, maxX) + rest;
      if cx + 1 > maxX {
        assert RowFrom(cx + 1, cy, maxX) == [];
        assert p == [(cx, cy)] + rest;
        assert Pending(minX, cy + 1, minX, maxX, maxY) == rest;
      } else {
        var tail := RowFrom(cx + 1, cy, maxX);
        assert Pending(cx + 1, cy, minX, maxX, maxY) == tail + rest;
        assert p == [(cx, cy)] + tail + rest;
      }
    }
  }

  // ---------------------------------------------------------------
  // BoardIterator
  // ---------------------------------------------------------------

  /** A cursor over an inclusive rectangle; `HasNext` tests only the row,
      and `GetNext` steps x first, wrapping to the next row. */
  class BoardIterator {
    var MinX: int
    var MinY: int
    var MaxX: int
    var MaxY: int
    var CurrentX: int
    var CurrentY: int
    /** The cells still to be yielded. */
    ghost var Remaining: seq<Cell>

    ghost predicate Valid()
      reads this
    {
      && MinX <= MaxX && MinY <= MaxY && MinX <= CurrentX <= MaxX && MinY <= CurrentY
      && Remaining == Pending(CurrentX, CurrentY, MinX, MaxX, MaxY)
    }

    /** NewBoardIterator: the corners are normalised with min/max. */
    constructor (x1: int, y1: int, x2: int, y2: int)
      ensures Valid()
      ensures MinX == Min(x1, x2) && MinY == Min(y1, y2) && MaxX == Max(x1, x2) && MaxY == Max(y1, y2)
      ensures CurrentX == MinX && CurrentY == MinY
      ensures Remaining == Cells(x1, y1, x2, y2)
    {
      MinX, MinY := Min(x1, x2), Min(y1, y2);
      MaxX, MaxY := Max(x1, x2), Max(y1, y2);
      CurrentX, CurrentY := Min(x1, x2), Min(y1, y2);
      Remaining := Cells(x1, y1, x2, y2);
    }

    function HasNext(): (r: bool)
      reads this
      requires Valid()
      ensures r <==> Remaining != []
    {
      CurrentY <= MaxY
    }

    /** Yields the current cell and advances; once exhausted it keeps
        yielding cells below the rectangle, which no caller asks for. */
    method GetNext() returns (x: int, y: int)
      requires Valid()
      modifies this
      ensures Valid()
      ensures MinX == old(MinX) && MinY == old(MinY) && MaxX == old(MaxX) && MaxY == old(MaxY)
      ensures x == old(CurrentX) && y == old(CurrentY)
      ensures (CurrentX, CurrentY) == Advance(x, y, MinX, MaxX)
      ensures old(Remaining) != [] ==> old(Remaining) == [(x, y)] + Remaining
      ensures old(Remaining) == [] ==> Remaining == []
    {
      x := CurrentX;
      y := CurrentY;
      PendingStep(x, y, MinX, MaxX, MaxY);
      CurrentX := CurrentX + 1;
      if CurrentX > MaxX {
        CurrentX := MinX;
        CurrentY := CurrentY + 1;
      }
      Remaining := Pending(CurrentX, CurrentY, MinX, MaxX, MaxY);
    }

    method Reset()
      requires Valid()
      modifies this
      ensures Valid()
      ensures MinX == old(MinX) && MinY == old(MinY) && MaxX == old(MaxX) && MaxY == old(MaxY)
      ensures CurrentX == MinX && CurrentY == MinY
      ensures Remaining == Cells(MinX, MinY, MaxX, MaxY)
    {
      CurrentX := MinX;
      CurrentY := MinY;
      Remaining := Pending(MinX, MinY, MinX, MaxX, MaxY);
    }
  }

  // ---------------------------------------------------------------
  // Neighbour counting
  // ---------------------------------------------------------------

  /** Number of set cells `g[x, y0 .. y1-1]`. */
  function CountCol(g: array2<bool>, x: int, y0: int, y1: int): nat
    reads g
    requires 0 <= y0 && (y0 < y1 ==> 0 <= x < g.Length0 && y1 <= g.Length1)
    decreases y1 - y0
  {
    if y0 >= y1 then 0 else CountCol(g, x, y0, y1 - 1) + (if g[x, y1 - 1] then 1 else 0)
  }

  /** Number of set cells in columns `x0 .. x1-1`, rows `y0 .. y1-1`. */
  function CountBlock(g: array2<bool>, x0: int, x1: int, y0: int, y1: int): nat
    reads g
    requires BlockInGrid(g, x0, x1, y0, y1)
    decreases x1 - x0
  {
    if x0 >= x1 then 0 else CountBlock(g, x0, x1 - 1, y0, y1) + CountCol(g, x1 - 1, y0, y1)
  }

  /** A block whose non-empty axes lie inside the grid. */
  predicate BlockInGrid(g: array2<bool>, x0: int, x1: int, y0: int, y1: int)
  {
    0 <= x0 && 0 <= y0 && (x0 < x1 ==> x1 <= g.Length0) && (y0 < y1 ==> y1 <= g.Length1)
  }

  /** The 3x3 block around `(px, py)`, clipped to the grid, the cell itself
      included. */
  function NeighborCount(g: array2<bool>, px: int, py: int): nat
    reads g
  {
    CountBlock(g, Max(px - 1, 0), Min(px + 2, g.Length0), Max(py - 1, 0), Min(py + 2, g.Length1))
  }

  /** The set cells of a block, as a set: the reference the counts are
      checked against. */
  function SetCells(g: array2<bool>, x0: int, x1: int, y0: int, y1: int): set<Cell>
    reads g
    requires BlockInGrid(g, x0, x1, y0, y1)
  {
    set x, y | x0 <= x < x1 && y0 <= y < y1 && g[x, y] :: (x, y)
  }

  lemma {:induction false} CountColIsCard(g: array2<bool>, x: int, y0: int, y1: int)
    requires 0 <= x < g.Length0 && BlockInGrid(g, x, x + 1, y0, y1)
    ensures CountCol(g, x, y0, y1) == |SetCells(g, x, x + 1, y0, y1)|
    decreases y1 - y0
  {
    if y0 < y1 {
      CountColIsCard(g, x, y0, y1 - 1);
      var a := SetCells(g, x, x + 1, y0, y1 - 1);
      if g[x, y1 - 1] {
        assert SetCells(g, x, x + 1, y0, y1) == a + {(x, y1 - 1)};
        assert (x, y1 - 1) !in a;
      } else {
        assert SetCells(g, x, x + 1, y0, y1) == a;
      }
    } else {
      assert SetCells(g, x, x + 1, y0, y1) == {};
    }
  }

  /** The recursive count equals the size of the set of set cells. */
  lemma {:induction false} CountBlockIsCard(g: array2<bool>, x0: int, x1: int, y0: int, y1: int)
    requires BlockInGrid(g, x0, x1, y0, y1)
    ensures CountBlock(g, x0, x1, y0, y1) == |SetCells(g, x0, x1, y0, y1)|
    decreases x1 - x0
  {
    if x0 < x1 {
      CountBlockIsCard(g, x0, x1 - 1, y0, y1);
      CountColIsCard(g, x1 - 1, y0, y1);
      var a, b := SetCells(g, x0, x1 - 1, y0, y1), SetCells(g, x1 - 1, x1, y0, y1);
      assert SetCells(g, x0, x1, y0, y1) == a + b;
      assert a * b == {};
    } else {
      assert SetCells(g, x0, x1, y0, y1) == {};
    }
  }

  lemma {:induction false} CountColBound(g: array2<bool>, x: int, y0: int, y1: int)
    requires 0 <= y0 && (y0 < y1 ==> 0 <= x < g.Length0 && y1 <= g.Length1)
    ensures CountCol(g, x, y0, y1) <= Max(y1 - y0, 0)
    decreases y1 - y0
  {
    if y0 < y1 {
      CountColBound(g, x, y0, y1 - 1);
    }
  }

  lemma {:induction false} CountBlockBound(g: array2<bool>, x0: int, x1: int, y0: int, y1: int, c: nat)
    requires BlockInGrid(g, x0, x1, y0, y1)
    requires y1 - y0 <= c
    ensures CountBlock(g, x0, x1, y0, y1) <= Max(x1 - x0, 0) * c
    decreases x1 - x0
  {
    if x0 < x1 {
      CountBlockBound(g, x0, x1 - 1, y0, y1, c);
      CountColBound(g, x1 - 1, y0, y1);
      assert Max(x1 - x0, 0) * c == Max(x1 - 1 - x0, 0) * c + c;
    }
  }

  /** The neighbour count of any cell lies in [0, 9], and is the number of
      set cells of the clipped 3x3 block. */
  lemma {:induction false} NeighborCountFacts(g: array2<bool>, px: int, py: int)
    ensures NeighborCount(g, px, py) <= 9
    ensures var x0, x1, y0, y1 := Max(px - 1, 0), Min(px + 2, g.Length0), Max(py - 1, 0), Min(py + 2, g.Length1);
      NeighborCount(g, px, py) == |SetCells(g, x0, x1, y0, y1)|
  {
    var x0, x1, y0, y1 := Max(px - 1, 0), Min(px + 2, g.Length0), Max(py - 1, 0), Min(py + 2, g.Length1);
    CountBlockBound(g, x0, x1, y0, y1, 3);
    assert Max(x1 - x0, 0) <= 3;
    CountBlockIsCard(g, x0, x1, y0, y1);
  }

  /** The counting loops of GetNeighborMineCount/GetNeighborFlagCount: x
      outer, y inner, over the clipped block. */
  method CountNeighbors(g: array2<bool>, posX: int, posY: int) returns (count: int)
    ensures count == NeighborCount(g, posX, posY)
  {
    count := 0;
    var x0, x1 := Max(posX - 1, 0), Min(posX + 2, g.Length0);
    var y0, y1 := Max(posY - 1, 0), Min(posY + 2, g.Length1);
    var x := x0;
    while x < x1
      invariant x0 <= x && (x <= x1 || x == x0)
      invariant count == CountBlock(g, x0, x, y0, y1)
    {
      var y := y0;
      while y < y1
        invariant y0 <= y && (y <= y1 || y == y0)
        invariant count == CountBlock(g, x0, x, y0, y1) + CountCol(g, x, y0, y)
      {
        if g[x, y] {
          count := count + 1;
        }
        y := y + 1;
      }
      x := x + 1;
    }
  }

  // ---------------------------------------------------------------
  // Mine placement
  // ---------------------------------------------------------------

  /** `s` with every occurrence of `e` dropped, order kept. */
  function Without(s: seq<Cell>, e: Cell): (r: seq<Cell>)
    ensures |r| <= |s|
  {
    if |s| == 0 then []
    else Without(s[..|s| - 1], e) + (if s[|s| - 1] == e then [] else [s[|s| - 1]])
  }

  lemma {:induction false} WithoutFacts(s: seq<Cell>, e: Cell)
    requires Distinct(s)
    ensures forall c :: c in Without(s, e) <==> c in s && c != e
    ensures Distinct(Without(s, e))
    ensures |Without(s, e)| == if e in s then |s| - 1 else |s|
  {
    if |s| > 0 {
      var init, last := s[..|s| - 1], s[|s| - 1];
      assert Distinct(init);
      WithoutFacts(init, e);
      assert s == init + [last];
      assert last !in init;
      var r := Without(s, e);
      if last != e {
        forall i, j | 0 <= i < j < |r|
          ensures r[i] != r[j]
        {
          if j == |r| - 1 {
            assert r[i] in Without(init, e);
          }
        }
      }
    }
  }

  /** Appending to the scanned prefix appends to the kept places. */
  lemma {:induction false} WithoutSnoc(s: seq<Cell>, c: Cell, e: Cell)
    ensures Without(s + [c], e) == Without(s, e) + (if c == e then [] else [c])
  {
    assert (s + [c])[..|s + [c]| - 1] == s;
  }

  lemma {:induction false} WithoutPrefix(s: seq<Cell>, k: nat, e: Cell)
    requires k <= |s|
    ensures |Without(s[..k], e)| <= |Without(s, e)|
    ensures Without(s, e)[..|Without(s[..k], e)|] == Without(s[..k], e)
    decreases |s| - k
  {
    if k < |s| {
      WithoutPrefix(s, k + 1, e);
      assert s[..k + 1] == s[..k] + [s[k]];
      WithoutSnoc(s[..k], s[k], e);
    } else {
      assert s[..k] == s;
    }
  }

  /** The candidate cells of PlaceMines: every board cell except the
      protected one, in iterator order. */
  lemma {:induction false} PrefixStep<X>(done: seq<X>, c: X, rest: seq<X>, all: seq<X>)
    requires done + ([c] + rest) == all
    ensures (done + [c]) + rest == all
    ensures |done| + 1 <= |all| && all[..|done| + 1] == done + [c]
  {
    assert (done + [c]) + rest == done + ([c] + rest);
  }

  lemma {:induction false} PutExtends<X>(s: seq<X>, n: nat, v: X, prefix: seq<X>)
    requires n < |s| && s[..n] == prefix
    ensures s[n := v][..n + 1] == prefix + [v]
  {
  }

  function MinePlaces(w: int, h: int, exceptX: int, exceptY: int): seq<Cell>
  {
    Without(Cells(0, 0, w - 1, h - 1), (exceptX, exceptY))
  }

  lemma {:induction false} MinePlacesFacts(w: int, h: int, exceptX: int, exceptY: int)
    requires w >= 1 && h >= 1 && 0 <= exceptX < w && 0 <= exceptY < h
    ensures |MinePlaces(w, h, exceptX, exceptY)| == w * h - 1
    ensures Distinct(MinePlaces(w, h, exceptX, exceptY))
    ensures forall c :: c in MinePlaces(w, h, exceptX, exceptY) <==>
      0 <= c.0 < w && 0 <= c.1 < h && c != (exceptX, exceptY)
  {
    CellsEnumerateRect(0, 0, w - 1, h - 1);
    BoardCells(w, h);
    BoardCellCount(w, h);
    WithoutFacts(Cells(0, 0, w - 1, h - 1), (exceptX, exceptY));
  }

  lemma {:induction false} MinePlacesLength(w: int, h: int, exceptX: int, exceptY: int)
    requires w >= 1 && h >= 1 && 0 <= exceptX < w && 0 <= exceptY < h
    ensures |MinePlaces(w, h, exceptX, exceptY)| == w * h - 1
  {
    MinePlacesFacts(w, h, exceptX, exceptY);
  }

  /** A shuffle of `n` slots: slot `i` receives the element at `perm[i]`. */
  predicate IsPermutation(perm: seq<int>, n: int)
  {
    |perm| == n && (forall i :: 0 <= i < n ==> 0 <= perm[i] < n) && Distinct(perm)
  }

  /** The first `k` shuffled places, as a set (none for `k <= 0`). */
  function Chosen(places: seq<Cell>, perm: seq<int>, k: int): set<Cell>
    requires IsPermutation(perm, |places|) && k <= |places|
  {
    if k <= 0 then {} else Chosen(places, perm, k - 1) + {places[perm[k - 1]]}
  }

  /** Every chosen cell is a candidate place. */
  lemma {:induction false} ChosenFromPlaces(places: seq<Cell>, perm: seq<int>, k: int)
    requires IsPermutation(perm, |places|) && k <= |places|
    ensures forall c :: c in Chosen(places, perm, k) ==> c in places
  {
    if k > 0 {
      ChosenFromPlaces(places, perm, k - 1);
    }
  }

  /** With distinct places, `k` shuffled places are `k` distinct cells. */
  lemma {:induction false} ChosenCard(places: seq<Cell>, perm: seq<int>, k: nat)
    requires IsPermutation(perm, |places|) && k <= |places| && Distinct(places)
    ensures |Chosen(places, perm, k)| == k
  {
    if k > 0 {
      ChosenCard(places, perm, k - 1);
      NotYetChosen(places, perm, k - 1, k - 1);
    }
  }

  /** The elements of a sequence of cells, as a set. */
  function Elements(s: seq<Cell>): (r: set<Cell>)
    ensures forall c :: c in r <==> c in s
  {
    set c | c in s
  }

  /** A sequence that lists the shuffled places in order holds, in its
      first `k` entries, exactly the first `k` chosen places. */
  lemma {:induction false} ChosenAsPrefix(places: seq<Cell>, perm: seq<int>, a: seq<Cell>, k: nat)
    requires IsPermutation(perm, |places|) && k <= |places| && k <= |a|
    requires forall j :: 0 <= j < k ==> a[j] == places[perm[j]]
    ensures Chosen(places, perm, k) == Elements(a[..k])
  {
    if k > 0 {
      ChosenAsPrefix(places, perm, a, k - 1);
      assert a[..k] == a[..k - 1] + [a[k - 1]];
    }
  }

  /** Distinct places under distinct indices: the shuffled place `k` is
      not among the first `j <= k`. */
  lemma {:induction false} NotYetChosen(places: seq<Cell>, perm: seq<int>, j: nat, k: nat)
    requires IsPermutation(perm, |places|) && j <= k < |places| && Distinct(places)
    ensures places[perm[k]] !in Chosen(places, perm, j)
  {
    if j > 0 {
      NotYetChosen(places, perm, j - 1, k);
      assert perm[j - 1] != perm[k];
    }
  }

  /** The mines PlaceMines adds: the first `min(count, w*h-1)` shuffled
      candidates (none for a negative count). */
  function MineSet(w: int, h: int, count: int, exceptX: int, exceptY: int, perm: seq<int>): set<Cell>
    requires IsPermutation(perm, |MinePlaces(w, h, exceptX, exceptY)|)
  {
    Chosen(MinePlaces(w, h, exceptX, exceptY), perm, Min(count, |MinePlaces(w, h, exceptX, exceptY)|))
  }

  lemma {:induction false} PlaceInBoard(w: int, h: int, exceptX: int, exceptY: int, perm: seq<int>, j: int)
    requires w >= 1 && h >= 1 && 0 <= exceptX < w && 0 <= exceptY < h
    requires IsPermutation(perm, w * h - 1) && 0 <= j < w * h - 1
    ensures |MinePlaces(w, h, exceptX, exceptY)| == w * h - 1
    ensures var c := MinePlaces(w, h, exceptX, exceptY)[perm[j]]; 0 <= c.0 < w && 0 <= c.1 < h
  {
    MinePlacesFacts(w, h, exceptX, exceptY);
    assert MinePlaces(w, h, exceptX, exceptY)[perm[j]] in MinePlaces(w, h, exceptX, exceptY);
  }

  /** PlaceMines adds exactly `min(count, w*h-1)` distinct mines (none for
      a negative count), all inside the board and none on the protected
      cell. */
  lemma {:induction false} MineSetFacts(w: int, h: int, count: int, exceptX: int, exceptY: int, perm: seq<int>)
    requires w >= 1 && h >= 1 && 0 <= exceptX < w && 0 <= exceptY < h
    requires IsPermutation(perm, w * h - 1)
    ensures CandidateCountHolds(w, h, exceptX, exceptY)
    ensures |MineSet(w, h, count, exceptX, exceptY, perm)| == Max(0, Min(count, w * h - 1))
    ensures (exceptX, exceptY) !in MineSet(w, h, count, exceptX, exceptY, perm)
    ensures forall c :: c in MineSet(w, h, count, exceptX, exceptY, perm) ==> 0 <= c.0 < w && 0 <= c.1 < h
  {
    MinePlacesFacts(w, h, exceptX, exceptY);
    var places := MinePlaces(w, h, exceptX, exceptY);
    var k := Min(count, |places|);
    if k > 0 {
      ChosenCard(places, perm, k);
    }
    ChosenFromPlaces(places, perm, k);
  }

  /** The candidate list has `w*h-1` entries, so `perm` ranges over it. */
  predicate CandidateCountHolds(w: int, h: int, exceptX: int, exceptY: int)
  {
    |MinePlaces(w, h, exceptX, exceptY)| == w * h - 1
  }

  // ---------------------------------------------------------------
  // Board
  // ---------------------------------------------------------------

  class Board {
    var Width: int
    var Height: int
    var Mines: array2<bool>
    var Revealed: array2<bool>
    var Flags: array2<bool>

    predicate Valid()
      reads this
    {
      && Mines.Length0 == Width && Mines.Length1 == Height
      && Revealed.Length0 == Width && Revealed.Length1 == Height
      && Flags.Length0 == Width && Flags.Length1 == Height
      && Mines != Revealed && Mines != Flags && Revealed != Flags
    }

    /** NewBoard: three all-false `width` by `height` grids. */
    constructor (width: nat, height: nat)
      ensures Valid() && Width == width && Height == height
      ensures fresh(Mines) && fresh(Revealed) && fresh(Flags)
      ensures forall x, y :: 0 <= x < width && 0 <= y < height ==>
        !Mines[x, y] && !Revealed[x, y] && !Flags[x, y]
    {
      Width, Height := width, height;
      Mines := new bool[width, height]((_, _) => false);
      Revealed := new bool[width, height]((_, _) => false);
      Flags := new bool[width, height]((_, _) => false);
    }

    function IsPosInBoard(posX: int, posY: int): (r: bool)
      reads this
      requires Valid()
      ensures r <==> 0 <= posX < Mines.Length0 && 0 <= posY < Mines.Length1
    {
      posX >= 0 && posX < Width && posY >= 0 && posY < Height
    }

    method GetNeighborMineCount(posX: int, posY: int) returns (mineCount: int)
      requires Valid()
      ensures mineCount == NeighborCount(Mines, posX, posY)
      ensures 0 <= mineCount <= 9
    {
      mineCount := CountNeighbors(Mines, posX, posY);
      NeighborCountFacts(Mines, posX, posY);
    }

    method GetNeighborFlagCount(posX: int, posY: int) returns (flagCount: int)
      requires Valid()
      ensures flagCount == NeighborCount(Flags, posX, posY)
      ensures 0 <= flagCount <= 9
    {
      flagCount := CountNeighbors(Flags, posX, posY);
      NeighborCountFacts(Flags, posX, posY);
    }

    /** Two grids of the same shape with the same cells. */
    static predicate SameGrid(a: array2<bool>, b: array2<bool>)
      reads a, b
    {
      a.Length0 == b.Length0 && a.Length1 == b.Length1 &&
      forall x, y :: 0 <= x < a.Length0 && 0 <= y < a.Length1 ==> a[x, y] == b[x, y]
    }

    /** Cell `c` of the three grids `m`, `r`, `f` equals this board's. */
    /** Every safe cell is revealed. */
    predicate Won()
      reads this, Mines, Revealed
      requires Valid()
    {
      forall x, y :: 0 <= x < Width && 0 <= y < Height ==> Mines[x, y] || Revealed[x, y]
    }

    /** CheckWin walks the board with an iterator, which needs a non-empty
        board (see BoardCellCount). */
    method CheckWin() returns (win: bool)
      requires Valid() && Width >= 1 && Height >= 1
      ensures win <==> Won()
    {
      var iter := new BoardIterator(0, 0, Width - 1, Height - 1);
      while iter.HasNext()
        invariant iter.Valid() && iter.MinX == 0 && iter.MaxX == Width - 1
        invariant iter.MinY == 0 && iter.MaxY == Height - 1 && iter.CurrentY <= Height
        invariant forall x, y :: 0 <= x < Width && 0 <= y < Height && Visited(x, y, iter.CurrentX, iter.CurrentY) ==>
          Mines[x, y] || Revealed[x, y]
        decreases |iter.Remaining|
      {
        var x, y := iter.GetNext();
        if !Mines[x, y] && !Revealed[x, y] {
          return false;
        }
      }
      return true;
    }

    /** Copy: a fresh board with the same size and the same three grids. */
    method Copy() returns (copy: Board)
      requires Valid() && Width >= 1 && Height >= 1
      ensures fresh(copy) && fresh(copy.Mines) && fresh(copy.Revealed) && fresh(copy.Flags)
      ensures copy.Valid() && copy.Width == Width && copy.Height == Height
      ensures SameGrid(copy.Mines, Mines) && SameGrid(copy.Revealed, Revealed) && SameGrid(copy.Flags, Flags)
    {
      copy := new Board(Width, Height);
      CopyGrids(copy.Mines, copy.Revealed, copy.Flags, Mines, Revealed, Flags);
    }

    /** The loop of Copy: walks the board with an iterator and copies
        the three grids cell by cell. */
    static method CopyGrids(m: array2<bool>, r: array2<bool>, f: array2<bool>,
                            mines: array2<bool>, revealed: array2<bool>, flags: array2<bool>)
      requires {m, r, f} !! {mines, revealed, flags} && m != r && m != f && r != f
      requires m.Length0 == r.Length0 == f.Length0 == mines.Length0 == revealed.Length0 == flags.Length0 >= 1
      requires m.Length1 == r.Length1 == f.Length1 == mines.Length1 == revealed.Length1 == flags.Length1 >= 1
      modifies m, r, f
      ensures SameGrid(m, mines) && SameGrid(r, revealed) && SameGrid(f, flags)
    {
      var iter := new BoardIterator(0, 0, m.Length0 - 1, m.Length1 - 1);
      while iter.HasNext()
        invariant iter.Valid() && iter.MinX == 0 && iter.MaxX == m.Length0 - 1
        invariant iter.MinY == 0 && iter.MaxY == m.Length1 - 1 && iter.CurrentY <= m.Length1
        invariant CopiedBefore(m, mines, iter.CurrentX, iter.CurrentY)
        invariant CopiedBefore(r, revealed, iter.CurrentX, iter.CurrentY)
        invariant CopiedBefore(f, flags, iter.CurrentX, iter.CurrentY)
        modifies m, r, f, iter
        decreases |iter.Remaining|
      {
        var x, y := iter.GetNext();
        CopyCell(m, mines, x, y);
        CopyCell(r, revealed, x, y);
        CopyCell(f, flags, x, y);
      }
    }

    /** Every cell a row-major walk has passed before `(cx, cy)` holds the
        same value in `dst` as in `src`. */
    static predicate CopiedBefore(dst: array2<bool>, src: array2<bool>, cx: int, cy: int)
      reads dst, src
    {
      forall x, y :: (0 <= x < dst.Length0 && 0 <= y < dst.Length1 && x < src.Length0 && y < src.Length1
                      && Visited(x, y, cx, cy)) ==> dst[x, y] == src[x, y]
    }

    /** One copy step of Copy. */
    static method CopyCell(dst: array2<bool>, src: array2<bool>, x: int, y: int)
      requires dst != src && dst.Length0 == src.Length0 && dst.Length1 == src.Length1
      requires 0 <= x < dst.Length0 && 0 <= y < dst.Length1 && CopiedBefore(dst, src, x, y)
      modifies dst
      ensures CopiedBefore(dst, src, Advance(x, y, 0, dst.Length0 - 1).0, Advance(x, y, 0, dst.Length0 - 1).1)
    {
      dst[x, y] := src[x, y];
      forall a, b | 0 <= a < dst.Length0 {
        VisitedAdvance(a, b, x, y, 0, dst.Length0 - 1);
      }
    }

    /** The in-board cells not yet revealed; SpreadSafeArea shrinks it on
        every call that recurses. */
    ghost function Hidden(): set<Cell>
      reads this, Revealed
      requires Valid()
    {
      set x, y | 0 <= x < Width && 0 <= y < Height && !Revealed[x, y] :: (x, y)
    }

    /** Cells of the 3x3 block around `(px, py)`. */
    static predicate Adjacent(x: int, y: int, px: int, py: int)
    {
      px - 1 <= x <= px + 1 && py - 1 <= y <= py + 1
    }

    /** Flood-fill reveal from `(posX, posY)`: reveals the cell if it is
        in the board, hidden and safe, and if none of its neighbours is a
        mine spreads to all eight neighbours. */
    method SpreadSafeArea(posX: int, posY: int)
      requires Valid()
      modifies Revealed
      decreases Hidden(), 1
      ensures Valid()
      ensures Hidden() <= old(Hidden())
      ensures forall x, y :: 0 <= x < Width && 0 <= y < Height && old(Revealed[x, y]) ==> Revealed[x, y]
      ensures forall x, y :: 0 <= x < Width && 0 <= y < Height && Revealed[x, y] && !old(Revealed[x, y]) ==> !Mines[x, y]
      ensures IsPosInBoard(posX, posY) && !old(Revealed[posX, posY]) && !Mines[posX, posY] ==>
        Revealed[posX, posY]
      ensures (IsPosInBoard(posX, posY) && !old(Revealed[posX, posY]) && !Mines[posX, posY]
               && NeighborCount(Mines, posX, posY) == 0) ==>
        forall x, y :: 0 <= x < Width && 0 <= y < Height && Adjacent(x, y, posX, posY) ==> Mines[x, y] || Revealed[x, y]
    {
      if !IsPosInBoard(posX, posY) {
        return;
      }
      if Revealed[posX, posY] {
        return;
      }
      if Mines[posX, posY] {
        return;
      }
      ghost var hidden0 := Hidden();
      assert (posX, posY) in hidden0;
      Revealed[posX, posY] := true;
      assert Hidden() == hidden0 - {(posX, posY)};
      var mineCount := GetNeighborMineCount(posX, posY);
      if mineCount > 0 {
        return;
      }
      SpreadAround(posX, posY, hidden0);
    }

    /** The loop of SpreadSafeArea: spreads to the 3x3 block around
        `(posX, posY)`. `bound` is the hidden set before the caller
        revealed its cell, which makes the recursion terminate. */
    method SpreadAround(posX: int, posY: int, ghost bound: set<Cell>)
      requires Valid() && Hidden() < bound
      modifies Revealed
      decreases bound, 0
      ensures Valid()
      ensures Hidden() <= old(Hidden())
      ensures forall x, y :: 0 <= x < Width && 0 <= y < Height && old(Revealed[x, y]) ==> Revealed[x, y]
      ensures forall x, y :: 0 <= x < Width && 0 <= y < Height && Revealed[x, y] && !old(Revealed[x, y]) ==> !Mines[x, y]
      ensures forall x, y :: 0 <= x < Width && 0 <= y < Height && Adjacent(x, y, posX, posY) ==> Mines[x, y] || Revealed[x, y]
    {
      var iter := new BoardIterator(posX - 1, posY - 1, posX + 1, posY + 1);
      while iter.HasNext()
        invariant iter.Valid() && iter.MinX == posX - 1 && iter.MaxX == posX + 1
        invariant iter.MinY == posY - 1 && iter.MaxY == posY + 1 && iter.CurrentY <= posY + 2
        invariant Hidden() <= old(Hidden())
        invariant forall x, y :: 0 <= x < Width && 0 <= y < Height && old(Revealed[x, y]) ==> Revealed[x, y]
        invariant forall x, y :: 0 <= x < Width && 0 <= y < Height && Revealed[x, y] && !old(Revealed[x, y]) ==> !Mines[x, y]
        invariant forall x, y :: (0 <= x < Width && 0 <= y < Height && Adjacent(x, y, posX, posY)
                                  && Visited(x, y, iter.CurrentX, iter.CurrentY)) ==> Mines[x, y] || Revealed[x, y]
        modifies Revealed, iter
        decreases |iter.Remaining|
      {
        var x, y := iter.GetNext();
        forall a, b | posX - 1 <= a <= posX + 1 {
          VisitedAdvance(a, b, x, y, posX - 1, posX + 1);
        }
        if IsPosInBoard(x, y) {
          SpreadSafeArea(x, y);
        }
      }
    }

    /** The collection loop of PlaceMines: walks the board with an
        iterator and stores every cell but the protected one. */
    static method CollectPlaces(w: int, h: int, exceptX: int, exceptY: int) returns (minePlaces: array<Cell>)
      requires w >= 1 && h >= 1 && 0 <= exceptX < w && 0 <= exceptY < h
      ensures fresh(minePlaces)
      ensures minePlaces[..] == MinePlaces(w, h, exceptX, exceptY)
    {
      MinePlacesLength(w, h, exceptX, exceptY);
      var maxCount := w * h - 1;
      minePlaces := new Cell[maxCount];
      var iterCounter := 0;
      var iter := new BoardIterator(0, 0, w - 1, h - 1);
      ghost var e := (exceptX, exceptY);
      ghost var all := iter.Remaining;
      ghost var done: seq<Cell> := [];
      while iter.HasNext()
        invariant iter.Valid() && done + iter.Remaining == all
        invariant iterCounter == |Without(done, e)| <= maxCount
        invariant minePlaces[..iterCounter] == Without(done, e)
        modifies minePlaces, iter
        decreases |iter.Remaining|
      {
        iterCounter, done := CollectStep(iter, minePlaces, iterCounter, exceptX, exceptY, done, all);
      }
      assert done == all;
    }

    /** One pass of the collection loop: takes the iterator's next cell
        and stores it unless it is the protected cell. */
    static method CollectStep(iter: BoardIterator, minePlaces: array<Cell>, iterCounter: int,
                              exceptX: int, exceptY: int, ghost done: seq<Cell>, ghost all: seq<Cell>)
      returns (iterCounter': int, ghost done': seq<Cell>)
      requires iter.Valid() && iter.Remaining != [] && done + iter.Remaining == all
      requires |Without(all, (exceptX, exceptY))| == minePlaces.Length
      requires iterCounter == |Without(done, (exceptX, exceptY))| <= minePlaces.Length
      requires minePlaces[..iterCounter] == Without(done, (exceptX, exceptY))
      modifies iter, minePlaces
      ensures iter.Valid() && done' + iter.Remaining == all && |iter.Remaining| < |old(iter.Remaining)|
      ensures iterCounter' == |Without(done', (exceptX, exceptY))| <= minePlaces.Length
      ensures minePlaces[..iterCounter'] == Without(done', (exceptX, exceptY))
    {
      ghost var e := (exceptX, exceptY);
      ghost var kept := Without(done, e);
      var x, y := iter.GetNext();
      PrefixStep(done, (x, y), iter.Remaining, all);
      WithoutSnoc(done, (x, y), e);
      WithoutPrefix(all, |done| + 1, e);
      done' := done + [(x, y)];
      iterCounter' := iterCounter;
      if !(x == exceptX && y == exceptY) {
        Keep(minePlaces, iterCounter, (x, y), kept);
        iterCounter' := iterCounter + 1;
      }
    }

    /** One store of the collection loop: `a[n] = c` after the `n` cells
        kept so far. */
    static method Keep(a: array<Cell>, n: int, c: Cell, ghost kept: seq<Cell>)
      requires 0 <= n < a.Length && a[..n] == kept
      modifies a
      ensures a[..n + 1] == kept + [c]
    {
      ghost var prior := a[..];
      a[n] := c;
      assert a[..] == prior[n := c];
      PutExtends(prior, n, c, kept);
    }

    /** The rand.Shuffle step of PlaceMines, with the shuffle's outcome
        given as `perm`: slot `i` receives the element that was at
        `perm[i]`. */
    static method Shuffle(a: array<Cell>, perm: seq<int>)
      requires IsPermutation(perm, a.Length)
      modifies a
      ensures forall i :: 0 <= i < a.Length ==> a[i] == old(a[perm[i]])
    {
      var prior := a[..];
      forall i | 0 <= i < a.Length {
        a[i] := prior[perm[i]];
      }
    }

    /** PlaceMines: collects every cell but the protected one, shuffles
        them with `perm` (the outcome of rand.Shuffle), and sets the first
        `min(count, w*h-1)` as mines. The protected cell must be on the
        board and the board non-empty, or the collection loop overruns its
        buffer (or `make` gets a negative length). */
    method PlaceMines(count: int, exceptX: int, exceptY: int, perm: seq<int>)
      requires Valid() && Width >= 1 && Height >= 1
      requires IsPosInBoard(exceptX, exceptY)
      requires IsPermutation(perm, Width * Height - 1)
      modifies Mines
      ensures CandidateCountHolds(Width, Height, exceptX, exceptY)
      ensures forall x, y :: 0 <= x < Width && 0 <= y < Height ==>
        Mines[x, y] == (old(Mines[x, y]) || (x, y) in MineSet(Width, Height, count, exceptX, exceptY, perm))
    {
      ghost var before := MineCells();
      MinePlacesLength(Width, Height, exceptX, exceptY);
      ghost var places := MinePlaces(Width, Height, exceptX, exceptY);
      var maxCount := Width * Height - 1;
      var count' := Min(count, maxCount);

      var minePlaces := CollectPlaces(Width, Height, exceptX, exceptY);
      Shuffle(minePlaces, perm);
      assert forall j :: 0 <= j < maxCount ==> minePlaces[j] == places[perm[j]];

      forall j | 0 <= j < count'
        ensures IsPosInBoard(minePlaces[j].0, minePlaces[j].1)
      {
        PlaceInBoard(Width, Height, exceptX, exceptY, perm, j);
      }
      MarkMines(minePlaces, count', before);
      ChosenAsPrefix(places, perm, minePlaces[..], Max(count', 0));
      assert MineSet(Width, Height, count, exceptX, exceptY, perm) == Elements(minePlaces[..Max(count', 0)]);
      forall x, y | 0 <= x < Width && 0 <= y < Height
        ensures Mines[x, y] == (old(Mines[x, y]) || (x, y) in MineSet(Width, Height, count, exceptX, exceptY, perm))
      {
        assert old(Mines[x, y]) == ((x, y) in before);
      }
    }

    /** The last loop of PlaceMines: sets the first `n` cells of `cells`
        (none for a negative `n`) as mines. */
    method MarkMines(cells: array<Cell>, n: int, ghost before: set<Cell>)
      requires Valid() && n <= cells.Length && MinesExactly(before)
      requires forall j :: 0 <= j < n ==> IsPosInBoard(cells[j].0, cells[j].1)
      modifies Mines
      ensures MinesExactly(before + Elements(cells[..Max(n, 0)]))
    {
      var i := 0;
      while i < n
        invariant 0 <= i && (i <= n || i == 0)
        invariant MinesExactly(before + Elements(cells[..i]))
        modifies Mines
      {
        assert cells[..i + 1] == cells[..i] + [cells[i]];
        assert Elements(cells[..i + 1]) == Elements(cells[..i]) + {cells[i]};
        SetMine(cells[i], before + Elements(cells[..i]));
        i := i + 1;
      }
    }

    /** The cells that hold a mine. */
    ghost function MineCells(): (r: set<Cell>)
      reads this, Mines
      requires Valid()
      ensures MinesExactly(r)
    {
      set x, y | 0 <= x < Width && 0 <= y < Height && Mines[x, y] :: (x, y)
    }

    /** On the board, the mines are exactly the cells of `s`. */
    ghost predicate MinesExactly(s: set<Cell>)
      reads this, Mines
      requires Valid()
    {
      forall x, y :: 0 <= x < Width && 0 <= y < Height ==> Mines[x, y] == ((x, y) in s)
    }

    /** The store of PlaceMines' last loop. */
    method SetMine(c: Cell, ghost s: set<Cell>)
      requires Valid() && IsPosInBoard(c.0, c.1) && MinesExactly(s)
      modifies Mines
      ensures MinesExactly(s + {c})
    {
      Mines[c.0, c.1] := true;
    }
  }
}
