/** Scans over the cells of a grid that the loader (internal/track/loader.go) makes in
    x-outer, y-inner order: the count and coordinate sums of the cells of one kind, and
    the first cell of a kind. */
module GridScan {
  import opened GoNumerics
  import opened Track

  datatype Option<T> = None | Some(value: T)

  /** `w` columns of `h` cells each. */
  predicate Rectangular(cells: seq<seq<Cell>>, w: int, h: int)
  {
    |cells| == w && forall x :: 0 <= x < |cells| ==> |cells[x]| == h
  }

  // ---------------------------------------------------------------------------
  // Tallies, defined on prefixes in scan order

  /** Number of cells of `kind` in a column. */
  function ColCount(col: seq<Cell>, kind: CellType): nat
  {
    if |col| == 0 then 0
    else ColCount(col[..|col| - 1], kind) + (if col[|col| - 1].kind == kind then 1 else 0)
  }

  /** Sum of the `y` of the cells of `kind` in a column. */
  function ColYSum(col: seq<Cell>, kind: CellType): int
  {
    if |col| == 0 then 0
    else ColYSum(col[..|col| - 1], kind) + (if col[|col| - 1].kind == kind then |col| - 1 else 0)
  }

  /** Sum of the `x` of the cells of `kind` in column `x`: `x` once per such cell. */
  function ColXSum(col: seq<Cell>, kind: CellType, x: int): int
  {
    if |col| == 0 then 0
    else ColXSum(col[..|col| - 1], kind, x) + (if col[|col| - 1].kind == kind then x else 0)
  }

  /** The tallies of a column grow by cell `y` when it is of `kind`. */
  lemma ColTallyStep(col: seq<Cell>, kind: CellType, x: int, y: int)
    requires 0 <= y < |col|
    ensures var hit := col[y].kind == kind;
      && ColCount(col[..y + 1], kind) == ColCount(col[..y], kind) + (if hit then 1 else 0)
      && ColXSum(col[..y + 1], kind, x) == ColXSum(col[..y], kind, x) + (if hit then x else 0)
      && ColYSum(col[..y + 1], kind) == ColYSum(col[..y], kind) + (if hit then y else 0)
  {
    assert col[..y + 1][..y] == col[..y];
  }

  function Count(cells: seq<seq<Cell>>, kind: CellType): nat
  {
    if |cells| == 0 then 0
    else Count(cells[..|cells| - 1], kind) + ColCount(cells[|cells| - 1], kind)
  }

  function XSum(cells: seq<seq<Cell>>, kind: CellType): int
  {
    if |cells| == 0 then 0
    else XSum(cells[..|cells| - 1], kind) + ColXSum(cells[|cells| - 1], kind, |cells| - 1)
  }

  function YSum(cells: seq<seq<Cell>>, kind: CellType): int
  {
    if |cells| == 0 then 0
    else YSum(cells[..|cells| - 1], kind) + ColYSum(cells[|cells| - 1], kind)
  }

  /** The tallies of a grid grow by column `x`'s. */
  lemma TallyStep(cells: seq<seq<Cell>>, kind: CellType, x: int)
    requires 0 <= x < |cells|
    ensures Count(cells[..x + 1], kind) == Count(cells[..x], kind) + ColCount(cells[x], kind)
    ensures XSum(cells[..x + 1], kind) == XSum(cells[..x], kind) + ColXSum(cells[x], kind, x)
    ensures YSum(cells[..x + 1], kind) == YSum(cells[..x], kind) + ColYSum(cells[x], kind)
  {
    assert cells[..x + 1][..x] == cells[..x];
  }

  // ---------------------------------------------------------------------------
  // Bounds on the tallies: each sum lies between 0 and (largest coordinate) * count

  lemma {:induction false} ColYSumBound(col: seq<Cell>, kind: CellType, h1: int)
    requires |col| <= h1 + 1
    ensures 0 <= ColYSum(col, kind) <= h1 * ColCount(col, kind)
  {
    if |col| > 0 {
      var p := col[..|col| - 1];
      ColYSumBound(p, kind, h1);
      if col[|col| - 1].kind == kind {
        calc {
          ColYSum(col, kind);
          ColYSum(p, kind) + (|col| - 1);
        <= h1 * ColCount(p, kind) + h1;
          h1 * (ColCount(p, kind) + 1);
          h1 * ColCount(col, kind);
        }
      }
    }
  }

  lemma {:induction false} ColXSumBound(col: seq<Cell>, kind: CellType, x: int, w1: int)
    requires 0 <= x <= w1
    ensures 0 <= ColXSum(col, kind, x) <= w1 * ColCount(col, kind)
  {
    if |col| > 0 {
      var p := col[..|col| - 1];
      ColXSumBound(p, kind, x, w1);
      if col[|col| - 1].kind == kind {
        calc {
          ColXSum(col, kind, x);
          ColXSum(p, kind, x) + x;
        <= w1 * ColCount(p, kind) + w1;
          w1 * (ColCount(p, kind) + 1);
          w1 * ColCount(col, kind);
        }
      }
    }
  }

  lemma {:induction false} XSumBound(cells: seq<seq<Cell>>, kind: CellType, w1: int)
    requires |cells| <= w1 + 1
    ensures 0 <= XSum(cells, kind) <= w1 * Count(cells, kind)
  {
    if |cells| > 0 {
      var p := cells[..|cells| - 1];
      var last := cells[|cells| - 1];
      XSumBound(p, kind, w1);
      ColXSumBound(last, kind, |cells| - 1, w1);
      calc {
        XSum(cells, kind);
        XSum(p, kind) + ColXSum(last, kind, |cells| - 1);
      <= w1 * Count(p, kind) + w1 * ColCount(last, kind);
        w1 * (Count(p, kind) + ColCount(last, kind));
        w1 * Count(cells, kind);
      }
    }
  }

  lemma {:induction false} YSumBound(cells: seq<seq<Cell>>, kind: CellType, h1: int)
    requires forall x :: 0 <= x < |cells| ==> |cells[x]| <= h1 + 1
    ensures 0 <= YSum(cells, kind) <= h1 * Count(cells, kind)
  {
    if |cells| > 0 {
      var p := cells[..|cells| - 1];
      var last := cells[|cells| - 1];
      YSumBound(p, kind, h1);
      ColYSumBound(last, kind, h1);
      calc {
        YSum(cells, kind);
        YSum(p, kind) + ColYSum(last, kind);
      <= h1 * Count(p, kind) + h1 * ColCount(last, kind);
        h1 * (Count(p, kind) + ColCount(last, kind));
        h1 * Count(cells, kind);
      }
    }
  }

  /** The truncated mean of values in [0, m] is in [0, m]. */
  lemma MeanInRange(sum: int, count: int, m: int)
    requires count > 0 && 0 <= sum <= m * count
    ensures 0 <= GoDiv(sum, count) <= m
  {
    var q := GoDiv(sum, count);
    assert q * count <= m * count;
    MulLeCancel(q, m, count);
    assert (-1) * count < q * count;
    MulLtCancel(-1, q, count);
  }

  /** The integer centroid of the cells of a kind, when there is one, lies in the grid. */
  lemma CentroidInGrid(cells: seq<seq<Cell>>, kind: CellType, w: int, h: int)
    requires Rectangular(cells, w, h) && Count(cells, kind) > 0 && h > 0
    ensures 0 <= GoDiv(XSum(cells, kind), Count(cells, kind)) < w
    ensures 0 <= GoDiv(YSum(cells, kind), Count(cells, kind)) < h
  {
    XSumBound(cells, kind, w - 1);
    YSumBound(cells, kind, h - 1);
    MeanInRange(XSum(cells, kind), Count(cells, kind), w - 1);
    MeanInRange(YSum(cells, kind), Count(cells, kind), h - 1);
  }

  // ---------------------------------------------------------------------------
  // The first cell of a kind in scan order

  /** The first `y >= from` in a column whose cell is of `kind`. */
  function FirstInColumn(col: seq<Cell>, kind: CellType, from: nat): (r: Option<int>)
    ensures r.Some? ==> from <= r.value < |col| && col[r.value].kind == kind
    ensures r.Some? ==> forall y :: from <= y < r.value ==> col[y].kind != kind
    ensures r.None? ==> forall y :: from <= y < |col| ==> col[y].kind != kind
    decreases |col| - from
  {
    if from >= |col| then None
    else if col[from].kind == kind then Some(from)
    else FirstInColumn(col, kind, from + 1)
  }

  /** The first cell of `kind` in columns `from` onward, scanning x outer and y inner. */
  function FirstFrom(cells: seq<seq<Cell>>, kind: CellType, from: nat): (r: Option<(int, int)>)
    ensures r.Some? ==>
      && from <= r.value.0 < |cells| && 0 <= r.value.1 < |cells[r.value.0]|
      && cells[r.value.0][r.value.1].kind == kind
      && (forall x, y :: from <= x < r.value.0 && 0 <= y < |cells[x]| ==> cells[x][y].kind != kind)
      && (forall y :: 0 <= y < r.value.1 ==> cells[r.value.0][y].kind != kind)
    ensures r.None? ==> forall x, y :: from <= x < |cells| && 0 <= y < |cells[x]| ==> cells[x][y].kind != kind
    decreases |cells| - from
  {
    if from >= |cells| then None
    else match FirstInColumn(cells[from], kind, 0)
      case Some(y) => Some((from, y))
      case None => FirstFrom(cells, kind, from + 1)
  }

  /** Where the walker starts: the integer centroid of the Start cells if there are any,
      else the first Tarmac cell, else (0, 0). */
  function StartPoint(cells: seq<seq<Cell>>): (int, int)
  {
    var n := Count(cells, Start);
    if n > 0 then (GoDiv(XSum(cells, Start), n), GoDiv(YSum(cells, Start), n))
    else match FirstFrom(cells, Tarmac, 0)
      case Some(p) => p
      case None => (0, 0)
  }

  /** The start point lies in the grid whenever the grid has a Start or a Tarmac cell;
      without Start cells it is the first Tarmac cell, or (0, 0) when there is none. */
  lemma StartPointSpec(cells: seq<seq<Cell>>, w: int, h: int)
    requires Rectangular(cells, w, h)
    ensures var (x, y) := StartPoint(cells);
      && (Count(cells, Start) > 0 || FirstFrom(cells, Tarmac, 0).Some? ==> 0 <= x < w && 0 <= y < h)
      && (Count(cells, Start) == 0 && FirstFrom(cells, Tarmac, 0).Some? ==> cells[x][y].kind == Tarmac)
      && (Count(cells, Start) == 0 && FirstFrom(cells, Tarmac, 0).None? ==> x == 0 && y == 0)
  {
    if Count(cells, Start) > 0 {
      CountNeedsCells(cells, Start, h);
      CentroidInGrid(cells, Start, w, h);
    }
  }

  /** A grid with a cell of some kind has cells: `h > 0`. */
  lemma {:induction false} CountNeedsCells(cells: seq<seq<Cell>>, kind: CellType, h: int)
    requires forall x :: 0 <= x < |cells| ==> |cells[x]| == h
    requires Count(cells, kind) > 0
    ensures h > 0
  {
    var p := cells[..|cells| - 1];
    if Count(p, kind) > 0 {
      CountNeedsCells(p, kind, h);
    } else {
      ColCountNeedsCells(cells[|cells| - 1], kind);
    }
  }

  lemma {:induction false} ColCountNeedsCells(col: seq<Cell>, kind: CellType)
    requires ColCount(col, kind) > 0
    ensures |col| > 0
  {
  }
}
