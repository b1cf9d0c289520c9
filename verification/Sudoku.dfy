/**
 The backtracking solver of the rust_sudoku sample app (sampleapps/rust_sudoku/src/main.rs).
 Solve works in place on an 81-cell grid with an array of next candidates, as the original does.
 It is proved to terminate, to succeed exactly when the givens can be completed, to leave the
 lexicographically first completion, and to restore the givens when there is none.
 */
module Sudoku {
  import opened Bytes

  /** Different cells that share a row, a column or a box. */
  predicate Peers(i: int, j: int) {
    && i != j
    && (i / 9 == j / 9 || i % 9 == j % 9 || (i / 9 / 3 == j / 9 / 3 && i % 9 / 3 == j % 9 / 3))
  }

  /** No peer of cell `i` holds `v`. */
  ghost predicate Fits(g: seq<int>, i: int, v: int)
    requires |g| == 81
  {
    forall j :: 0 <= j < 81 && Peers(i, j) ==> g[j] != v
  }

  ghost predicate NoneFits(g: seq<int>, i: int, lo: int, hi: int)
    requires |g| == 81
  {
    forall v :: lo <= v < hi ==> !Fits(g, i, v)
  }

  /** No digit is repeated in a row, a column or a box; empty cells are ignored. */
  ghost predicate NoClash(g: seq<int>)
    requires |g| == 81
  {
    forall i, j :: 0 <= i < 81 && 0 <= j < 81 && Peers(i, j) && g[i] != 0 ==> g[i] != g[j]
  }

  /** `g` fills every cell with a digit and keeps the givens. */
  ghost predicate Fills(givens: seq<int>, g: seq<int>) {
    && |givens| == |g| == 81
    && (forall i :: 0 <= i < 81 ==> 1 <= g[i] <= 9)
    && (forall i :: 0 <= i < 81 && givens[i] != 0 ==> g[i] == givens[i])
  }

  /** `g` fills the grid and repeats no digit. */
  ghost predicate Completes(givens: seq<int>, g: seq<int>) {
    Fills(givens, g) && NoClash(g)
  }

  /** `a` is smaller than `p` at the first position where they differ, inside `p`. */
  ghost predicate LexLess(a: seq<int>, p: seq<int>) {
    exists k :: 0 <= k < |a| && k < |p| && a[..k] == p[..k] && a[k] < p[k]
  }

  lemma {:induction false} LexTotal(a: seq<int>, b: seq<int>)
    requires |a| == |b| && a != b
    ensures LexLess(a, b) || LexLess(b, a)
  {
    var n := |a| - 1;
    if a[..n] == b[..n] {
      assert a == a[..n] + [a[n]] && b == b[..n] + [b[n]];
    } else {
      LexTotal(a[..n], b[..n]);
      var k :| 0 <= k < n && a[..n][..k] == b[..n][..k] && a[..n][k] != b[..n][k];
      assert a[..k] == a[..n][..k] && b[..k] == b[..n][..k];
    }
  }

  function RowCell(i: int, o: int): int { i / 9 * 9 + o }
  function ColumnCell(i: int, o: int): int { o * 9 + i % 9 }
  function BoxCell(i: int, r: int, c: int): int { (i / 9 / 3 * 3 + r) * 9 + i % 9 / 3 * 3 + c }

  /** The peers of a cell are the other cells of its row, its column and its box. */
  lemma PeersAreLines(i: int, j: int)
    requires 0 <= i < 81 && 0 <= j < 81
    ensures i / 9 == j / 9 ==> j == RowCell(i, j % 9)
    ensures i % 9 == j % 9 ==> j == ColumnCell(i, j / 9)
    ensures i / 9 / 3 == j / 9 / 3 && i % 9 / 3 == j % 9 / 3 ==> j == BoxCell(i, j / 9 % 3, j % 9 % 3)
  {
  }

  lemma RowsArePeers(i: int, o: int)
    requires 0 <= i < 81 && 0 <= o < 9
    ensures 0 <= RowCell(i, o) < 81 && (RowCell(i, o) == i || Peers(i, RowCell(i, o)))
  {
    var q := i / 9;
    assert 0 <= q < 9 && (q * 9 + o) / 9 == q;
  }

  lemma ColumnsArePeers(i: int, o: int)
    requires 0 <= i < 81 && 0 <= o < 9
    ensures 0 <= ColumnCell(i, o) < 81 && (ColumnCell(i, o) == i || Peers(i, ColumnCell(i, o)))
  {
    var r := i % 9;
    assert 0 <= r < 9 && (o * 9 + r) % 9 == r;
  }

  lemma BoxesArePeers(i: int, r: int, c: int)
    requires 0 <= i < 81 && 0 <= r < 3 && 0 <= c < 3
    ensures 0 <= BoxCell(i, r, c) < 81 && (BoxCell(i, r, c) == i || Peers(i, BoxCell(i, r, c)))
  {
    assert BoxCell(i, r, c) / 9 == i / 9 / 3 * 3 + r;
  }

  /** Cell `j` is `i` itself or does not hold `v`. */
  predicate Clear(g: seq<int>, i: int, j: int, v: int) {
    0 <= j < |g| && (j == i || g[j] != v)
  }

  lemma ClearLinesFit(g: seq<int>, i: int, v: int)
    requires |g| == 81 && 0 <= i < 81
    requires forall o :: 0 <= o < 9 ==> Clear(g, i, RowCell(i, o), v) && Clear(g, i, ColumnCell(i, o), v)
    requires forall r, c :: 0 <= r < 3 && 0 <= c < 3 ==> Clear(g, i, BoxCell(i, r, c), v)
    ensures Fits(g, i, v)
  {
    forall j | 0 <= j < 81 && Peers(i, j)
      ensures g[j] != v
    {
      PeersAreLines(i, j);
      assert 0 <= j % 9 < 9 && 0 <= j / 9 < 9 && 0 <= j / 9 % 3 < 3 && 0 <= j % 9 % 3 < 3;
    }
  }

  method CanPlace(grid: seq<int>, index: int, value: int) returns (ok: bool)
    requires |grid| == 81 && 0 <= index < 81
    ensures ok <==> Fits(grid, index, value)
  {
    for offset := 0 to 9
      invariant forall o :: 0 <= o < offset ==>
                  Clear(grid, index, RowCell(index, o), value) && Clear(grid, index, ColumnCell(index, o), value)
    {
      RowsArePeers(index, offset);
      ColumnsArePeers(index, offset);
      var rowIndex, columnIndex := RowCell(index, offset), ColumnCell(index, offset);
      if (rowIndex != index && grid[rowIndex] == value) || (columnIndex != index && grid[columnIndex] == value) {
        return false;
      }
    }
    for rowOffset := 0 to 3
      invariant forall r, c :: 0 <= r < rowOffset && 0 <= c < 3 ==> Clear(grid, index, BoxCell(index, r, c), value)
    {
      for columnOffset := 0 to 3
        invariant forall c :: 0 <= c < columnOffset ==> Clear(grid, index, BoxCell(index, rowOffset, c), value)
      {
        BoxesArePeers(index, rowOffset, columnOffset);
        var boxIndex := BoxCell(index, rowOffset, columnOffset);
        if boxIndex != index && grid[boxIndex] == value {
          return false;
        }
      }
    }
    ClearLinesFit(grid, index, value);
    return true;
  }

  // ---------- the termination measure ----------

  /** The value of a sequence of digits below 11, most significant first. */
  ghost function Rank(d: seq<int>): int {
    if d == [] then 0 else Rank(d[..|d| - 1]) * 11 + d[|d| - 1]
  }

  ghost function TopRank(n: nat): int {
    if n == 0 then 0 else TopRank(n - 1) * 11 + 10
  }

  lemma {:induction false} RankBound(d: seq<int>)
    requires forall k :: 0 <= k < |d| ==> 0 <= d[k] <= 10
    ensures Rank(d) <= TopRank(|d|)
  {
    if d != [] {
      RankBound(d[..|d| - 1]);
    }
  }

  lemma {:induction false} RankIsLexicographic(a: seq<int>, b: seq<int>, k: int)
    requires |a| == |b| && 0 <= k < |a| && a[..k] == b[..k] && a[k] < b[k]
    requires forall i :: 0 <= i < |a| ==> 0 <= a[i] <= 10 && 0 <= b[i] <= 10
    ensures Rank(a) < Rank(b)
  {
    var n := |a| - 1;
    if k == n {
      assert a[..n] == b[..n];
    } else {
      assert a[..n][..k] == a[..k] && b[..n][..k] == b[..k];
      RankIsLexicographic(a[..n], b[..n], k);
    }
  }

  /** The digit of cell `k` when the search stands at cell `index`. */
  ghost function Digit(givens: seq<int>, next: seq<int>, index: int, k: int): int
    requires |givens| == |next| == 81 && 0 <= k <= 81
  {
    if k > index then 0
    else if k == 81 || givens[k] != 0 then 1
    else if k == index then next[k]
    else next[k] - 1
  }

  /**
   What the search has left behind: cells before `index` are decided, later ones are still open.
   Read as a number in base 11 it grows with every advance and with every backtrack.
   */
  ghost function Digits(givens: seq<int>, next: seq<int>, index: int): (d: seq<int>)
    requires |givens| == |next| == 81
    ensures |d| == 82 && forall k :: 0 <= k < 82 ==> d[k] == Digit(givens, next, index, k)
  {
    seq(82, k requires 0 <= k < 82 => Digit(givens, next, index, k))
  }

  ghost function Left(givens: seq<int>, next: seq<int>, index: int): int
    requires |givens| == |next| == 81
  {
    TopRank(82) - Rank(Digits(givens, next, index))
  }

  // ---------- the search ----------

  /** The first choices not yet ruled out: the decided cells, then the next candidate of an open cell. */
  ghost function Frontier(givens: seq<int>, grid: seq<int>, next: seq<int>, index: int): seq<int>
    requires |givens| == |grid| == |next| == 81 && 0 <= index <= 81
  {
    if index < 81 && givens[index] == 0 then grid[..index] + [next[index]] else grid[..index]
  }

  ghost predicate NoneBelow(givens: seq<int>, p: seq<int>) {
    forall g :: Completes(givens, g) ==> !LexLess(g, p)
  }

  ghost predicate Cells(givens: seq<int>, grid: seq<int>, next: seq<int>, index: int) {
    && |givens| == |grid| == |next| == 81
    && 0 <= index <= 81
    && (forall k :: 0 <= k < 81 ==> 0 <= givens[k] <= 9)
    && (forall k :: 0 <= k < 81 && givens[k] != 0 ==> grid[k] == givens[k])
    && (forall k :: 0 <= k < index && givens[k] == 0 ==> 1 <= grid[k] <= 9 && next[k] == grid[k] + 1)
    && (index < 81 ==> 1 <= next[index] <= 10)
    && (forall k :: 0 <= k < 81 && (k > index || givens[k] != 0) ==> next[k] == 1)
    && (forall k :: index < k < 81 && givens[k] == 0 ==> grid[k] == 0)
    && NoClash(grid)
  }

  ghost predicate Searching(givens: seq<int>, grid: seq<int>, next: seq<int>, index: int) {
    && Cells(givens, grid, next, index)
    && NoneBelow(givens, Frontier(givens, grid, next, index))
  }

  lemma DigitsInRange(givens: seq<int>, grid: seq<int>, next: seq<int>, index: int)
    requires Cells(givens, grid, next, index)
    ensures var d := Digits(givens, next, index); forall k :: 0 <= k < 82 ==> 0 <= d[k] <= 10
    ensures Left(givens, next, index) >= 0
  {
    RankBound(Digits(givens, next, index));
  }

  lemma LeftFalls(givens: seq<int>, g0: seq<int>, n0: seq<int>, i0: int, g1: seq<int>, n1: seq<int>, i1: int, k: int)
    requires Cells(givens, g0, n0, i0) && Cells(givens, g1, n1, i1)
    requires 0 <= k < 82
    requires forall j :: 0 <= j < k ==> Digit(givens, n0, i0, j) == Digit(givens, n1, i1, j)
    requires Digit(givens, n0, i0, k) < Digit(givens, n1, i1, k)
    ensures 0 <= Left(givens, n1, i1) < Left(givens, n0, i0)
  {
    DigitsInRange(givens, g0, n0, i0);
    DigitsInRange(givens, g1, n1, i1);
    RankIsLexicographic(Digits(givens, n0, i0), Digits(givens, n1, i1), k);
  }

  /** A filling below the raised frontier was below the old one, or repeats a digit. */
  lemma BelowSkipped(givens: seq<int>, grid: seq<int>, index: int, lo: int, hi: int, g: seq<int>)
    requires Fills(givens, g) && |grid| == 81 && 0 <= index < 81
    requires forall k :: index < k < 81 && givens[k] == 0 ==> grid[k] == 0
    requires forall k :: 0 <= k < 81 && givens[k] != 0 ==> grid[k] == givens[k]
    requires grid[index] == 0 && NoneFits(grid, index, lo, hi)
    requires LexLess(g, grid[..index] + [hi])
    ensures LexLess(g, grid[..index] + [lo]) || !NoClash(g)
  {
    var p, q := grid[..index] + [lo], grid[..index] + [hi];
    var k :| 0 <= k < |g| && k < |q| && g[..k] == q[..k] && g[k] < q[k];
    assert p[..k] == q[..k];
    if k == index && lo <= g[k] {
      assert !Fits(grid, index, g[index]);
      var j :| 0 <= j < 81 && Peers(index, j) && grid[j] == g[index];
      if j < index {
        assert g[..k][j] == q[..k][j];
      }
    }
  }

  /** Raising the last entry past values that clash loses no completion. */
  lemma SkipClashing(givens: seq<int>, grid: seq<int>, index: int, lo: int, hi: int)
    requires |givens| == |grid| == 81 && 0 <= index < 81
    requires NoneBelow(givens, grid[..index] + [lo])
    requires forall k :: index < k < 81 && givens[k] == 0 ==> grid[k] == 0
    requires forall k :: 0 <= k < 81 && givens[k] != 0 ==> grid[k] == givens[k]
    requires grid[index] == 0 && NoneFits(grid, index, lo, hi)
    ensures NoneBelow(givens, grid[..index] + [hi])
  {
    forall g | Fills(givens, g) && LexLess(g, grid[..index] + [hi])
      ensures LexLess(g, grid[..index] + [lo]) || !NoClash(g)
    {
      BelowSkipped(givens, grid, index, lo, hi, g);
    }
  }

  lemma BelowExtended(givens: seq<int>, p: seq<int>, g: seq<int>)
    requires Fills(givens, g) && LexLess(g, p + [1])
    ensures LexLess(g, p)
  {
    var q := p + [1];
    var k :| 0 <= k < |g| && k < |q| && g[..k] == q[..k] && g[k] < q[k];
    assert q[..k] == p[..k];
  }

  /** Fixing one more cell, whatever follows starts at 1. */
  lemma ExtendFrontier(givens: seq<int>, p: seq<int>)
    requires NoneBelow(givens, p)
    ensures NoneBelow(givens, p + [1])
  {
    forall g | Fills(givens, g) && LexLess(g, p + [1])
      ensures LexLess(g, p)
    {
      BelowExtended(givens, p, g);
    }
  }

  lemma BelowGiven(givens: seq<int>, grid: seq<int>, index: int, g: seq<int>)
    requires Fills(givens, g) && |grid| == 81 && 0 <= index < 81
    requires givens[index] != 0 && grid[index] == givens[index]
    requires LexLess(g, grid[..index + 1])
    ensures LexLess(g, grid[..index])
  {
    var p := grid[..index + 1];
    var k :| 0 <= k < |g| && k < |p| && g[..k] == p[..k] && g[k] < p[k];
    assert p[..k] == grid[..index][..k];
  }

  /** A given cell adds no choice. */
  lemma AppendGiven(givens: seq<int>, grid: seq<int>, index: int)
    requires |givens| == |grid| == 81 && 0 <= index < 81 && givens[index] != 0 && grid[index] == givens[index]
    requires NoneBelow(givens, grid[..index])
    ensures NoneBelow(givens, grid[..index + 1])
  {
    forall g | Fills(givens, g) && LexLess(g, grid[..index + 1])
      ensures LexLess(g, grid[..index])
    {
      BelowGiven(givens, grid, index, g);
    }
  }

  lemma BelowPrevious(givens: seq<int>, grid: seq<int>, j: int, index: int, g: seq<int>)
    requires Fills(givens, g) && |grid| == 81 && 0 <= j < index < 81
    requires forall k :: j < k < index ==> givens[k] != 0 && grid[k] == givens[k]
    requires LexLess(g, grid[..j] + [grid[j] + 1])
    ensures LexLess(g, grid[..index] + [10])
  {
    var p, q := grid[..index] + [10], grid[..j] + [grid[j] + 1];
    var k :| 0 <= k < |g| && k < |q| && g[..k] == q[..k] && g[k] < q[k];
    assert q[..k] == p[..k];
    if g[k] >= p[k] {
      assert k == j && g[j] == grid[j];
      assert forall i :: 0 <= i < j ==> g[i] == g[..k][i] == grid[i];
      assert g[..index] == p[..index] && g[index] < p[index];
    }
  }

  /** When all nine digits are ruled out at `index`, the previous open cell `j` must take a larger one. */
  lemma Backtrack(givens: seq<int>, grid: seq<int>, j: int, index: int)
    requires |givens| == |grid| == 81 && 0 <= j < index < 81
    requires forall k :: j < k < index ==> givens[k] != 0 && grid[k] == givens[k]
    requires NoneBelow(givens, grid[..index] + [10])
    ensures NoneBelow(givens, grid[..j] + [grid[j] + 1])
  {
    forall g | Fills(givens, g) && LexLess(g, grid[..j] + [grid[j] + 1])
      ensures LexLess(g, grid[..index] + [10])
    {
      BelowPrevious(givens, grid, j, index, g);
    }
  }

  lemma NoneBelowTen(givens: seq<int>, grid: seq<int>, index: int)
    requires |givens| == |grid| == 81 && 0 <= index < 81
    requires forall k :: 0 <= k < index ==> givens[k] != 0 && grid[k] == givens[k]
    requires NoneBelow(givens, grid[..index] + [10])
    ensures !exists g :: Completes(givens, g)
  {
    forall g | Fills(givens, g)
      ensures LexLess(g, grid[..index] + [10])
    {
      var p := grid[..index] + [10];
      assert g[..index] == p[..index] && g[index] < p[index];
    }
  }

  lemma Placed(grid: seq<int>, index: int, v: int)
    requires |grid| == 81 && 0 <= index < 81 && NoClash(grid) && Fits(grid, index, v)
    ensures NoClash(grid[index := v])
  {
    var g := grid[index := v];
    forall i, j | 0 <= i < 81 && 0 <= j < 81 && Peers(i, j) && g[i] != 0
      ensures g[i] != g[j]
    {
      assert Peers(j, i);
    }
  }

  lemma AdvanceOverGiven(givens: seq<int>, grid: seq<int>, next: seq<int>, index: int)
    requires Searching(givens, grid, next, index) && index < 81 && givens[index] != 0
    ensures Searching(givens, grid, next, index + 1)
    ensures 0 <= Left(givens, next, index + 1) < Left(givens, next, index)
  {
    AppendGiven(givens, grid, index);
    Decide(givens, grid, next, index + 1);
    LeftFalls(givens, grid, next, index, grid, next, index + 1, index + 1);
  }

  /** Reaching a cell whose next candidate is 1 adds nothing to rule out. */
  lemma Decide(givens: seq<int>, grid: seq<int>, next: seq<int>, index: int)
    requires Cells(givens, grid, next, index) && NoneBelow(givens, grid[..index])
    requires index < 81 ==> next[index] == 1
    ensures Searching(givens, grid, next, index)
  {
    ExtendFrontier(givens, grid[..index]);
  }

  lemma AdvanceWithCandidate(givens: seq<int>, grid: seq<int>, next: seq<int>, index: int, c: int)
    requires Searching(givens, grid, next, index) && index < 81 && givens[index] == 0
    requires next[index] <= c <= 9
    requires NoneFits(grid[index := 0], index, next[index], c)
    requires Fits(grid[index := 0], index, c)
    ensures Searching(givens, grid[index := c], next[index := c + 1], index + 1)
    ensures 0 <= Left(givens, next[index := c + 1], index + 1) < Left(givens, next, index)
  {
    hide LexLess;
    hide Left;
    hide NoneBelow;
    hide Completes;
    var grid0, grid1, next1 := grid[index := 0], grid[index := c], next[index := c + 1];
    assert grid0[..index] == grid[..index] && grid1[..index + 1] == grid[..index] + [c];
    SkipClashing(givens, grid0, index, next[index], c);
    assert NoClash(grid1) by {
      assert grid1 == grid0[index := c];
      Placed(grid0, index, c);
    }
    Decide(givens, grid1, next1, index + 1);
    LeftFalls(givens, grid, next, index, grid1, next1, index + 1, if next[index] < c then index else index + 1);
  }

  lemma AllRuledOut(givens: seq<int>, grid: seq<int>, next: seq<int>, index: int)
    requires Searching(givens, grid, next, index) && index < 81 && givens[index] == 0
    requires NoneFits(grid[index := 0], index, next[index], 10)
    ensures NoneBelow(givens, grid[..index] + [10])
  {
    assert grid[index := 0][..index] == grid[..index];
    SkipClashing(givens, grid[index := 0], index, next[index], 10);
  }

  lemma StepBack(givens: seq<int>, grid: seq<int>, next: seq<int>, index: int, j: int)
    requires Searching(givens, grid, next, index) && 0 <= j < index < 81 && givens[index] == 0 == givens[j]
    requires NoneFits(grid[index := 0], index, next[index], 10)
    requires forall k :: j < k < index ==> givens[k] != 0
    ensures Searching(givens, grid[index := 0], next[index := 1], j)
    ensures 0 <= Left(givens, next[index := 1], j) < Left(givens, next, index)
  {
    AllRuledOut(givens, grid, next, index);
    Backtrack(givens, grid, j, index);
    var grid1, next1 := grid[index := 0], next[index := 1];
    assert grid1[..j] == grid[..j] && next1[j] == grid[j] + 1;
    LeftFalls(givens, grid, next, index, grid1, next1, j, j);
  }

  lemma NoWayBack(givens: seq<int>, grid: seq<int>, next: seq<int>, index: int)
    requires Searching(givens, grid, next, index) && index < 81 && givens[index] == 0
    requires NoneFits(grid[index := 0], index, next[index], 10)
    requires forall k :: 0 <= k < index ==> givens[k] != 0
    ensures !exists g :: Completes(givens, g)
    ensures grid[index := 0] == givens
  {
    AllRuledOut(givens, grid, next, index);
    NoneBelowTen(givens, grid, index);
  }

  lemma Finished(givens: seq<int>, grid: seq<int>, next: seq<int>)
    requires Searching(givens, grid, next, 81)
    ensures Completes(givens, grid)
    ensures forall g :: Completes(givens, g) && g != grid ==> LexLess(grid, g)
  {
    assert grid[..81] == grid;
    forall g | Completes(givens, g) && g != grid
      ensures LexLess(grid, g)
    {
      LexTotal(grid, g);
    }
  }

  /** The smallest candidate from `from` on that fits, or 10. */
  method NextCandidate(grid: seq<int>, index: int, from: int) returns (candidate: int)
    requires |grid| == 81 && 0 <= index < 81 && 0 <= from <= 10
    ensures from <= candidate <= 10
    ensures candidate <= 9 ==> Fits(grid, index, candidate)
    ensures NoneFits(grid, index, from, candidate)
  {
    candidate := from;
    while candidate <= 9
      invariant from <= candidate <= 10
      invariant NoneFits(grid, index, from, candidate)
    {
      var ok := CanPlace(grid, index, candidate);
      if ok {
        break;
      }
      candidate := candidate + 1;
    }
  }

  /** The checks of lines 167-172: no given is out of range and no two givens clash. */
  method GivensAdmissible(givens: seq<int>) returns (ok: bool)
    requires |givens| == 81 && forall i :: 0 <= i < 81 ==> givens[i] >= 0
    ensures ok <==> (forall i :: 0 <= i < 81 ==> givens[i] <= 9) && NoClash(givens)
  {
    for index := 0 to 81
      invariant forall i :: 0 <= i < index ==> givens[i] <= 9 && (givens[i] == 0 || Fits(givens, i, givens[i]))
    {
      var value := givens[index];
      if value > 9 {
        return false;
      }
      if value != 0 {
        var placeable := CanPlace(givens, index, value);
        if !placeable {
          return false;
        }
      }
    }
    return true;
  }

  /** The last open cell before `index`, or -1: the inner loop of lines 195-203. */
  method PreviousOpen(givens: seq<int>, index: int) returns (j: int)
    requires |givens| == 81 && 0 <= index < 81
    ensures -1 <= j < index && (j >= 0 ==> givens[j] == 0)
    ensures forall k :: j < k < index ==> givens[k] != 0
  {
    j := index;
    while true
      invariant 0 <= j <= index
      invariant forall k :: j <= k < index ==> givens[k] != 0
      decreases j
    {
      if j == 0 {
        return -1;
      }
      j := j - 1;
      if givens[j] == 0 {
        return j;
      }
    }
  }

  method Solve(grid: array<Byte>) returns (solved: bool)
    requires grid.Length == 81
    modifies grid
    ensures solved <==> exists g :: Completes(old(grid[..]), g)
    ensures solved ==> Completes(old(grid[..]), grid[..])
    ensures solved ==> forall g :: Completes(old(grid[..]), g) && g != grid[..] ==> LexLess(grid[..], g)
    ensures !solved ==> grid[..] == old(grid[..])
  {
    hide Completes;
    hide LexLess;
    hide Left;
    hide NoneBelow;
    hide Frontier;
    hide NoneFits;
    hide Fits;
    hide NoClash;
    var givens := grid[..];
    var admissible := GivensAdmissible(givens);
    if !admissible {
      InadmissibleHasNoCompletion(givens);
      return false;
    }
    var next := new Byte[81](_ => 1);
    var index := 0;
    NothingBelow(givens, grid[..]);
    Decide(givens, grid[..], next[..], 0);
    while index < 81
      invariant next != grid && fresh(next) && next.Length == 81
      invariant Searching(givens, grid[..], next[..], index)
      decreases Left(givens, next[..], index)
    {
      ghost var g0, n0 := grid[..], next[..];
      if givens[index] != 0 {
        AdvanceOverGiven(givens, g0, n0, index);
        index := index + 1;
        continue;
      }
      grid[index] := 0;
      assert grid[..] == g0[index := 0];
      var candidate := NextCandidate(grid[..], index, next[index]);
      if candidate <= 9 {
        grid[index] := candidate;
        next[index] := candidate + 1;
        assert grid[..] == g0[index := candidate] && next[..] == n0[index := candidate + 1];
        AdvanceWithCandidate(givens, g0, n0, index, candidate);
        index := index + 1;
        continue;
      }
      next[index] := 1;
      assert next[..] == n0[index := 1];
      var back := PreviousOpen(givens, index);
      if back < 0 {
        NoWayBack(givens, g0, n0, index);
        return false;
      }
      StepBack(givens, g0, n0, index, back);
      index := back;
    }
    Finished(givens, grid[..], next[..]);
    return true;
  }

  /** At the start nothing has been ruled out. */
  lemma NothingBelow(givens: seq<int>, grid: seq<int>)
    requires |grid| == 81
    ensures NoneBelow(givens, grid[..0])
  {
  }

  lemma InadmissibleHasNoCompletion(givens: seq<int>)
    requires |givens| == 81
    requires !(forall i :: 0 <= i < 81 ==> givens[i] <= 9) || !NoClash(givens)
    ensures !exists g :: Completes(givens, g)
  {
  }
}
