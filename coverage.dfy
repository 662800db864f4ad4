/**
  The coverage grid of the environment: which cell a position falls in, when
  a visit is recorded, and how the grid is reduced to a fitness score
  (Simulator.update, its last lines, and Simulator.call).
 */
module Coverage {

  /** Java's cast of a double to int: the fraction is dropped, rounding toward zero. */
  function TruncateToInt(v: real): (i: int)
    ensures 0.0 <= v ==> i as real <= v < i as real + 1.0
    ensures v < 0.0 ==> i as real - 1.0 < v <= i as real
    ensures 0 <= i <==> -1.0 < v
  {
    if v >= 0.0 then v.Floor else -((-v).Floor)
  }

  /**
    The grid index of a coordinate: the coordinate over the subdivision size,
    truncated. Coordinates in (-size, 0) fall in cell 0 as well.
   */
  function CellIndex(coordinate: real, size: real): (i: int)
    requires size > 0.0
    ensures 0 <= i <==> -size < coordinate
  {
    var ratio := coordinate / size;
    assert ratio * size == coordinate;
    assert -1.0 < ratio <==> -size < coordinate by {
      if -1.0 < ratio { ProductBelow(-1.0, ratio, size); }
      if -size < coordinate && ratio <= -1.0 { ProductAtMost(ratio, -1.0, size); }
    }
    TruncateToInt(ratio)
  }

  lemma ProductBelow(a: real, b: real, c: real)
    requires a < b && c > 0.0
    ensures a * c < b * c
  {
  }

  lemma ProductAtMost(a: real, b: real, c: real)
    requires a <= b && c > 0.0
    ensures a * c <= b * c
  {
  }

  /**
    A visit is recorded only when BOTH indices differ from the ones last
    recorded; a move along one axis alone is not recorded.
   */
  predicate ShouldMark(cellX: int, cellY: int, previousX: int, previousY: int): (marks: bool)
    ensures marks ==> (cellX, cellY) != (previousX, previousY)
    ensures cellX == previousX || cellY == previousY ==> !marks
  {
    cellX != previousX && cellY != previousY
  }

  /**
    How one update changes grid and trackers: with `cell` the vehicle's cell,
    a visit that ShouldMark lets through adds one to that cell and moves the
    trackers to it, or fails (`ok` false) when the cell is not in the grid;
    in every other case nothing changes.
   */
  ghost predicate VisitRecorded(before: seq<seq<int>>, after: seq<seq<int>>,
                                trackers: (int, int), newTrackers: (int, int), cell: (int, int), ok: bool): (recorded: bool)
    ensures recorded ==> |after| == |before|
    ensures recorded && !ok ==> after == before && newTrackers == trackers
    ensures recorded && newTrackers != trackers ==> ok && newTrackers == cell && 0 <= cell.0 < |before| && 0 <= cell.1 < |before[cell.0]|
  {
    var marks := ShouldMark(cell.0, cell.1, trackers.0, trackers.1);
    && ok == (!marks || (0 <= cell.0 < |before| && 0 <= cell.1 < |before[cell.0]|))
    && if marks && ok then after == Bump(before, cell.0, cell.1) && newTrackers == cell
       else after == before && newTrackers == trackers
  }

  /** A rectangular grid of visit counts, as a sequence of columns. */
  ghost predicate IsGrid(g: seq<seq<int>>, width: nat, height: nat)
  {
    |g| == width && forall i :: 0 <= i < width ==> |g[i]| == height
  }

  /** The grid with one more visit to cell [i][j]. */
  function Bump(g: seq<seq<int>>, i: nat, j: nat): (h: seq<seq<int>>)
    requires i < |g| && j < |g[i]|
    ensures |h| == |g| && forall a :: 0 <= a < |g| ==> |h[a]| == |g[a]|
    ensures forall a, b :: 0 <= a < |g| && 0 <= b < |g[a]| ==>
              h[a][b] == if a == i && b == j then g[a][b] + 1 else g[a][b]
  {
    g[i := g[i][j := g[i][j] + 1]]
  }

  /** Two grids of the same shape that agree on every cell are equal. */
  lemma GridExtensionality(g: seq<seq<int>>, h: seq<seq<int>>)
    requires |g| == |h| && forall a :: 0 <= a < |g| ==> |g[a]| == |h[a]|
    requires forall a, b :: 0 <= a < |g| && 0 <= b < |g[a]| ==> g[a][b] == h[a][b]
    ensures g == h
  {
    forall a | 0 <= a < |g| ensures g[a] == h[a] {
      assert forall b :: 0 <= b < |g[a]| ==> g[a][b] == h[a][b];
    }
  }

  /** The contribution of one cell: a count of at most 1 adds itself, a larger count is subtracted. */
  function CellScore(v: int): (score: int)
    ensures v <= 1 ==> score == v
    ensures v > 1 ==> score == -v
  {
    v * (if v > 1 then -1 else 1)
  }

  /** The sum of the cell scores of a column, accumulated from the front. */
  function ColumnScore(cells: seq<int>): int
  {
    if cells == [] then 0
    else ColumnScore(cells[..|cells| - 1]) + CellScore(cells[|cells| - 1])
  }

  /** The fitness of a grid: the sum of its column scores, accumulated from the front. */
  function GridScore(g: seq<seq<int>>): int
  {
    if g == [] then 0
    else GridScore(g[..|g| - 1]) + ColumnScore(g[|g| - 1])
  }

  /** All cells of a grid, column after column. */
  function Flatten(g: seq<seq<int>>): seq<int>
  {
    if g == [] then [] else Flatten(g[..|g| - 1]) + g[|g| - 1]
  }

  lemma {:induction false} ColumnScoreAppend(s: seq<int>, t: seq<int>)
    ensures ColumnScore(s + t) == ColumnScore(s) + ColumnScore(t)
  {
    if t != [] {
      var n := |t| - 1;
      assert (s + t)[..|s + t| - 1] == s + t[..n];
      ColumnScoreAppend(s, t[..n]);
    } else {
      assert s + t == s;
    }
  }

  /** The grid's fitness is the score of all its cells taken as one sequence. */
  lemma {:induction false} GridScoreIsFlatScore(g: seq<seq<int>>)
    ensures GridScore(g) == ColumnScore(Flatten(g))
  {
    if g != [] {
      GridScoreIsFlatScore(g[..|g| - 1]);
      ColumnScoreAppend(Flatten(g[..|g| - 1]), g[|g| - 1]);
    }
  }

  /** Removing one cell from a sequence removes exactly its score. */
  lemma ColumnScoreWithout(s: seq<int>, k: nat)
    requires k < |s|
    ensures ColumnScore(s) == ColumnScore(s[..k] + s[k + 1..]) + CellScore(s[k])
  {
    var front, back := s[..k] + [s[k]], s[k + 1..];
    assert s == front + back;
    assert front[..k] == s[..k];
    ColumnScoreAppend(front, back);
    ColumnScoreAppend(s[..k], back);
  }

  /** The score depends only on which counts occur, not on the order they are visited in. */
  lemma {:induction false} ColumnScoreOrderFree(s: seq<int>, t: seq<int>)
    requires multiset(s) == multiset(t)
    ensures ColumnScore(s) == ColumnScore(t)
  {
    if s == [] {
      assert |t| == |multiset(t)| == 0;
    } else {
      var n := |s| - 1;
      var x := s[n];
      assert s == s[..n] + [x];
      assert x in multiset(t);
      var k :| 0 <= k < |t| && t[k] == x;
      var rest := t[..k] + t[k + 1..];
      assert t == t[..k] + [x] + t[k + 1..];
      assert multiset(rest) == multiset(t) - multiset{x};
      assert multiset(s[..n]) == multiset(s) - multiset{x};
      ColumnScoreOrderFree(s[..n], rest);
      ColumnScoreWithout(t, k);
    }
  }

  /** Two grids holding the same counts, in whatever arrangement, have the same fitness. */
  lemma GridScoreOrderFree(g: seq<seq<int>>, h: seq<seq<int>>)
    requires multiset(Flatten(g)) == multiset(Flatten(h))
    ensures GridScore(g) == GridScore(h)
  {
    GridScoreIsFlatScore(g);
    GridScoreIsFlatScore(h);
    ColumnScoreOrderFree(Flatten(g), Flatten(h));
  }

  /** A column whose cells are all 0 or 1 scores the number of 1-cells. */
  lemma {:induction false} ColumnScoreOfZerosAndOnes(s: seq<int>)
    requires forall k :: 0 <= k < |s| ==> s[k] == 0 || s[k] == 1
    ensures ColumnScore(s) == multiset(s)[1]
  {
    if s != [] {
      var n := |s| - 1;
      assert s == s[..n] + [s[n]];
      ColumnScoreOfZerosAndOnes(s[..n]);
    }
  }

  /** A grid whose cells are all 0 or 1 scores the number of 1-cells. */
  lemma {:induction false} GridScoreOfZerosAndOnes(g: seq<seq<int>>)
    requires forall i, j :: 0 <= i < |g| && 0 <= j < |g[i]| ==> g[i][j] == 0 || g[i][j] == 1
    ensures GridScore(g) == multiset(Flatten(g))[1]
  {
    if g != [] {
      var n := |g| - 1;
      GridScoreOfZerosAndOnes(g[..n]);
      ColumnScoreOfZerosAndOnes(g[n]);
    }
  }

  /** A fresh, all-zero grid scores 0. */
  lemma {:induction false} GridScoreOfZeros(g: seq<seq<int>>)
    requires forall i, j :: 0 <= i < |g| && 0 <= j < |g[i]| ==> g[i][j] == 0
    ensures GridScore(g) == 0
  {
    if g != [] {
      var n := |g| - 1;
      GridScoreOfZeros(g[..n]);
      ColumnScoreOfZerosAndOnes(g[n]);
      assert 1 !in g[n];
    }
  }

  /** Changing one cell of a column changes its score by the difference of the two cell scores. */
  lemma {:induction false} ColumnScoreUpdate(s: seq<int>, j: nat, v: int)
    requires j < |s|
    ensures ColumnScore(s[j := v]) == ColumnScore(s) - CellScore(s[j]) + CellScore(v)
  {
    var n := |s| - 1;
    if j < n {
      assert s[j := v][..n] == s[..n][j := v];
      ColumnScoreUpdate(s[..n], j, v);
    } else {
      assert s[j := v][..n] == s[..n];
    }
  }

  /** Changing one column of a grid changes its fitness by the difference of the two column scores. */
  lemma {:induction false} GridScoreUpdate(g: seq<seq<int>>, i: nat, column: seq<int>)
    requires i < |g|
    ensures GridScore(g[i := column]) == GridScore(g) - ColumnScore(g[i]) + ColumnScore(column)
  {
    var n := |g| - 1;
    if i < n {
      assert g[i := column][..n] == g[..n][i := column];
      GridScoreUpdate(g[..n], i, column);
    } else {
      assert g[i := column][..n] == g[..n];
    }
  }

  /**
    One more visit to a cell: a first visit (0 to 1) raises fitness by exactly
    1, a second (1 to 2) lowers it by 3, every later one lowers it by 1.
   */
  lemma BumpChangesFitness(g: seq<seq<int>>, i: nat, j: nat)
    requires i < |g| && j < |g[i]|
    ensures GridScore(Bump(g, i, j)) == GridScore(g) - CellScore(g[i][j]) + CellScore(g[i][j] + 1)
    ensures g[i][j] == 0 ==> GridScore(Bump(g, i, j)) == GridScore(g) + 1
    ensures g[i][j] == 1 ==> GridScore(Bump(g, i, j)) == GridScore(g) - 3
    ensures g[i][j] >= 2 ==> GridScore(Bump(g, i, j)) == GridScore(g) - 1
  {
    ColumnScoreUpdate(g[i], j, g[i][j] + 1);
    GridScoreUpdate(g, i, g[i][j := g[i][j] + 1]);
  }

  /** The cells of a two-dimensional array, as a sequence of columns. */
  ghost function Cells(a: array2<int>): (g: seq<seq<int>>)
    reads a
    ensures IsGrid(g, a.Length0, a.Length1)
    ensures forall i, j :: 0 <= i < a.Length0 && 0 <= j < a.Length1 ==> g[i][j] == a[i, j]
  {
    seq(a.Length0, i requires 0 <= i < a.Length0 reads a =>
      seq(a.Length1, j requires 0 <= j < a.Length1 reads a => a[i, j]))
  }

  /** The fitness loop of Simulator.call: every cell of every column, in order. */
  method Fitness(grid: array2<int>) returns (fitness: int)
    ensures fitness == GridScore(Cells(grid))
  {
    ghost var g := Cells(grid);
    fitness := 0;
    for i := 0 to grid.Length0
      invariant fitness == GridScore(g[..i])
    {
      ghost var column := g[i];
      for j := 0 to grid.Length1
        invariant fitness == GridScore(g[..i]) + ColumnScore(column[..j])
      {
        assert column[..j + 1][..j] == column[..j];
        fitness := fitness + grid[i, j] * (if grid[i, j] > 1 then -1 else 1);
      }
      assert column[..grid.Length1] == column;
      assert g[..i + 1][..i] == g[..i];
    }
    assert g[..grid.Length0] == g;
  }
}
