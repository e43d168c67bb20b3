/** The invasion grid as a value, and the mass of the cells that the diagonal
    sweep has not yet visited. The sweep visits diagonals x + y = s in
    decreasing s, and each diagonal in increasing x; at the point (s, x) the
    cells still pending are those strictly below the diagonal and those on it
    from column x on. */
module Grid {

  type Cells = seq<seq<real>>

  /** `g` has `xMax + 1` columns of `yMax + 1` cells each. */
  predicate Shaped(g: Cells, xMax: int, yMax: int)
  {
    |g| == xMax + 1 && forall i :: 0 <= i < |g| ==> |g[i]| == yMax + 1
  }

  /** Cell (i, j) is not yet visited when the sweep stands at (s, x). */
  predicate Pending(i: int, j: int, s: int, x: int)
  {
    i + j < s || (i + j == s && i >= x)
  }

  function Weight(v: real, i: int, j: int, s: int, x: int): real
  {
    if Pending(i, j, s, x) then v else 0.0
  }

  /** The pending mass of the first `n` cells of column `i`. */
  ghost function ColumnMass(col: seq<real>, i: int, n: nat, s: int, x: int): real
    requires n <= |col|
  {
    if n == 0 then 0.0 else ColumnMass(col, i, n - 1, s, x) + Weight(col[n - 1], i, n - 1, s, x)
  }

  /** The pending mass of the first `n` columns. */
  ghost function PrefixMass(g: Cells, n: nat, s: int, x: int): real
    requires n <= |g|
  {
    if n == 0 then 0.0 else PrefixMass(g, n - 1, s, x) + ColumnMass(g[n - 1], n - 1, |g[n - 1]|, s, x)
  }

  /** The mass of all pending cells. */
  ghost function PendingMass(g: Cells, s: int, x: int): real
  {
    PrefixMass(g, |g|, s, x)
  }

  /** g with cell (i, j) set to v. */
  function Put(g: Cells, i: int, j: int, v: real): (h: Cells)
    requires 0 <= i < |g| && 0 <= j < |g[i]|
    ensures |h| == |g| && forall k :: 0 <= k < |g| ==> |h[k]| == |g[k]|
    ensures h[i][j] == v
    ensures forall k, l :: 0 <= k < |g| && 0 <= l < |g[k]| && (k != i || l != j) ==> h[k][l] == g[k][l]
  {
    g[i := g[i][j := v]]
  }

  /** Two grids of the same shape that agree on every cell are equal. */
  lemma SameCells(g: Cells, h: Cells, xMax: int, yMax: int)
    requires Shaped(g, xMax, yMax) && Shaped(h, xMax, yMax)
    requires forall i, j :: 0 <= i <= xMax && 0 <= j <= yMax ==> g[i][j] == h[i][j]
    ensures g == h
  {
    forall i | 0 <= i <= xMax ensures g[i] == h[i] {
      assert forall j :: 0 <= j <= yMax ==> g[i][j] == h[i][j];
    }
  }

  // ---- column lemmas ----

  lemma {:induction false} ColumnPut(col: seq<real>, i: int, n: nat, j: int, v: real, s: int, x: int)
    requires n <= |col| && 0 <= j < |col|
    ensures ColumnMass(col[j := v], i, n, s, x)
         == ColumnMass(col, i, n, s, x) + (if j < n then Weight(v, i, j, s, x) - Weight(col[j], i, j, s, x) else 0.0)
  {
    if n > 0 { ColumnPut(col, i, n - 1, j, v, s, x); }
  }

  lemma {:induction false} ColumnSame(col: seq<real>, i: int, n: nat, s: int, x: int, s': int, x': int)
    requires n <= |col|
    requires forall j :: 0 <= j < n ==> Pending(i, j, s, x) == Pending(i, j, s', x')
    ensures ColumnMass(col, i, n, s, x) == ColumnMass(col, i, n, s', x')
  {
    if n > 0 { ColumnSame(col, i, n - 1, s, x, s', x'); }
  }

  lemma {:induction false} ColumnStep(col: seq<real>, i: int, n: nat, s: int)
    requires n <= |col|
    ensures ColumnMass(col, i, n, s, i)
         == ColumnMass(col, i, n, s, i + 1) + (if 0 <= s - i < n then col[s - i] else 0.0)
  {
    if n > 0 { ColumnStep(col, i, n - 1, s); }
  }

  lemma {:induction false} ColumnEmpty(col: seq<real>, i: int, n: nat, s: int, x: int)
    requires n <= |col|
    requires forall j :: 0 <= j < n ==> !Pending(i, j, s, x) || col[j] == 0.0
    ensures ColumnMass(col, i, n, s, x) == 0.0
  {
    if n > 0 { ColumnEmpty(col, i, n - 1, s, x); }
  }

  // ---- grid lemmas ----

  lemma {:induction false} PrefixPut(g: Cells, n: nat, i: int, j: int, v: real, s: int, x: int)
    requires n <= |g| && 0 <= i < |g| && 0 <= j < |g[i]|
    ensures PrefixMass(Put(g, i, j, v), n, s, x)
         == PrefixMass(g, n, s, x) + (if i < n then Weight(v, i, j, s, x) - Weight(g[i][j], i, j, s, x) else 0.0)
  {
    if n > 0 {
      PrefixPut(g, n - 1, i, j, v, s, x);
      if n - 1 == i {
        ColumnPut(g[i], i, |g[i]|, j, v, s, x);
      } else {
        assert Put(g, i, j, v)[n - 1] == g[n - 1];
      }
    }
  }

  /** Writing v into a cell changes the pending mass by the change of that
      cell, if it is pending, and not at all otherwise. */
  lemma PendingPut(g: Cells, i: int, j: int, v: real, s: int, x: int)
    requires 0 <= i < |g| && 0 <= j < |g[i]|
    ensures PendingMass(Put(g, i, j, v), s, x)
         == PendingMass(g, s, x) + (if Pending(i, j, s, x) then v - g[i][j] else 0.0)
  {
    PrefixPut(g, |g|, i, j, v, s, x);
  }

  lemma {:induction false} PrefixSame(g: Cells, n: nat, s: int, x: int, s': int, x': int)
    requires n <= |g|
    requires forall i, j :: 0 <= i < n && 0 <= j < |g[i]| ==> Pending(i, j, s, x) == Pending(i, j, s', x')
    ensures PrefixMass(g, n, s, x) == PrefixMass(g, n, s', x')
  {
    if n > 0 {
      PrefixSame(g, n - 1, s, x, s', x');
      ColumnSame(g[n - 1], n - 1, |g[n - 1]|, s, x, s', x');
    }
  }

  /** Two sweep positions that leave the same cells pending leave the same mass. */
  lemma PendingSame(g: Cells, s: int, x: int, s': int, x': int)
    requires forall i, j :: 0 <= i < |g| && 0 <= j < |g[i]| ==> Pending(i, j, s, x) == Pending(i, j, s', x')
    ensures PendingMass(g, s, x) == PendingMass(g, s', x')
  {
    PrefixSame(g, |g|, s, x, s', x');
  }

  lemma {:induction false} PrefixStep(g: Cells, n: nat, s: int, x: int)
    requires n <= |g| && 0 <= x
    ensures PrefixMass(g, n, s, x)
         == PrefixMass(g, n, s, x + 1) + (if x < n && 0 <= s - x < |g[x]| then g[x][s - x] else 0.0)
  {
    if n > 0 {
      PrefixStep(g, n - 1, s, x);
      var c := g[n - 1];
      if n - 1 == x {
        ColumnStep(c, x, |c|, s);
      } else {
        ColumnSame(c, n - 1, |c|, s, x, s, x + 1);
      }
    }
  }

  /** Visiting cell (x, s - x) takes exactly its mass out of the pending mass. */
  lemma PendingStep(g: Cells, s: int, x: int)
    requires 0 <= x < |g| && 0 <= s - x < |g[x]|
    ensures PendingMass(g, s, x) == PendingMass(g, s, x + 1) + g[x][s - x]
  {
    PrefixStep(g, |g|, s, x);
  }

  lemma {:induction false} PrefixEmpty(g: Cells, n: nat, s: int, x: int)
    requires n <= |g|
    requires forall i, j :: 0 <= i < n && 0 <= j < |g[i]| ==> !Pending(i, j, s, x) || g[i][j] == 0.0
    ensures PrefixMass(g, n, s, x) == 0.0
  {
    if n > 0 {
      PrefixEmpty(g, n - 1, s, x);
      ColumnEmpty(g[n - 1], n - 1, |g[n - 1]|, s, x);
    }
  }

  /** When no pending cell holds mass, the pending mass is zero. */
  lemma PendingEmpty(g: Cells, s: int, x: int)
    requires forall i, j :: 0 <= i < |g| && 0 <= j < |g[i]| ==> !Pending(i, j, s, x) || g[i][j] == 0.0
    ensures PendingMass(g, s, x) == 0.0
  {
    PrefixEmpty(g, |g|, s, x);
  }
}
