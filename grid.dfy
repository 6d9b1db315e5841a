/** The staircase shape of the grid: row `i` has `baseCols + i` cells, one
    more than the row above, and the rows are painted one after another.
    This module knows nothing of bars; it relates a cell (i, j) to its place
    in the flattened painting order. */
module Grid {

  /** The number of cells in the rows before row `i`. */
  function CellsBefore(baseCols: nat, i: nat): nat
  {
    if i == 0 then 0 else CellsBefore(baseCols, i - 1) + baseCols + (i - 1)
  }

  /** `sum_{r < i} (baseCols + r) = i * baseCols + i * (i - 1) / 2`. */
  lemma {:induction false} CellsBeforeClosedForm(baseCols: nat, i: nat)
    ensures 2 * CellsBefore(baseCols, i) == i * (2 * baseCols + i - 1)
  {
    if i > 0 {
      CellsBeforeClosedForm(baseCols, i - 1);
      assert 2 * CellsBefore(baseCols, i)
          == (i - 1) * (2 * baseCols + i - 2) + 2 * baseCols + 2 * (i - 1);
    }
  }

  /** Every row adds its cells to the count. */
  lemma {:induction false} CellsBeforeMonotone(baseCols: nat, i: nat, k: nat)
    requires i <= k
    ensures CellsBefore(baseCols, i) <= CellsBefore(baseCols, k)
    ensures i < k ==> CellsBefore(baseCols, i) + baseCols + i <= CellsBefore(baseCols, k)
  {
    if i < k {
      CellsBeforeMonotone(baseCols, i, k - 1);
    }
  }

  /** The rows of a grid, one after another. */
  function Flatten<T>(g: seq<seq<T>>): seq<T>
  {
    if |g| == 0 then [] else Flatten(g[..|g| - 1]) + g[|g| - 1]
  }

  /** Row `r` of the grid has `baseCols + r` cells. */
  predicate Staircase<T>(g: seq<seq<T>>, baseCols: nat)
  {
    forall r :: 0 <= r < |g| ==> |g[r]| == baseCols + r
  }

  /** Appending a row to the grid appends its cells to the flattening. */
  lemma FlattenSnoc<T>(g: seq<seq<T>>, i: nat)
    requires i < |g|
    ensures Flatten(g[..i + 1]) == Flatten(g[..i]) + g[i]
  {
    assert g[..i + 1][..i] == g[..i];
  }

  /** A staircase of `n` rows holds `CellsBefore(baseCols, n)` cells. */
  lemma {:induction false} FlattenLength<T>(g: seq<seq<T>>, baseCols: nat)
    requires Staircase(g, baseCols)
    ensures |Flatten(g)| == CellsBefore(baseCols, |g|)
  {
    if |g| > 0 {
      FlattenLength(g[..|g| - 1], baseCols);
    }
  }

  /** Cell (i, j) of a staircase comes after the cells of the rows above it
      and the `j` cells to its left. */
  lemma {:induction false} FlattenIndex<T>(g: seq<seq<T>>, baseCols: nat, i: nat, j: nat)
    requires Staircase(g, baseCols) && i < |g| && j < |g[i]|
    ensures CellsBefore(baseCols, i) + j < |Flatten(g)|
    ensures Flatten(g)[CellsBefore(baseCols, i) + j] == g[i][j]
  {
    var n := |g|;
    var before := g[..n - 1];
    FlattenLength(before, baseCols);
    FlattenLength(g, baseCols);
    if i == n - 1 {
    } else {
      FlattenIndex(before, baseCols, i, j);
      CellsBeforeMonotone(baseCols, i, n - 1);
    }
  }

  /** Every position of the flattening is the position of some cell. */
  lemma {:induction false} CellOfIndex<T>(g: seq<seq<T>>, baseCols: nat, k: nat) returns (i: nat, j: nat)
    requires Staircase(g, baseCols) && k < |Flatten(g)|
    ensures i < |g| && j < |g[i]| && CellsBefore(baseCols, i) + j == k
  {
    var n := |g|;
    FlattenLength(g, baseCols);
    FlattenLength(g[..n - 1], baseCols);
    if k < |Flatten(g[..n - 1])| {
      i, j := CellOfIndex(g[..n - 1], baseCols, k);
    } else {
      i, j := n - 1, k - CellsBefore(baseCols, n - 1);
    }
  }
}
