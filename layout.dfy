/** The per-bar geometry of one frame: cell sizes, the center column, the
    phase offset of each column, the bar width obtained from the shaped wave
    and the horizontal placement of the bar inside its cell. Everything is
    over exact reals; the floating-point rounding of the sketch is not
    modelled. */
module Layout {

  /** The offset modes of the control panel. */
  datatype OffsetMode = Symmetrical | Left | Right | Random

  /** The size of one of `count` equal cells that share `extent`: the last
      of them ends exactly at `extent`, and they are non-empty when the extent
      is not negative. */
  function CellSize(extent: real, count: int): (size: real)
    requires count >= 1
    ensures Scale(count, size) == extent
    ensures 0.0 <= extent ==> 0.0 <= size
  {
    extent / count as real
  }

  /** `floor(cols / 2)`. */
  function Half(cols: int): (half: int)
    requires cols >= 1
    ensures 0 <= half < cols
    ensures 2 * half <= cols <= 2 * half + 1
  {
    cols / 2
  }

  /** The center column: only an odd row has one, and among the columns of
      the row it is exactly the column that is its own mirror image. */
  predicate IsCenter(cols: int, j: int)
    requires cols >= 1
    ensures 0 <= j < cols ==> (IsCenter(cols, j) <==> j == cols - 1 - j)
  {
    cols % 2 != 0 && j == Half(cols)
  }

  /** An odd row has exactly one center column, an even row none. */
  lemma CenterColumnCount(cols: int)
    requires cols >= 1
    ensures |set j | 0 <= j < cols && IsCenter(cols, j)| == cols % 2
  {
    var centers := set j | 0 <= j < cols && IsCenter(cols, j);
    if cols % 2 != 0 {
      assert centers == {Half(cols)};
    } else {
      assert centers == {};
    }
  }

  /** The symmetrical-mode index `m`: the column's distance, in columns, to the
      nearer end of its row. */
  function MirrorIndex(cols: int, j: int): (m: int)
    requires cols >= 1 && 0 <= j < cols
    ensures m == if j <= cols - 1 - j then j else cols - 1 - j
    ensures 0 <= m <= (cols - 1) / 2 <= Half(cols)
  {
    if j < Half(cols) then j else cols - 1 - j
  }

  /** A column and its mirror column get the same symmetrical index, and the
      largest index, `floor((cols - 1) / 2)`, belongs to the middle column (the
      left one of the two middle columns of an even row). */
  lemma MirrorIndexSymmetric(cols: int, j: int)
    requires cols >= 1 && 0 <= j < cols
    ensures MirrorIndex(cols, j) == MirrorIndex(cols, cols - 1 - j)
    ensures MirrorIndex(cols, (cols - 1) / 2) == (cols - 1) / 2
  {
  }

  /** The column index that the left, right and symmetrical modes scale by
      the multiplier. */
  function OffsetIndex(mode: OffsetMode, cols: int, j: int): (k: int)
    requires cols >= 1 && 0 <= j < cols && mode != Random
    ensures 0 <= k < cols
    ensures mode == Symmetrical ==> k <= Half(cols)
  {
    match mode
    case Left => j
    case Right => cols - 1 - j
    case Symmetrical => MirrorIndex(cols, j)
  }

  /** The phase offset of column `j` of a row of `cols` columns. `draw` is the
      value the random stream hands this bar; only the random mode uses it. */
  function Offset(mode: OffsetMode, multiplier: real, cols: int, j: int, draw: real): (offset: real)
    requires cols >= 1 && 0 <= j < cols
    ensures mode != Random && 0.0 <= multiplier ==> 0.0 <= offset <= Scale(cols - 1, multiplier)
    ensures mode == Symmetrical && 0.0 <= multiplier ==> offset <= Scale(Half(cols), multiplier)
  {
    if mode == Random then draw * multiplier
    else
      var k := OffsetIndex(mode, cols, j);
      ScaledIndexBounds(k, cols - 1, multiplier);
      ScaledIndexBounds(k, Half(cols), multiplier);
      Scale(k, multiplier)
  }

  /** The right-mode offset of a column is the left-mode offset of its mirror
      column, the symmetrical offset is the same for a column and its mirror,
      and the random offset is the bar's draw scaled by the multiplier. */
  lemma OffsetMirrors(multiplier: real, cols: int, j: int, d1: real, d2: real)
    requires cols >= 1 && 0 <= j < cols
    ensures Offset(Right, multiplier, cols, j, d1) == Offset(Left, multiplier, cols, cols - 1 - j, d2)
    ensures Offset(Symmetrical, multiplier, cols, j, d1) == Offset(Symmetrical, multiplier, cols, cols - 1 - j, d2)
    ensures Offset(Random, multiplier, cols, j, d1) == d1 * multiplier
  {
    MirrorIndexSymmetric(cols, j);
  }

  /** An index between 0 and `bound`, scaled by a non-negative factor, lies
      between 0 and the scaled bound. */
  lemma ScaledIndexBounds(k: int, bound: int, factor: real)
    ensures 0 <= k <= bound && 0.0 <= factor ==>
      0.0 <= Scale(k, factor) <= Scale(bound, factor)
  {
    MulMonotone(0.0, k as real, factor);
    MulMonotone(k as real, bound as real, factor);
  }

  /** Scaling by a non-negative factor keeps the order. */
  lemma MulMonotone(a: real, b: real, c: real)
    ensures a <= b && 0.0 <= c ==> a * c <= b * c
  {
  }

  /** p5's `map`: the linear map sending `start1..stop1` onto `start2..stop2`;
      on the way it keeps the order of an increasing target range. */
  function Remap(n: real, start1: real, stop1: real, start2: real, stop2: real): (r: real)
    requires start1 != stop1
    ensures n == start1 ==> r == start2
    ensures n == stop1 ==> r == stop2
    ensures start1 < stop1 && start2 <= stop2 && start1 <= n <= stop1 ==> start2 <= r <= stop2
  {
    var fraction := (n - start1) / (stop1 - start1);
    ScaleBounds(fraction, stop2 - start2);
    fraction * (stop2 - start2) + start2
  }

  /** p5's `constrain`: `max(min(n, high), low)`. */
  function Constrain(n: real, low: real, high: real): (r: real)
    ensures low <= high ==> low <= r <= high
    ensures low <= n <= high ==> r == n
    ensures r == n || r == low || r == high
  {
    var capped := if n < high then n else high;
    if capped > low then capped else low
  }

  /** The bar width for shaped wave value `poweredWave`: the wave's range
      -1..1 mapped linearly onto 0..cellW and clamped to 0..cellW. */
  function BarWidth(poweredWave: real, cellW: real): (w: real)
    ensures 0.0 <= w
    ensures 0.0 <= cellW ==> w <= cellW
    ensures 0.0 <= cellW && -1.0 <= poweredWave <= 1.0 ==> w == (poweredWave + 1.0) / 2.0 * cellW
    ensures 0.0 <= cellW && poweredWave >= 1.0 ==> w == cellW
    ensures poweredWave <= -1.0 ==> w == 0.0
  {
    var fraction := (poweredWave + 1.0) / 2.0;
    assert Remap(poweredWave, -1.0, 1.0, 0.0, cellW) == fraction * cellW;
    ScaleBounds(fraction, cellW);
    Constrain(Remap(poweredWave, -1.0, 1.0, 0.0, cellW), 0.0, cellW)
  }

  /** A fraction in 0..1 of a non-negative length is between 0 and that length. */
  lemma ScaleBounds(fraction: real, length: real)
    ensures 0.0 <= fraction <= 1.0 && 0.0 <= length ==> 0.0 <= fraction * length <= length
  {
    if 0.0 <= fraction <= 1.0 && 0.0 <= length {
      MulMonotone(0.0, fraction, length);
      MulMonotone(fraction, 1.0, length);
    }
  }

  /** A zero wave gives half a cell, and a larger wave never gives a narrower bar. */
  lemma BarWidthMonotone(p1: real, p2: real, cellW: real)
    requires 0.0 <= cellW && p1 <= p2
    ensures BarWidth(0.0, cellW) == cellW / 2.0
    ensures BarWidth(p1, cellW) <= BarWidth(p2, cellW)
  {
    var f1, f2 := (p1 + 1.0) / 2.0, (p2 + 1.0) / 2.0;
    assert f1 <= f2;
    MulMonotone(f1, f2, cellW);
    ConstrainMonotone(f1 * cellW, f2 * cellW, 0.0, cellW);
    assert Remap(p1, -1.0, 1.0, 0.0, cellW) == f1 * cellW;
    assert Remap(p2, -1.0, 1.0, 0.0, cellW) == f2 * cellW;
  }

  lemma ConstrainMonotone(n1: real, n2: real, low: real, high: real)
    requires n1 <= n2
    ensures Constrain(n1, low, high) <= Constrain(n2, low, high)
  {
  }

  /** The columns of the symmetrical and random modes that are right-aligned
      with the 0.99 bias: neither the center nor in the left half. */
  predicate RightBiased(mode: OffsetMode, cols: int, j: int)
    requires cols >= 1
    ensures 0 <= j < cols ==>
      (RightBiased(mode, cols, j) <==> (mode == Symmetrical || mode == Random) && cols - 1 - j < j)
  {
    (mode == Symmetrical || mode == Random) && !IsCenter(cols, j) && j >= Half(cols)
  }

  /** The left edge of a bar of width `w` in column `j`. A bar no wider than
      its cell lies in its cell widened to the left by a hundredth of a cell. */
  function BarX(mode: OffsetMode, cols: int, j: int, cellW: real, w: real): (x: real)
    requires cols >= 1
    ensures 0 <= j < cols && 0.0 <= w <= cellW ==>
      Scale(j, cellW) - 0.01 * cellW <= x && x + w <= Scale(j, cellW) + cellW
  {
    ScaleNext(j, cellW);
    assert (j as real + 0.99) * cellW == Scale(j, cellW) + 0.99 * cellW;
    if mode == Left then Scale(j, cellW)
    else if mode == Right then Scale(j + 1, cellW) - w
    else if IsCenter(cols, j) then Scale(j, cellW) + (cellW - w) / 2.0
    else if j < Half(cols) then Scale(j, cellW)
    else (j as real + 0.99) * cellW - w
  }

  /** Where each mode puts a bar in its cell: flush left, flush right, centered
      with equal gaps, or ending at `(j + 0.99) * cellW`. */
  lemma BarAlignment(mode: OffsetMode, cols: int, j: int, cellW: real, w: real)
    requires cols >= 1 && 0 <= j < cols
    ensures var x := BarX(mode, cols, j, cellW, w);
      && (mode == Left ==> x == Scale(j, cellW))
      && (mode == Right ==> x + w == Scale(j + 1, cellW))
      && (mode != Left && mode != Right && IsCenter(cols, j) ==>
            x - Scale(j, cellW) == Scale(j + 1, cellW) - (x + w))
      && (mode != Left && mode != Right && j < Half(cols) ==> x == Scale(j, cellW))
      && (RightBiased(mode, cols, j) ==> x + w == (j as real + 0.99) * cellW)
  {
  }

  /** `k` steps of length `size`: where cell `k` starts along an axis of
      cells of size `size` (the left edge of column `k`, or the top of row
      `k`), and the phase offset of column index `k` at `size` per column. */
  function Scale(k: int, size: real): real
  {
    k as real * size
  }

  /** Cell `j2` starts at least one cell width, and two when `j2 >= j1 + 2`,
      after cell `j1`; cell `j + 1` starts exactly where cell `j` ends. */
  lemma ScaleStep(j1: int, j2: int, cellW: real)
    requires j1 < j2 && 0.0 <= cellW
    ensures Scale(j1, cellW) + cellW <= Scale(j2, cellW)
    ensures j1 + 2 <= j2 ==> Scale(j1, cellW) + 2.0 * cellW <= Scale(j2, cellW)
    ensures Scale(j1 + 1, cellW) == Scale(j1, cellW) + cellW
  {
    var gap := (j2 - j1) as real;
    assert Scale(j2, cellW) == Scale(j1, cellW) + gap * cellW;
    MulMonotone(1.0, gap, cellW);
    if j1 + 2 <= j2 {
      MulMonotone(2.0, gap, cellW);
    }
  }

  /** Cell `k + 1` starts one cell size after cell `k`. */
  lemma ScaleNext(k: int, size: real)
    ensures Scale(k + 1, size) == Scale(k, size) + size
  {
  }

  /** Cells start at 0 and further along for larger indices. */
  lemma ScaleMonotone(k1: int, k2: int, size: real)
    requires 0 <= k1 <= k2 && 0.0 <= size
    ensures Scale(0, size) == 0.0
    ensures 0.0 <= Scale(k1, size) <= Scale(k2, size)
  {
    MulMonotone(0.0, k1 as real, size);
    MulMonotone(k1 as real, k2 as real, size);
  }

  /** The mirror column `cols - 1 - j` starts where the reflection of the end
      of cell `j` lies. */
  lemma MirrorScale(cols: int, j: int, cellW: real)
    ensures Scale(cols - 1 - j, cellW) == Scale(cols, cellW) - Scale(j, cellW) - cellW
  {
  }

  /** Every bar that is not right-biased lies inside its cell; a right-biased
      bar lies in its cell shifted left by a hundredth of the cell width, and
      so, in a cell of positive width, ends strictly before the cell's right
      edge. */
  lemma BarWithinCell(mode: OffsetMode, cols: int, j: int, cellW: real, w: real)
    requires cols >= 1 && 0 <= j < cols
    requires 0.0 <= w <= cellW
    ensures var x, left := BarX(mode, cols, j, cellW, w), Scale(j, cellW);
      && (!RightBiased(mode, cols, j) ==> left <= x && x + w <= left + cellW)
      && (RightBiased(mode, cols, j) ==> left - 0.01 * cellW <= x && x + w <= left + 0.99 * cellW)
      && (RightBiased(mode, cols, j) && 0.0 < cellW ==> x + w < left + cellW)
  {
    BarAlignment(mode, cols, j, cellW, w);
    ScaleNext(j, cellW);
    assert (j as real + 0.99) * cellW == Scale(j, cellW) + 0.99 * cellW;
  }

  /** A bar no wider than its cell lies within its row: right-biased bars,
      which overhang their cell on the left, are never in column 0. */
  lemma BarInsideRow(mode: OffsetMode, cols: int, j: int, width: real, w: real)
    requires cols >= 1 && 0 <= j < cols
    ensures var cellW := CellSize(width, cols);
      var x := BarX(mode, cols, j, cellW, w);
      0.0 <= width && 0.0 <= w <= cellW ==> 0.0 <= x && x + w <= width
  {
    var cellW := CellSize(width, cols);
    if 0.0 <= width && 0.0 <= w <= cellW {
      BarWithinCell(mode, cols, j, cellW, w);
      ScaleMonotone(j + 1, cols, cellW);
      ScaleStep(j, j + 1, cellW);
      if RightBiased(mode, cols, j) {
        ScaleStep(j - 1, j, cellW);
        ScaleMonotone(j - 1, j, cellW);
      } else {
        ScaleMonotone(j, j, cellW);
      }
    }
  }

  /** Row `i` of `rows` equal rows lies within the height. */
  lemma RowInsideHeight(i: int, rows: int, height: real)
    requires 0 <= i < rows
    ensures var cellH := CellSize(height, rows);
      0.0 <= height ==> 0.0 <= Scale(i, cellH) && Scale(i, cellH) + cellH <= height
  {
    var cellH := CellSize(height, rows);
    if 0.0 <= height {
      ScaleStep(i, i + 1, cellH);
      ScaleMonotone(i + 1, rows, cellH);
      ScaleMonotone(i, i, cellH);
    }
  }

  /** A full-width right-biased bar starts before its own cell: the bias
      pushes it a hundredth of a cell into its left neighbor. */
  lemma BiasedBarOverhang()
    ensures RightBiased(Symmetrical, 2, 1)
    ensures BarX(Symmetrical, 2, 1, 100.0, 100.0) < Scale(1, 100.0)
  {
  }

  /** Bars of one row do not overlap, except that the first right-biased bar
      may reach back over the bar just before it. */
  lemma RowBarsDisjoint(mode: OffsetMode, cols: int, cellW: real, j1: int, w1: real, j2: int, w2: real)
    requires cols >= 1 && 0 <= j1 < j2 < cols
    requires 0.0 <= w1 <= cellW && 0.0 <= w2 <= cellW
    requires !(RightBiased(mode, cols, j2) && !RightBiased(mode, cols, j1) && j2 == j1 + 1)
    ensures BarX(mode, cols, j1, cellW, w1) + w1 <= BarX(mode, cols, j2, cellW, w2)
  {
    BarWithinCell(mode, cols, j1, cellW, w1);
    BarWithinCell(mode, cols, j2, cellW, w2);
    ScaleStep(j1, j2, cellW);
  }

  /** The seam overlap happens: in a symmetrical row of two full-width bars
      the second starts before the first ends. */
  lemma SeamOverlap()
    ensures RightBiased(Symmetrical, 2, 1) && !RightBiased(Symmetrical, 2, 0)
    ensures BarX(Symmetrical, 2, 1, 100.0, 100.0) < BarX(Symmetrical, 2, 0, 100.0, 100.0) + 100.0
  {
  }

  /** The symmetrical and random placement is mirror-symmetric about the middle
      of the row, up to the 0.99 bias: a left-half bar and the bar of its
      mirror column (of the same width) are reflections of each other, except
      that the mirror bar sits a hundredth of a cell further left; the center
      bar is its own reflection. The right mode is the exact reflection of the
      left mode. */
  lemma PlacementMirrors(mode: OffsetMode, cols: int, j: int, cellW: real, w: real)
    requires cols >= 1 && 0 <= j < cols
    ensures var rowW := Scale(cols, cellW);
      && (mode != Left && mode != Right && j < Half(cols) ==>
            BarX(mode, cols, cols - 1 - j, cellW, w) + w
              == rowW - BarX(mode, cols, j, cellW, w) - 0.01 * cellW)
      && (mode != Left && mode != Right && IsCenter(cols, j) ==>
            BarX(mode, cols, j, cellW, w) + w == rowW - BarX(mode, cols, j, cellW, w))
      && BarX(Right, cols, j, cellW, w) + w == rowW - BarX(Left, cols, cols - 1 - j, cellW, w)
  {
    var k := cols - 1 - j;
    MirrorScale(cols, j, cellW);
    BarAlignment(mode, cols, j, cellW, w);
    BarAlignment(mode, cols, k, cellW, w);
    BarAlignment(Right, cols, j, cellW, w);
    BarAlignment(Left, cols, k, cellW, w);
    ScaleNext(j, cellW);
    assert (k as real + 0.99) * cellW == Scale(k, cellW) + 0.99 * cellW;
    if j < Half(cols) {
      assert !IsCenter(cols, k) && k >= Half(cols);
    }
    if IsCenter(cols, j) {
      assert k == j;
    }
  }
}
