# Grid wave sketch — a verified model of one frame

The sketch paints a staircase grid of bars whose widths pulse with a sine
wave. Row `i` of `rows` rows has `baseCols + i` equal cells. Every cell holds
one bar, whose width is the cell width scaled by a shaped wave value. Each
column's wave phase is shifted by an offset. The offset depends on the offset
mode (symmetrical, left, right or random) and the offset multiplier. The bar
sits in its cell flush left, flush right, centered, or right-aligned with a
0.99 bias, according to the mode and the column. Its color comes from a
four-entry color table: either one fixed entry, or the entries cycled row by
row. The canvas is the largest 4:3 box that fits the window beside the
300-pixel control panel.

The model has five modules:

- `Palette` (`palette.dfy`): the color table and the fill color of a row.
- `Layout` (`layout.dfy`): the geometry of one bar, i.e. cell size, center
  column, mirror index, offset, bar width from the wave, and horizontal
  placement.
- `Grid` (`grid.dfy`): the staircase shape. It relates cell (i, j) to its
  position in painting order and flattens rows into one sequence.
- `Frame` (`frame.dfy`): the bar of every cell and the whole frame as a
  sequence of bars in painting order. `Frame.Draw` and `Frame.DrawRow` are
  the nested painting loop, proved to produce exactly that sequence.
- `CanvasFit` (`canvas_fit.dfy`): the aspect fit run at start-up and on
  every resize.

The wave `sign(sin(phase)) * |sin(phase)|^exponent` is not computed: it is
a parameter `shape` from (phase, exponent) to the shaped wave value. The
model computes the phase, `frameCount * 0.05 + offset`, itself. The random
stream is the sequence of values it hands out after `randomSeed(99)`, plus a
read position. A random-mode frame reseeds, so it always reads draws 0, 1,
2, ... in painting order. Painting a bar (`fill` then `rect`) is modelled
as appending a `Bar(x, y, w, h, fill)` to the frame's output sequence.

Arithmetic is over exact reals. `Scale(k, size)` names the product
`k * size`: the left edge of column `k`, the top of row `k`, and the phase
offset of column index `k` at `size` per column.

### Overlapping bars

In the symmetrical and random modes, a column in the right half that is not
the center gets `x = (j + 0.99) * cellW - rectW` (sketch.js:153). When
`rectW > 0.99 * cellW`, that bar starts before its own cell and reaches into
the column to its left. `Layout.BiasedBarOverhang` shows this. In a
two-column symmetrical row of full-width bars, bar 0 covers `[0, 100]` and
bar 1 covers `[99, 199]`, so the two overlap (`Layout.SeamOverlap`).

`Layout.RowBarsDisjoint` proves the most that holds: bars of a row are
disjoint except for the first right-biased bar and the bar just before it.
Every bar still lies inside the canvas (`Frame.BarAt`,
`Frame.FrameInsideCanvas`), because column 0 is never right-biased.

## Model

| member | source | states |
|---|---|---|
| Palette.ColorMap | sketch.js:17-22 | the four table colors white, golden brown, red, black with their exact RGB values, every component in 0..255 |
| Palette.ColorMapInjective | sketch.js:17-22 | two table entries are the same color exactly when they are the same entry |
| Palette.FillColor | sketch.js:157-164 | every fill color has components in 0..255; a plain variant gets its own table entry |
| Palette.AlternatingPeriod | sketch.js:158-161 | "random alternating" gives rows 0..3 white, golden brown, red, black and repeats with period four |
| Palette.AlternatingNeighborsDiffer | sketch.js:158-161 | under "random alternating" two neighboring rows never share a color |
| Layout.CellSize | sketch.js:111-112 | `count` cells of the returned size end exactly at the extent (`cols * cellW == width`, `rows * cellH == height`) and are non-negative for a non-negative extent |
| Layout.Half | sketch.js:113 | `half = floor(cols / 2)`, a column index, with `2 * half <= cols <= 2 * half + 1` |
| Layout.IsCenter | sketch.js:116 | `isCenter`: among the columns of a row, the center column is exactly the column that is its own mirror column `cols - 1 - j` |
| Layout.CenterColumnCount | sketch.js:116 | an odd row has exactly one center column and an even row none |
| Layout.MirrorIndex | sketch.js:130-133 | the symmetrical index is the column's distance to the nearer end of the row, between 0 and `floor((cols - 1) / 2)`, so at most `half` |
| Layout.MirrorIndexSymmetric | sketch.js:130-133 | a column and its mirror column get the same symmetrical index; the middle column gets the largest |
| Layout.OffsetIndex | sketch.js:120-134 | the index that left, right and symmetrical modes scale by the multiplier is a column index of the row |
| Layout.Offset | sketch.js:120-134 | the phase offset of a column; outside random mode it lies in `0..(cols - 1) * multiplier`, and in symmetrical mode it is at most `half * multiplier`, for a non-negative multiplier |
| Layout.ScaledIndexBounds | sketch.js:120-134 | an index in `0..bound` scaled by a non-negative multiplier lies between 0 and the scaled bound |
| Layout.OffsetMirrors | sketch.js:120-134 | the right-mode offset of column j equals the left-mode offset of column `cols - 1 - j`; symmetrical offsets agree on mirror columns; the random offset is the draw times the multiplier |
| Layout.Remap | sketch.js:139 | p5's `map`: sends `start1` to `start2` and `stop1` to `stop2`, and maps `start1..stop1` into `start2..stop2` when both ranges increase |
| Layout.Constrain | sketch.js:139 | p5's `constrain`: the result lies in `low..high`, leaves a value already in range unchanged, and is always the value or one of the bounds |
| Layout.BarWidth | sketch.js:139 | the width is in 0..cellW for every wave value; for a wave in -1..1 it is `(wave + 1) / 2 * cellW`; it saturates at cellW above 1 and at 0 below -1 |
| Layout.BarWidthMonotone | sketch.js:139 | a zero wave gives half a cell, and a larger wave never gives a narrower bar |
| Layout.RightBiased | sketch.js:148-153 | the final `else` of the placement: in symmetrical and random modes, exactly the columns right of the row's middle (`cols - 1 - j < j`) |
| Layout.BarAlignment | sketch.js:144-154 | left mode starts at `j * cellW`; right mode ends at `(j + 1) * cellW`; the center bar has equal gaps; left-half bars start at their cell's edge; right-biased bars end at `(j + 0.99) * cellW` |
| Layout.BarX | sketch.js:144-154 | the if-chain placing the bar; a bar no wider than its cell lies within `[j * cellW - 0.01 * cellW, (j + 1) * cellW]` |
| Layout.BarWithinCell | sketch.js:144-154 | bars that are not right-biased lie within `[j * cellW, (j + 1) * cellW]`; right-biased bars lie within the cell shifted left by `0.01 * cellW`, and end strictly before the cell's right edge when `cellW > 0` |
| Layout.BarInsideRow | sketch.js:111-154 | a bar no wider than its cell lies within `[0, width]`, right-biased ones included |
| Layout.RowInsideHeight | sketch.js:112-142 | row i, from `i * cellH` to `(i + 1) * cellH`, lies within `[0, height]` |
| Layout.BiasedBarOverhang | sketch.js:153 | a full-width right-biased bar starts before its own cell |
| Layout.RowBarsDisjoint | sketch.js:144-154 | bars of one row do not overlap, except the first right-biased bar and the bar just before it |
| Layout.SeamOverlap | sketch.js:153 | in a two-column symmetrical row of full-width bars the second bar starts before the first ends |
| Layout.PlacementMirrors | sketch.js:144-154 | right mode is the exact reflection of left mode about the row's middle; in symmetrical and random modes a left-half bar and its mirror are reflections up to `0.01 * cellW`, and the center bar is its own reflection |
| Layout.ScaleStep | sketch.js:142-153 | each cell starts where the previous one ends, and a later cell starts at least a cell width further on |
| Layout.ScaleMonotone | sketch.js:142-153 | cells start at 0 and further along for larger indices |
| Grid.CellsBeforeClosedForm | sketch.js:109-115 | the bars painted before row i number `i * baseCols + i * (i - 1) / 2` |
| Grid.CellsBeforeMonotone | sketch.js:109-115 | every row adds its `baseCols + i` bars to the count |
| Grid.FlattenLength | sketch.js:109-115 | painting a staircase of n rows paints `CellsBefore(n)` cells |
| Grid.FlattenIndex | sketch.js:109-115 | cell (i, j) is painted after the cells of the rows above it and the j cells to its left |
| Grid.CellOfIndex | sketch.js:109-115 | every position in painting order belongs to some cell |
| Frame.CellDraw | sketch.js:105-128 | the draw bar (i, j) takes: in random mode draw number `sum_{r<i}(baseCols + r) + j` after the reseed, always one of the frame's first `CellsBefore(rows)` draws; no draw in the other modes |
| Frame.CellBar | sketch.js:110-167 | the loop body for one cell: the bar has its row's height at `y = i * cellH`, is between 0 and `cellW` wide, lies inside a canvas of non-negative size and has a color with components in 0..255 |
| Frame.BarAt | sketch.js:110-167 | the bar of cell (i, j) with its own draw lies inside a canvas of non-negative size and has its row's fill color |
| Frame.FrameBars | sketch.js:109-169 | the whole frame in painting order, one bar per cell: `CellsBefore(rows)` bars |
| Frame.RowsStaircase | sketch.js:110-115 | row i of the frame has `baseCols + i` bars |
| Frame.FrameOrder | sketch.js:109-169 | a frame paints `CellsBefore(rows)` bars, row-major and column-minor, and bar (i, j) is the one painted after `sum_{r<i}(baseCols + r) + j` others |
| Frame.FrameSize | sketch.js:109-115 | a frame paints `rows * baseCols + rows * (rows - 1) / 2` bars |
| Frame.FrameCellOfIndex | sketch.js:109-169 | every painted bar is the bar of some cell |
| Frame.FrameInsideCanvas | sketch.js:109-169 | every bar a frame paints lies inside a canvas of non-negative size |
| Frame.RowsTile | sketch.js:112-142 | row 0 starts at the top, each row ends where the next one starts (`y = i * cellH`), and the last ends at the bottom |
| Frame.BarUsesOwnDraw | sketch.js:120-139 | a bar depends on no draw but its own, and outside the random mode on none |
| Frame.FrameUsesOwnDraws | sketch.js:105-128 | a frame does not depend on the random stream outside random mode, and in random mode only on its first `CellsBefore(rows)` draws, whatever was read before the frame |
| Frame.RightMirrorsLeft | sketch.js:120-147 | a right-mode row is the mirror image of the left-mode row: same widths, heights, rows and colors, reflected about the canvas middle |
| Frame.SymmetricalRowMirrors | sketch.js:130-154 | in symmetrical mode mirror columns have equal widths and reflected positions (up to `0.01 * cellW`), and the center bar is centered on the canvas |
| Frame.FrameColors | sketch.js:157-164 | under "random alternating" every bar of row i gets table color `i mod 4`; under a plain variant every bar gets that table color |
| Frame.FourBarExample | sketch.js:109-167 | one 4-column left-mode row on a 400 by 100 canvas at a zero wave paints four white 50 by 100 bars at x = 0, 100, 200, 300 |
| Frame.Draw | sketch.js:103-169 | the nested loop paints exactly the frame's bars in painting order; in random mode it reseeds and reads one draw per bar, otherwise it leaves the stream's position alone |
| Frame.DrawRow | sketch.js:115-168 | the inner loop paints row i left to right, taking one draw per bar in random mode |
| CanvasFit.FitToWindow | sketch.js:184-197 | the canvas is exactly 4:3, fits the window minus the 300-pixel panel, and is as wide or as high as that area (the same code is at sketch.js:38-46) |
| CanvasFit.FitIsLargest | sketch.js:184-197 | no 4:3 box that fits the usable area is wider or higher than the fit |
| CanvasFit.FitNonNegative | sketch.js:184-197 | the canvas size is non-negative exactly when the window is at least as wide as the panel |
| CanvasFit.WideWindowExample | sketch.js:184-197 | a 1280 by 720 window gets a 960 by 720 canvas |

## Left out

- The shaped wave (`sin`, `Math.sign`, `pow` at sketch.js:137-138) is transcendental floating point. It is the parameter `shape`, so properties hold for every wave shape.
- Floating-point rounding: geometry is over exact reals. In the sketch every operation is rounded: `0.99` itself, `j + 0.99`, the product with `cellW` and the subtraction of `rectW`.
- The p5 random generator: `random(-PI, PI)` and `randomSeed(99)` are foreign. The stream is an arbitrary sequence of reals, so the range `[-PI, PI)` of a draw is not assumed anywhere.
- The `randomSeed(99)` in the offset-mode `onChange` handler (sketch.js:67-71): every random-mode frame reseeds before its first draw, so that reseed cannot change a painted bar.
- The control panel and DOM styling (sketch.js:32-36, 49-84), `createCanvas` (sketch.js:48) and `resizeCanvas` (sketch.js:196) are UI wiring. Only the panel's ranges are kept, as `Frame.ValidSettings`. The slider steps (0.1 for the exponent, 0.01 for the multiplier) are not, so any real in range is allowed.
- `preload`/`loadImage` (sketch.js:24-29) is I/O. The commented-out background cycling (sketch.js:90-101) is dead code. `background(0)` clears the canvas and paints no bar.
- `keyPressed`, `fullscreen`, `setTimeout` and `windowResized` (sketch.js:172-182) are event and timer plumbing. `CanvasFit.FitToWindow` takes the window size as input.
- String-valued settings are enumerations. Two branches of the sketch become unreachable: the switch's `default` branch for an unknown offset mode (which behaves as symmetrical), and `colorMap` of an unknown color name (undefined).
