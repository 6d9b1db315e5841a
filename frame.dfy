/** One frame of the grid: the bar that each (row, column) pair gets, the
    whole frame as a sequence of bars in painting order, and the nested loop
    that paints it.

    The wave itself is not computed: `sin` and `pow` are transcendental, so the
    shaped wave `sign(sin(phase)) * |sin(phase)|^exponent` is a parameter of
    type `WaveShape`. The random stream of the random offset mode is the
    sequence `draws` of values it hands out after being seeded (the k-th value
    after reseeding is `draws(k)`), together with a read position. */
module Frame {
  import opened Palette
  import opened Layout
  import opened Grid

  /** The shaped wave as a function of the phase and the wave exponent. */
  type WaveShape = (real, real) -> real

  /** The draws of the seeded random stream, in the order it hands them out. */
  type RandomDraws = nat -> real

  /** The parameters read from the control panel at the start of every frame. */
  datatype Settings = Settings(
    rows: nat,
    baseCols: nat,
    waveExponent: real,
    offsetMode: OffsetMode,
    offsetMultiplier: real,
    colorVariant: ColorVariant)

  /** The ranges the control panel allows. */
  predicate ValidSettings(s: Settings)
  {
    && 1 <= s.rows <= 24
    && 1 <= s.baseCols <= 24
    && 1.0 <= s.waveExponent <= 6.0
    && 0.0 <= s.offsetMultiplier <= 1.0
  }

  /** Everything one frame is painted from: the settings, the canvas size, the
      frame counter, the wave shape and the reseeded random stream. */
  datatype Scene = Scene(
    settings: Settings,
    width: real,
    height: real,
    frameCount: nat,
    shape: WaveShape,
    draws: RandomDraws)

  predicate ValidScene(sc: Scene)
  {
    ValidSettings(sc.settings)
  }

  /** A painted rectangle and its fill color. */
  datatype Bar = Bar(x: real, y: real, w: real, h: real, fill: Rgb)

  /** The phase advance per frame. */
  const WaveSpeed: real := 0.05

  /** The number of columns of row `i`: one more than the row above. */
  function Columns(s: Settings, i: nat): nat
  {
    s.baseCols + i
  }

  /** The index in the random stream of the draw taken by bar (i, j): the
      number of bars painted before it. */
  function DrawIndex(sc: Scene, i: nat, j: nat): nat
  {
    CellsBefore(sc.settings.baseCols, i) + j
  }

  /** The draw that bar (i, j) takes from the stream: in the random mode the
      one after the draws of the bars painted before it, which is one of the
      first `CellsBefore(rows)` draws; in the other modes the stream is not
      read and the offset does not use a draw. */
  function CellDraw(sc: Scene, i: nat, j: nat): (d: real)
    requires ValidScene(sc) && i < sc.settings.rows && j < Columns(sc.settings, i)
    ensures sc.settings.offsetMode == Random ==>
      DrawIndex(sc, i, j) < CellsBefore(sc.settings.baseCols, sc.settings.rows)
      && d == sc.draws(DrawIndex(sc, i, j))
    ensures sc.settings.offsetMode != Random ==> d == 0.0
  {
    CellsBeforeMonotone(sc.settings.baseCols, i, sc.settings.rows);
    if sc.settings.offsetMode == Random then sc.draws(DrawIndex(sc, i, j)) else 0.0
  }

  /** A bar lies inside the canvas. */
  predicate InsideCanvas(b: Bar, width: real, height: real)
  {
    0.0 <= b.x && 0.0 <= b.w && b.x + b.w <= width
    && 0.0 <= b.y && 0.0 <= b.h && b.y + b.h <= height
  }

  /** The bar painted in row `i`, column `j` with the given draw: the offset
      shifts the wave phase, the shaped wave sets the width, the offset mode
      places the bar in its cell and the row sets the color. Whatever the
      wave and the draw, the bar has its row's height, is no wider than its
      cell and lies inside a canvas of non-negative size. */
  function CellBar(s: Settings, width: real, height: real, frameCount: nat, shape: WaveShape,
                   i: nat, j: nat, draw: real): (b: Bar)
    requires ValidSettings(s) && i < s.rows && j < Columns(s, i)
    ensures b.h == CellSize(height, s.rows) && b.y == Scale(i, b.h)
    ensures 0.0 <= b.w && (0.0 <= width ==> b.w <= CellSize(width, Columns(s, i)))
    ensures 0.0 <= width && 0.0 <= height ==> InsideCanvas(b, width, height)
    ensures InByteRange(b.fill)
  {
    var cols := Columns(s, i);
    var cellW := CellSize(width, cols);
    var cellH := CellSize(height, s.rows);
    var offset := Offset(s.offsetMode, s.offsetMultiplier, cols, j, draw);
    var w := BarWidth(shape(frameCount as real * WaveSpeed + offset, s.waveExponent), cellW);
    BarInsideRow(s.offsetMode, cols, j, width, w);
    RowInsideHeight(i, s.rows, height);
    Bar(BarX(s.offsetMode, cols, j, cellW, w), Scale(i, cellH), w, cellH, FillColor(s.colorVariant, i))
  }

  /** The bar of row `i`, column `j` of the frame, painted with the cell's own
      draw: it lies inside a canvas of non-negative size and has its row's
      color. */
  function BarAt(sc: Scene, i: nat, j: nat): (b: Bar)
    requires ValidScene(sc) && i < sc.settings.rows && j < Columns(sc.settings, i)
    ensures 0.0 <= sc.width && 0.0 <= sc.height ==> InsideCanvas(b, sc.width, sc.height)
    ensures b.fill == FillColor(sc.settings.colorVariant, i)
  {
    CellBar(sc.settings, sc.width, sc.height, sc.frameCount, sc.shape, i, j, CellDraw(sc, i, j))
  }

  /** Row `i`, left to right. */
  function Row(sc: Scene, i: nat): seq<Bar>
    requires ValidScene(sc) && i < sc.settings.rows
  {
    seq(Columns(sc.settings, i), j requires 0 <= j < Columns(sc.settings, i) => BarAt(sc, i, j))
  }

  /** The rows, top to bottom. */
  function Rows(sc: Scene): seq<seq<Bar>>
    requires ValidScene(sc)
  {
    seq(sc.settings.rows, i requires 0 <= i < sc.settings.rows => Row(sc, i))
  }

  /** Everything one frame paints, in painting order: one bar per cell. */
  function FrameBars(sc: Scene): (bars: seq<Bar>)
    requires ValidScene(sc)
    ensures |bars| == CellsBefore(sc.settings.baseCols, sc.settings.rows)
  {
    RowsStaircase(sc);
    FlattenLength(Rows(sc), sc.settings.baseCols);
    Flatten(Rows(sc))
  }

  /** Row `i` of the frame has `baseCols + i` bars. */
  lemma RowsStaircase(sc: Scene)
    requires ValidScene(sc)
    ensures Staircase(Rows(sc), sc.settings.baseCols)
  {
  }

  /** Painting order: a frame paints `CellsBefore(rows)` bars, row-major and
      column-minor; bar (i, j) is painted after the `DrawIndex(i, j)` bars
      before it, and in the random mode it takes the draw of that same index. */
  lemma FrameOrder(sc: Scene, i: nat, j: nat)
    requires ValidScene(sc) && i < sc.settings.rows && j < Columns(sc.settings, i)
    ensures var bars := FrameBars(sc);
      && |bars| == CellsBefore(sc.settings.baseCols, sc.settings.rows)
      && DrawIndex(sc, i, j) < |bars|
      && bars[DrawIndex(sc, i, j)] == BarAt(sc, i, j)
  {
    var g := Rows(sc);
    RowsStaircase(sc);
    FlattenLength(g, sc.settings.baseCols);
    FlattenIndex(g, sc.settings.baseCols, i, j);
    assert g[i][j] == BarAt(sc, i, j);
  }

  /** The number of bars of a frame in closed form:
      `rows * baseCols + rows * (rows - 1) / 2`. */
  lemma FrameSize(sc: Scene)
    requires ValidScene(sc)
    ensures 2 * |FrameBars(sc)| == sc.settings.rows * (2 * sc.settings.baseCols + sc.settings.rows - 1)
  {
    RowsStaircase(sc);
    FlattenLength(Rows(sc), sc.settings.baseCols);
    CellsBeforeClosedForm(sc.settings.baseCols, sc.settings.rows);
  }

  /** Every bar a frame paints is the bar of some cell. */
  lemma FrameCellOfIndex(sc: Scene, k: nat) returns (i: nat, j: nat)
    requires ValidScene(sc) && k < |FrameBars(sc)|
    ensures i < sc.settings.rows && j < Columns(sc.settings, i)
    ensures DrawIndex(sc, i, j) == k && FrameBars(sc)[k] == BarAt(sc, i, j)
  {
    RowsStaircase(sc);
    i, j := CellOfIndex(Rows(sc), sc.settings.baseCols, k);
    FlattenIndex(Rows(sc), sc.settings.baseCols, i, j);
  }

  /** Every bar a frame paints lies inside a canvas of non-negative size. */
  lemma FrameInsideCanvas(sc: Scene, k: nat)
    requires ValidScene(sc) && 0.0 <= sc.width && 0.0 <= sc.height
    requires k < |FrameBars(sc)|
    ensures InsideCanvas(FrameBars(sc)[k], sc.width, sc.height)
  {
    var i, j := FrameCellOfIndex(sc, k);
  }

  /** The rows tile the canvas from top to bottom: the first row starts at
      the top, every row ends where the next one starts, and the last ends at
      the bottom. */
  lemma RowsTile(sc: Scene, i: nat, j: nat, j': nat)
    requires ValidScene(sc) && i < sc.settings.rows && j < Columns(sc.settings, i)
    requires i + 1 < sc.settings.rows ==> j' < Columns(sc.settings, i + 1)
    ensures var b := BarAt(sc, i, j);
      && (i == 0 ==> b.y == 0.0)
      && (i + 1 < sc.settings.rows ==> b.y + b.h == BarAt(sc, i + 1, j').y)
      && (i + 1 == sc.settings.rows ==> b.y + b.h == sc.height)
  {
    var cellH := CellSize(sc.height, sc.settings.rows);
    var b := BarAt(sc, i, j);
    assert b.y == Scale(i, cellH) && b.h == cellH;
    ScaleNext(i, cellH);
    if i + 1 < sc.settings.rows {
      assert BarAt(sc, i + 1, j').y == Scale(i + 1, cellH);
    }
  }

  /** The bar of a cell does not depend on the draws other than its own, and
      outside the random mode on no draw at all. */
  lemma BarUsesOwnDraw(sc: Scene, d: RandomDraws, i: nat, j: nat)
    requires ValidScene(sc) && i < sc.settings.rows && j < Columns(sc.settings, i)
    requires sc.settings.offsetMode == Random ==> d(DrawIndex(sc, i, j)) == sc.draws(DrawIndex(sc, i, j))
    ensures BarAt(sc.(draws := d), i, j) == BarAt(sc, i, j)
  {
    assert CellDraw(sc.(draws := d), i, j) == CellDraw(sc, i, j);
  }

  /** In the left, right and symmetrical modes the frame does not depend on
      the random stream at all; in the random mode it depends only on the
      first `CellsBefore(rows)` draws, one per bar. */
  lemma FrameUsesOwnDraws(sc: Scene, d: RandomDraws)
    requires ValidScene(sc)
    requires sc.settings.offsetMode == Random ==>
      forall k :: 0 <= k < |FrameBars(sc)| ==> d(k) == sc.draws(k)
    ensures FrameBars(sc.(draws := d)) == FrameBars(sc)
  {
    var sc' := sc.(draws := d);
    forall i | 0 <= i < sc.settings.rows
      ensures Row(sc', i) == Row(sc, i)
    {
      forall j | 0 <= j < Columns(sc.settings, i)
        ensures BarAt(sc', i, j) == BarAt(sc, i, j)
      {
        FrameOrder(sc, i, j);
        BarUsesOwnDraw(sc, d, i, j);
      }
    }
    assert Rows(sc') == Rows(sc);
  }

  /** The right mode paints the mirror image of the left mode: bar j of a
      right-mode row has the width of bar `cols - 1 - j` of the left-mode row
      and sits at its reflection about the middle of the canvas. */
  lemma RightMirrorsLeft(sc: Scene, i: nat, j: nat)
    requires ValidScene(sc) && sc.settings.offsetMode == Right
    requires i < sc.settings.rows && j < Columns(sc.settings, i)
    ensures var left := sc.(settings := sc.settings.(offsetMode := Left));
      var r := BarAt(sc, i, j);
      var l := BarAt(left, i, Columns(sc.settings, i) - 1 - j);
      && r.w == l.w
      && r.x + r.w == sc.width - l.x
      && r.y == l.y && r.h == l.h && r.fill == l.fill
  {
    var s := sc.settings;
    var left := sc.(settings := s.(offsetMode := Left));
    var cols := Columns(sc.settings, i);
    var k := cols - 1 - j;
    var cellW := CellSize(sc.width, cols);
    var cellH := CellSize(sc.height, s.rows);
    OffsetMirrors(s.offsetMultiplier, cols, j, 0.0, 0.0);
    var phase := sc.frameCount as real * WaveSpeed + Offset(Right, s.offsetMultiplier, cols, j, 0.0);
    assert phase == sc.frameCount as real * WaveSpeed + Offset(Left, s.offsetMultiplier, cols, k, 0.0);
    var w := BarWidth(sc.shape(phase, s.waveExponent), cellW);
    assert BarAt(sc, i, j) == Bar(BarX(Right, cols, j, cellW, w), Scale(i, cellH), w, cellH, FillColor(s.colorVariant, i));
    assert BarAt(left, i, k) == Bar(BarX(Left, cols, k, cellW, w), Scale(i, cellH), w, cellH, FillColor(s.colorVariant, i));
    PlacementMirrors(Right, cols, j, cellW, w);
  }

  /** In the symmetrical mode a row mirrors itself about the middle of the
      canvas: a bar and the bar of its mirror column have the same width; the
      mirror of a left-half bar is its reflection moved a hundredth of a cell
      to the left, and the center bar is its own reflection. */
  lemma SymmetricalRowMirrors(sc: Scene, i: nat, j: nat)
    requires ValidScene(sc) && sc.settings.offsetMode == Symmetrical
    requires i < sc.settings.rows && j < Columns(sc.settings, i)
    ensures var cols := Columns(sc.settings, i);
      var a := BarAt(sc, i, j);
      var b := BarAt(sc, i, cols - 1 - j);
      && a.w == b.w
      && (j < Half(cols) ==> b.x + b.w == sc.width - a.x - 0.01 * CellSize(sc.width, cols))
      && (IsCenter(cols, j) ==> a.x + a.w == sc.width - a.x)
  {
    var s := sc.settings;
    var cols := Columns(sc.settings, i);
    var k := cols - 1 - j;
    var cellW := CellSize(sc.width, cols);
    var cellH := CellSize(sc.height, s.rows);
    OffsetMirrors(s.offsetMultiplier, cols, j, 0.0, 0.0);
    var phase := sc.frameCount as real * WaveSpeed + Offset(Symmetrical, s.offsetMultiplier, cols, j, 0.0);
    assert phase == sc.frameCount as real * WaveSpeed + Offset(Symmetrical, s.offsetMultiplier, cols, k, 0.0);
    var w := BarWidth(sc.shape(phase, s.waveExponent), cellW);
    assert BarAt(sc, i, j) == Bar(BarX(Symmetrical, cols, j, cellW, w), Scale(i, cellH), w, cellH, FillColor(s.colorVariant, i));
    assert BarAt(sc, i, k) == Bar(BarX(Symmetrical, cols, k, cellW, w), Scale(i, cellH), w, cellH, FillColor(s.colorVariant, i));
    PlacementMirrors(Symmetrical, cols, j, cellW, w);
  }

  /** With "random alternating" every bar of row `i` gets color `i mod 4` of
      white, golden brown, red, black; with any other variant every bar gets
      the variant's table color. */
  lemma FrameColors(sc: Scene, i: nat, j: nat)
    requires ValidScene(sc) && i < sc.settings.rows && j < Columns(sc.settings, i)
    ensures var c := BarAt(sc, i, j).fill;
      && InByteRange(c)
      && (sc.settings.colorVariant == RandomAlternating ==> c == ColorMap(RowCycle[i % 4]))
      && (sc.settings.colorVariant.Plain? ==> c == ColorMap(sc.settings.colorVariant.name))
  {
  }

  /** One row of four columns, left mode, no offset, on a 400 by 100 canvas at
      frame 0, where the shaped wave is 0: four bars of half a cell, one at
      the left edge of each 100-pixel cell, all white. */
  lemma FourBarExample(shape: WaveShape, draws: RandomDraws)
    requires shape(0.0, 1.0) == 0.0
    ensures FrameBars(FourBarScene(shape, draws))
         == [Bar(0.0, 0.0, 50.0, 100.0, Rgb(255, 255, 255)),
             Bar(100.0, 0.0, 50.0, 100.0, Rgb(255, 255, 255)),
             Bar(200.0, 0.0, 50.0, 100.0, Rgb(255, 255, 255)),
             Bar(300.0, 0.0, 50.0, 100.0, Rgb(255, 255, 255))]
  {
    var sc := FourBarScene(shape, draws);
    var row := Row(sc, 0);
    var g := Rows(sc);
    FlattenSnoc(g, 0);
    assert g[..1] == g && g[..0] == [] && g[0] == row;
    assert FrameBars(sc) == [] + row;
    FourBarRow(shape, draws);
  }

  /** The one row of the example: bar j is half a cell wide at the left edge
      of cell j. */
  lemma FourBarRow(shape: WaveShape, draws: RandomDraws)
    requires shape(0.0, 1.0) == 0.0
    ensures var row := Row(FourBarScene(shape, draws), 0);
      |row| == 4 && forall j :: 0 <= j < 4 ==> row[j] == Bar(100.0 * j as real, 0.0, 50.0, 100.0, Rgb(255, 255, 255))
  {
    forall j | 0 <= j < 4
      ensures Row(FourBarScene(shape, draws), 0)[j] == Bar(100.0 * j as real, 0.0, 50.0, 100.0, Rgb(255, 255, 255))
    {
      FourBarCell(shape, draws, j);
    }
  }

  /** The scene of the example above. */
  function FourBarScene(shape: WaveShape, draws: RandomDraws): Scene
  {
    Scene(Settings(1, 4, 1.0, Left, 0.0, Plain(White)), 400.0, 100.0, 0, shape, draws)
  }

  /** Bar j of the example: half a cell wide, at the left edge of cell j. */
  lemma FourBarCell(shape: WaveShape, draws: RandomDraws, j: nat)
    requires shape(0.0, 1.0) == 0.0 && j < 4
    ensures BarAt(FourBarScene(shape, draws), 0, j)
         == Bar(100.0 * j as real, 0.0, 50.0, 100.0, Rgb(255, 255, 255))
  {
    var sc := FourBarScene(shape, draws);
    assert CellDraw(sc, 0, j) == 0.0;
    assert CellSize(400.0, 4) == 100.0 && CellSize(100.0, 1) == 100.0;
    assert Offset(Left, 0.0, 4, j, 0.0) == 0.0;
    assert BarWidth(0.0, 100.0) == 50.0;
    assert BarX(Left, 4, j, 100.0, 50.0) == 100.0 * j as real;
    assert BarAt(sc, 0, j) == CellBar(sc.settings, 400.0, 100.0, 0, shape, 0, j, 0.0);
  }

  /** Paints one frame: reseeds the random stream when the offset mode is
      random, and walks the rows and columns, appending one bar per cell.
      `pos` is the stream's read position before the frame and `posAfter`
      after it. Because the stream is reseeded, what is painted does not
      depend on `pos`; in the random mode the frame reads exactly one draw
      per bar. */
  method Draw(sc: Scene, pos: nat) returns (bars: seq<Bar>, posAfter: nat)
    requires ValidScene(sc)
    ensures bars == FrameBars(sc)
    ensures posAfter == if sc.settings.offsetMode == Random then |bars| else pos
  {
    var s := sc.settings;
    var p := pos;
    if s.offsetMode == Random {
      p := 0;
    }
    bars := [];
    var i := 0;
    while i < s.rows
      invariant 0 <= i <= s.rows
      invariant bars == Flatten(Rows(sc)[..i])
      invariant p == if s.offsetMode == Random then CellsBefore(s.baseCols, i) else pos
    {
      var row;
      row, p := DrawRow(sc, i, p);
      FlattenSnoc(Rows(sc), i);
      bars := bars + row;
      i := i + 1;
    }
    assert Rows(sc)[..s.rows] == Rows(sc);
    RowsStaircase(sc);
    FlattenLength(Rows(sc), s.baseCols);
    posAfter := p;
  }

  /** Paints row `i` left to right, taking one draw per bar from position `pos`
      in the random mode. */
  method DrawRow(sc: Scene, i: nat, pos: nat) returns (row: seq<Bar>, posAfter: nat)
    requires ValidScene(sc) && i < sc.settings.rows
    requires sc.settings.offsetMode == Random ==> pos == CellsBefore(sc.settings.baseCols, i)
    ensures row == Row(sc, i)
    ensures posAfter == if sc.settings.offsetMode == Random then pos + Columns(sc.settings, i) else pos
  {
    var s := sc.settings;
    var cols := Columns(s, i);
    var p := pos;
    row := [];
    var j := 0;
    while j < cols
      invariant 0 <= j <= cols
      invariant |row| == j
      invariant forall k :: 0 <= k < j ==> row[k] == BarAt(sc, i, k)
      invariant p == if s.offsetMode == Random then pos + j else pos
    {
      var draw := 0.0;
      if s.offsetMode == Random {
        draw := sc.draws(p);
        p := p + 1;
      }
      var bar := CellBar(s, sc.width, sc.height, sc.frameCount, sc.shape, i, j, draw);
      assert bar == BarAt(sc, i, j);
      row := row + [bar];
      j := j + 1;
    }
    assert row == Row(sc, i);
    posAfter := p;
  }
}
