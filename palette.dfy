/** The fill colors of the bars: the fixed color table and the
    "random alternating" variant, which is in fact a row-by-row cycle. */
module Palette {

  datatype Rgb = Rgb(r: int, g: int, b: int)

  /** The four keys of the color table. */
  datatype ColorName = White | GoldenBrown | Red | Black

  /** The color variant chosen in the control panel: one of the four table
      colors, or the variant that cycles through them row by row. */
  datatype ColorVariant = Plain(name: ColorName) | RandomAlternating

  predicate IsByte(v: int) { 0 <= v <= 255 }

  predicate InByteRange(c: Rgb) { IsByte(c.r) && IsByte(c.g) && IsByte(c.b) }

  /** The color table. */
  function ColorMap(name: ColorName): (c: Rgb)
    ensures InByteRange(c)
  {
    match name
    case White => Rgb(255, 255, 255)
    case GoldenBrown => Rgb(181, 101, 29)
    case Red => Rgb(171, 0, 17)
    case Black => Rgb(0, 0, 0)
  }

  /** The order in which "random alternating" hands out the table colors. */
  const RowCycle: seq<ColorName> := [White, GoldenBrown, Red, Black]

  /** The fill color of every bar of row `row`; it never depends on the column. */
  function FillColor(variant: ColorVariant, row: nat): (c: Rgb)
    ensures InByteRange(c)
    ensures variant.Plain? ==> c == ColorMap(variant.name)
  {
    match variant
    case Plain(name) => ColorMap(name)
    case RandomAlternating => ColorMap(RowCycle[row % |RowCycle|])
  }

  /** No two table colors are the same, so the table is a faithful naming. */
  lemma ColorMapInjective(a: ColorName, b: ColorName)
    ensures ColorMap(a) == ColorMap(b) <==> a == b
  {
  }

  /** "Random alternating" is periodic in the row with period four, and its
      first four rows are white, golden brown, red and black. */
  lemma AlternatingPeriod(row: nat)
    ensures FillColor(RandomAlternating, row) == FillColor(RandomAlternating, row % 4)
    ensures FillColor(RandomAlternating, row + 4) == FillColor(RandomAlternating, row)
    ensures FillColor(RandomAlternating, 0) == ColorMap(White)
    ensures FillColor(RandomAlternating, 1) == ColorMap(GoldenBrown)
    ensures FillColor(RandomAlternating, 2) == ColorMap(Red)
    ensures FillColor(RandomAlternating, 3) == ColorMap(Black)
  {
  }

  /** In "random alternating" two neighboring rows never share a color. */
  lemma AlternatingNeighborsDiffer(row: nat)
    ensures FillColor(RandomAlternating, row) != FillColor(RandomAlternating, row + 1)
  {
    var k := row % 4;
    assert (row + 1) % 4 == (k + 1) % 4;
    ColorMapInjective(RowCycle[k], RowCycle[(k + 1) % 4]);
  }
}
