// The tile grid every converter lays over an image (internal/converter/image.go,
// image_color.go, video.go, video_color.go and the benchmark helpers):
//   cellWidth  := float64(width) / float64(NumCols)
//   cellHeight := 2 * cellWidth
//   numRows    := int(float64(height) / cellHeight)
// and cell (i, j) is sampled from (int(j*cellWidth), int(i*cellHeight)) with
// size int(cellWidth) x int(cellHeight). Float64 arithmetic is modelled with
// exact reals.

module Grid {
  import opened Numbers

  datatype Layout = Layout(cellWidth: real, cellHeight: real, numRows: nat, numCols: nat)
  {
    /** A layout made from a non-empty image and at least one column. */
    predicate Valid()
    {
      cellWidth > 0.0 && cellHeight == 2.0 * cellWidth && numCols >= 1
    }
  }

  /** The grid for an image of the given size and a positive column count. A zero width is excluded:
      cellWidth is then 0, and int() of H / 0 (Inf or NaN) is undefined in Go. */
  function MakeLayout(width: nat, height: nat, numCols: int): (g: Layout)
    requires width > 0 && numCols >= 1
    ensures g.Valid() && g.numCols == numCols
    ensures Fits(g, width, height)
    ensures g.numRows as real * g.cellHeight <= height as real < (g.numRows + 1) as real * g.cellHeight
  {
    var cellWidth := width as real / numCols as real;
    var cellHeight := 2.0 * cellWidth;
    WholeRows(height as real, cellHeight);
    Layout(cellWidth, cellHeight, Trunc(height as real / cellHeight), numCols)
  }

  /** numRows as the converters compute it for any column count, int(H / (2 * W / NumCols)). NumCols = 0
      makes cellWidth +Inf, so the quotient is 0. */
  function SourceRows(width: nat, height: nat, numCols: int): int
    requires width > 0
  {
    if numCols == 0 then 0 else Trunc(height as real / (2.0 * (width as real / numCols as real)))
  }

  /** A column count below 1 gives no rows: +Inf cells for 0, and cells of negative height otherwise, whose
      quotient int() truncates toward zero. */
  lemma {:induction false} NoColumnsNoRows(width: nat, height: nat, numCols: int)
    requires width > 0 && numCols <= 0
    ensures SourceRows(width, height, numCols) <= 0
  {
    if numCols < 0 {
      var cellHeight := 2.0 * (width as real / numCols as real);
      assert width as real / numCols as real < 0.0;
      assert cellHeight < 0.0;
      assert height as real / cellHeight <= 0.0;
    }
  }

  /** The grid every converter lays over a non-empty image, for any column count. For NumCols >= 1 it is
      MakeLayout. Otherwise the source's row loop never runs, and the grid has no rows (its nominal single
      column is never visited). */
  function GridFor(width: nat, height: nat, numCols: int): (g: Layout)
    requires width > 0
    ensures g.Valid() && Fits(g, width, height)
    ensures g.numRows == if SourceRows(width, height, numCols) > 0 then SourceRows(width, height, numCols) else 0
    ensures g.numRows > 0 ==> g.numCols == numCols
  {
    if numCols >= 1 then
      MakeLayout(width, height, numCols)
    else
      NoColumnsNoRows(width, height, numCols);
      Layout(width as real, 2.0 * width as real, 0, 1)
  }

  /** int(h / c) counts the whole cells of height c that fit in h. */
  lemma WholeRows(h: real, c: real)
    requires h >= 0.0 && c > 0.0
    ensures Trunc(h / c) as real * c <= h < (Trunc(h / c) + 1) as real * c
  {
    var q := h / c;
    TruncScaled(q, c);
    var lo, hi := Trunc(q) as real * c, (Trunc(q) + 1) as real * c;
    assert lo <= q * c < hi;
    assert q * c == h;
  }

  /** Scaling by c > 0 keeps q between its integer part and the next integer. */
  lemma TruncScaled(q: real, c: real)
    requires q >= 0.0 && c > 0.0
    ensures Trunc(q) as real * c <= q * c < (Trunc(q) + 1) as real * c
  {
    var n := Trunc(q);
    ScaleLe(n as real, q, c);
    ScaleLess(q, (n + 1) as real, c);
  }

  /** int(float64(j) * cellWidth): the left edge of column j. */
  function CellX(g: Layout, j: nat): nat
    requires g.Valid()
  {
    Trunc(j as real * g.cellWidth)
  }

  /** int(float64(i) * cellHeight): the top edge of row i. */
  function CellY(g: Layout, i: nat): nat
    requires g.Valid()
  {
    Trunc(i as real * g.cellHeight)
  }

  /** int(cellWidth) and int(cellHeight): the sampled size of every cell. */
  function CellW(g: Layout): nat
    requires g.Valid()
  {
    Trunc(g.cellWidth)
  }

  function CellH(g: Layout): nat
    requires g.Valid()
  {
    Trunc(g.cellHeight)
  }

  /** The columns span the image's width exactly and the rows fit in its height. */
  predicate Fits(g: Layout, width: nat, height: nat)
  {
    g.cellWidth * g.numCols as real == width as real && g.numRows as real * g.cellHeight <= height as real
  }

  /** Every cell of a fitting grid starts inside the image. */
  lemma CellOriginInside(g: Layout, width: nat, height: nat, i: nat, j: nat)
    requires g.Valid() && Fits(g, width, height)
    requires i < g.numRows && j < g.numCols
    ensures CellX(g, j) < width && CellY(g, i) < height
  {
    StartsBefore(j, g.numCols, g.cellWidth, width);
    StartsBefore(i, g.numRows, g.cellHeight, height);
  }

  /** int(k * c) < n when k < count and count * c <= n. */
  lemma StartsBefore(k: nat, count: nat, c: real, n: nat)
    requires k < count && c > 0.0 && count as real * c <= n as real
    ensures Trunc(k as real * c) < n
  {
    var r := k as real * c;
    ScaleLe(0.0, k as real, c);
    ScaleLess(k as real, count as real, c);
    assert 0.0 <= r < n as real;
    TruncBelow(r, n);
  }

  /** The region sampled for a cell of a fitting grid, int(cellWidth) by int(cellHeight) from its origin,
      lies inside the image. */
  lemma {:induction false} CellInside(g: Layout, width: nat, height: nat, i: nat, j: nat)
    requires g.Valid() && Fits(g, width, height)
    requires i < g.numRows && j < g.numCols
    ensures CellX(g, j) + CellW(g) <= width && CellY(g, i) + CellH(g) <= height
  {
    EdgeWithin(j, g.numCols, g.cellWidth, width);
    EdgeWithin(i, g.numRows, g.cellHeight, height);
  }

  /** int(k * c) + int(c) <= n when k < count and count * c <= n. */
  lemma EdgeWithin(k: nat, count: nat, c: real, n: nat)
    requires k < count && c > 0.0 && count as real * c <= n as real
    ensures Trunc(k as real * c) + Trunc(c) <= n
  {
    ScaleLe(0.0, k as real, c);
    EdgeBound(k, count, c, n);
    PartsWithin(k as real * c, c, n);
  }

  /** The far edge of cell k, k * c + c, stays within n when count * c <= n. */
  lemma EdgeBound(k: nat, count: nat, c: real, n: nat)
    requires k < count && c > 0.0 && count as real * c <= n as real
    ensures k as real * c + c <= n as real
  {
    ScaleLe((k + 1) as real, count as real, c);
    assert k as real * c + c == (k + 1) as real * c;
  }

  /** Two non-negative values whose sum is within n have integer parts summing to within n. */
  lemma PartsWithin(a: real, b: real, n: nat)
    requires a >= 0.0 && b >= 0.0 && a + b <= n as real
    ensures Trunc(a) + Trunc(b) <= n
  {
    TruncSum(a, b);
    TruncMonotonic(a + b, n as real);
  }

  /** The point a glyph is anchored at: the left edge of its cell, half a cell below the top. */
  function AnchorX(g: Layout, j: nat): real
  {
    j as real * g.cellWidth
  }

  function AnchorY(g: Layout, i: nat): real
  {
    i as real * g.cellHeight + g.cellHeight / 2.0
  }

  /** Every glyph of a fitting grid is anchored inside the image, half a cell above its row's bottom edge. */
  lemma AnchorInside(g: Layout, width: nat, height: nat, i: nat, j: nat)
    requires g.Valid() && Fits(g, width, height)
    requires i < g.numRows && j < g.numCols
    ensures 0.0 <= AnchorX(g, j) < width as real
    ensures 0.0 < AnchorY(g, i) < height as real
    ensures AnchorY(g, i) + g.cellHeight / 2.0 == (i + 1) as real * g.cellHeight
  {
    ScaleLess(j as real, g.numCols as real, g.cellWidth);
    ScaleLe((i + 1) as real, g.numRows as real, g.cellHeight);
    assert (i + 1) as real * g.cellHeight == i as real * g.cellHeight + g.cellHeight;
  }
}
