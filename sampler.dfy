// The photometric sampler of internal/converter/converter.go (whose
// getCharList, getBgColor and calculateBrightness are duplicated in
// internal/converter/utils.go; both copies are modelled once, here and in
// Glyphs).
//
// Every statistic is taken over the part of the rectangle (x, y, width,
// height) that lies inside the image. The loops clip only against
// Bounds().Max, so the origin must not be negative. The pixels are visited
// row by row; `Visited` is that sequence, and each statistic is a function of
// it. The methods are the loops of the source, proved to compute those
// functions.

module Sampler {
  import opened Pixels

  const U32: int := 0x1_0000_0000

  /** math.MaxFloat64, the largest finite float64, (2^53 - 1) * 2^971: the starting minimum
      (and, negated, maximum) of calculateContrast. */
  const MaxFloat64: real := 179769313486231570814527423731704356798070567525844996598917476803157260780028538760589558632766878171540458953514382464234321326889464182768467546703537516986049910576551282076245490090389328944075868508455133942304583236903222948165808559332123348274797826204144723168738177180919299881250404026184124858368.0

  // ---------------------------------------------------------------------
  // The visited region
  // ---------------------------------------------------------------------

  /** The exclusive end of a loop `for c := start; c < start+size && c < bound; c++`. */
  function ClipEnd(start: int, size: int, bound: int): (e: int)
    ensures e <= bound && e <= start + size
    ensures e == start + size || e == bound
  {
    if start + size < bound then start + size else bound
  }

  /** The pixels of row y with x0 <= x < x1, left to right (none outside the image). */
  function RowSpan(img: Image, y: nat, x0: nat, x1: int): seq<Pixel>
  {
    if x1 <= x0 || |img.rows| <= y || |img.rows[y]| < x1 then [] else img.rows[y][x0..x1]
  }

  /** The pixels of rows y0 <= y < y1, each between x0 and x1, row by row. */
  function Block(img: Image, x0: nat, x1: int, y0: nat, y1: int): seq<Pixel>
    decreases y1 - y0
  {
    if y1 <= y0 then [] else Block(img, x0, x1, y0, y1 - 1) + RowSpan(img, y1 - 1, x0, x1)
  }

  /** The pixels the sampling loops visit for the rectangle (x, y, width, height), in visiting order. */
  function Visited(img: Image, x: nat, y: nat, width: int, height: int): seq<Pixel>
  {
    Block(img, x, ClipEnd(x, width, img.width), y, ClipEnd(y, height, img.height))
  }

  /** The number of loop iterations of a clipped range. */
  function Span(start: nat, size: int, bound: nat): (n: nat)
    ensures n <= bound
  {
    var e := ClipEnd(start, size, bound);
    if e <= start then 0 else e - start
  }

  /** A block of full rows has (rows) * (columns) pixels. */
  lemma {:induction false} BlockLength(img: Image, x0: nat, x1: int, y0: nat, y1: int)
    requires img.Valid() && x0 <= x1 <= img.width && y0 <= y1 <= img.height
    ensures |Block(img, x0, x1, y0, y1)| == (y1 - y0) * (x1 - x0)
    decreases y1 - y0
  {
    if y0 < y1 {
      BlockLength(img, x0, x1, y0, y1 - 1);
      assert (y1 - y0) * (x1 - x0) == (y1 - 1 - y0) * (x1 - x0) + (x1 - x0);
    }
  }

  /** Pixel (x0 + j, y0 + i) sits at row-major offset i * (x1 - x0) + j of the block. */
  lemma BlockAt(img: Image, x0: nat, x1: int, y0: nat, y1: int, i: nat, j: nat)
    requires img.Valid() && x0 <= x1 <= img.width && y0 <= y1 <= img.height
    requires i < y1 - y0 && j < x1 - x0
    ensures 0 <= i * (x1 - x0) + j < |Block(img, x0, x1, y0, y1)| &&
            Block(img, x0, x1, y0, y1)[i * (x1 - x0) + j] == img.At(x0 + j, y0 + i)
  {
    BlockAtOffset(img, x0, x1, y0, y1, i, j);
    BlockLengthAfter(img, x0, x1, y0, i);
  }

  /** Row i of the block starts right after the rows above it. */
  lemma BlockLengthAfter(img: Image, x0: nat, x1: int, y0: nat, i: nat)
    requires img.Valid() && x0 <= x1 <= img.width && y0 + i <= img.height
    ensures |Block(img, x0, x1, y0, y0 + i)| == i * (x1 - x0)
  {
    BlockLength(img, x0, x1, y0, y0 + i);
    assert y0 + i - y0 == i;
  }

  lemma BlockAtOffset(img: Image, x0: nat, x1: int, y0: nat, y1: int, i: nat, j: nat)
    requires img.Valid() && x0 <= x1 <= img.width && y0 <= y1 <= img.height
    requires i < y1 - y0 && j < x1 - x0
    ensures |Block(img, x0, x1, y0, y0 + i)| + j < |Block(img, x0, x1, y0, y1)|
    ensures Block(img, x0, x1, y0, y1)[|Block(img, x0, x1, y0, y0 + i)| + j] == img.At(x0 + j, y0 + i)
  {
    var k := |Block(img, x0, x1, y0, y0 + i)| + j;
    var upTo, all := Block(img, x0, x1, y0, y0 + i + 1), Block(img, x0, x1, y0, y1);
    BlockLastRow(img, x0, x1, y0, y0 + i, j);
    BlockIsPrefix(img, x0, x1, y0, y0 + i + 1, y1);
    PrefixIndex(upTo, all, k);
  }

  lemma PrefixIndex(a: seq<Pixel>, b: seq<Pixel>, k: int)
    requires a <= b && 0 <= k < |a|
    ensures k < |b| && b[k] == a[k]
  {
  }

  /** Rows are only ever appended: an earlier block is a prefix of a later one. */
  lemma {:induction false} BlockIsPrefix(img: Image, x0: nat, x1: int, y0: nat, m: int, y1: int)
    requires y0 <= m <= y1
    ensures Block(img, x0, x1, y0, m) <= Block(img, x0, x1, y0, y1)
    decreases y1 - m
  {
    if m < y1 {
      BlockIsPrefix(img, x0, x1, y0, m, y1 - 1);
      assert Block(img, x0, x1, y0, y1 - 1) <= Block(img, x0, x1, y0, y1);
    }
  }

  lemma BlockLastRow(img: Image, x0: nat, x1: int, y0: nat, r: nat, j: nat)
    requires img.Valid() && x0 <= x1 <= img.width && y0 <= r < img.height && j < x1 - x0
    ensures |Block(img, x0, x1, y0, r)| + j < |Block(img, x0, x1, y0, r + 1)|
    ensures Block(img, x0, x1, y0, r + 1)[|Block(img, x0, x1, y0, r)| + j] == img.At(x0 + j, r)
  {
    var before, last := Block(img, x0, x1, y0, r), RowSpan(img, r, x0, x1);
    assert |last| == x1 - x0 && last[j] == img.At(x0 + j, r);
    assert (before + last)[|before| + j] == last[j];
  }

  /** The sampling loops visit exactly the pixels with x <= cx < min(x+width, MaxX) and
      y <= cy < min(y+height, MaxY), each once, row by row, and never leave the image:
      the pixel visited at position i * columns + j is (x + j, y + i). */
  lemma VisitedExactly(img: Image, x: nat, y: nat, width: int, height: int, i: nat, j: nat)
    requires img.Valid()
    ensures |Visited(img, x, y, width, height)| == Span(y, height, img.height) * Span(x, width, img.width)
    ensures i < Span(y, height, img.height) && j < Span(x, width, img.width) ==>
      x + j < img.width && y + i < img.height &&
      0 <= i * Span(x, width, img.width) + j < |Visited(img, x, y, width, height)| &&
      Visited(img, x, y, width, height)[i * Span(x, width, img.width) + j] == img.At(x + j, y + i)
  {
    var xe, ye := ClipEnd(x, width, img.width), ClipEnd(y, height, img.height);
    var cols, rows := Span(x, width, img.width), Span(y, height, img.height);
    if x < xe && y < ye {
      assert cols == xe - x && rows == ye - y;
      BlockLength(img, x, xe, y, ye);
      if i < rows && j < cols {
        BlockAt(img, x, xe, y, ye, i, j);
      }
    } else {
      assert cols == 0 || rows == 0;
      EmptyBlock(img, x, xe, y, ye);
    }
  }

  lemma {:induction false} EmptyBlock(img: Image, x0: nat, x1: int, y0: nat, y1: int)
    requires img.Valid() && x1 <= img.width && (y1 <= y0 || y1 <= img.height)
    requires x1 <= x0 || y1 <= y0
    ensures Block(img, x0, x1, y0, y1) == []
    decreases y1 - y0
  {
    if y0 < y1 {
      EmptyBlock(img, x0, x1, y0, y1 - 1);
    }
  }

  /** The region is empty exactly when one of the clipped spans is. */
  lemma VisitedEmpty(img: Image, x: nat, y: nat, width: int, height: int)
    requires img.Valid()
    ensures Visited(img, x, y, width, height) == [] <==>
      ClipEnd(x, width, img.width) <= x || ClipEnd(y, height, img.height) <= y
  {
    VisitedExactly(img, x, y, width, height, 0, 0);
  }

  /** One more step of the inner loop visits the pixel (cx, y). */
  lemma RowSpanStep(img: Image, y: nat, x0: nat, cx: nat)
    requires img.Valid() && y < img.height && x0 <= cx < img.width
    ensures RowSpan(img, y, x0, cx + 1) == RowSpan(img, y, x0, cx) + [img.At(cx, y)]
  {
  }

  /** When the inner loop stops, it has visited the clipped row. */
  lemma RowDone(img: Image, x: nat, width: int, y: nat, cx: int)
    requires x <= cx && (cx == x || cx <= ClipEnd(x, width, img.width))
    requires !(cx < x + width && cx < img.width)
    ensures RowSpan(img, y, x, cx) == RowSpan(img, y, x, ClipEnd(x, width, img.width))
  {
  }

  /** When the outer loop stops, it has visited the whole clipped region. */
  lemma RowsDone(img: Image, x: nat, y: nat, width: int, height: int, cy: int)
    requires y <= cy && (cy == y || cy <= ClipEnd(y, height, img.height))
    requires !(cy < y + height && cy < img.height)
    ensures Block(img, x, ClipEnd(x, width, img.width), y, cy) == Visited(img, x, y, width, height)
  {
  }

  // ---------------------------------------------------------------------
  // Statistics over a sequence of pixels
  // ---------------------------------------------------------------------

  datatype Component = Red | Green | Blue

  function Chan(p: Pixel, c: Component): Channel
  {
    match c
    case Red => p.r
    case Green => p.g
    case Blue => p.b
  }

  function Last(s: seq<Pixel>): Pixel
    requires s != []
  {
    s[|s| - 1]
  }

  function Init(s: seq<Pixel>): seq<Pixel>
    requires s != []
  {
    s[..|s| - 1]
  }

  function SumLuma(s: seq<Pixel>): real
  {
    if s == [] then 0.0 else SumLuma(Init(s)) + Luma(Last(s))
  }

  /** The float64 luma sum and the pixel count of calculateBrightness. */
  datatype Tally = Tally(sum: real, count: int)

  /** The brightness accumulators after the pixels of s, started at init. */
  function AddLuma(s: seq<Pixel>, init: Tally): Tally
  {
    if s == [] then init else AddOneLuma(AddLuma(Init(s), init), Last(s))
  }

  /** One pixel added to the brightness accumulators. */
  function AddOneLuma(t: Tally, p: Pixel): Tally
  {
    Tally(t.sum + Luma(p), t.count + 1)
  }

  function SumChan(s: seq<Pixel>, c: Component): int
  {
    if s == [] then 0 else SumChan(Init(s), c) + Chan(Last(s), c)
  }

  /** The four uint32 accumulators of calculateAverageColor: the red, green and blue sums and
      the pixel count. */
  datatype Sums = Sums(r: int, g: int, b: int, count: int)

  /** One pixel added to the accumulators: every addition wraps around at 2^32. */
  function AddPixel(t: Sums, p: Pixel): Sums
  {
    Sums((t.r + p.r) % U32, (t.g + p.g) % U32, (t.b + p.b) % U32, (t.count + 1) % U32)
  }

  /** The accumulators after the pixels of s, started at init. */
  function Accumulate(s: seq<Pixel>, init: Sums): Sums
  {
    if s == [] then init else AddPixel(Accumulate(Init(s), init), Last(s))
  }

  /** The float64 accumulators of the first pass of calculateColorVariance: the three channel
      sums and the pixel count. */
  datatype Totals = Totals(r: real, g: real, b: real, count: real)

  /** The float64 accumulators after the pixels of s, started at init. */
  function AddUp(s: seq<Pixel>, init: Totals): Totals
  {
    if s == [] then init else AddChannels(AddUp(Init(s), init), Last(s))
  }

  /** One pixel added to the float64 accumulators. */
  function AddChannels(t: Totals, p: Pixel): Totals
  {
    Totals(t.r + p.r as real, t.g + p.g as real, t.b + p.b as real, t.count + 1.0)
  }

  /** The mean luma of the visited pixels, 0 when there are none (calculateBrightness). */
  function MeanLuma(s: seq<Pixel>): real
  {
    if |s| == 0 then 0.0 else SumLuma(s) / |s| as real
  }

  /** One 8-bit channel of calculateAverageColor: `uint8(sum / count >> 8)` on uint32 values. */
  function AvgByte(sum: int, count: int): Byte
    requires 0 < count
  {
    ((sum % U32) / count / 256) % 256
  }

  /** calculateAverageColor: uint32 sums and count, opaque black when the count is 0. */
  function AverageColor(s: seq<Pixel>): RGBA8
  {
    var count := |s| % U32;
    if count == 0 then OpaqueBlack
    else RGBA8(AvgByte(SumChan(s, Red), count), AvgByte(SumChan(s, Green), count),
               AvgByte(SumChan(s, Blue), count), 255)
  }

  /** The running minimum of calculateContrast, started at `init`. */
  function MinFold(s: seq<Pixel>, init: real): real
  {
    if s == [] then init
    else var m := MinFold(Init(s), init); if Luma(Last(s)) < m then Luma(Last(s)) else m
  }

  /** The running maximum of calculateContrast, started at `init`. */
  function MaxFold(s: seq<Pixel>, init: real): real
  {
    if s == [] then init
    else var m := MaxFold(Init(s), init); if Luma(Last(s)) > m then Luma(Last(s)) else m
  }

  /** calculateContrast as written: the running extremes start at +-MaxFloat64. */
  function Contrast(s: seq<Pixel>): real
  {
    var lo := MinFold(s, MaxFloat64);
    var hi := MaxFold(s, -MaxFloat64);
    if lo == hi then 0.0 else hi - lo
  }

  /** The contrast the comment of calculateContrast describes: 0 when no pixel was visited. */
  function ContrastCorrected(s: seq<Pixel>): (c: real)
    ensures 0.0 <= c <= 1.0
    ensures s != [] ==> c == Contrast(s)
  {
    if s == [] then 0.0
    else
      ContrastOfNonEmpty(s);
      Contrast(s)
  }

  function Square(d: real): (q: real)
    ensures q >= 0.0
  {
    d * d
  }

  /** The squared deviation of one pixel from the channel means, summed over the channels. */
  function PixelDeviation(p: Pixel, avgR: real, avgG: real, avgB: real): (d: real)
    ensures d >= 0.0
  {
    Square(p.r as real - avgR) + Square(p.g as real - avgG) + Square(p.b as real - avgB)
  }

  function SumDeviation(s: seq<Pixel>, avgR: real, avgG: real, avgB: real): real
  {
    if s == [] then 0.0 else SumDeviation(Init(s), avgR, avgG, avgB) + PixelDeviation(Last(s), avgR, avgG, avgB)
  }

  /** The float64 accumulator of the second pass of calculateColorVariance after the pixels
      of s, started at init. */
  function AddDeviations(s: seq<Pixel>, avgR: real, avgG: real, avgB: real, init: real): real
  {
    if s == [] then init else AddDeviations(Init(s), avgR, avgG, avgB, init) + PixelDeviation(Last(s), avgR, avgG, avgB)
  }

  /** calculateColorVariance on a non-empty region. */
  function ColorVariance(s: seq<Pixel>): real
    requires s != []
  {
    var n := |s| as real;
    SumDeviation(s, SumChan(s, Red) as real / n, SumChan(s, Green) as real / n, SumChan(s, Blue) as real / n) / n
  }

  // ---------------------------------------------------------------------
  // The loops of the source
  //
  // Each statistic is computed by a method whose outer loop walks the rows
  // (`cy`) and hands each row to a second method holding the inner loop
  // (`cx`); the running values are passed on from row to row exactly as the
  // source's local variables are.
  // ---------------------------------------------------------------------

  /** calculateBrightness (converter.go and utils.go): the mean luma of the visited pixels. */
  method CalculateBrightness(img: Image, x: nat, y: nat, width: int, height: int) returns (brightness: real)
    requires img.Valid()
    ensures brightness == MeanLuma(Visited(img, x, y, width, height))
    ensures 0.0 <= brightness <= 1.0
  {
    var tally := LumaSums(img, x, y, width, height);
    AddLumaIsSum(Visited(img, x, y, width, height));
    var sum, count := tally.sum, tally.count;
    if count == 0 {
      brightness := 0.0;
    } else {
      brightness := sum / count as real;
    }
    MeanLumaBounds(Visited(img, x, y, width, height));
  }

  /** The loops of calculateBrightness: the summed luma and the number of visited pixels. */
  method LumaSums(img: Image, x: nat, y: nat, width: int, height: int) returns (t: Tally)
    requires img.Valid()
    ensures t == AddLuma(Visited(img, x, y, width, height), Tally(0.0, 0))
  {
    ghost var xe, ye := ClipEnd(x, width, img.width), ClipEnd(y, height, img.height);
    ghost var yLast := if ye < y then y else ye;
    t := Tally(0.0, 0);
    var cy := y;
    while cy < y + height && cy < img.height
      invariant y <= cy <= yLast
      invariant t == AddLuma(Block(img, x, xe, y, cy), Tally(0.0, 0))
    {
      AddLumaStep(img, x, xe, y, cy, Tally(0.0, 0));
      t := BrightnessRow(img, x, width, cy, t);
      cy := cy + 1;
    }
    RowsDone(img, x, y, width, height, cy);
  }

  method BrightnessRow(img: Image, x: nat, width: int, cy: nat, t0: Tally) returns (t: Tally)
    requires img.Valid() && cy < img.height
    ensures t == AddLuma(RowSpan(img, cy, x, ClipEnd(x, width, img.width)), t0)
  {
    ghost var xe := ClipEnd(x, width, img.width);
    ghost var xLast := if xe < x then x else xe;
    t := t0;
    var cx := x;
    while cx < x + width && cx < img.width
      invariant x <= cx <= xLast
      invariant t == AddLuma(RowSpan(img, cy, x, cx), t0)
    {
      var p := img.At(cx, cy);
      RowSpanStep(img, cy, x, cx);
      AddLumaPush(RowSpan(img, cy, x, cx), p, t0);
      t := AddOneLuma(t, p);
      cx := cx + 1;
    }
    RowDone(img, x, width, cy, cx);
  }

  /** calculateAverageColor: uint32 channel sums, `(sum / count) >> 8` per channel, alpha 255. */
  method CalculateAverageColor(img: Image, x: nat, y: nat, width: int, height: int) returns (avg: RGBA8)
    requires img.Valid()
    ensures avg == AverageColor(Visited(img, x, y, width, height))
    ensures avg.a == 255
  {
    var sumR, sumG, sumB, count := ColorSums(img, x, y, width, height);
    AccumulateIsMod(Visited(img, x, y, width, height), Sums(0, 0, 0, 0));
    AverageFromSums(Visited(img, x, y, width, height), sumR, sumG, sumB, count);
    if count == 0 {
      avg := RGBA8(0, 0, 0, 255);
    } else {
      avg := RGBA8((sumR / count / 256) % 256, (sumG / count / 256) % 256, (sumB / count / 256) % 256, 255);
    }
  }

  /** The loops of calculateAverageColor: the channel sums and the pixel count, as uint32. */
  method ColorSums(img: Image, x: nat, y: nat, width: int, height: int)
    returns (sumR: int, sumG: int, sumB: int, count: int)
    requires img.Valid()
    ensures Sums(sumR, sumG, sumB, count) == Accumulate(Visited(img, x, y, width, height), Sums(0, 0, 0, 0))
  {
    ghost var xe, ye := ClipEnd(x, width, img.width), ClipEnd(y, height, img.height);
    ghost var yLast := if ye < y then y else ye;
    sumR, sumG, sumB, count := 0, 0, 0, 0;
    var cy := y;
    while cy < y + height && cy < img.height
      invariant y <= cy <= yLast
      invariant Sums(sumR, sumG, sumB, count) == Accumulate(Block(img, x, xe, y, cy), Sums(0, 0, 0, 0))
    {
      AccumulateStep(img, x, xe, y, cy, Sums(0, 0, 0, 0));
      sumR, sumG, sumB, count := ColorSumsRow(img, x, width, cy, sumR, sumG, sumB, count);
      cy := cy + 1;
    }
    RowsDone(img, x, y, width, height, cy);
  }

  /** The final step of calculateAverageColor, on the wrapped sums of the region s. */
  lemma AverageFromSums(s: seq<Pixel>, sumR: int, sumG: int, sumB: int, count: int)
    requires sumR == SumChan(s, Red) % U32 && sumG == SumChan(s, Green) % U32
    requires sumB == SumChan(s, Blue) % U32 && count == |s| % U32
    ensures AverageColor(s) == if count == 0 then RGBA8(0, 0, 0, 255)
      else RGBA8((sumR / count / 256) % 256, (sumG / count / 256) % 256, (sumB / count / 256) % 256, 255)
  {
  }

  /** The inner loop of calculateAverageColor: adds the channels of row cy to the uint32
      sums and counts its pixels. */
  method ColorSumsRow(img: Image, x: nat, width: int, cy: nat, sumR0: int, sumG0: int, sumB0: int, count0: int)
    returns (sumR: int, sumG: int, sumB: int, count: int)
    requires img.Valid() && cy < img.height
    ensures Sums(sumR, sumG, sumB, count)
         == Accumulate(RowSpan(img, cy, x, ClipEnd(x, width, img.width)), Sums(sumR0, sumG0, sumB0, count0))
  {
    ghost var xe := ClipEnd(x, width, img.width);
    ghost var xLast := if xe < x then x else xe;
    sumR, sumG, sumB, count := sumR0, sumG0, sumB0, count0;
    var cx := x;
    while cx < x + width && cx < img.width
      invariant x <= cx <= xLast
      invariant Sums(sumR, sumG, sumB, count) == Accumulate(RowSpan(img, cy, x, cx), Sums(sumR0, sumG0, sumB0, count0))
    {
      var p := img.At(cx, cy);
      RowSpanStep(img, cy, x, cx);
      AccumulatePush(RowSpan(img, cy, x, cx), p, Sums(sumR0, sumG0, sumB0, count0));
      sumR := (sumR + p.r) % U32;
      sumG := (sumG + p.g) % U32;
      sumB := (sumB + p.b) % U32;
      count := (count + 1) % U32;
      cx := cx + 1;
    }
    RowDone(img, x, width, cy, cx);
  }

  lemma WrapAdd(a: int, d: int)
    ensures (a % U32 + d) % U32 == (a + d) % U32
  {
    var q := a / U32;
    assert a == q * U32 + a % U32;
    assert a + d == (a % U32 + d) + q * U32;
  }

  /** calculateContrast: the largest minus the smallest luma, 0 when they are equal. */
  method CalculateContrast(img: Image, x: nat, y: nat, width: int, height: int) returns (contrast: real)
    requires img.Valid()
    ensures contrast == Contrast(Visited(img, x, y, width, height))
  {
    var minBrightness, maxBrightness := Extremes(img, x, y, width, height, MaxFloat64, -MaxFloat64);
    if minBrightness == maxBrightness {
      contrast := 0.0;
    } else {
      contrast := maxBrightness - minBrightness;
    }
  }

  /** The two loops of calculateContrast: the running extremes over the region, from min0 and max0. */
  method Extremes(img: Image, x: nat, y: nat, width: int, height: int, min0: real, max0: real)
    returns (minBrightness: real, maxBrightness: real)
    requires img.Valid()
    ensures minBrightness == MinFold(Visited(img, x, y, width, height), min0)
    ensures maxBrightness == MaxFold(Visited(img, x, y, width, height), max0)
  {
    ghost var xe, ye := ClipEnd(x, width, img.width), ClipEnd(y, height, img.height);
    ghost var yLast := if ye < y then y else ye;
    minBrightness, maxBrightness := min0, max0;
    var cy := y;
    while cy < y + height && cy < img.height
      invariant y <= cy <= yLast
      invariant minBrightness == MinFold(Block(img, x, xe, y, cy), min0)
      invariant maxBrightness == MaxFold(Block(img, x, xe, y, cy), max0)
    {
      FoldStep(img, x, xe, y, cy, min0, max0);
      minBrightness, maxBrightness := ExtremesRow(img, x, width, cy, minBrightness, maxBrightness);
      cy := cy + 1;
    }
    RowsDone(img, x, y, width, height, cy);
  }

  /** The inner loop of calculateContrast: carries the running extremes across row cy. */
  method ExtremesRow(img: Image, x: nat, width: int, cy: nat, min0: real, max0: real)
    returns (minBrightness: real, maxBrightness: real)
    requires img.Valid() && cy < img.height
    ensures minBrightness == MinFold(RowSpan(img, cy, x, ClipEnd(x, width, img.width)), min0)
    ensures maxBrightness == MaxFold(RowSpan(img, cy, x, ClipEnd(x, width, img.width)), max0)
  {
    ghost var xe := ClipEnd(x, width, img.width);
    ghost var xLast := if xe < x then x else xe;
    minBrightness, maxBrightness := min0, max0;
    var cx := x;
    while cx < x + width && cx < img.width
      invariant x <= cx <= xLast
      invariant minBrightness == MinFold(RowSpan(img, cy, x, cx), min0)
      invariant maxBrightness == MaxFold(RowSpan(img, cy, x, cx), max0)
    {
      var p := img.At(cx, cy);
      RowSpanStep(img, cy, x, cx);
      FoldAppend(RowSpan(img, cy, x, cx), [p], min0, max0);
      var brightness := Luma(p);
      if brightness < minBrightness {
        minBrightness := brightness;
      }
      if brightness > maxBrightness {
        maxBrightness := brightness;
      }
      cx := cx + 1;
    }
    RowDone(img, x, width, cy, cx);
  }

  /** calculateColorVariance: the channel means, then the mean summed squared deviation.
      The source divides by a zero count on an empty region, so the region must not be empty.
      Its two passes over the region are the two methods below. */
  method CalculateColorVariance(img: Image, x: nat, y: nat, width: int, height: int) returns (variance: real)
    requires img.Valid() && Visited(img, x, y, width, height) != []
    ensures variance == ColorVariance(Visited(img, x, y, width, height))
    ensures variance >= 0.0
  {
    var sums := ChannelSums(img, x, y, width, height);
    var sumR, sumG, sumB, count := sums.r, sums.g, sums.b, sums.count;
    AddUpExact(Visited(img, x, y, width, height));
    var avgR, avgG, avgB := sumR / count, sumG / count, sumB / count;
    variance := SquaredDeviations(img, x, y, width, height, avgR, avgG, avgB);
    AddDeviationsIsSum(Visited(img, x, y, width, height), avgR, avgG, avgB);
    VarianceFromSums(Visited(img, x, y, width, height), sumR, sumG, sumB, count, variance);
    variance := variance / count;
  }

  /** The first pass of calculateColorVariance: float64 channel sums and pixel count. */
  method ChannelSums(img: Image, x: nat, y: nat, width: int, height: int) returns (t: Totals)
    requires img.Valid()
    ensures t == AddUp(Visited(img, x, y, width, height), Totals(0.0, 0.0, 0.0, 0.0))
  {
    ghost var xe, ye := ClipEnd(x, width, img.width), ClipEnd(y, height, img.height);
    ghost var yLast := if ye < y then y else ye;
    t := Totals(0.0, 0.0, 0.0, 0.0);
    var cy := y;
    while cy < y + height && cy < img.height
      invariant y <= cy <= yLast
      invariant t == AddUp(Block(img, x, xe, y, cy), Totals(0.0, 0.0, 0.0, 0.0))
    {
      AddUpStep(img, x, xe, y, cy, Totals(0.0, 0.0, 0.0, 0.0));
      t := ChannelSumsRow(img, x, width, cy, t);
      cy := cy + 1;
    }
    RowsDone(img, x, y, width, height, cy);
  }

  method ChannelSumsRow(img: Image, x: nat, width: int, cy: nat, t0: Totals) returns (t: Totals)
    requires img.Valid() && cy < img.height
    ensures t == AddUp(RowSpan(img, cy, x, ClipEnd(x, width, img.width)), t0)
  {
    ghost var xe := ClipEnd(x, width, img.width);
    ghost var xLast := if xe < x then x else xe;
    t := t0;
    var cx := x;
    while cx < x + width && cx < img.width
      invariant x <= cx <= xLast
      invariant t == AddUp(RowSpan(img, cy, x, cx), t0)
    {
      var p := img.At(cx, cy);
      RowSpanStep(img, cy, x, cx);
      AddUpPush(RowSpan(img, cy, x, cx), p, t0);
      t := AddChannels(t, p);
      cx := cx + 1;
    }
    RowDone(img, x, width, cy, cx);
  }

  /** The second pass of calculateColorVariance: the squared deviations from the given means,
      summed over the channels and the region. */
  method SquaredDeviations(img: Image, x: nat, y: nat, width: int, height: int, avgR: real, avgG: real, avgB: real)
    returns (variance: real)
    requires img.Valid()
    ensures variance == AddDeviations(Visited(img, x, y, width, height), avgR, avgG, avgB, 0.0)
  {
    ghost var xe, ye := ClipEnd(x, width, img.width), ClipEnd(y, height, img.height);
    ghost var yLast := if ye < y then y else ye;
    variance := 0.0;
    var cy := y;
    while cy < y + height && cy < img.height
      invariant y <= cy <= yLast
      invariant variance == AddDeviations(Block(img, x, xe, y, cy), avgR, avgG, avgB, 0.0)
    {
      AddDeviationsStep(img, x, xe, y, cy, avgR, avgG, avgB, 0.0);
      variance := DeviationsRow(img, x, width, cy, avgR, avgG, avgB, variance);
      cy := cy + 1;
    }
    RowsDone(img, x, y, width, height, cy);
  }

  /** The inner loop of the second pass of calculateColorVariance, over row cy. */
  method DeviationsRow(img: Image, x: nat, width: int, cy: nat, avgR: real, avgG: real, avgB: real, variance0: real)
    returns (variance: real)
    requires img.Valid() && cy < img.height
    ensures variance == AddDeviations(RowSpan(img, cy, x, ClipEnd(x, width, img.width)), avgR, avgG, avgB, variance0)
  {
    ghost var xe := ClipEnd(x, width, img.width);
    ghost var xLast := if xe < x then x else xe;
    variance := variance0;
    var cx := x;
    while cx < x + width && cx < img.width
      invariant x <= cx <= xLast
      invariant variance == AddDeviations(RowSpan(img, cy, x, cx), avgR, avgG, avgB, variance0)
    {
      var p := img.At(cx, cy);
      RowSpanStep(img, cy, x, cx);
      AddDeviationsPush(RowSpan(img, cy, x, cx), p, avgR, avgG, avgB, variance0);
      variance := variance + Square(p.r as real - avgR);
      variance := variance + Square(p.g as real - avgG);
      variance := variance + Square(p.b as real - avgB);
      cx := cx + 1;
    }
    RowDone(img, x, width, cy, cx);
  }

  lemma VarianceFromSums(s: seq<Pixel>, sumR: real, sumG: real, sumB: real, count: real, total: real)
    requires s != [] && count == |s| as real
    requires sumR == SumChan(s, Red) as real && sumG == SumChan(s, Green) as real && sumB == SumChan(s, Blue) as real
    requires total == SumDeviation(s, sumR / count, sumG / count, sumB / count)
    ensures total / count == ColorVariance(s) && total / count >= 0.0
  {
    SumDeviationNonNegative(s, sumR / count, sumG / count, sumB / count);
  }

  // ---------------------------------------------------------------------
  // Sums and folds over concatenated sequences
  // ---------------------------------------------------------------------

  lemma {:induction false} AddLumaAppend(s: seq<Pixel>, t: seq<Pixel>, init: Tally)
    ensures AddLuma(s + t, init) == AddLuma(t, AddLuma(s, init))
    decreases |t|
  {
    if t == [] {
      assert s + t == s;
    } else {
      assert Init(s + t) == s + Init(t) && Last(s + t) == Last(t);
      AddLumaAppend(s, Init(t), init);
    }
  }

  lemma AddLumaPush(s: seq<Pixel>, p: Pixel, init: Tally)
    ensures AddLuma(s + [p], init) == AddOneLuma(AddLuma(s, init), p)
  {
    assert Init(s + [p]) == s && Last(s + [p]) == p;
  }

  /** The accumulator of calculateBrightness, started at 0, holds the summed luma. */
  lemma {:induction false} AddLumaIsSum(s: seq<Pixel>)
    ensures AddLuma(s, Tally(0.0, 0)) == Tally(SumLuma(s), |s|)
  {
    if s != [] {
      AddLumaIsSum(Init(s));
    }
  }




  /** The accumulators over s + t carry on over t from where they stopped after s. */
  lemma {:induction false} AccumulateAppend(s: seq<Pixel>, t: seq<Pixel>, init: Sums)
    ensures Accumulate(s + t, init) == Accumulate(t, Accumulate(s, init))
    decreases |t|
  {
    if t == [] {
      assert s + t == s;
    } else {
      assert Init(s + t) == s + Init(t) && Last(s + t) == Last(t);
      AccumulateAppend(s, Init(t), init);
    }
  }

  /** One more pixel adds its channels to the sums and 1 to the count. */
  lemma AccumulatePush(s: seq<Pixel>, p: Pixel, init: Sums)
    ensures Accumulate(s + [p], init) == AddPixel(Accumulate(s, init), p)
  {
    assert Init(s + [p]) == s && Last(s + [p]) == p;
  }

  /** Wrapping at every addition equals wrapping the exact totals once: the uint32 accumulators
      hold the channel sums and the pixel count modulo 2^32. */
  lemma AccumulateIsMod(s: seq<Pixel>, init: Sums)
    requires 0 <= init.r < U32 && 0 <= init.g < U32 && 0 <= init.b < U32 && 0 <= init.count < U32
    ensures Accumulate(s, init).r == (init.r + SumChan(s, Red)) % U32
    ensures Accumulate(s, init).g == (init.g + SumChan(s, Green)) % U32
    ensures Accumulate(s, init).b == (init.b + SumChan(s, Blue)) % U32
    ensures Accumulate(s, init).count == (init.count + |s|) % U32
  {
    AccumulateChannel(s, init, Red);
    AccumulateChannel(s, init, Green);
    AccumulateChannel(s, init, Blue);
    AccumulateCount(s, init);
  }

  /** The running sum of one channel. */
  function Field(t: Sums, c: Component): int
  {
    match c
    case Red => t.r
    case Green => t.g
    case Blue => t.b
  }

  lemma {:induction false} AccumulateChannel(s: seq<Pixel>, init: Sums, c: Component)
    requires 0 <= Field(init, c) < U32
    ensures Field(Accumulate(s, init), c) == (Field(init, c) + SumChan(s, c)) % U32
  {
    if s != [] {
      AccumulateChannel(Init(s), init, c);
      WrapAdd(Field(init, c) + SumChan(Init(s), c), Chan(Last(s), c));
    }
  }

  lemma {:induction false} AccumulateCount(s: seq<Pixel>, init: Sums)
    requires 0 <= init.count < U32
    ensures Accumulate(s, init).count == (init.count + |s|) % U32
  {
    if s != [] {
      AccumulateCount(Init(s), init);
      WrapAdd(init.count + |Init(s)|, 1);
    }
  }

  lemma {:induction false} AddUpAppend(s: seq<Pixel>, t: seq<Pixel>, init: Totals)
    ensures AddUp(s + t, init) == AddUp(t, AddUp(s, init))
    decreases |t|
  {
    if t == [] {
      assert s + t == s;
    } else {
      assert Init(s + t) == s + Init(t) && Last(s + t) == Last(t);
      AddUpAppend(s, Init(t), init);
    }
  }

  lemma AddUpPush(s: seq<Pixel>, p: Pixel, init: Totals)
    ensures AddUp(s + [p], init) == AddChannels(AddUp(s, init), p)
  {
    assert Init(s + [p]) == s && Last(s + [p]) == p;
  }

  /** The float64 accumulators hold the exact channel sums and the pixel count. */
  lemma {:induction false} AddUpExact(s: seq<Pixel>)
    ensures AddUp(s, Totals(0.0, 0.0, 0.0, 0.0))
         == Totals(SumChan(s, Red) as real, SumChan(s, Green) as real, SumChan(s, Blue) as real, |s| as real)
  {
    if s != [] {
      AddUpExact(Init(s));
    }
  }

  // One more row of the block: each accumulator carries on from where it stopped.

  lemma AddLumaStep(img: Image, x0: nat, x1: int, y0: nat, y: nat, init: Tally)
    requires y0 <= y
    ensures AddLuma(Block(img, x0, x1, y0, y + 1), init) == AddLuma(RowSpan(img, y, x0, x1), AddLuma(Block(img, x0, x1, y0, y), init))
  {
    AddLumaAppend(Block(img, x0, x1, y0, y), RowSpan(img, y, x0, x1), init);
  }

  lemma AccumulateStep(img: Image, x0: nat, x1: int, y0: nat, y: nat, init: Sums)
    requires y0 <= y
    ensures Accumulate(Block(img, x0, x1, y0, y + 1), init)
         == Accumulate(RowSpan(img, y, x0, x1), Accumulate(Block(img, x0, x1, y0, y), init))
  {
    AccumulateAppend(Block(img, x0, x1, y0, y), RowSpan(img, y, x0, x1), init);
  }

  lemma AddUpStep(img: Image, x0: nat, x1: int, y0: nat, y: nat, init: Totals)
    requires y0 <= y
    ensures AddUp(Block(img, x0, x1, y0, y + 1), init) == AddUp(RowSpan(img, y, x0, x1), AddUp(Block(img, x0, x1, y0, y), init))
  {
    AddUpAppend(Block(img, x0, x1, y0, y), RowSpan(img, y, x0, x1), init);
  }

  lemma AddDeviationsStep(img: Image, x0: nat, x1: int, y0: nat, y: nat, avgR: real, avgG: real, avgB: real, init: real)
    requires y0 <= y
    ensures AddDeviations(Block(img, x0, x1, y0, y + 1), avgR, avgG, avgB, init)
         == AddDeviations(RowSpan(img, y, x0, x1), avgR, avgG, avgB, AddDeviations(Block(img, x0, x1, y0, y), avgR, avgG, avgB, init))
  {
    AddDeviationsAppend(Block(img, x0, x1, y0, y), RowSpan(img, y, x0, x1), avgR, avgG, avgB, init);
  }

  /** One more row of the block carries the running extremes on from where they stopped. */
  lemma FoldStep(img: Image, x0: nat, x1: int, y0: nat, y: nat, lo: real, hi: real)
    requires y0 <= y
    ensures MinFold(Block(img, x0, x1, y0, y + 1), lo) == MinFold(RowSpan(img, y, x0, x1), MinFold(Block(img, x0, x1, y0, y), lo))
    ensures MaxFold(Block(img, x0, x1, y0, y + 1), hi) == MaxFold(RowSpan(img, y, x0, x1), MaxFold(Block(img, x0, x1, y0, y), hi))
  {
    FoldAppend(Block(img, x0, x1, y0, y), RowSpan(img, y, x0, x1), lo, hi);
  }

  /** Folding over s + t is folding over t from where the fold over s stopped. */
  lemma {:induction false} FoldAppend(s: seq<Pixel>, t: seq<Pixel>, lo: real, hi: real)
    ensures MinFold(s + t, lo) == MinFold(t, MinFold(s, lo))
    ensures MaxFold(s + t, hi) == MaxFold(t, MaxFold(s, hi))
    decreases |t|
  {
    if t == [] {
      assert s + t == s;
    } else {
      assert Init(s + t) == s + Init(t) && Last(s + t) == Last(t);
      FoldAppend(s, Init(t), lo, hi);
    }
  }

  lemma {:induction false} AddDeviationsAppend(s: seq<Pixel>, t: seq<Pixel>, avgR: real, avgG: real, avgB: real, init: real)
    ensures AddDeviations(s + t, avgR, avgG, avgB, init)
         == AddDeviations(t, avgR, avgG, avgB, AddDeviations(s, avgR, avgG, avgB, init))
    decreases |t|
  {
    if t == [] {
      assert s + t == s;
    } else {
      assert Init(s + t) == s + Init(t) && Last(s + t) == Last(t);
      AddDeviationsAppend(s, Init(t), avgR, avgG, avgB, init);
    }
  }

  lemma AddDeviationsPush(s: seq<Pixel>, p: Pixel, avgR: real, avgG: real, avgB: real, init: real)
    ensures AddDeviations(s + [p], avgR, avgG, avgB, init)
         == AddDeviations(s, avgR, avgG, avgB, init) + PixelDeviation(p, avgR, avgG, avgB)
  {
    assert Init(s + [p]) == s && Last(s + [p]) == p;
  }

  /** The accumulator of the second pass, started at 0, holds the summed squared deviations. */
  lemma {:induction false} AddDeviationsIsSum(s: seq<Pixel>, avgR: real, avgG: real, avgB: real)
    ensures AddDeviations(s, avgR, avgG, avgB, 0.0) == SumDeviation(s, avgR, avgG, avgB)
  {
    if s != [] {
      AddDeviationsIsSum(Init(s), avgR, avgG, avgB);
    }
  }


  // ---------------------------------------------------------------------
  // Properties
  // ---------------------------------------------------------------------

  lemma {:induction false} SumLumaBounds(s: seq<Pixel>)
    ensures 0.0 <= SumLuma(s) <= |s| as real
  {
    if s != [] {
      SumLumaBounds(Init(s));
    }
  }

  /** Brightness is 0 on an empty region and lies in [0, 1] otherwise: the luma weights sum to 1
      and no channel exceeds 65535. */
  lemma MeanLumaBounds(s: seq<Pixel>)
    ensures 0.0 <= MeanLuma(s) <= 1.0
    ensures s == [] ==> MeanLuma(s) == 0.0
  {
    SumLumaBounds(s);
    if s != [] {
      var n := |s| as real;
      assert SumLuma(s) / n <= n / n;
    }
  }

  lemma {:induction false} SumLumaUniform(s: seq<Pixel>, p: Pixel)
    requires forall i | 0 <= i < |s| :: s[i] == p
    ensures SumLuma(s) == |s| as real * Luma(p)
  {
    if s != [] {
      SumLumaUniform(Init(s), p);
    }
  }

  /** A uniform region's brightness is the luma of its colour: 1 for white, 0 for black. */
  lemma MeanLumaUniform(s: seq<Pixel>, p: Pixel)
    requires s != [] && forall i | 0 <= i < |s| :: s[i] == p
    ensures MeanLuma(s) == Luma(p)
    ensures p == White16 ==> MeanLuma(s) == 1.0
    ensures p == Black16 ==> MeanLuma(s) == 0.0
  {
    SumLumaUniform(s, p);
  }

  /** A single white pixel has brightness 1.0 and a single black pixel 0.0. */
  lemma SinglePixelBrightness(img: Image, x: nat, y: nat)
    requires img.Valid() && x < img.width && y < img.height
    ensures Visited(img, x, y, 1, 1) == [img.At(x, y)]
    ensures img.At(x, y) == White16 ==> MeanLuma(Visited(img, x, y, 1, 1)) == 1.0
    ensures img.At(x, y) == Black16 ==> MeanLuma(Visited(img, x, y, 1, 1)) == 0.0
  {
    VisitedExactly(img, x, y, 1, 1, 0, 0);
    assert Visited(img, x, y, 1, 1)[0 * 1 + 0] == img.At(x, y);
    MeanLumaUniform(Visited(img, x, y, 1, 1), img.At(x, y));
  }

  lemma {:induction false} SumChanUniform(s: seq<Pixel>, p: Pixel, c: Component)
    requires forall i | 0 <= i < |s| :: s[i] == p
    ensures SumChan(s, c) == |s| * Chan(p, c)
  {
    if s != [] {
      SumChanUniform(Init(s), p, c);
    }
  }

  /** Dividing n copies of k by n gives k back. */
  lemma MulDiv(n: int, k: nat)
    requires 0 < n
    ensures (n * k) / n == k
  {
    var q, r := (n * k) / n, (n * k) % n;
    assert n * (k - q) == r;
    MulSign(n, k - q);
  }

  /** A non-zero multiple of n is at least n away from 0. */
  lemma MulSign(n: int, d: int)
    requires 0 < n
    ensures d >= 1 ==> n * d >= n
    ensures d <= -1 ==> n * d <= -n
  {
    if d >= 1 {
      assert n * d == n + n * (d - 1);
    } else if d <= -1 {
      assert n * d == -n + n * (d + 1);
    }
  }

  /** A sum of n channels that each read v * 257 stays below 2^32 when n * 65535 does. */
  lemma UniformSumFits(n: nat, v: Byte)
    requires n * 65535 < U32
    ensures 0 <= n * (v * 257) < U32
  {
    assert n * (v * 257) <= n * 65535 by {
      assert n * (65535 - v * 257) >= 0;
    }
  }

  /** n pixels whose channel reads v * 257 average to the byte v, as long as the uint32 sum
      cannot wrap. */
  lemma AvgByteUniform(n: nat, v: Byte)
    requires 0 < n && n * 65535 < U32
    ensures AvgByte(n * (v * 257), n) == v
  {
    var sum := n * (v * 257);
    UniformSumFits(n, v);
    assert sum % U32 == sum;
    MulDiv(n, v * 257);
    assert sum / n == v * 257;
    assert (v * 257) / 256 == v;
  }

  /** A uniform region of the 8-bit colour c (read as c * 257) averages to exactly c, as long as
      the uint32 sums cannot wrap; an empty region averages to opaque black. */
  lemma AverageColorUniform(s: seq<Pixel>, c: RGBA8)
    requires forall i | 0 <= i < |s| :: s[i] == Widen(c)
    requires |s| * 65535 < U32
    ensures AverageColor(s) == if s == [] then OpaqueBlack else RGBA8(c.r, c.g, c.b, 255)
  {
    if s != [] {
      assert |s| % U32 == |s|;
      SumChanUniform(s, Widen(c), Red);
      SumChanUniform(s, Widen(c), Green);
      SumChanUniform(s, Widen(c), Blue);
      AvgByteUniform(|s|, c.r);
      AvgByteUniform(|s|, c.g);
      AvgByteUniform(|s|, c.b);
    }
  }

  lemma SumChanSingle(p: Pixel)
    ensures SumChan([p], Red) == p.r && SumChan([p], Green) == p.g && SumChan([p], Blue) == p.b
  {
    assert Init([p]) == [];
  }

  /** A one-pixel region averages to the top byte of each 16-bit channel. */
  lemma AverageColorSingle(p: Pixel)
    ensures AverageColor([p]) == RGBA8(p.r / 256, p.g / 256, p.b / 256, 255)
  {
    SumChanSingle(p);
    assert |[p]| % U32 == 1;
    AvgByteOne(p.r);
    AvgByteOne(p.g);
    AvgByteOne(p.b);
  }

  lemma AvgByteOne(c: Channel)
    ensures AvgByte(c, 1) == c / 256
  {
    assert c % U32 == c;
    assert c / 256 < 256;
  }

  /** The running minimum started above every luma is the least luma of a non-empty sequence. */
  lemma {:induction false} MinFoldIsMin(s: seq<Pixel>, init: real)
    requires s != [] && init > 1.0
    ensures exists i | 0 <= i < |s| :: MinFold(s, init) == Luma(s[i])
    ensures forall i | 0 <= i < |s| :: MinFold(s, init) <= Luma(s[i])
  {
    if Init(s) == [] {
      assert MinFold(s, init) == Luma(s[0]);
    } else {
      MinFoldIsMin(Init(s), init);
      var m := MinFold(Init(s), init);
      var k :| 0 <= k < |Init(s)| && m == Luma(Init(s)[k]);
      if Luma(Last(s)) < m {
        assert MinFold(s, init) == Luma(s[|s| - 1]);
      } else {
        assert MinFold(s, init) == Luma(s[k]);
      }
      assert forall i | 0 <= i < |s| - 1 :: s[i] == Init(s)[i];
    }
  }

  /** The running maximum started below every luma is the greatest luma of a non-empty sequence. */
  lemma {:induction false} MaxFoldIsMax(s: seq<Pixel>, init: real)
    requires s != [] && init < 0.0
    ensures exists i | 0 <= i < |s| :: MaxFold(s, init) == Luma(s[i])
    ensures forall i | 0 <= i < |s| :: MaxFold(s, init) >= Luma(s[i])
  {
    if Init(s) == [] {
      assert MaxFold(s, init) == Luma(s[0]);
    } else {
      MaxFoldIsMax(Init(s), init);
      var m := MaxFold(Init(s), init);
      var k :| 0 <= k < |Init(s)| && m == Luma(Init(s)[k]);
      if Luma(Last(s)) > m {
        assert MaxFold(s, init) == Luma(s[|s| - 1]);
      } else {
        assert MaxFold(s, init) == Luma(s[k]);
      }
      assert forall i | 0 <= i < |s| - 1 :: s[i] == Init(s)[i];
    }
  }

  /** On a non-empty region the contrast is the largest minus the smallest luma, in [0, 1]. */
  lemma ContrastOfNonEmpty(s: seq<Pixel>)
    requires s != []
    ensures Contrast(s) == MaxFold(s, -MaxFloat64) - MinFold(s, MaxFloat64)
    ensures 0.0 <= Contrast(s) <= 1.0
  {
    MinFoldIsMin(s, MaxFloat64);
    MaxFoldIsMax(s, -MaxFloat64);
    assert MinFold(s, MaxFloat64) <= Luma(s[0]) <= MaxFold(s, -MaxFloat64);
  }

  /** A uniform non-empty region has contrast 0. */
  lemma ContrastUniform(s: seq<Pixel>, p: Pixel)
    requires s != [] && forall i | 0 <= i < |s| :: s[i] == p
    ensures Contrast(s) == 0.0
  {
    MinFoldIsMin(s, MaxFloat64);
    MaxFoldIsMax(s, -MaxFloat64);
  }

  /** As written, calculateContrast does not return 0 on an empty region: the extremes keep their
      starting values, which differ, and the result is -2 * MaxFloat64 (-Inf in float64). */
  lemma ContrastOfEmpty()
    ensures Contrast([]) == -2.0 * MaxFloat64 && Contrast([]) < 0.0
    ensures ContrastCorrected([]) == 0.0
  {
  }

  lemma {:induction false} SumDeviationNonNegative(s: seq<Pixel>, avgR: real, avgG: real, avgB: real)
    ensures SumDeviation(s, avgR, avgG, avgB) >= 0.0
  {
    if s != [] {
      SumDeviationNonNegative(Init(s), avgR, avgG, avgB);
    }
  }

  /** The colour variance is never negative. */
  lemma ColorVarianceNonNegative(s: seq<Pixel>)
    requires s != []
    ensures ColorVariance(s) >= 0.0
  {
    var n := |s| as real;
    SumDeviationNonNegative(s, SumChan(s, Red) as real / n, SumChan(s, Green) as real / n, SumChan(s, Blue) as real / n);
  }

  lemma {:induction false} SumDeviationAtMean(s: seq<Pixel>, p: Pixel)
    requires forall i | 0 <= i < |s| :: s[i] == p
    ensures SumDeviation(s, p.r as real, p.g as real, p.b as real) == 0.0
  {
    if s != [] {
      SumDeviationAtMean(Init(s), p);
    }
  }

  /** A uniform region has colour variance 0: every channel equals its mean. */
  lemma ColorVarianceUniform(s: seq<Pixel>, p: Pixel)
    requires s != [] && forall i | 0 <= i < |s| :: s[i] == p
    ensures ColorVariance(s) == 0.0
  {
    MeanChanUniform(s, p, Red);
    MeanChanUniform(s, p, Green);
    MeanChanUniform(s, p, Blue);
    SumDeviationAtMean(s, p);
  }

  lemma MeanChanUniform(s: seq<Pixel>, p: Pixel, c: Component)
    requires s != [] && forall i | 0 <= i < |s| :: s[i] == p
    ensures SumChan(s, c) as real / |s| as real == Chan(p, c) as real
  {
    SumChanUniform(s, p, c);
    MeanOfProduct(SumChan(s, c), |s|, Chan(p, c));
  }

  lemma MeanOfProduct(total: int, n: nat, v: int)
    requires 0 < n && total == n * v
    ensures total as real / n as real == v as real
  {
    ProductAsReal(n, v);
    RealMulDiv(n as real, v as real);
  }

  lemma {:induction false} ProductAsReal(n: nat, v: int)
    ensures (n * v) as real == n as real * v as real
  {
    if n > 0 {
      ProductAsReal(n - 1, v);
      assert n * v == (n - 1) * v + v;
    }
  }

  lemma RealMulDiv(n: real, v: real)
    requires n > 0.0
    ensures (n * v) / n == v
  {
  }
}
