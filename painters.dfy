// The deterministic image painters of internal/testutils/test_helpers.go:
// the checkerboard test pattern, the colour gradient and the disc. An RGBA
// buffer is an array2 indexed [y, x], every pixel starting out transparent
// black as image.NewRGBA leaves it; draw.Draw with draw.Src over a rectangle
// is the FillRect loop below.

module Painters {
  import opened Pixels
  import opened Numbers

  const SquareSize: nat := 20
  const Transparent := RGBA8(0, 0, 0, 0)

  /** min(a, b). */
  function Min(a: int, b: int): (m: int)
    ensures m <= a && m <= b
    ensures m == a || m == b
  {
    if a < b then a else b
  }

  predicate InRect(x: int, y: int, x0: int, y0: int, x1: int, y1: int)
  {
    x0 <= x < x1 && y0 <= y < y1
  }

  /** draw.Draw(img, Rect(x0, y0, x1, y1), Uniform{col}, Point{}, Src): the rectangle becomes `col`,
      every other pixel is left as it was. */
  method FillRect(img: array2<RGBA8>, x0: nat, y0: nat, x1: nat, y1: nat, col: RGBA8)
    requires x1 <= img.Length1 && y1 <= img.Length0
    modifies img
    ensures forall y, x | 0 <= y < img.Length0 && 0 <= x < img.Length1 ::
      img[y, x] == if InRect(x, y, x0, y0, x1, y1) then col else old(img[y, x])
  {
    var y := y0;
    while y < y1
      invariant y == y0 || y0 <= y <= y1
      invariant forall yy, xx | 0 <= yy < img.Length0 && 0 <= xx < img.Length1 ::
        img[yy, xx] == if InRect(xx, yy, x0, y0, x1, y) then col else old(img[yy, xx])
    {
      FillRow(img, x0, x1, y, col);
      y := y + 1;
    }
  }

  /** One scan line of FillRect. */
  method FillRow(img: array2<RGBA8>, x0: nat, x1: nat, y: nat, col: RGBA8)
    requires x1 <= img.Length1 && y < img.Length0
    modifies img
    ensures forall yy, xx | 0 <= yy < img.Length0 && 0 <= xx < img.Length1 ::
      img[yy, xx] == if yy == y && x0 <= xx < x1 then col else old(img[yy, xx])
  {
    var x := x0;
    while x < x1
      invariant x == x0 || x0 <= x <= x1
      invariant forall yy, xx | 0 <= yy < img.Length0 && 0 <= xx < img.Length1 ::
        img[yy, xx] == if yy == y && x0 <= xx < x then col else old(img[yy, xx])
    {
      img[y, x] := col;
      x := x + 1;
    }
  }

  /** The checkerboard colour of pixel (x, y): black when the square's column plus its row is even. */
  function PatternAt(x: nat, y: nat): RGBA8
  {
    if (x / SquareSize + y / SquareSize) % 2 == 0 then OpaqueBlack else OpaqueWhite
  }

  /** Every pixel of a square has the colour chosen for the square's corner. */
  lemma SquareIsUniform(x: nat, y: nat, xx: nat, yy: nat)
    requires x % SquareSize == 0 && y % SquareSize == 0
    requires x <= xx < x + SquareSize && y <= yy < y + SquareSize
    ensures PatternAt(xx, yy) == PatternAt(x, y)
  {
    assert xx / SquareSize == x / SquareSize;
    assert yy / SquareSize == y / SquareSize;
  }

  /** GenerateTestPattern: the 20-pixel checkerboard, the squares on the right and bottom edges clipped
      to the image. */
  method GenerateTestPattern(width: nat, height: nat) returns (img: array2<RGBA8>)
    ensures fresh(img) && img.Length0 == height && img.Length1 == width
    ensures forall y, x | 0 <= y < height && 0 <= x < width :: img[y, x] == PatternAt(x, y)
  {
    img := new RGBA8[height, width]((_, _) => Transparent);
    var x := 0;
    while x < width
      invariant x % SquareSize == 0
      invariant forall yy, xx | 0 <= yy < height && 0 <= xx < width ::
        img[yy, xx] == if xx < x then PatternAt(xx, yy) else Transparent
    {
      PatternColumn(img, x);
      x := x + SquareSize;
    }
  }

  /** The inner loop of GenerateTestPattern: the column of squares starting at x, top to bottom. */
  method PatternColumn(img: array2<RGBA8>, x: nat)
    requires x % SquareSize == 0 && x < img.Length1
    modifies img
    ensures forall yy, xx | 0 <= yy < img.Length0 && 0 <= xx < img.Length1 ::
      img[yy, xx] == if x <= xx < x + SquareSize then PatternAt(xx, yy) else old(img[yy, xx])
  {
    var y := 0;
    while y < img.Length0
      invariant y % SquareSize == 0
      invariant forall yy, xx | 0 <= yy < img.Length0 && 0 <= xx < img.Length1 ::
        img[yy, xx] == if x <= xx < x + SquareSize && yy < y then PatternAt(xx, yy) else old(img[yy, xx])
    {
      var col := OpaqueWhite;
      if (x / SquareSize + y / SquareSize) % 2 == 0 {
        col := OpaqueBlack;
      }
      FillRect(img, x, y, Min(x + SquareSize, img.Length1), Min(y + SquareSize, img.Length0), col);
      forall yy, xx | y <= yy < y + SquareSize && x <= xx < x + SquareSize
        ensures PatternAt(xx, yy) == col
      {
        SquareIsUniform(x, y, xx, yy);
      }
      y := y + SquareSize;
    }
  }

  /** uint8(float64(n) / float64(d) * 255) for 0 <= n < d: the fraction n / d on the 0..255 scale,
      truncated. It never reaches 255 and is 0 at n == 0. */
  function Scale255(n: nat, d: nat): (v: Byte)
    requires n < d
    ensures v < 255 && (n == 0 ==> v == 0)
    ensures v as real <= n as real / d as real * 255.0 < v as real + 1.0
  {
    var q := n as real / d as real;
    assert q < 1.0 by {
      assert n as real < d as real;
    }
    TruncBelow(q * 255.0, 255);
    Trunc(q * 255.0)
  }

  /** The gradient colour of pixel (x, y): red follows x alone, green y alone, blue x + y, alpha opaque. */
  function GradientAt(x: nat, y: nat, width: nat, height: nat): (c: RGBA8)
    requires x < width && y < height
    ensures c.a == 255 && c.r < 255 && c.g < 255 && c.b < 255
    ensures c.r == Scale255(x, width) && c.g == Scale255(y, height)
  {
    RGBA8(Scale255(x, width), Scale255(y, height), Scale255(x + y, width + height), 255)
  }

  /** GenerateColorGradient: every pixel set to its gradient colour. */
  method GenerateColorGradient(width: nat, height: nat) returns (img: array2<RGBA8>)
    ensures fresh(img) && img.Length0 == height && img.Length1 == width
    ensures forall y, x | 0 <= y < height && 0 <= x < width :: img[y, x] == GradientAt(x, y, width, height)
  {
    img := new RGBA8[height, width]((_, _) => Transparent);
    var x := 0;
    while x < width
      invariant 0 <= x <= width
      invariant forall yy, xx | 0 <= yy < height && 0 <= xx < width ::
        img[yy, xx] == if xx < x then GradientAt(xx, yy, width, height) else Transparent
    {
      GradientColumn(img, x);
      x := x + 1;
    }
  }

  /** The inner loop of GenerateColorGradient: column x, top to bottom. */
  method GradientColumn(img: array2<RGBA8>, x: nat)
    requires x < img.Length1
    modifies img
    ensures forall yy, xx | 0 <= yy < img.Length0 && 0 <= xx < img.Length1 ::
      img[yy, xx] == if xx == x then GradientAt(xx, yy, img.Length1, img.Length0) else old(img[yy, xx])
  {
    var y := 0;
    while y < img.Length0
      invariant 0 <= y <= img.Length0
      invariant forall yy, xx | 0 <= yy < img.Length0 && 0 <= xx < img.Length1 ::
        img[yy, xx] == if xx == x && yy < y then GradientAt(xx, yy, img.Length1, img.Length0) else old(img[yy, xx])
    {
      var r := Scale255(x, img.Length1);
      var g := Scale255(y, img.Length0);
      var b := Scale255(x + y, img.Length1 + img.Length0);
      img[y, x] := RGBA8(r, g, b, 255);
      y := y + 1;
    }
  }

  /** The pixels drawCircle visits and paints: inside the square of side 2r + 1 around the centre,
      at squared distance at most r * r. */
  predicate InDisc(x: int, y: int, cx: int, cy: int, r: int)
  {
    cx - r <= x <= cx + r && cy - r <= y <= cy + r &&
    (x - cx) * (x - cx) + (y - cy) * (y - cy) <= r * r
  }

  /** The bounding square adds nothing for a non-negative radius: the disc is exactly the points within
      distance r. A negative radius paints nothing. */
  lemma DiscByDistance(x: int, y: int, cx: int, cy: int, r: int)
    ensures r >= 0 ==> (InDisc(x, y, cx, cy, r) <==> (x - cx) * (x - cx) + (y - cy) * (y - cy) <= r * r)
    ensures r < 0 ==> !InDisc(x, y, cx, cy, r)
  {
    var dx, dy := x - cx, y - cy;
    if r >= 0 && dx * dx + dy * dy <= r * r {
      assert dx * dx <= r * r && dy * dy <= r * r by {
        assert dx * dx >= 0 && dy * dy >= 0;
      }
      SquareBound(dx, r);
      SquareBound(dy, r);
    }
  }

  lemma SquareBound(d: int, r: int)
    requires r >= 0 && d * d <= r * r
    ensures -r <= d <= r
  {
    if d > r {
      SquareGrows(r, d);
      assert false;
    }
    if d < -r {
      SquareGrows(r, -d);
      assert false;
    }
  }

  lemma SquareGrows(a: nat, b: int)
    requires a < b
    ensures a * a < b * b
  {
    assert b * b - a * a == (b - a) * (b + a);
  }

  /** drawCircle: every in-bounds pixel of the disc becomes `col`, every other pixel is unchanged. */
  method DrawCircle(img: array2<RGBA8>, cx: int, cy: int, r: int, col: RGBA8)
    modifies img
    ensures forall y, x | 0 <= y < img.Length0 && 0 <= x < img.Length1 ::
      img[y, x] == if InDisc(x, y, cx, cy, r) then col else old(img[y, x])
  {
    var x := cx - r;
    while x <= cx + r
      invariant x == cx - r || cx - r <= x <= cx + r + 1
      invariant forall yy, xx | 0 <= yy < img.Length0 && 0 <= xx < img.Length1 ::
        img[yy, xx] == if xx < x && InDisc(xx, yy, cx, cy, r) then col else old(img[yy, xx])
      decreases cx + r + 1 - x
    {
      DiscColumn(img, x, cx, cy, r, col);
      x := x + 1;
    }
  }

  /** The inner loop of drawCircle: column x of the bounding square. */
  method DiscColumn(img: array2<RGBA8>, x: int, cx: int, cy: int, r: int, col: RGBA8)
    requires cx - r <= x <= cx + r
    modifies img
    ensures forall yy, xx | 0 <= yy < img.Length0 && 0 <= xx < img.Length1 ::
      img[yy, xx] == if xx == x && InDisc(xx, yy, cx, cy, r) then col else old(img[yy, xx])
  {
    var y := cy - r;
    while y <= cy + r
      invariant cy - r <= y <= cy + r + 1
      invariant forall yy, xx | 0 <= yy < img.Length0 && 0 <= xx < img.Length1 ::
        img[yy, xx] == if xx == x && yy < y && InDisc(xx, yy, cx, cy, r) then col else old(img[yy, xx])
      decreases cy + r + 1 - y
    {
      if x >= 0 && x < img.Length1 && y >= 0 && y < img.Length0 {
        var dx := x - cx;
        var dy := y - cy;
        if dx * dx + dy * dy <= r * r {
          img[y, x] := col;
        }
      }
      y := y + 1;
    }
  }
}
