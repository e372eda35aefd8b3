// MockImage of internal/converter/mock_test.go: a width x height buffer of
// colours, stored row by row (pixels[y][x]), that answers At with black
// outside its bounds and ignores writes outside them.

module Mock {
  import opened Pixels

  class MockImage {
    const width: nat
    const height: nat
    /** pixels[y, x] is the colour at (x, y). */
    const pixels: array2<Pixel>

    ghost predicate Valid()
      reads this
    {
      pixels.Length0 == height && pixels.Length1 == width
    }

    predicate InBounds(x: int, y: int)
    {
      0 <= x < width && 0 <= y < height
    }

    /** NewMockImage: every pixel starts out white. */
    constructor (width: nat, height: nat)
      ensures Valid() && this.width == width && this.height == height && fresh(pixels)
      ensures forall y, x | 0 <= y < height && 0 <= x < width :: pixels[y, x] == White16
    {
      var buffer := new Pixel[height, width];
      var y := 0;
      while y < height
        invariant 0 <= y <= height
        invariant forall yy, xx | 0 <= yy < y && 0 <= xx < width :: buffer[yy, xx] == White16
      {
        var x := 0;
        while x < width
          invariant 0 <= x <= width
          invariant forall yy, xx | 0 <= yy < y && 0 <= xx < width :: buffer[yy, xx] == White16
          invariant forall xx | 0 <= xx < x :: buffer[y, xx] == White16
        {
          buffer[y, x] := White16;
          x := x + 1;
        }
        y := y + 1;
      }
      this.width := width;
      this.height := height;
      pixels := buffer;
    }

    /** Bounds: the rectangle (0, 0)-(width, height), as (minX, minY, maxX, maxY). A point lies in it
        exactly when the buffer holds a colour for it. */
    function Bounds(): (r: (int, int, int, int))
      ensures forall x, y :: r.0 <= x < r.2 && r.1 <= y < r.3 <==> InBounds(x, y)
    {
      (0, 0, width, height)
    }

    /** At: the stored colour inside the bounds, black outside them. */
    function At(x: int, y: int): (c: Pixel)
      requires Valid()
      reads this, pixels
      ensures InBounds(x, y) ==> c == pixels[y, x]
      ensures !InBounds(x, y) ==> c == Black16
    {
      if x < 0 || x >= width || y < 0 || y >= height then Black16 else pixels[y, x]
    }

    /** SetPixel: writes (x, y) when it lies inside the bounds, and changes nothing otherwise. */
    method SetPixel(x: int, y: int, c: Pixel)
      requires Valid()
      modifies pixels
      ensures InBounds(x, y) ==> At(x, y) == c
      ensures forall yy, xx | 0 <= yy < height && 0 <= xx < width && (xx, yy) != (x, y) ::
        pixels[yy, xx] == old(pixels[yy, xx])
      ensures !InBounds(x, y) ==> forall yy, xx | 0 <= yy < height && 0 <= xx < width ::
        pixels[yy, xx] == old(pixels[yy, xx])
    {
      if x >= 0 && x < width && y >= 0 && y < height {
        pixels[y, x] := c;
      }
    }

    /** The buffer read as a decoded image, for the samplers. */
    function Snapshot(): (img: Image)
      requires Valid()
      reads this, pixels
      ensures img.Valid() && img.width == width && img.height == height
      ensures forall y, x | 0 <= y < height && 0 <= x < width :: img.At(x, y) == At(x, y)
    {
      Image(width, height, seq(height, y requires 0 <= y < height reads pixels =>
                                 seq(width, x requires 0 <= x < width reads pixels => pixels[y, x])))
    }
  }

  /** A mock image still as NewMockImage left it reads as the all-white image. */
  lemma WhiteSnapshot(m: MockImage)
    requires m.Valid()
    requires forall y, x | 0 <= y < m.height && 0 <= x < m.width :: m.pixels[y, x] == White16
    ensures m.Snapshot() == Uniform(m.width, m.height, White16)
  {
    var a, b := m.Snapshot(), Uniform(m.width, m.height, White16);
    forall y | 0 <= y < m.height
      ensures a.rows[y] == b.rows[y]
    {
      assert forall x | 0 <= x < m.width :: a.rows[y][x] == a.At(x, y) == White16 == b.At(x, y);
    }
  }
}
