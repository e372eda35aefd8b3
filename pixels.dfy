// Colours and images as the converters see them.
//
// Every pixel is read through color.Color.RGBA(), which yields 16-bit
// channels; an 8-bit colour channel c (color.RGBA) reads back as c * 257.
// Images start at (0, 0): Bounds().Min is never anything else here.

module Pixels {

  /** A 16-bit colour channel, as returned by RGBA(). */
  type Channel = c: int | 0 <= c <= 65535

  /** An 8-bit channel, as stored in color.RGBA. */
  type Byte = c: int | 0 <= c <= 255

  /** The red, green and blue channels of one pixel, 16 bits each. */
  datatype Pixel = Pixel(r: Channel, g: Channel, b: Channel)

  /** A color.RGBA value: four 8-bit channels. */
  datatype RGBA8 = RGBA8(r: Byte, g: Byte, b: Byte, a: Byte)

  /** color.White and color.Black read through RGBA(). */
  const White16 := Pixel(65535, 65535, 65535)
  const Black16 := Pixel(0, 0, 0)

  /** color.RGBA{0, 0, 0, 255} and color.RGBA{255, 255, 255, 255}. */
  const OpaqueBlack := RGBA8(0, 0, 0, 255)
  const OpaqueWhite := RGBA8(255, 255, 255, 255)

  /** RGBA() of a color.RGBA: every 8-bit channel c is widened to c | c << 8. */
  function Widen(c: RGBA8): (p: Pixel)
    ensures p.r / 256 == c.r && p.g / 256 == c.g && p.b / 256 == c.b
    ensures p.r % 257 == 0 && p.g % 257 == 0 && p.b % 257 == 0
  {
    Pixel(c.r * 257, c.g * 257, c.b * 257)
  }

  /** The ITU-R BT.601 luma of a pixel, normalised by 65535. */
  function Luma(p: Pixel): (l: real)
    ensures 0.0 <= l <= 1.0
    ensures l == 0.0 <==> p == Black16
    ensures l == 1.0 <==> p == White16
  {
    (0.299 * p.r as real + 0.587 * p.g as real + 0.114 * p.b as real) / 65535.0
  }

  /** A decoded image: `height` rows of `width` pixels, row y holding the pixels (0..width, y). */
  datatype Image = Image(width: nat, height: nat, rows: seq<seq<Pixel>>)
  {
    predicate Valid()
    {
      |rows| == height && forall y | 0 <= y < |rows| :: |rows[y]| == width
    }

    /** img.At(x, y) for a point inside Bounds(). */
    function At(x: nat, y: nat): Pixel
      requires Valid() && x < width && y < height
    {
      rows[y][x]
    }
  }

  /** An image whose every pixel is `p`. */
  function Uniform(width: nat, height: nat, p: Pixel): (img: Image)
    ensures img.Valid() && img.width == width && img.height == height
    ensures forall y, x | 0 <= y < height && 0 <= x < width :: img.At(x, y) == p
  {
    Image(width, height, seq(height, _ => seq(width, _ => p)))
  }

  /** Pure red, green and blue have the luma weights as their brightness; the weights sum to one. */
  lemma PrimaryLumas()
    ensures Luma(Widen(RGBA8(255, 0, 0, 255))) == 0.299
    ensures Luma(Widen(RGBA8(0, 255, 0, 255))) == 0.587
    ensures Luma(Widen(RGBA8(0, 0, 255, 255))) == 0.114
    ensures Widen(OpaqueWhite) == White16 && Widen(OpaqueBlack) == Black16
  {
  }
}
