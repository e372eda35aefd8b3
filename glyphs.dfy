// The glyph ramps and the choices made from configuration strings in
// internal/converter/converter.go (duplicated in internal/converter/utils.go):
// which ramp a character mode selects, which colour a background name
// selects, and which glyph of the ramp a brightness selects.

module Glyphs {
  import opened Pixels
  import opened Numbers

  /** The short ramp, densest glyph first. */
  const SimpleChars: string := "@%#*+=-:. "

  /** The long ramp, densest glyph first (written in rows of ten). */
  const ComplexChars: string := "$@B%8&WM#*" + "oahkbdpqwm" + "ZO0QLCJUYX" + "zcvunxrjft" +
                                "/\\|()1{}[]" + "?-_+~<>i!l" + "I;:,\"^`'. "

  /** getCharList: the short ramp for "simple", the long one for "complex" and for every other mode. */
  function GetCharList(mode: string): (chars: string)
    ensures |chars| == 10 || |chars| == 70
  {
    if mode == "simple" then SimpleChars
    else if mode == "complex" then ComplexChars
    else ComplexChars
  }

  /** The short ramp is chosen exactly for "simple"; every other mode falls back to the long one. */
  lemma CharListChoice(mode: string)
    ensures GetCharList(mode) == SimpleChars <==> mode == "simple"
    ensures GetCharList(mode) == ComplexChars <==> mode != "simple"
  {
    assert |SimpleChars| != |ComplexChars|;
  }

  /** Both ramps run from a dense glyph to a blank. */
  lemma RampShapes()
    ensures |SimpleChars| == 10 && SimpleChars[0] == '@' && SimpleChars[9] == ' '
    ensures |ComplexChars| == 70 && ComplexChars[0] == '$' && ComplexChars[1] == '@' && ComplexChars[69] == ' '
  {
  }

  /** No glyph of either ramp is a line break, so text output has exactly one per row. */
  lemma RampsHaveNoBreak()
    ensures forall k | 0 <= k < |SimpleChars| :: SimpleChars[k] != '\n'
    ensures forall k | 0 <= k < |ComplexChars| :: ComplexChars[k] != '\n'
  {
  }

  /** getBgColor: color.White for "white", color.Black for every other name. */
  function GetBgColor(background: string): (c: Pixel)
    ensures c == White16 || c == Black16
  {
    if background == "white" then White16 else Black16
  }

  /** The background is white exactly when the name is "white". */
  lemma BgColorChoice(background: string)
    ensures GetBgColor(background) == White16 <==> background == "white"
    ensures GetBgColor(background) == Black16 <==> background != "white"
  {
  }

  /** `charIndex := int(brightness * float64(numChars-1))`, then clamped from above only. */
  function GlyphIndex(brightness: real, numChars: int): int
  {
    var k := Trunc(brightness * (numChars - 1) as real);
    if k >= numChars then numChars - 1 else k
  }

  /** For a brightness in [0, 1] the index is inside the ramp: 0 for black, the last glyph for white. */
  lemma GlyphIndexInRange(brightness: real, numChars: int)
    requires 0.0 <= brightness <= 1.0 && numChars >= 1
    ensures 0 <= GlyphIndex(brightness, numChars) < numChars
    ensures brightness == 0.0 ==> GlyphIndex(brightness, numChars) == 0
    ensures brightness == 1.0 ==> GlyphIndex(brightness, numChars) == numChars - 1
  {
    var n := (numChars - 1) as real;
    assert 0.0 <= brightness * n <= n by {
      assert brightness * n <= 1.0 * n;
    }
  }

  /** A brighter cell never gets a denser glyph. */
  lemma GlyphIndexMonotonic(b1: real, b2: real, numChars: int)
    requires 0.0 <= b1 <= b2 && numChars >= 1
    ensures GlyphIndex(b1, numChars) <= GlyphIndex(b2, numChars)
  {
    var n := (numChars - 1) as real;
    ScaleLe(0.0, b1, n);
    ScaleLe(b1, b2, n);
    TruncMonotonic(b1 * n, b2 * n);
  }

  /** The index computation as the loops write it: scale, truncate, then clamp from above. */
  method ChooseIndex(brightness: real, numChars: int) returns (charIndex: int)
    requires 0.0 <= brightness <= 1.0 && numChars >= 1
    ensures charIndex == GlyphIndex(brightness, numChars)
    ensures 0 <= charIndex < numChars
  {
    charIndex := Trunc(brightness * (numChars - 1) as real);
    if charIndex >= numChars {
      charIndex := numChars - 1;
    }
    GlyphIndexInRange(brightness, numChars);
  }

  /** The glyph a brightness in [0, 1] selects from a ramp. */
  function Glyph(chars: string, brightness: real): (c: char)
    requires |chars| >= 1 && 0.0 <= brightness <= 1.0
    ensures c in chars
  {
    GlyphIndexInRange(brightness, |chars|);
    chars[GlyphIndex(brightness, |chars|)]
  }
}
