// The per-cell render loops of internal/converter/image.go, image_color.go,
// video.go and video_color.go, with the file and drawing sinks stripped: each
// loop is specified by the sequence it emits in row-major order (glyphs and
// line breaks for the text converters, glyph marks for the drawing ones).

module Render {
  import opened Pixels
  import opened Numbers
  import opened Outcomes
  import opened Glyphs
  import opened Grid
  import opened Sampler
  import opened Rows

  /** What opening and decoding an input image gave. */
  datatype Input = Decoded(img: Image) | OpenFailed | DecodeFailed

  /** A decoded image the grid can be laid over: the source needs a non-zero width. */
  predicate Usable(img: Image)
  {
    img.Valid() && img.width > 0
  }

  /** The pixels sampled for cell (i, j): the rectangle at the cell's origin, of the cell's size. */
  function CellRegion(img: Image, g: Layout, i: nat, j: nat): seq<Pixel>
    requires g.Valid()
  {
    Visited(img, CellX(g, j), CellY(g, i), CellW(g), CellH(g))
  }

  /** The glyph of cell (i, j) in the grey-scale converters: picked by the mean luma of its region. */
  function CellGlyph(img: Image, g: Layout, chars: string, i: nat, j: nat): (c: char)
    requires g.Valid() && |chars| >= 1
    ensures c in chars
    ensures CellRegion(img, g, i, j) == [] ==> c == chars[0]
  {
    MeanLumaBounds(CellRegion(img, g, i, j));
    GlyphIndexInRange(MeanLuma(CellRegion(img, g, i, j)), |chars|);
    Glyph(chars, MeanLuma(CellRegion(img, g, i, j)))
  }

  /** The loop body of the grey-scale converters: sample the cell and pick its glyph. */
  method PickGlyph(img: Image, g: Layout, chars: string, i: nat, j: nat) returns (c: char)
    requires img.Valid() && g.Valid() && |chars| >= 1
    ensures c == CellGlyph(img, g, chars, i, j)
  {
    var brightness := CalculateBrightness(img, CellX(g, j), CellY(g, i), CellW(g), CellH(g));
    var charIndex := ChooseIndex(brightness, |chars|);
    c := chars[charIndex];
  }

  /** The glyphs of row i, left to right. */
  function RowGlyphs(img: Image, g: Layout, chars: string, i: nat): (s: string)
    requires g.Valid() && |chars| >= 1
  {
    seq(g.numCols, j requires 0 <= j < g.numCols => CellGlyph(img, g, chars, i, j))
  }

  /** The text lines of one image: each row's glyphs followed by a line break. */
  function TextLines(img: Image, g: Layout, chars: string): (lines: seq<string>)
    requires g.Valid() && |chars| >= 1
    ensures |lines| == g.numRows && AllOfLength(lines, g.numCols + 1)
  {
    seq(g.numRows, i requires 0 <= i < g.numRows => RowGlyphs(img, g, chars, i) + "\n")
  }

  /** Everything the text converters emit for one image. */
  function AsciiText(img: Image, g: Layout, chars: string): string
    requires g.Valid() && |chars| >= 1
  {
    Concat(TextLines(img, g, chars))
  }

  /** The text is numRows lines of NumCols glyphs, each line ended by its only line break. */
  lemma AsciiTextLayout(img: Image, g: Layout, chars: string, i: nat, j: nat)
    requires g.Valid() && |chars| >= 1 && '\n' !in chars
    requires i < g.numRows && j <= g.numCols
    ensures |AsciiText(img, g, chars)| == g.numRows * (g.numCols + 1)
    ensures i * (g.numCols + 1) + j < |AsciiText(img, g, chars)|
    ensures j < g.numCols ==> AsciiText(img, g, chars)[i * (g.numCols + 1) + j] == CellGlyph(img, g, chars, i, j)
    ensures AsciiText(img, g, chars)[i * (g.numCols + 1) + j] == '\n' <==> j == g.numCols
  {
    var lines := TextLines(img, g, chars);
    ConcatAt(lines, g.numCols + 1, i, j);
    var line := lines[i];
    assert line == RowGlyphs(img, g, chars, i) + "\n";
    if j < g.numCols {
      assert line[j] == CellGlyph(img, g, chars, i, j);
    }
  }

  /** The nested row and column loops of ImageToText and VideoToText, writing into a text buffer. */
  method AsciiGrid(img: Image, g: Layout, chars: string) returns (text: string)
    requires img.Valid() && g.Valid() && |chars| >= 1
    ensures text == AsciiText(img, g, chars)
  {
    ghost var lines := TextLines(img, g, chars);
    text := "";
    var i := 0;
    while i < g.numRows
      invariant 0 <= i <= g.numRows
      invariant text == Concat(lines[..i])
    {
      ghost var before := text;
      text := GlyphRow(img, g, chars, i, text);
      text := text + "\n";
      assert text == before + (RowGlyphs(img, g, chars, i) + "\n");
      ConcatPush(lines, i);
      i := i + 1;
    }
    assert lines[..i] == lines;
  }

  /** The column loop for row i: appends the row's glyphs to the buffer. */
  method GlyphRow(img: Image, g: Layout, chars: string, i: nat, text0: string) returns (text: string)
    requires img.Valid() && g.Valid() && |chars| >= 1
    ensures text == text0 + RowGlyphs(img, g, chars, i)
  {
    ghost var row := RowGlyphs(img, g, chars, i);
    text := text0;
    var j := 0;
    while j < g.numCols
      invariant 0 <= j <= g.numCols
      invariant text == text0 + row[..j]
    {
      var c := PickGlyph(img, g, chars, i, j);
      assert row[..j + 1] == row[..j] + [c];
      text := text + [c];
      j := j + 1;
    }
    assert row[..j] == row;
  }

  /** ImageToText: the text for the decoded input, or the error that stopped it. `created` stands for the
      outcome of os.Create on the output path, which runs after decoding and before any row is written. */
  method ImageToText(input: Input, numCols: int, charMode: string, created: bool) returns (r: Result<string>)
    requires input.Decoded? ==> Usable(input.img)
    ensures input.OpenFailed? ==> r == Err("failed to open input file")
    ensures input.DecodeFailed? ==> r == Err("failed to decode image")
    ensures input.Decoded? && !created ==> r == Err("failed to create output file")
    ensures input.Decoded? && created ==>
      r == Ok(AsciiText(input.img, GridFor(input.img.width, input.img.height, numCols), GetCharList(charMode)))
    ensures input.Decoded? && created && numCols <= 0 ==> r == Ok("")
  {
    match input
    case OpenFailed =>
      return Err("failed to open input file");
    case DecodeFailed =>
      return Err("failed to decode image");
    case Decoded(img) =>
      if !created {
        return Err("failed to create output file");
      }
      var g := GridFor(img.width, img.height, numCols);
      var chars := GetCharList(charMode);
      var text := AsciiGrid(img, g, chars);
      return Ok(text);
  }
}
