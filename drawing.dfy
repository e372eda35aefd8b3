// The drawing converters ImageToImage (internal/converter/image.go) and
// ImageToImageColor (internal/converter/image_color.go). The gg drawing
// context is reduced to the state the converters touch: the pen colour, the
// colour the surface was cleared to, and the glyphs drawn so far with the
// anchor point and pen colour of each. Rasterisation, fonts and encoding are
// not modelled.

module Drawing {
  import opened Pixels
  import opened Outcomes
  import opened Paths
  import opened Glyphs
  import opened Grid
  import opened Sampler
  import opened Rows
  import opened Render

  /** One DrawStringAnchored call: anchor point, glyph, and the pen colour at that moment. */
  datatype Mark = Mark(x: real, y: real, glyph: char, ink: Pixel)

  /** A gg drawing context, as far as the converters use it. */
  class Canvas {
    const width: nat
    const height: nat
    var color: Pixel
    var fill: Option<Pixel>
    var marks: seq<Mark>

    /** gg.NewContext: a transparent surface with nothing drawn. */
    constructor (width: nat, height: nat)
      ensures this.width == width && this.height == height
      ensures fill == None && marks == []
    {
      this.width := width;
      this.height := height;
      color := Black16;
      fill := None;
      marks := [];
    }

    /** SetColor and SetRGB: change the pen. */
    method SetColor(c: Pixel)
      modifies this
      ensures color == c && fill == old(fill) && marks == old(marks)
    {
      color := c;
    }

    /** Clear: paint the whole surface with the pen colour, covering everything drawn. */
    method Clear()
      modifies this
      ensures fill == Some(color) && marks == [] && color == old(color)
    {
      fill := Some(color);
      marks := [];
    }

    /** DrawStringAnchored of one glyph in the current pen colour. */
    method DrawGlyph(glyph: char, x: real, y: real)
      modifies this
      ensures marks == old(marks) + [Mark(x, y, glyph, color)]
      ensures color == old(color) && fill == old(fill)
    {
      marks := marks + [Mark(x, y, glyph, color)];
    }
  }

  /** How a converter colours its glyphs: one pen for the whole image, or each cell's average colour. */
  datatype Ink = Fixed(pen: Pixel) | CellAverage

  /** calculateColorBrightness of a color.RGBA: the luma of its 16-bit reading. */
  function ColorBrightness(c: RGBA8): (b: real)
    ensures 0.0 <= b <= 1.0
    ensures b == 0.0 <==> c.r == 0 && c.g == 0 && c.b == 0
    ensures b == 1.0 <==> c.r == 255 && c.g == 255 && c.b == 255
  {
    Luma(Widen(c))
  }

  /** The glyph drawn for cell (i, j): at the cell's anchor; grey-scale glyphs come from the region's
      mean luma, coloured ones from the luma of the average colour they are drawn in. */
  function CellMark(img: Image, g: Layout, chars: string, ink: Ink, i: nat, j: nat): (m: Mark)
    requires g.Valid() && |chars| >= 1
    ensures m.x == AnchorX(g, j) && m.y == AnchorY(g, i) && m.glyph in chars
    ensures ink.Fixed? ==> m.ink == ink.pen && m.glyph == CellGlyph(img, g, chars, i, j)
    ensures ink.CellAverage? ==>
      m.ink == Widen(AverageColor(CellRegion(img, g, i, j))) && m.glyph == Glyph(chars, Luma(m.ink))
  {
    match ink
    case Fixed(pen) =>
      Mark(AnchorX(g, j), AnchorY(g, i), CellGlyph(img, g, chars, i, j), pen)
    case CellAverage =>
      var avg := AverageColor(CellRegion(img, g, i, j));
      Mark(AnchorX(g, j), AnchorY(g, i), Glyph(chars, ColorBrightness(avg)), Widen(avg))
  }

  /** The marks of row i, left to right. */
  function RowMarks(img: Image, g: Layout, chars: string, ink: Ink, i: nat): seq<Mark>
    requires g.Valid() && |chars| >= 1
  {
    seq(g.numCols, j requires 0 <= j < g.numCols => CellMark(img, g, chars, ink, i, j))
  }

  /** The marks of every row. */
  function MarkRows(img: Image, g: Layout, chars: string, ink: Ink): (rows: seq<seq<Mark>>)
    requires g.Valid() && |chars| >= 1
    ensures |rows| == g.numRows && AllOfLength(rows, g.numCols)
    ensures forall i | 0 <= i < g.numRows :: rows[i] == RowMarks(img, g, chars, ink, i)
  {
    seq(g.numRows, i requires 0 <= i < g.numRows => RowMarks(img, g, chars, ink, i))
  }

  /** Everything a drawing converter draws on one image, in drawing order. */
  function Marks(img: Image, g: Layout, chars: string, ink: Ink): seq<Mark>
    requires g.Valid() && |chars| >= 1
  {
    Concat(MarkRows(img, g, chars, ink))
  }

  /** One glyph per cell, drawn row by row: the (i * NumCols + j)-th mark is cell (i, j)'s. */
  lemma MarksLayout(img: Image, g: Layout, chars: string, ink: Ink, i: nat, j: nat)
    requires g.Valid() && |chars| >= 1 && i < g.numRows && j < g.numCols
    ensures |Marks(img, g, chars, ink)| == g.numRows * g.numCols
    ensures i * g.numCols + j < |Marks(img, g, chars, ink)|
    ensures Marks(img, g, chars, ink)[i * g.numCols + j] == CellMark(img, g, chars, ink, i, j)
  {
    ConcatAt(MarkRows(img, g, chars, ink), g.numCols, i, j);
  }

  /** The pen ImageToImage writes with: black on a white background, white on any other. */
  function MonoInk(background: string): (p: Pixel)
    ensures p != GetBgColor(background)
    ensures p == Black16 <==> background == "white"
  {
    if background == "white" then Black16 else White16
  }

  /** The output check of both drawing converters: a .jpg or .jpeg name, in any letter case. */
  predicate JpegPath(path: string)
  {
    HasSuffix(ToLower(path), ".jpg") || HasSuffix(ToLower(path), ".jpeg")
  }

  /** The loop body of the coloured converters: average the cell, then pick the glyph by that colour's luma. */
  method PickColourGlyph(img: Image, g: Layout, chars: string, i: nat, j: nat) returns (glyph: char, avg: RGBA8)
    requires img.Valid() && g.Valid() && |chars| >= 1
    ensures Widen(avg) == CellMark(img, g, chars, CellAverage, i, j).ink
    ensures glyph == CellMark(img, g, chars, CellAverage, i, j).glyph
  {
    avg := CalculateAverageColor(img, CellX(g, j), CellY(g, i), CellW(g), CellH(g));
    var brightness := ColorBrightness(avg);
    var charIndex := ChooseIndex(brightness, |chars|);
    glyph := chars[charIndex];
  }

  /** The loop body of the drawing converters for cell (i, j): pick the glyph, set the pen for the
      coloured converters, and draw at the cell's anchor. */
  method DrawCell(canvas: Canvas, img: Image, g: Layout, chars: string, ink: Ink, i: nat, j: nat)
    requires img.Valid() && g.Valid() && |chars| >= 1
    requires ink.Fixed? ==> canvas.color == ink.pen
    modifies canvas
    ensures canvas.marks == old(canvas.marks) + [CellMark(img, g, chars, ink, i, j)]
    ensures canvas.fill == old(canvas.fill)
    ensures ink.Fixed? ==> canvas.color == ink.pen
  {
    var x, y := AnchorX(g, j), AnchorY(g, i);
    match ink {
      case Fixed(pen) =>
        var glyph := PickGlyph(img, g, chars, i, j);
        assert Mark(x, y, glyph, pen) == CellMark(img, g, chars, ink, i, j);
        canvas.DrawGlyph(glyph, x, y);
      case CellAverage =>
        var glyph, avg := PickColourGlyph(img, g, chars, i, j);
        ghost var m := CellMark(img, g, chars, ink, i, j);
        assert Mark(x, y, glyph, Widen(avg)) == m;
        canvas.SetColor(Widen(avg));
        canvas.DrawGlyph(glyph, x, y);
    }
  }

  /** The column loop for row i. */
  method DrawRow(canvas: Canvas, img: Image, g: Layout, chars: string, ink: Ink, i: nat)
    requires img.Valid() && g.Valid() && |chars| >= 1
    requires ink.Fixed? ==> canvas.color == ink.pen
    modifies canvas
    ensures canvas.marks == old(canvas.marks) + RowMarks(img, g, chars, ink, i)
    ensures canvas.fill == old(canvas.fill)
    ensures ink.Fixed? ==> canvas.color == ink.pen
  {
    ghost var row := RowMarks(img, g, chars, ink, i);
    var j := 0;
    while j < g.numCols
      invariant 0 <= j <= g.numCols
      invariant canvas.marks == old(canvas.marks) + row[..j]
      invariant canvas.fill == old(canvas.fill)
      invariant ink.Fixed? ==> canvas.color == ink.pen
    {
      DrawCell(canvas, img, g, chars, ink, i, j);
      assert row[..j + 1] == row[..j] + [row[j]];
      j := j + 1;
    }
    assert row[..j] == row;
  }

  /** The row loop: draws every cell of the grid, row by row. */
  method DrawGrid(canvas: Canvas, img: Image, g: Layout, chars: string, ink: Ink)
    requires img.Valid() && g.Valid() && |chars| >= 1
    requires ink.Fixed? ==> canvas.color == ink.pen
    modifies canvas
    ensures canvas.marks == old(canvas.marks) + Marks(img, g, chars, ink)
    ensures canvas.fill == old(canvas.fill)
  {
    ghost var rows := MarkRows(img, g, chars, ink);
    var i := 0;
    while i < g.numRows
      invariant 0 <= i <= g.numRows
      invariant canvas.marks == old(canvas.marks) + Concat(rows[..i])
      invariant canvas.fill == old(canvas.fill)
      invariant ink.Fixed? ==> canvas.color == ink.pen
    {
      DrawNextRow(canvas, img, g, chars, ink, i, old(canvas.marks));
      i := i + 1;
    }
    assert rows[..i] == rows;
  }

  /** One pass of the row loop: drawing row i extends what has been drawn by the grid's next row. */
  method DrawNextRow(canvas: Canvas, img: Image, g: Layout, chars: string, ink: Ink, i: nat, ghost base: seq<Mark>)
    requires img.Valid() && g.Valid() && |chars| >= 1 && i < g.numRows
    requires ink.Fixed? ==> canvas.color == ink.pen
    requires canvas.marks == base + Concat(MarkRows(img, g, chars, ink)[..i])
    modifies canvas
    ensures canvas.marks == base + Concat(MarkRows(img, g, chars, ink)[..i + 1])
    ensures canvas.fill == old(canvas.fill)
    ensures ink.Fixed? ==> canvas.color == ink.pen
  {
    DrawRow(canvas, img, g, chars, ink, i);
    ConcatPush(MarkRows(img, g, chars, ink), i);
  }

  /** ImageToImage: background from getBgColor, a contrasting pen, one glyph per cell, then the output file
      and a JPEG-only check. `fontLoads` stands for the outcome of LoadFontFace, `created` for that of
      os.Create on the output path, and `encodeErr` for the error jpeg.Encode returns, if any. */
  method ImageToImage(input: Input, numCols: int, charMode: string, background: string, outputPath: string,
                      fontLoads: bool, created: bool, encodeErr: Option<string>)
    returns (canvas: Canvas?, err: Option<string>)
    requires input.Decoded? ==> Usable(input.img)
    ensures input.OpenFailed? ==> canvas == null && err == Some("failed to open input file")
    ensures input.DecodeFailed? ==> canvas == null && err == Some("failed to decode image")
    ensures input.Decoded? ==> canvas != null && fresh(canvas)
    ensures input.Decoded? ==> canvas.width == input.img.width && canvas.height == input.img.height
    ensures input.Decoded? ==> canvas.fill == Some(GetBgColor(background))
    ensures input.Decoded? && !fontLoads ==> canvas.marks == [] && err == Some("failed to load font")
    ensures input.Decoded? && fontLoads ==>
      canvas.marks == Marks(input.img, GridFor(input.img.width, input.img.height, numCols),
                            GetCharList(charMode), Fixed(MonoInk(background)))
    ensures input.Decoded? && fontLoads && numCols <= 0 ==> canvas.marks == []
    ensures input.Decoded? && fontLoads && !created ==> err == Some("failed to create output file")
    ensures input.Decoded? && fontLoads && created ==>
      (JpegPath(outputPath) ==> err == encodeErr) && (!JpegPath(outputPath) ==> err == Some("unsupported output format"))
    ensures input.Decoded? && fontLoads ==> (err == None <==> created && JpegPath(outputPath) && encodeErr == None)
  {
    match input
    case OpenFailed =>
      return null, Some("failed to open input file");
    case DecodeFailed =>
      return null, Some("failed to decode image");
    case Decoded(img) =>
      var g := GridFor(img.width, img.height, numCols);
      var chars := GetCharList(charMode);
      canvas := new Canvas(img.width, img.height);
      canvas.SetColor(GetBgColor(background));
      canvas.Clear();
      if !fontLoads {
        return canvas, Some("failed to load font");
      }
      if background == "white" {
        canvas.SetColor(Black16);
      } else {
        canvas.SetColor(White16);
      }
      DrawGrid(canvas, img, g, chars, Fixed(MonoInk(background)));
      if !created {
        err := Some("failed to create output file");
      } else if JpegPath(outputPath) {
        err := encodeErr;
      } else {
        err := Some("unsupported output format");
      }
  }

  /** The canvas work shared by ImageToImageColor and each frame of VideoToVideoColor: clear to white or
      black, then draw every cell in its average colour. */
  method ColourCanvas(img: Image, numCols: int, charMode: string, background: string, fontLoads: bool)
    returns (canvas: Canvas, err: Option<string>)
    requires Usable(img)
    ensures fresh(canvas) && canvas.width == img.width && canvas.height == img.height
    ensures canvas.fill == Some(GetBgColor(background))
    ensures !fontLoads ==> canvas.marks == [] && err == Some("failed to load font")
    ensures fontLoads ==> err == None
    ensures fontLoads ==>
      canvas.marks == Marks(img, GridFor(img.width, img.height, numCols), GetCharList(charMode), CellAverage)
  {
    canvas := new Canvas(img.width, img.height);
    if background == "white" {
      canvas.SetColor(White16);
    } else {
      canvas.SetColor(Black16);
    }
    canvas.Clear();
    if !fontLoads {
      return canvas, Some("failed to load font");
    }
    var g := GridFor(img.width, img.height, numCols);
    var chars := GetCharList(charMode);
    DrawGrid(canvas, img, g, chars, CellAverage);
    err := None;
  }

  /** ImageToImageColor: the coloured canvas, then the output directory, the output file and the JPEG-only
      check. `dirMade`, `created` and `encodeErr` stand for the outcomes of os.MkdirAll on the output's
      directory, os.Create on the output path and jpeg.Encode. */
  method ImageToImageColor(input: Input, numCols: int, charMode: string, background: string, outputPath: string,
                           fontLoads: bool, dirMade: bool, created: bool, encodeErr: Option<string>)
    returns (canvas: Canvas?, err: Option<string>)
    requires input.Decoded? ==> Usable(input.img)
    ensures input.OpenFailed? ==> canvas == null && err == Some("failed to open input file")
    ensures input.DecodeFailed? ==> canvas == null && err == Some("failed to decode image")
    ensures input.Decoded? ==> canvas != null && fresh(canvas)
    ensures input.Decoded? ==> canvas.fill == Some(GetBgColor(background))
    ensures input.Decoded? && !fontLoads ==> canvas.marks == [] && err == Some("failed to load font")
    ensures input.Decoded? && fontLoads ==>
      canvas.marks == Marks(input.img, GridFor(input.img.width, input.img.height, numCols),
                            GetCharList(charMode), CellAverage)
    ensures input.Decoded? && fontLoads && numCols <= 0 ==> canvas.marks == []
    ensures input.Decoded? && fontLoads && !dirMade ==> err == Some("failed to create output directory")
    ensures input.Decoded? && fontLoads && dirMade && !created ==> err == Some("failed to create output file")
    ensures input.Decoded? && fontLoads && dirMade && created ==>
      (JpegPath(outputPath) ==> err == encodeErr) && (!JpegPath(outputPath) ==> err == Some("unsupported output format"))
    ensures input.Decoded? && fontLoads ==>
      (err == None <==> dirMade && created && JpegPath(outputPath) && encodeErr == None)
  {
    match input
    case OpenFailed =>
      return null, Some("failed to open input file");
    case DecodeFailed =>
      return null, Some("failed to decode image");
    case Decoded(img) =>
      canvas, err := ColourCanvas(img, numCols, charMode, background, fontLoads);
      if err != None {
        return;
      }
      if !dirMade {
        err := Some("failed to create output directory");
      } else if !created {
        err := Some("failed to create output file");
      } else if JpegPath(outputPath) {
        err := encodeErr;
      } else {
        err := Some("unsupported output format");
      }
  }
}
