// The frame loops of VideoToText (internal/converter/video.go) and
// VideoToVideoColor (internal/converter/video_color.go). The file-system and
// ffmpeg steps before the frame loop (temporary directory, extraction, output
// directory or file, glob) enter as one setup outcome naming the first step
// that fails; the converters receive the globbed frame list, each frame with
// the outcome of opening and decoding it.

module Video {
  import opened Pixels
  import opened Numbers
  import opened Outcomes
  import opened Paths
  import opened Glyphs
  import opened Grid
  import opened Rows
  import opened Render
  import opened Drawing

  /** One extracted frame: the file name the glob listed, and what opening and decoding it gave. */
  datatype Frame = Frame(path: string, input: Input)

  /** Every frame that decodes can carry a grid. */
  predicate FramesUsable(frames: seq<Frame>)
  {
    forall k | 0 <= k < |frames| :: frames[k].input.Decoded? ==> Usable(frames[k].input.img)
  }

  /** The number of leading frames that open and decode. */
  function DecodedPrefix(frames: seq<Frame>): (n: nat)
    ensures n <= |frames|
    ensures forall k | 0 <= k < n :: frames[k].input.Decoded?
    ensures n < |frames| ==> !frames[n].input.Decoded?
  {
    if frames == [] || !frames[0].input.Decoded? then 0 else 1 + DecodedPrefix(frames[1..])
  }

  /** The error a frame that does not decode stops the loop with. */
  function FrameError(f: Frame): string
    requires !f.input.Decoded?
  {
    if f.input.OpenFailed? then "failed to open frame" else "failed to decode frame"
  }

  /** The heading of the k-th frame of the list. */
  function FrameHeader(k: nat): string
  {
    "Frame " + Decimal(k) + ":\n"
  }

  /** The heading names the frame's position in the list, whatever number its file name carries. */
  lemma FrameHeaderNamesPosition(k: nat)
    ensures |FrameHeader(k)| >= 9 && FrameHeader(k)[..6] == "Frame "
    ensures FrameHeader(k)[|FrameHeader(k)| - 2..] == ":\n"
    ensures DecimalValue(FrameHeader(k)[6..|FrameHeader(k)| - 2]) == k
  {
    var h := FrameHeader(k);
    assert h[6..|h| - 2] == Decimal(k);
    DecimalRoundTrip(k);
  }

  /** What VideoToText writes for one frame: its heading, its text, and an empty line. */
  function FrameBlock(k: nat, img: Image, numCols: int, charMode: string): string
    requires Usable(img)
  {
    FrameHeader(k) + AsciiText(img, GridFor(img.width, img.height, numCols), GetCharList(charMode)) + "\n"
  }

  /** The blocks of the first n frames, all of which decode. */
  function TextBlocks(frames: seq<Frame>, numCols: int, charMode: string, n: nat): (blocks: seq<string>)
    requires FramesUsable(frames) && n <= DecodedPrefix(frames)
    ensures |blocks| == n
  {
    seq(n, k requires 0 <= k < n => FrameBlock(k, frames[k].input.img, numCols, charMode))
  }

  /** How far the steps before VideoToText's frame loop get: all of them succeed, or the first that fails
      (the temporary directory, the ffmpeg extraction, the output directory, the output file, the glob). */
  datatype TextSetup =
    | TextReady
    | TextTempDirFailed
    | TextExtractFailed
    | TextOutputDirFailed
    | TextOutputFileFailed
    | TextGlobFailed

  /** The error a failed setup step of VideoToText returns. */
  function TextSetupError(setup: TextSetup): (e: string)
    requires !setup.TextReady?
  {
    match setup
    case TextTempDirFailed => "failed to create temp directory"
    case TextExtractFailed => "failed to extract frames"
    case TextOutputDirFailed => "failed to create output directory"
    case TextOutputFileFailed => "failed to create output file"
    case TextGlobFailed => "failed to list frames"
  }

  /** VideoToText: a failed setup step returns its error before any frame is read and nothing is
      written; otherwise the frame loop runs over the globbed frame list. */
  method VideoToText(setup: TextSetup, frames: seq<Frame>, numCols: int, charMode: string)
    returns (written: string, err: Option<string>)
    requires FramesUsable(frames)
    ensures !setup.TextReady? ==> written == "" && err == Some(TextSetupError(setup))
    ensures setup.TextReady? ==> written == Concat(TextBlocks(frames, numCols, charMode, DecodedPrefix(frames)))
    ensures setup.TextReady? ==> (err == None <==> DecodedPrefix(frames) == |frames|)
    ensures setup.TextReady? && err != None ==> err == Some(FrameError(frames[DecodedPrefix(frames)]))
  {
    if !setup.TextReady? {
      return "", Some(TextSetupError(setup));
    }
    written, err := TextFrames(frames, numCols, charMode);
  }

  /** The frame loop of VideoToText: every frame's block in list order, up to the first frame that does
      not decode, whose error is returned. */
  method TextFrames(frames: seq<Frame>, numCols: int, charMode: string) returns (written: string, err: Option<string>)
    requires FramesUsable(frames)
    ensures written == Concat(TextBlocks(frames, numCols, charMode, DecodedPrefix(frames)))
    ensures err == None <==> DecodedPrefix(frames) == |frames|
    ensures err != None ==> err == Some(FrameError(frames[DecodedPrefix(frames)]))
  {
    ghost var blocks := TextBlocks(frames, numCols, charMode, DecodedPrefix(frames));
    written := "";
    var k := 0;
    while k < |frames|
      invariant 0 <= k <= DecodedPrefix(frames)
      invariant written == Concat(blocks[..k])
    {
      match frames[k].input
      case OpenFailed =>
        assert blocks[..k] == blocks;
        return written, Some("failed to open frame");
      case DecodeFailed =>
        assert blocks[..k] == blocks;
        return written, Some("failed to decode frame");
      case Decoded(img) =>
        var g := GridFor(img.width, img.height, numCols);
        var chars := GetCharList(charMode);
        var text := AsciiGrid(img, g, chars);
        var block := FrameHeader(k) + text + "\n";
        assert block == blocks[k];
        ConcatPush(blocks, k);
        written := written + block;
        k := k + 1;
    }
    assert blocks[..k] == blocks;
    err := None;
  }

  /** A frame written by VideoToVideoColor: its file name, background and glyph marks. */
  datatype OutFrame = OutFrame(path: string, fill: Pixel, marks: seq<Mark>)

  /** The coloured rendering of a frame that decodes, saved under the input frame's base name. */
  function ColourFrame(f: Frame, numCols: int, charMode: string, background: string, outDir: string): OutFrame
    requires f.input.Decoded? && Usable(f.input.img)
  {
    var img := f.input.img;
    OutFrame(Join(outDir, Base(f.path)), GetBgColor(background),
             Marks(img, GridFor(img.width, img.height, numCols), GetCharList(charMode), CellAverage))
  }

  /** Every output frame keeps its input frame's base name and lands in the output directory. */
  lemma OutputNameKept(f: Frame, numCols: int, charMode: string, background: string, outDir: string)
    requires f.input.Decoded? && Usable(f.input.img)
    requires Base(f.path) != "/"
    ensures Base(ColourFrame(f, numCols, charMode, background, outDir).path) == Base(f.path)
    ensures outDir != "" ==> ColourFrame(f, numCols, charMode, background, outDir).path == outDir + "/" + Base(f.path)
  {
    BaseOfJoin(outDir, Base(f.path));
  }

  /** How many frames VideoToVideoColor renders: none when the font cannot be loaded (the first frame
      that decodes stops there), else every frame before the first that does not decode. */
  function Rendered(frames: seq<Frame>, fontLoads: bool): (n: nat)
    ensures n <= DecodedPrefix(frames)
  {
    if fontLoads then DecodedPrefix(frames) else 0
  }

  /** The error that stops the frame loop at frame `Rendered`. */
  function StopError(frames: seq<Frame>, fontLoads: bool): string
    requires Rendered(frames, fontLoads) < |frames|
  {
    var f := frames[Rendered(frames, fontLoads)];
    if f.input.Decoded? then "failed to load font" else FrameError(f)
  }

  /** The body of the frame loop for a frame that decodes: render it in colour and name its output. */
  method RenderFrame(f: Frame, numCols: int, charMode: string, background: string, outDir: string, fontLoads: bool)
    returns (out: OutFrame, err: Option<string>)
    requires f.input.Decoded? && Usable(f.input.img)
    ensures err == None <==> fontLoads
    ensures err != None ==> err == Some("failed to load font")
    ensures err == None ==> out == ColourFrame(f, numCols, charMode, background, outDir)
  {
    var canvas;
    canvas, err := ColourCanvas(f.input.img, numCols, charMode, background, fontLoads);
    var outPath := Join(outDir, Base(f.path));
    out := OutFrame(outPath, canvas.fill.value, canvas.marks);
  }

  /** The coloured renderings of the first n frames, all of which decode. */
  function ColourFrames(frames: seq<Frame>, numCols: int, charMode: string, background: string, outDir: string,
                        n: nat): (outs: seq<OutFrame>)
    requires FramesUsable(frames) && n <= DecodedPrefix(frames)
    ensures |outs| == n
  {
    seq(n, k requires 0 <= k < n => ColourFrame(frames[k], numCols, charMode, background, outDir))
  }

  /** How far the steps before VideoToVideoColor's frame loop get: all of them succeed, or the first that
      fails (the temporary directory, the ffmpeg extraction, the output frame directory, the glob). */
  datatype ColourSetup =
    | ColourReady
    | ColourTempDirFailed
    | ColourExtractFailed
    | ColourFrameDirFailed
    | ColourGlobFailed

  /** The error a failed setup step of VideoToVideoColor returns. */
  function ColourSetupError(setup: ColourSetup): (e: string)
    requires !setup.ColourReady?
  {
    match setup
    case ColourTempDirFailed => "failed to create temp directory"
    case ColourExtractFailed => "failed to extract frames"
    case ColourFrameDirFailed => "failed to create output frame directory"
    case ColourGlobFailed => "failed to list frames"
  }

  /** VideoToVideoColor: a failed setup step returns its error before any frame; otherwise each frame is
      rendered in colour and saved under its own base name, and muxing runs only after every frame
      succeeded. `fontLoads` and `muxOk` stand for LoadFontFace and the final ffmpeg run. */
  method VideoToVideoColor(setup: ColourSetup, frames: seq<Frame>, numCols: int, charMode: string,
                           background: string, outDir: string, fontLoads: bool, muxOk: bool)
    returns (written: seq<OutFrame>, muxed: bool, err: Option<string>)
    requires FramesUsable(frames)
    ensures !setup.ColourReady? ==> written == [] && !muxed && err == Some(ColourSetupError(setup))
    ensures setup.ColourReady? ==>
              written == ColourFrames(frames, numCols, charMode, background, outDir, Rendered(frames, fontLoads))
    ensures setup.ColourReady? ==> (muxed <==> Rendered(frames, fontLoads) == |frames|)
    ensures setup.ColourReady? && !muxed ==> err == Some(StopError(frames, fontLoads))
    ensures muxed ==> (err == None <==> muxOk) && (!muxOk ==> err == Some("failed to create output video"))
  {
    if !setup.ColourReady? {
      return [], false, Some(ColourSetupError(setup));
    }
    written, err := RenderFrames(frames, numCols, charMode, background, outDir, fontLoads);
    if err != None {
      return written, false, err;
    }
    muxed := true;
    if !muxOk {
      err := Some("failed to create output video");
    }
  }

  /** One pass of the frame loop of VideoToVideoColor: open and decode the frame, then render it. */
  method FrameStep(f: Frame, numCols: int, charMode: string, background: string, outDir: string, fontLoads: bool)
    returns (out: OutFrame, err: Option<string>)
    requires f.input.Decoded? ==> Usable(f.input.img)
    ensures err == None <==> f.input.Decoded? && fontLoads
    ensures !f.input.Decoded? ==> err == Some(FrameError(f))
    ensures f.input.Decoded? && !fontLoads ==> err == Some("failed to load font")
    ensures err == None ==> f.input.Decoded? && out == ColourFrame(f, numCols, charMode, background, outDir)
  {
    match f.input
    case OpenFailed =>
      return OutFrame(outDir, Black16, []), Some("failed to open frame");
    case DecodeFailed =>
      return OutFrame(outDir, Black16, []), Some("failed to decode frame");
    case Decoded(_) =>
      out, err := RenderFrame(f, numCols, charMode, background, outDir, fontLoads);
  }

  /** The frame loop of VideoToVideoColor, up to the first frame that fails. */
  method RenderFrames(frames: seq<Frame>, numCols: int, charMode: string, background: string, outDir: string,
                      fontLoads: bool)
    returns (written: seq<OutFrame>, err: Option<string>)
    requires FramesUsable(frames)
    ensures written == ColourFrames(frames, numCols, charMode, background, outDir, Rendered(frames, fontLoads))
    ensures err == None <==> Rendered(frames, fontLoads) == |frames|
    ensures err != None ==> err == Some(StopError(frames, fontLoads))
  {
    ghost var n := Rendered(frames, fontLoads);
    ghost var outs := ColourFrames(frames, numCols, charMode, background, outDir, n);
    written := [];
    var k := 0;
    while k < |frames|
      invariant 0 <= k <= n
      invariant written == outs[..k]
    {
      var out, e := FrameStep(frames[k], numCols, charMode, background, outDir, fontLoads);
      if e != None {
        assert k == n;
        assert outs[..k] == outs;
        return written, e;
      }
      assert out == outs[k];
      TakeNext(outs, k);
      written := written + [out];
      k := k + 1;
    }
    assert outs[..k] == outs;
    err := None;
  }
}
