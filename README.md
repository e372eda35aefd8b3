# Go-ASCII-generator in Dafny

A model of the core of Go-ASCII-generator, a command-line tool that turns images and videos into ASCII art.
The model covers:

- **The photometric sampler** (`Sampler`): brightness, average colour, contrast and colour variance of the part
  of a rectangle that lies inside the image. These are the nested loops of `calculateBrightness`,
  `calculateAverageColor`, `calculateContrast` and `calculateColorVariance`. Each is proved to compute a function
  of the sequence of pixels it visits.
- **The glyph ramps and the glyph index** (`Glyphs`): the two ramps, the choice between them, the background
  colour, and the truncated, clamped index into a ramp.
- **The tile grid** (`Grid`) and the four converters:
  - `Render` (ImageToText): the text of one image.
  - `Drawing` (ImageToImage and ImageToImageColor): the glyphs drawn on a canvas, each with its anchor point and
    pen colour.
  - `Video` (VideoToText and VideoToVideoColor): the frame loops.
- **The benchmark's row enumeration and its partition of rows among workers** (`Partition`).
- **The worker pool** (`Workers`): a FIFO queue of jobs, each turned into one result tagged with its cell.
- **The configuration** (`Settings`, `Loader`): flag defaults, path resolution, the mode fallback, `isVerboseMode`,
  `RetryOperation`, `validateConfig`, the validation gate of `LoadConfig`, and `MergeWithFlags`.
- **The mode dispatch of `main`** (`Dispatch`).
- **The small classifiers and tables**:
  - file extensions and the encoder choice of `SaveImage` (`Formats`);
  - font choice and the font cache (`Fonts`);
  - application errors and their code predicates (`AppErrors`).
- **The test-side pixel buffers**:
  - `MockImage` (`Mock`);
  - the checkerboard, gradient and disc painters (`Painters`).

Supporting modules:

- `Outcomes`: Option and Result.
- `Pixels`: 16-bit pixels, BT.601 luma and decoded images.
- `Numbers`: `int()` truncation and decimal formatting.
- `Paths`: `ToLower`, `filepath.Ext`, `Join` and `Base`.
- `Rows`: the concatenation of rows.

The model's conventions:

- **Pixels:** an image pixel is the 16-bit reading `RGBA()` returns, so an 8-bit channel `c` appears as
  `c * 257`.
- **Arithmetic:** luma and the other float64 quantities are exact reals. The `uint32` accumulators of
  `calculateAverageColor` wrap around at 2^32 explicitly.
- **Foreign calls:** an outcome the model cannot compute is a parameter:
  - opening and decoding a file;
  - `os.Getwd`;
  - loading a font;
  - running ffmpeg;
  - the file-system steps before a video frame loop (temporary directory, frame extraction, output
    directory or file, glob), which enter as one setup outcome naming the first step that fails;
  - the operation that `RetryOperation` retries.

## Model

| member | source | states |
|---|---|---|
| Pixels.Widen | internal/converter/image_color.go:106 | An 8-bit channel read through `RGBA()` keeps its value in the top byte, and the 16-bit value is a multiple of 257. |
| Pixels.Luma | internal/converter/converter.go:56 | The BT.601 luma of a pixel lies in [0, 1]. It is 0 exactly for black and 1 exactly for white. |
| Pixels.Uniform | internal/converter/mock_test.go:14-27 | The image of one colour has that colour at every point inside its bounds. |
| Pixels.PrimaryLumas | internal/converter/converter.go:56 | The brightness of pure red, green and blue is its weight: 0.299, 0.587 and 0.114. Opaque white and black read as the 16-bit white and black. |
| Glyphs.GetCharList | internal/converter/converter.go:17-28 | Every mode gets a ramp of 10 or 70 glyphs. |
| Glyphs.CharListChoice | internal/converter/utils.go:13-18 | The short ramp is chosen exactly for "simple", and the long ramp for every other mode. |
| Glyphs.RampShapes | internal/converter/converter.go:10-13 | Both ramps start with their densest glyph ('@' or '$') and end with a space. |
| Glyphs.RampsHaveNoBreak | internal/converter/utils.go:9-10 | No glyph of either ramp is a line break. |
| Glyphs.GetBgColor | internal/converter/converter.go:32-41 | The background is always white or black. |
| Glyphs.BgColorChoice | internal/converter/utils.go:39-44 | The background is white exactly for "white" and black for every other name. |
| Glyphs.GlyphIndexInRange | internal/converter/image.go:58-61 | For a brightness in [0, 1], the index Glyphs.GlyphIndex picks lies inside the ramp. Black gives the first glyph and white gives the last. |
| Glyphs.GlyphIndexMonotonic | internal/converter/image.go:58 | A brighter cell never gets an earlier (denser) glyph. |
| Glyphs.ChooseIndex | internal/converter/video_color.go:92-95 | Truncation followed by the upper clamp gives the index the glyph functions use, and it lies inside the ramp. |
| Glyphs.Glyph | internal/converter/image.go:58-63 | The glyph picked for a brightness in [0, 1] belongs to the ramp. |
| Grid.MakeLayout | internal/converter/image.go:33-36 | For NumCols >= 1, the grid has the requested column count. Its columns span the image's width, and numRows is the number of whole rows of cellHeight that fit in the height. |
| Grid.NoColumnsNoRows | internal/converter/image.go:33-36 | For NumCols <= 0, numRows = int(H / (2·W / NumCols)) is at most 0 (Grid.SourceRows): cells are +Inf wide for 0 and negative otherwise. |
| Grid.GridFor | internal/converter/image.go:33-50 | The grid the converters use for any column count: its row count is Grid.SourceRows, or 0 when that is negative, so for NumCols <= 0 the row loop samples nothing. Every grid it gives fits the image, and a grid with rows has the requested column count. |
| Grid.WholeRows | internal/converter/image.go:36 | `int(h / c)` whole cells of height c fit in h, and one more does not. |
| Grid.TruncScaled | internal/converter/image.go:36 | Scaling a value by a positive factor keeps it between its integer part and the next integer. |
| Grid.CellOriginInside | internal/converter/image.go:52-56 | For every row below numRows and column below NumCols, the sampled origin (Grid.CellX, Grid.CellY) lies inside the image. |
| Grid.CellInside | internal/converter/image.go:52-56 | The whole region sampled for a cell, Grid.CellW by Grid.CellH from its origin, lies inside the image. |
| Grid.StartsBefore | internal/converter/image.go:53-54 | `int(k * c)` stays below n when k < count and count * c <= n. |
| Grid.AnchorInside | internal/converter/image.go:129-130 | Every glyph's anchor (Grid.AnchorX, Grid.AnchorY) lies inside the image, half a cell above the bottom edge of its row. |
| Sampler.ClipEnd | internal/converter/converter.go:51-52 | The loop bound stops at whichever comes first: the end of the rectangle or the image's edge. |
| Sampler.Span | internal/converter/converter.go:51-52 | The number of iterations of a clipped loop never exceeds the image's extent. |
| Sampler.VisitedExactly | internal/converter/converter.go:51-52 | The loops visit exactly the pixels with x <= cx < min(x+width, MaxX) and y <= cy < min(y+height, MaxY), row by row. Each visited pixel lies inside the image. |
| Sampler.VisitedEmpty | internal/converter/converter.go:51-52 | The visited region is empty exactly when one of its two clipped spans is empty. |
| Sampler.CalculateBrightness | internal/converter/converter.go:46-71 | The loops compute the mean luma of the visited pixels (0 when none is visited), which lies in [0, 1]. |
| Sampler.MeanLumaBounds | internal/converter/converter.go:65-70 | Brightness is 0 on an empty region and lies in [0, 1] otherwise. |
| Sampler.MeanLumaUniform | internal/converter/converter.go:70 | A region of one colour has that colour's luma as its brightness: 1 for white and 0 for black. |
| Sampler.SinglePixelBrightness | internal/converter/utils.go:20-37 | A one-pixel region visits only that pixel. A white pixel has brightness 1.0 and a black pixel 0.0. |
| Sampler.CalculateAverageColor | internal/converter/converter.go:75-105 | The loops compute the average colour of the visited pixels, with uint32 wrap-around, and alpha is 255. |
| Sampler.AverageColorUniform | internal/converter/converter.go:94-104 | A region of one 8-bit colour c averages to exactly c with alpha 255, provided the uint32 sums do not wrap. An empty region gives opaque black. |
| Sampler.AverageColorSingle | internal/converter/converter.go:99-104 | A one-pixel region averages to the top byte of each 16-bit channel. |
| Sampler.CalculateContrast | internal/converter/converter.go:109-139 | The loops compute the contrast of the visited pixels as written: max minus min, with both running extremes started at ±MaxFloat64. |
| Sampler.ContrastOfNonEmpty | internal/converter/converter.go:133-138 | On a non-empty region the contrast is the largest luma minus the smallest, and lies in [0, 1]. |
| Sampler.MinFoldIsMin | internal/converter/converter.go:113-125 | Started above every luma, the running minimum of a non-empty region is the least luma of its pixels. |
| Sampler.MaxFoldIsMax | internal/converter/converter.go:114-128 | Started below every luma, the running maximum of a non-empty region is the greatest luma of its pixels. |
| Sampler.ContrastUniform | internal/converter/converter.go:133-135 | A non-empty region of one colour has contrast 0. |
| Sampler.ContrastOfEmpty | internal/converter/converter.go:113-114 | On an empty region the code as written returns -2·MaxFloat64, not 0. The corrected contract gives 0. |
| Sampler.ContrastCorrected | internal/converter/converter.go:133-138 | The intended contrast lies in [0, 1] and agrees with the written code on every non-empty region. |
| Sampler.CalculateColorVariance | internal/converter/converter.go:143-176 | Two passes compute the mean summed squared deviation from the channel means, which is non-negative. |
| Sampler.ColorVarianceNonNegative | internal/converter/converter.go:165-175 | The colour variance of a non-empty region is never negative. |
| Sampler.ColorVarianceUniform | internal/converter/converter.go:159-175 | A region of one colour has colour variance 0. |
| Render.CellGlyph | internal/converter/image.go:52-62 | Each cell's glyph belongs to the ramp. A cell whose region is empty gets the densest glyph. |
| Render.PickGlyph | internal/converter/image.go:52-62 | The loop body samples the cell's region and picks that cell's glyph. |
| Render.TextLines | internal/converter/image.go:50-66 | The text has one line per grid row, each NumCols + 1 characters long. Which glyph sits at each position is proved by Render.AsciiTextLayout. |
| Render.AsciiTextLayout | internal/converter/image.go:50-66 | The text is numRows lines of NumCols glyphs. Character i·(NumCols+1)+j is cell (i, j)'s glyph, and a character is a line break exactly at the end of a line. |
| Render.AsciiGrid | internal/converter/image.go:50-66 | The nested loops produce exactly the text of the image. |
| Render.GlyphRow | internal/converter/image.go:51-65 | The column loop appends row i's glyphs, left to right. |
| Render.ImageToText | internal/converter/image.go:15-69 | An input that fails to open or decode gives its error. A failed os.Create then gives "failed to create output file" before any row. Otherwise the result is the text of the image's grid with the chosen ramp, which is empty for NumCols <= 0. |
| Drawing.Canvas.constructor | internal/converter/image.go:99 | A new context has the given size, is not cleared and has nothing drawn. |
| Drawing.Canvas.SetColor | internal/converter/image_color.go:79 | Only the pen changes. |
| Drawing.Canvas.Clear | internal/converter/image.go:100-101 | The surface takes the pen colour and everything drawn so far is covered. |
| Drawing.Canvas.DrawGlyph | internal/converter/image_color.go:80 | One glyph is added at the anchor, in the current pen colour. Nothing else changes. |
| Drawing.ColorBrightness | internal/converter/image_color.go:105-108 | The luma of an average colour lies in [0, 1]. It is 0 exactly for black and 1 exactly for white. |
| Drawing.CellMark | internal/converter/image_color.go:62-80 | Each glyph sits at its cell's anchor. The monochrome converter picks it from the region's brightness and draws it in the fixed pen. The coloured converters pick it from the luma of the cell's average colour and draw it in that average colour. |
| Drawing.MarkRows | internal/converter/image.go:116-134 | There is one row of marks per grid row, each of NumCols marks, and row i holds that row's marks. That the flattened (i·NumCols + j)-th mark is cell (i, j)'s is proved by Drawing.MarksLayout. |
| Drawing.MarksLayout | internal/converter/image.go:116-134 | One glyph is drawn per cell, row by row, and the (i·NumCols + j)-th mark is cell (i, j)'s. |
| Drawing.MonoInk | internal/converter/image.go:109-113 | The pen is black on a white background and white otherwise, so it never matches the background. |
| Drawing.PickColourGlyph | internal/converter/image_color.go:62-73 | The loop body of the coloured converter computes the cell's average colour and the glyph of that colour's luma. |
| Drawing.DrawCell | internal/converter/image.go:118-133 | Drawing a cell adds exactly that cell's mark and keeps the background. |
| Drawing.DrawRow | internal/converter/image.go:117-134 | The column loop adds row i's marks in order. |
| Drawing.DrawNextRow | internal/converter/image.go:116-134 | One pass of the row loop extends the marks drawn by the next row of the grid. |
| Drawing.DrawGrid | internal/converter/image.go:116-134 | The row loop draws every cell's mark, row by row, after whatever was on the canvas. |
| Drawing.ImageToImage | internal/converter/image.go:71-148 | An input that fails to open or decode gives its error. Otherwise the canvas is cleared to getBgColor. A font that fails to load gives its error with nothing drawn. Otherwise every cell is drawn in the contrasting pen, with nothing drawn for NumCols <= 0. Saving then fails with "failed to create output file" if os.Create fails. After that a .jpg or .jpeg name in any case (Drawing.JpegPath) returns jpeg.Encode's error, if any, and any other name fails with "unsupported output format". The call succeeds exactly when the file is created, the name is JPEG and encoding succeeds. |
| Drawing.ColourCanvas | internal/converter/image_color.go:45-82 | The canvas is cleared to white or black according to the background name. A font that fails to load gives its error. Otherwise every cell is drawn in its average colour. |
| Drawing.ImageToImageColor | internal/converter/image_color.go:17-102 | Open and decode errors are returned. The background is cleared and every cell is drawn in its average colour, with nothing drawn for NumCols <= 0. Saving then fails, in order, with "failed to create output directory", "failed to create output file", jpeg.Encode's error for a .jpg or .jpeg name, or "unsupported output format" for any other name. The call succeeds exactly when the directory and file are created, the name is JPEG and encoding succeeds. |
| Video.DecodedPrefix | internal/converter/video.go:49-60 | The frames before this count all decode, and the frame at the count does not. |
| Video.FrameHeaderNamesPosition | internal/converter/video.go:77 | The heading Video.FrameHeader(k) reads "Frame k:" followed by a line break, where k is the frame's position in the globbed list. |
| Video.TextBlocks | internal/converter/video.go:63-96 | There is one block per decoded frame. Each uses the grid of that frame's own size and opens with that frame's heading, which Video.FrameHeaderNamesPosition proves names the frame's position. |
| Video.VideoToText | internal/converter/video.go:16-104 | A failed setup step (temp directory, extraction, output directory, output file, glob) returns its own error before any frame, with nothing written. Otherwise the output is the blocks of the frames, in list order, up to the first frame that fails. That frame's open or decode error is returned, and there is no error only when every frame decodes. |
| Video.TextFrames | internal/converter/video.go:49-104 | The frame loop writes the blocks of the frames, in list order, up to the first frame that fails, returns that frame's open or decode error, and has no error only when every frame decodes. |
| Video.OutputNameKept | internal/converter/video_color.go:106 | Every output frame keeps its input frame's base name and lands in the output directory. |
| Video.Rendered | internal/converter/video_color.go:42-117 | The frame loop renders no frame past the first one that fails to decode, and none when the font fails to load. Video.VideoToVideoColor ties muxing to every frame being rendered. |
| Video.RenderFrame | internal/converter/video_color.go:56-106 | A decoded frame renders in colour under its own name exactly when the font loads, and fails with the font error otherwise. |
| Video.ColourFrames | internal/converter/video_color.go:42-117 | There is one output frame per rendered frame. That each keeps its input frame's base name in the output directory is proved by Video.OutputNameKept. |
| Video.FrameStep | internal/converter/video_color.go:44-106 | One pass either fails with the frame's open or decode error or the font error, or renders the frame in colour. |
| Video.RenderFrames | internal/converter/video_color.go:42-117 | The frame loop writes the coloured frames up to the first failure and returns that failure's error. It succeeds only when every frame rendered. |
| Video.VideoToVideoColor | internal/converter/video_color.go:15-132 | A failed setup step (temp directory, extraction, output frame directory, glob) returns its own error before any frame, with nothing written and no mux. Otherwise muxing runs only after every frame succeeded. A frame failure is returned before muxing, and a failed mux gives its own error. |
| Partition.RowSamples | internal/converter/converter_bench_test.go:118-124 | The column loop samples NumCols cells. That the p-th sample overall is cell (p / NumCols, p % NumCols) is proved by Partition.SequentialOrder. |
| Partition.Band | internal/converter/converter_bench_test.go:150-158 | A band of rows holds each of its rows' samples, in order. That adjacent bands join into the band of their union is proved by Partition.BandsJoin. |
| Partition.BandsJoin | internal/converter/converter_bench_test.go:117-125 | Sampling adjacent bands one after the other is sampling their union. |
| Partition.SampleRow | internal/converter/converter_bench_test.go:118-124 | The column loop appends row i's samples. |
| Partition.SampleRows | internal/converter/converter_bench_test.go:117-125 | The row loop samples the band of rows lo through hi - 1. |
| Partition.ProcessSequential | internal/converter/converter_bench_test.go:110-126 | processSequential samples every row of the grid built with the converters' formulas. |
| Partition.SequentialOrder | internal/converter/converter_bench_test.go:117-125 | The p-th call samples cell (p / NumCols, p % NumCols), so every cell is sampled exactly once. |
| Partition.RangesTile | internal/converter/converter_bench_test.go:137-146 | The ranges Partition.WorkerRows hands out tile the rows: the first worker starts at row 0 and the last ends at numRows. Each worker's range ends where the next one starts. |
| Partition.RangesPartition | internal/converter/converter_bench_test.go:140-146 | Every row lies in exactly one worker's range, even when there are more workers than rows. |
| Partition.RowRanges | internal/converter/converter_bench_test.go:140-146 | The partition loop yields one (startRow, endRow) pair per worker, with the range that worker is given. |
| Partition.WorkerBands | internal/converter/converter_bench_test.go:148-159 | There is one band of samples per worker. That the bands together are processSequential's samples is proved by Partition.WorkersCoverGrid. |
| Partition.WorkersPrefix | internal/converter/converter_bench_test.go:140-159 | The first w workers together sample every row up to where worker w - 1 stops. |
| Partition.WorkersCoverGrid | internal/converter/converter_bench_test.go:129-163 | Run in worker order, the workers sample exactly what processSequential samples, in the same order. |
| Partition.ProcessParallel | internal/converter/converter_bench_test.go:129-163 | Each worker samples the rows of its range, and together they cover the grid. |
| Workers.Process | internal/converter/worker.go:62-81 | A result carries its job's row and column, a brightness in [0, 1] and an opaque average colour. An empty region gives brightness 0 and black. |
| Workers.Processed | internal/converter/worker.go:61-83 | There is one result per job. That the results come in job order, each with its job's row and column, is proved by Workers.ProcessedAppend and Workers.StoppedPoolConserves. |
| Workers.ProcessedAppend | internal/converter/worker.go:61-83 | Processing two runs of jobs in turn gives their results in turn. |
| Workers.ProcessedNext | internal/converter/worker.go:61 | Taking the next job removes it from the queue and adds its result. |
| Workers.UniformJob | internal/converter/worker.go:62-69 | A job inside an image of one colour has that colour's luma as its brightness. |
| Workers.VisitedOfUniform | internal/converter/worker.go:62-75 | Every pixel a job visits in an image of one colour has that colour. |
| Workers.WorkerPool.constructor | internal/converter/worker.go:35-41 | The pool records the worker count and channel capacities of twice that count. Nothing is queued or started. |
| Workers.WorkerPool.Start | internal/converter/worker.go:44-49 | Exactly numWorkers workers are started, and nothing else changes. |
| Workers.WorkerPool.Submit | internal/converter/worker_test.go:33-39 | A send on the jobs channel: the job joins the back of the queue, and a send on a closed channel is excluded. |
| Workers.WorkerPool.WorkOne | internal/converter/worker.go:61-82 | The front job is taken and its result, tagged with its cell, is sent. Conservation is kept. |
| Workers.WorkerPool.Worker | internal/converter/worker.go:59-84 | The worker loop drains the queue and sends the jobs' results in queue order. |
| Workers.WorkerPool.Stop | internal/converter/worker.go:52-56 | Closing jobs and waiting leaves every queued job processed, and results are closed last. |
| Workers.StoppedPoolConserves | internal/converter/worker.go:52-56 | After Stop, every submitted job has produced exactly one result, with its row and column, in submission order. |
| Mock.MockImage.constructor | internal/converter/mock_test.go:14-27 | A new height × width buffer is white everywhere. |
| Mock.MockImage.Bounds | internal/converter/mock_test.go:33-35 | A point lies in the rectangle (0, 0)-(width, height) exactly when it is in bounds. |
| Mock.MockImage.At | internal/converter/mock_test.go:37-42 | At returns the stored pixel inside the bounds and black outside them. |
| Mock.MockImage.SetPixel | internal/converter/mock_test.go:45-49 | Inside the bounds, At(x, y) becomes c and every other pixel is unchanged. Outside the bounds, nothing changes. |
| Mock.MockImage.Snapshot | internal/converter/mock_test.go:37-42 | The buffer read as an image agrees with At at every point inside the bounds. |
| Mock.WhiteSnapshot | internal/converter/mock_test.go:14-27 | A fresh mock image reads as the all-white image. |
| Painters.Min | internal/testutils/test_helpers.go:53-58 | min returns one of its arguments, and that argument is no larger than the other. |
| Painters.FillRect | internal/testutils/test_helpers.go:43-46 | draw.Draw with a uniform source paints exactly the rectangle and leaves every other pixel unchanged. |
| Painters.FillRow | internal/testutils/test_helpers.go:46 | One scan line of the rectangle is painted, and nothing else changes. |
| Painters.SquareIsUniform | internal/testutils/test_helpers.go:38-41 | Every pixel of a square has the colour chosen for the square's corner. |
| Painters.GenerateTestPattern | internal/testutils/test_helpers.go:31-51 | Pixel (x, y) is black exactly when x/20 + y/20 is even, including in the clipped edge squares. |
| Painters.PatternColumn | internal/testutils/test_helpers.go:37-47 | The inner loop paints column x of the checkerboard, and nothing else changes. |
| Painters.Scale255 | internal/testutils/test_helpers.go:66-68 | `uint8(n/d*255)` is the floor of the fraction on the 0..255 scale. It is below 255, and 0 for n = 0. |
| Painters.GradientAt | internal/testutils/test_helpers.go:66-69 | Alpha is 255. Red depends on x alone and green on y alone, and every channel is below 255. |
| Painters.GenerateColorGradient | internal/testutils/test_helpers.go:61-74 | Every pixel gets its gradient colour. |
| Painters.GradientColumn | internal/testutils/test_helpers.go:65-70 | The inner loop paints column x of the gradient, and nothing else changes. |
| Painters.DiscByDistance | internal/testutils/test_helpers.go:124-130 | The bounding square adds nothing: the painted points are exactly those within distance r of the centre. A negative radius paints nothing. |
| Painters.DrawCircle | internal/testutils/test_helpers.go:123-135 | Every in-bounds pixel with dx² + dy² <= r² becomes col, and every other pixel is unchanged. |
| Painters.DiscColumn | internal/testutils/test_helpers.go:125-134 | The inner loop paints the disc's pixels in column x, and nothing else changes. |
| Settings.IsValidMode | internal/config/config.go:97-105 | The scan accepts a mode exactly when it is one of the valid modes. |
| Settings.ModesAccepted | internal/config/config.go:98 | image2text, image2image and video2video are valid. video2text, an unknown mode and the empty mode are not. |
| Settings.VerboseValues | internal/config/config.go:92-94 | Verbose mode (Settings.IsVerboseMode) is on for "true" in any letter case, and off for any other value. |
| Settings.Resolve | internal/config/config.go:74-81 | An absolute path is kept, and a relative one is joined onto the working directory. |
| Settings.ResolveAbsolute | internal/config/config.go:74-81 | Resolving against an absolute directory gives an absolute path, and resolving again changes nothing. |
| Settings.Config.constructor | internal/config/config.go:27 | A new config has every field zero. |
| Settings.Config.BindFlags | internal/config/config.go:29-40 | Each field holds its flag's value, or the flag's default when the flag was not given. |
| Settings.Config.ProcessPaths | internal/config/config.go:66-89 | Both paths are resolved against the working directory, which is "." when Getwd fails. Nothing else changes. |
| Settings.ParseFlags | internal/config/config.go:26-63 | Each field comes from its flag or the flag's default, and the paths are resolved. A mode isValidMode rejects, video2text included, becomes image2text, so the final mode is always valid. |
| Settings.FallbackIsValid | internal/config/config.go:51-54 | The fallback mode is valid, and video2text is not. |
| Settings.FirstSuccess | internal/config/config.go:124-128 | This is the first attempt that succeeds, or the attempt count when none does. |
| Settings.RetryOperation | internal/config/config.go:122-133 | The operation is called at most `retries` times, and never when retries <= 0. The loop returns nil at the first success. Otherwise the error names the retry count and the last attempt's error. |
| Settings.FirstSuccessIs | internal/config/config.go:124-131 | An attempt before which every attempt failed, and which succeeds, is the first success. |
| Loader.ValidateConfig | internal/config/loader.go:103-117 | The check fails exactly when the app name, version, default mode or fonts base path is empty, and it reports the first missing field in that order. |
| Loader.LoadConfig | internal/config/loader.go:39-61 | A config is returned only when it was parsed and validates. An invalid one gives "invalid config" with the validation error. |
| Loader.MergeValues | internal/config/loader.go:65-85 | Each empty or zero field takes its default, and every other field is kept. The paths and the character mode never change. |
| Loader.MergeIdempotent | internal/config/loader.go:65-85 | Merging twice with the same defaults is merging once. After a merge, a field is still empty only when its default is. |
| Loader.MergeWithFlags | internal/config/loader.go:64-94 | The same config is updated in place and returned. Each string field takes its default exactly when it is empty, and each number exactly when it is 0. The paths and the character mode are untouched. The new field values are Loader.MergeValues of the old ones. |
| Dispatch.SelectConverter | cmd/ascii/main.go:17-28 | The four modes select their converters, with image2image going to ImageToImageColor. Any other mode gives "unsupported mode: <mode>". |
| Dispatch.ValidModesDispatch | cmd/ascii/main.go:17-28 | Every mode ParseFlags can leave selects a converter, and never VideoToText. |
| Dispatch.Launch | cmd/ascii/main.go:11-28 | main never fails on the mode and never reaches the video2text branch. Without a mode flag it runs ImageToText. |
| Formats.ExtensionDecides | internal/utils/utils.go:14-23 | The image and video checks (Formats.IsSupportedImageFormat, Formats.IsSupportedVideoFormat) hold exactly when the lower-cased extension is .jpg/.jpeg/.png or .mp4/.avi/.mov, whatever the stem. |
| Formats.NoExtensionUnsupported | internal/utils/utils.go:15 | A name without an extension is neither an image nor a video. |
| Formats.ImageOrVideo | internal/utils/utils.go:14-23 | No file name passes both checks. |
| Formats.UpperCaseImage | internal/utils/utils.go:15-16 | An upper-case .JPG is an image. |
| Formats.UpperCaseVideo | internal/utils/utils.go:21-22 | An upper-case .MP4 is a video. |
| Formats.OtherExtensions | internal/utils/utils.go:14-23 | .gif and .txt are not images, and .mkv is not a video. |
| Formats.SaveImage | internal/utils/utils.go:26-42 | The file is created before the check. .jpg and .jpeg in any case go to JPEG and .png to PNG. Any other extension is an error naming the lower-cased extension. |
| Fonts.GetFontConfig | internal/fonts/fonts.go:17-36 | Chinese gets simsun.ttc, and Japanese and Korean get arial-unicode.ttf, both at 10 × scale. Every other language gets DejaVuSansMono-Bold.ttf at 20 × scale. |
| Fonts.FontSizeLinear | internal/fonts/fonts.go:18-33 | The font file does not depend on the scale, and the size is linear in the scale. |
| Fonts.FontKey | internal/fonts/manager.go:60-67 | A language selects the chinese, cjk or latin entry of the font table. |
| Fonts.FontManager.constructor | internal/fonts/manager.go:20-25 | A new manager has the given config and an empty cache. |
| Fonts.FontManager.FontPath | internal/fonts/manager.go:58-69 | The path is the language's entry of the font table joined onto the base path. |
| Fonts.FontManager.GetFont | internal/fonts/manager.go:28-55 | A cache hit returns the cached face without loading. A failed load returns an error naming the file and leaves the cache unchanged. A successful load inserts exactly one entry under the key and returns it. |
| Fonts.FontManager.ClearCache | internal/fonts/manager.go:72-76 | The cache becomes empty. |
| Fonts.CjkShareFont | internal/fonts/manager.go:63-64 | Japanese and Korean load the same file. A missing entry gives the base path itself. |
| AppErrors.NewAppError | internal/errors/errors.go:33-42 | All six arguments are copied into the error's fields unchanged. |
| AppErrors.WrapError | internal/errors/errors.go:50-55 | A nil error stays nil. Any other error is wrapped with the message, keeping the original as its cause. |
| AppErrors.KindsExclusive | internal/errors/errors.go:124-145 | At most one of the network, database, timeout and unauthorized predicates (AppErrors.IsNetworkError, IsDatabaseError, IsTimeoutError, IsUnauthorizedError) holds, and each implies an *AppError (AppErrors.IsAppError). |
| AppErrors.KindIsCallersCode | internal/errors/errors.go:118-145 | A constructed error is an *AppError (AppErrors.IsAppError) carrying the caller's code (AppErrors.HasCode). It is of a kind exactly when the caller passed that kind's code (1002 to 1005). |
| AppErrors.WrappingHidesCode | internal/errors/errors.go:50-55 | A wrapped error is not an *AppError, so no code predicate holds of it. |
| Numbers.Trunc | internal/converter/image.go:36 | `int()` of a non-negative value is its integer part. |
| Numbers.DecimalRoundTrip | internal/converter/video.go:77 | Reading back the digits `%d` prints gives the number. |
| Paths.ToLower | internal/utils/utils.go:15 | Lower-casing keeps the length, maps each ASCII capital to its lower-case letter and leaves every other character unchanged. The case-insensitive extension checks rest on it (Formats.ExtensionDecides, Formats.UpperCaseImage). |
| Paths.Join | internal/config/config.go:75 | Joining puts exactly one separator between two non-empty elements, and an empty element adds nothing. |
| Paths.Ext | internal/utils/utils.go:15 | The extension is empty or a dot-led suffix of the path without further dots or slashes. |
| Paths.ExtOfAppended | internal/utils/utils.go:15 | A name ending in an extension has that extension, whatever its stem. |
| Paths.Base | internal/converter/video_color.go:106 | The base name is non-empty and contains no slash, unless it is the root. |
| Paths.BaseOfJoin | internal/converter/video_color.go:106 | The base of a directory joined with a name is that name. |

## Left out

- **Goroutines, the WaitGroup and channel blocking:** the pool is a sequential FIFO, and Stop runs the worker
  loop. The 2n channel capacity is recorded but not enforced. The goroutines of processParallel run one after
  another, in worker order.
- **The RWMutex of the font manager and its double-checked lookup:** they only guard concurrent callers.
- **File and process I/O:** the model leaves out:
  - opening, creating and writing files, `os.MkdirAll`, `os.Getwd`, image decoding and JPEG/PNG encoding;
  - the ffmpeg runs, the temporary directory and `filepath.Glob`;
  - reading and unmarshalling the YAML config.

  The outcomes the converters branch on are inputs instead: opening and decoding each image or frame, the
  setup steps before a video frame loop, loading a font, the output directory, file and JPEG encoding of
  the image converters, and the final mux. The `fmt.Fprint` writes of ImageToText ignore their errors in
  the source as well. The per-frame write of
  VideoToText (video.go:99-101) and the per-frame create and encode of VideoToVideoColor
  (video_color.go:107-115) are assumed to succeed, as is the temporary directory's removal.
- **gg rasterisation:** the model keeps the glyph, anchor point and pen colour of each `DrawStringAnchored`
  call. Font faces are not loaded; whether a load succeeds is an input. `LoadFont`, `rotateImage` and
  `flipImage` are not part of this model.
- **Float64 rounding:** luma, cell sizes and anchor points are exact reals, and `int()` is truncation of an exact
  value. A zero-width image is excluded, because `int()` of H / 0 (Inf or NaN) is undefined in Go. Every
  column count is allowed: for NumCols <= 0 the source computes at most 0 rows, and the converters produce
  an empty text or draw nothing.
- **Partition.ProcessSequential, Partition.ProcessParallel:** require NumCols >= 1, since the benchmarks call them
  only with 100 and 200 columns. The converters themselves accept any column count.
- **Negative origins and images whose Bounds().Min is not (0, 0):** the sampling loops never clip from below.
- **Paths.ToLower:** folds only the ASCII letters, unlike Unicode-aware `strings.ToLower`.
- **Paths.Join:** does not apply `filepath.Clean` to the joined path.
- **Verbose output:** `printConfig`, `DebugMode` and the messages printed by ParseFlags, MergeWithFlags and
  RetryOperation are not modelled. The retry delay is left out as well.
- **Error texts:** the `%v`/`%w` suffixes that quote an underlying error are not modelled, and neither is
  `AppError.Error()`.
- **AppErrors.NewAppError:** also stands for NewDatabaseError, NewFileError, NewNetworkError, NewTimeoutError and
  NewUnauthorizedError, which have the same body.
- **Fonts.FontManager.GetFont:** keys the cache by the pair (language, size). The source's `"%s_%f"` string would
  also merge sizes that agree to six decimals.
- **Other helpers:** EnsureDir, GetFileSize, the logger, the alphabets tables, and the randomised generators
  TestImage, GenerateNoise and GenerateCircles are not part of this model.
- **Sampler.CalculateColorVariance:** requires a non-empty region. The source divides by a zero count there,
  which gives NaN in float64.
- **Sampler.AverageColorUniform:** requires the uint32 sums not to wrap (count · 65535 < 2^32).
  `CalculateAverageColor` itself models the wrap-around.

## Findings

| source | as written | input that shows it | evidently intended | confidence | as-written member | corrected member |
|---|---|---|---|---|---|---|
| internal/converter/converter.go:113-138 | The running extremes start at +MaxFloat64 and -MaxFloat64, and the `min == max` early return is not taken when no pixel was visited. The function returns -MaxFloat64 - MaxFloat64, which is -Inf in float64. | Any region with x >= width or y >= height, such as calculateContrast(img, img.Bounds().Max.X, 0, 1, 1). | The comment at the early return says a region where no pixel was processed has contrast 0. | not executed | Sampler.ContrastOfEmpty | Sampler.ContrastCorrected |
