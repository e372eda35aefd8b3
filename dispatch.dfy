// The entry point of cmd/ascii/main.go: parse the flags, then pick the
// converter that the configured mode names. Running the converter and the
// fatal log of its error are outside the model.

module Dispatch {
  import opened Outcomes
  import opened Settings

  /** The converters main can run. */
  datatype Converter = ImageToText | ImageToImageColor | VideoToText | VideoToVideoColor

  /** The switch on the mode: image2text and video2text to the text converters, image2image to the
      coloured image converter (not the monochrome one), video2video to the coloured video converter,
      and any other mode an error naming it. */
  function SelectConverter(mode: string): (r: Result<Converter>)
    ensures r.Ok? <==> mode in ["image2text", "image2image", "video2text", "video2video"]
    ensures r == Ok(ImageToImageColor) <==> mode == "image2image"
    ensures r == Ok(VideoToText) <==> mode == "video2text"
    ensures r.Err? ==> r == Err("unsupported mode: " + mode)
  {
    match mode
    case "image2text" => Ok(ImageToText)
    case "image2image" => Ok(ImageToImageColor)
    case "video2text" => Ok(VideoToText)
    case "video2video" => Ok(VideoToVideoColor)
    case _ => Err("unsupported mode: " + mode)
  }

  /** Every mode that survives ParseFlags selects a converter, and never VideoToText. */
  lemma ValidModesDispatch(mode: string)
    requires ValidMode(mode)
    ensures SelectConverter(mode).Ok? && SelectConverter(mode) != Ok(VideoToText)
  {
  }

  /** main up to the converter call: the parsed config and the converter its mode selects. Because
      ParseFlags replaces every invalid mode, video2text included, main never fails on the mode and never
      runs VideoToText. */
  method Launch(given: FlagValues, getwd: Option<string>) returns (cfg: Config, converter: Result<Converter>)
    ensures converter == SelectConverter(cfg.mode)
    ensures converter.Ok? && converter.value != VideoToText
    ensures given.mode == None ==> converter == Ok(ImageToText)
  {
    cfg := ParseFlags(given, getwd);
    converter := SelectConverter(cfg.mode);
    ValidModesDispatch(cfg.mode);
  }
}
