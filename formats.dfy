// The file-format checks of internal/utils/utils.go: the supported image and
// video extensions, compared case-insensitively, and the encoder SaveImage
// picks from the extension. Creating the file and encoding are outside the
// model; whether the file could be created is an input.

module Formats {
  import opened Outcomes
  import opened Paths

  const ImageExts: seq<string> := [".jpg", ".jpeg", ".png"]
  const VideoExts: seq<string> := [".mp4", ".avi", ".mov"]

  /** IsSupportedImageFormat: the lower-cased extension is .jpg, .jpeg or .png. */
  predicate IsSupportedImageFormat(filename: string)
  {
    ToLower(Ext(filename)) in ImageExts
  }

  /** IsSupportedVideoFormat: the lower-cased extension is .mp4, .avi or .mov. */
  predicate IsSupportedVideoFormat(filename: string)
  {
    ToLower(Ext(filename)) in VideoExts
  }

  /** The extension alone decides both checks, whatever the stem and whatever the case of the
      extension's letters. */
  lemma ExtensionDecides(stem: string, ext: string)
    requires |ext| > 0 && ext[0] == '.' && Plain(ext[1..])
    ensures IsSupportedImageFormat(stem + ext) <==> ToLower(ext) in ImageExts
    ensures IsSupportedVideoFormat(stem + ext) <==> ToLower(ext) in VideoExts
  {
    ExtOfAppended(stem, ext);
  }

  /** A name whose last element has no '.' is neither an image nor a video. */
  lemma NoExtensionUnsupported(dir: string, name: string)
    requires Plain(name) && (dir == "" || dir[|dir| - 1] == '/')
    ensures !IsSupportedImageFormat(dir + name) && !IsSupportedVideoFormat(dir + name)
  {
    ExtOfPlainName(dir, name);
  }

  /** No file name is both a supported image and a supported video. */
  lemma ImageOrVideo(filename: string)
    ensures !(IsSupportedImageFormat(filename) && IsSupportedVideoFormat(filename))
  {
  }

  /** An upper-case .JPG is an image, after any stem. */
  lemma UpperCaseImage(stem: string)
    ensures IsSupportedImageFormat(stem + ".JPG")
  {
    ExtensionDecides(stem, ".JPG");
    assert ToLower(".JPG") == ".jpg";
  }

  /** An upper-case .MP4 is a video, after any stem. */
  lemma UpperCaseVideo(stem: string)
    ensures IsSupportedVideoFormat(stem + ".MP4")
  {
    ExtensionDecides(stem, ".MP4");
    assert ToLower(".MP4") == ".mp4";
  }

  /** .gif and .txt are not images and .mkv is not a video, after any stem. */
  lemma OtherExtensions(stem: string)
    ensures !IsSupportedImageFormat(stem + ".gif") && !IsSupportedImageFormat(stem + ".txt")
    ensures !IsSupportedVideoFormat(stem + ".mkv")
  {
    ExtensionDecides(stem, ".gif");
    assert ToLower(".gif") == ".gif";
    ExtensionDecides(stem, ".txt");
    assert ToLower(".txt") == ".txt";
    ExtensionDecides(stem, ".mkv");
    assert ToLower(".mkv") == ".mkv";
  }

  /** The encoders SaveImage can hand the image to. */
  datatype Encoder = Jpeg | Png

  /** SaveImage: the file is created first; then .jpg and .jpeg (in any case) go to the JPEG encoder,
      .png to the PNG encoder, and any other extension is an error naming the lower-cased extension. */
  function SaveImage(filename: string, created: bool): (r: Result<Encoder>)
    ensures !created ==> r == Err("failed to create file")
    ensures created ==> (r.Ok? <==> IsSupportedImageFormat(filename))
    ensures r == Ok(Jpeg) <==> created && ToLower(Ext(filename)) in [".jpg", ".jpeg"]
    ensures created && !IsSupportedImageFormat(filename) ==>
      r == Err("unsupported image format: " + ToLower(Ext(filename)))
  {
    if !created then Err("failed to create file")
    else
      var ext := ToLower(Ext(filename));
      if ext == ".jpg" || ext == ".jpeg" then Ok(Jpeg)
      else if ext == ".png" then Ok(Png)
      else Err("unsupported image format: " + ext)
  }
}
