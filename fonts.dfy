// Font selection by language (internal/fonts/fonts.go) and the font cache of
// internal/fonts/manager.go. Loading a font face is a foreign call: the
// cache stores what a loaded face was loaded from, and whether a load
// succeeds is an input. The RWMutex and its double-checked lookup only guard
// concurrent callers and are not modelled.

module Fonts {
  import opened Outcomes
  import opened Paths
  import opened Loader

  /** A font file and the point size to load it at. */
  datatype FontConfig = FontConfig(path: string, size: real)

  const BaseSize: real := 10.0

  /** The languages with a CJK font of their own. */
  predicate IsCjk(language: string)
  {
    language == "japanese" || language == "korean"
  }

  /** GetFontConfig: SimSun for Chinese, Arial Unicode for Japanese and Korean, both at ten times the
      scale; DejaVu Sans Mono Bold at twenty times the scale for every other language. */
  function GetFontConfig(language: string, scale: real): (fc: FontConfig)
    ensures language == "chinese" ==> fc == FontConfig(Join("fonts", "simsun.ttc"), 10.0 * scale)
    ensures IsCjk(language) ==> fc == FontConfig(Join("fonts", "arial-unicode.ttf"), 10.0 * scale)
    ensures language != "chinese" && !IsCjk(language) ==>
      fc == FontConfig(Join("fonts", "DejaVuSansMono-Bold.ttf"), 20.0 * scale)
  {
    if language == "chinese" then FontConfig(Join("fonts", "simsun.ttc"), BaseSize * scale)
    else if IsCjk(language) then FontConfig(Join("fonts", "arial-unicode.ttf"), BaseSize * scale)
    else FontConfig(Join("fonts", "DejaVuSansMono-Bold.ttf"), BaseSize * 2.0 * scale)
  }

  /** The font file does not depend on the scale, and the size is the size at scale 1 times the scale;
      the Latin font is drawn at twice the size of the others. */
  lemma FontSizeLinear(language: string, scale: real)
    ensures GetFontConfig(language, scale).path == GetFontConfig(language, 1.0).path
    ensures GetFontConfig(language, scale).size == GetFontConfig(language, 1.0).size * scale
    ensures GetFontConfig(language, 1.0).size == if language == "chinese" || IsCjk(language) then 10.0 else 20.0
  {
  }

  /** Go's map index: the entry under key, or the empty string when there is none. */
  function Lookup(files: map<string, string>, key: string): string
  {
    if key in files then files[key] else ""
  }

  /** The entry of the fonts' file table a language uses. */
  function FontKey(language: string): (key: string)
    ensures key in {"chinese", "cjk", "latin"}
  {
    if language == "chinese" then "chinese" else if IsCjk(language) then "cjk" else "latin"
  }

  /** A cached font face: what it was loaded from, at what size. */
  datatype Face = Face(path: string, size: real)

  /** The FontManager: the application config it reads its font table from, and the cache of faces
      already loaded, keyed by language and size. */
  class FontManager {
    const config: AppConfig
    var cache: map<(string, real), Face>

    /** Every cached face was loaded from the file its language selects, at the size of its key. */
    ghost predicate Valid()
      reads this
    {
      forall key | key in cache :: cache[key] == Face(FontPath(key.0), key.1)
    }

    /** NewFontManager: the given config and an empty cache. */
    constructor (cfg: AppConfig)
      ensures config == cfg && cache == map[] && Valid()
    {
      config := cfg;
      cache := map[];
    }

    /** getFontPath: the language's entry of the font table (chinese, cjk for Japanese and Korean,
        latin otherwise) joined onto the fonts' base path. */
    function FontPath(language: string): (path: string)
      ensures path == Join(config.fonts.basePath, Lookup(config.fonts.files, FontKey(language)))
    {
      var fontFile :=
        if language == "chinese" then Lookup(config.fonts.files, "chinese")
        else if IsCjk(language) then Lookup(config.fonts.files, "cjk")
        else Lookup(config.fonts.files, "latin");
      Join(config.fonts.basePath, fontFile)
    }

    /** GetFont: a face already cached under (language, size) is returned as it is. Otherwise the face is
        loaded from the language's font file: a failed load is an error naming the file and leaves the
        cache alone, a successful one is cached under the key and returned. */
    method GetFont(language: string, size: real, loads: bool) returns (r: Result<Face>)
      requires Valid()
      modifies this
      ensures Valid()
      ensures (language, size) in old(cache) ==> r == Ok(old(cache)[(language, size)]) && cache == old(cache)
      ensures (language, size) !in old(cache) && !loads ==>
        r == Err("failed to load font " + FontPath(language)) && cache == old(cache)
      ensures (language, size) !in old(cache) && loads ==>
        r == Ok(Face(FontPath(language), size)) && cache == old(cache)[(language, size) := r.value]
      ensures r.Ok? ==> r.value == Face(FontPath(language), size)
    {
      var key := (language, size);
      if key in cache {
        return Ok(cache[key]);
      }
      var fontPath := FontPath(language);
      if !loads {
        return Err("failed to load font " + fontPath);
      }
      var face := Face(fontPath, size);
      cache := cache[key := face];
      return Ok(face);
    }

    /** ClearCache: the cache becomes empty. */
    method ClearCache()
      modifies this
      ensures cache == map[] && Valid()
    {
      cache := map[];
    }
  }

  /** Japanese and Korean share one font file; with no entry for a language's key the path is the
      base path itself. */
  lemma CjkShareFont(m: FontManager)
    ensures m.FontPath("japanese") == m.FontPath("korean")
    ensures FontKey("chinese") !in m.config.fonts.files ==> m.FontPath("chinese") == m.config.fonts.basePath
  {
  }
}
