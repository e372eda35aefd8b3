// The run configuration of internal/config: config.go (the Config record,
// the flag defaults and the mode fallback of ParseFlags, path resolution,
// the verbose switch and RetryOperation) and loader.go (the YAML application
// config, its validation and MergeWithFlags). Flag parsing, the environment,
// the working directory, the file system and the YAML decoder are inputs.

module Settings {
  import opened Outcomes
  import opened Paths

  /** The modes isValidMode accepts, in the order it tries them. */
  const ValidModes: seq<string> := ["image2text", "image2image", "video2video"]

  predicate ValidMode(mode: string)
  {
    mode in ValidModes
  }

  /** isValidMode: a scan of the list of valid modes. */
  method IsValidMode(mode: string) returns (valid: bool)
    ensures valid <==> ValidMode(mode)
  {
    var k := 0;
    while k < |ValidModes|
      invariant 0 <= k <= |ValidModes|
      invariant forall m | 0 <= m < k :: ValidModes[m] != mode
    {
      if mode == ValidModes[k] {
        return true;
      }
      k := k + 1;
    }
    return false;
  }

  /** video2text, though main dispatches it, is not a valid mode. */
  lemma ModesAccepted()
    ensures ValidMode("image2text") && ValidMode("image2image") && ValidMode("video2video")
    ensures !ValidMode("video2text") && !ValidMode("invalidMode") && !ValidMode("")
  {
  }

  /** isVerboseMode, given the value of VERBOSE_MODE. */
  predicate IsVerboseMode(env: string)
  {
    ToLower(env) == "true"
  }

  /** The switch ignores case and nothing else. */
  lemma VerboseValues()
    ensures IsVerboseMode("true") && IsVerboseMode("TRUE") && IsVerboseMode("True")
    ensures !IsVerboseMode("false") && !IsVerboseMode("") && !IsVerboseMode("1") && !IsVerboseMode(" true")
  {
    assert ToLower("TRUE") == "true";
    assert ToLower("True") == "true";
    assert ToLower("false")[0] == 'f';
    assert ToLower(" true")[0] == ' ';
  }

  /** The directory relative paths are resolved against: the working directory, or "." when
      os.Getwd fails. */
  function WorkDir(getwd: Option<string>): string
  {
    if getwd.None? then "." else getwd.value
  }

  /** ProcessPaths on one path: an absolute path is kept, a relative one joined onto the directory. */
  function Resolve(workDir: string, path: string): (p: string)
    ensures IsAbs(path) ==> p == path
    ensures !IsAbs(path) && path != "" && workDir != "" ==> p == workDir + "/" + path
  {
    if IsAbs(path) then path else Join(workDir, path)
  }

  /** Resolving against an absolute directory gives an absolute path, and resolving again changes
      nothing. */
  lemma ResolveAbsolute(workDir: string, path: string)
    requires IsAbs(workDir)
    ensures IsAbs(Resolve(workDir, path))
    ensures Resolve(workDir, Resolve(workDir, path)) == Resolve(workDir, path)
  {
    if !IsAbs(path) && path != "" {
      assert (workDir + "/" + path)[0] == workDir[0];
    }
  }

  /** The value of a flag: what the command line gave, or its default. */
  function Given<T>(flag: Option<T>, default: T): T
  {
    if flag.Some? then flag.value else default
  }

  /** What flag.Parse found on the command line, per flag. */
  datatype FlagValues = FlagValues(input: Option<string>, output: Option<string>, mode: Option<string>,
                                   cols: Option<int>, bg: Option<string>, charMode: Option<string>,
                                   scale: Option<real>, fps: Option<int>, overlay: Option<real>,
                                   lang: Option<string>)

  /** The fields of a Config, as one value. */
  datatype Values = Values(inputPath: string, outputPath: string, mode: string, numCols: int,
                           background: string, charMode: string, scale: real, fps: int,
                           overlayRatio: real, language: string)

  class Config {
    var inputPath: string
    var outputPath: string
    var mode: string
    var numCols: int
    var background: string
    var charMode: string
    var scale: real
    var fps: int
    var overlayRatio: real
    var language: string

    /** &Config{}: every field zero. */
    constructor ()
      ensures inputPath == "" && outputPath == "" && mode == "" && numCols == 0 && background == ""
      ensures charMode == "" && scale == 0.0 && fps == 0 && overlayRatio == 0.0 && language == ""
    {
      inputPath, outputPath, mode, numCols := "", "", "", 0;
      background, charMode, scale, fps := "", "", 0.0, 0;
      overlayRatio, language := 0.0, "";
    }

    function Snapshot(): Values
      reads this
    {
      Values(inputPath, outputPath, mode, numCols, background, charMode, scale, fps, overlayRatio, language)
    }

    /** The flag.StringVar, IntVar and Float64Var bindings followed by flag.Parse: each field holds
        its flag's value, or the flag's default when the flag was not given. */
    method BindFlags(given: FlagValues)
      modifies this
      ensures inputPath == Given(given.input, "data/input.jpg") && outputPath == Given(given.output, "data/output.txt")
      ensures mode == Given(given.mode, "image2text") && numCols == Given(given.cols, 100)
      ensures background == Given(given.bg, "black") && charMode == Given(given.charMode, "complex")
      ensures scale == Given(given.scale, 1.0) && fps == Given(given.fps, 0)
      ensures overlayRatio == Given(given.overlay, 0.2) && language == Given(given.lang, "english")
    {
      inputPath := Given(given.input, "data/input.jpg");
      outputPath := Given(given.output, "data/output.txt");
      mode := Given(given.mode, "image2text");
      numCols := Given(given.cols, 100);
      background := Given(given.bg, "black");
      charMode := Given(given.charMode, "complex");
      scale := Given(given.scale, 1.0);
      fps := Given(given.fps, 0);
      overlayRatio := Given(given.overlay, 0.2);
      language := Given(given.lang, "english");
    }

    /** ProcessPaths: both paths resolved against the working directory; nothing else changes.
        Creating the output directory is not modelled. */
    method ProcessPaths(getwd: Option<string>)
      modifies this
      ensures inputPath == Resolve(WorkDir(getwd), old(inputPath))
      ensures outputPath == Resolve(WorkDir(getwd), old(outputPath))
      ensures mode == old(mode) && numCols == old(numCols) && background == old(background)
      ensures charMode == old(charMode) && scale == old(scale) && fps == old(fps)
      ensures overlayRatio == old(overlayRatio) && language == old(language)
    {
      var workDir := ".";
      if getwd.Some? {
        workDir := getwd.value;
      }
      if !IsAbs(inputPath) {
        inputPath := Join(workDir, inputPath);
      }
      if !IsAbs(outputPath) {
        outputPath := Join(workDir, outputPath);
      }
    }
  }

  /** ParseFlags: each field from its flag or the flag's default, the paths resolved, and a mode
      that isValidMode rejects replaced by image2text. */
  method ParseFlags(given: FlagValues, getwd: Option<string>) returns (cfg: Config)
    ensures fresh(cfg)
    ensures cfg.inputPath == Resolve(WorkDir(getwd), Given(given.input, "data/input.jpg"))
    ensures cfg.outputPath == Resolve(WorkDir(getwd), Given(given.output, "data/output.txt"))
    ensures ValidMode(Given(given.mode, "image2text")) ==> cfg.mode == Given(given.mode, "image2text")
    ensures !ValidMode(Given(given.mode, "image2text")) ==> cfg.mode == "image2text"
    ensures ValidMode(cfg.mode) && cfg.mode != "video2text"
    ensures cfg.numCols == Given(given.cols, 100) && cfg.background == Given(given.bg, "black")
    ensures cfg.charMode == Given(given.charMode, "complex") && cfg.scale == Given(given.scale, 1.0)
    ensures cfg.fps == Given(given.fps, 0) && cfg.overlayRatio == Given(given.overlay, 0.2)
    ensures cfg.language == Given(given.lang, "english")
  {
    cfg := new Config();
    cfg.BindFlags(given);
    cfg.ProcessPaths(getwd);
    var valid := IsValidMode(cfg.mode);
    if !valid {
      cfg.mode := "image2text";
    }
    FallbackIsValid();
  }

  lemma FallbackIsValid()
    ensures ValidMode("image2text") && !ValidMode("video2text")
  {
  }

  /** The error RetryOperation returns after its last attempt failed: the retry count and the
      error of the last attempt, absent when there was no attempt. */
  datatype RetryError = RetryFailed(retries: int, last: Option<string>)

  /** The number of attempts a retry count allows. */
  function Attempts(retries: int): nat
  {
    if retries < 0 then 0 else retries
  }

  /** The first attempt from i on that succeeds, or n when none before n does. */
  function FirstSuccess(operation: nat -> Option<string>, i: nat, n: nat): (k: nat)
    requires i <= n
    ensures i <= k <= n
    ensures k < n ==> operation(k).None?
    ensures forall j | i <= j < k :: operation(j).Some?
    decreases n - i
  {
    if i == n then n else if operation(i).None? then i else FirstSuccess(operation, i + 1, n)
  }

  /** RetryOperation, attempt a of the operation giving `operation(a)` (None for success); the delay
      between attempts is not modelled. It stops at the first success, and reports how many times it
      called the operation. */
  method RetryOperation(operation: nat -> Option<string>, retries: int) returns (err: Option<RetryError>, calls: nat)
    ensures var k := FirstSuccess(operation, 0, Attempts(retries));
      k < Attempts(retries) ==> err == None && calls == k + 1
    ensures var k := FirstSuccess(operation, 0, Attempts(retries));
      k == Attempts(retries) ==> calls == Attempts(retries)
    ensures var k := FirstSuccess(operation, 0, Attempts(retries));
      k == Attempts(retries) ==> err == Some(RetryFailed(retries, if retries > 0 then operation(retries - 1) else None))
    ensures calls <= Attempts(retries)
  {
    var last: Option<string> := None;
    calls := 0;
    var i := 0;
    while i < retries
      invariant 0 <= i <= Attempts(retries) && calls == i
      invariant forall j | 0 <= j < i :: operation(j).Some?
      invariant last == if i == 0 then None else operation(i - 1)
    {
      last := operation(i);
      calls := calls + 1;
      if last == None {
        FirstSuccessIs(operation, 0, Attempts(retries), i);
        return None, calls;
      }
      i := i + 1;
    }
    FirstSuccessIs(operation, 0, Attempts(retries), Attempts(retries));
    err := Some(RetryFailed(retries, last));
  }

  /** FirstSuccess is the attempt before which every attempt failed and which succeeds (or is n). */
  lemma {:induction false} FirstSuccessIs(operation: nat -> Option<string>, i: nat, n: nat, k: nat)
    requires i <= k <= n
    requires forall j | i <= j < k :: operation(j).Some?
    requires k < n ==> operation(k).None?
    ensures FirstSuccess(operation, i, n) == k
    decreases k - i
  {
    if i < k {
      FirstSuccessIs(operation, i + 1, n, k);
    }
  }
}

module Loader {
  import opened Outcomes
  import opened Settings

  datatype AppSection = AppSection(name: string, version: string)

  datatype DefaultsSection = DefaultsSection(mode: string, background: string, numCols: int, scale: real,
                                             fps: int, overlayRatio: real, language: string)

  datatype FontsSection = FontsSection(basePath: string, defaultSize: real, files: map<string, string>)

  datatype OutputSection = OutputSection(supportedFormats: seq<string>)

  /** The YAML application config. */
  datatype AppConfig = AppConfig(app: AppSection, defaults: DefaultsSection, fonts: FontsSection,
                                 output: OutputSection)

  /** validateConfig: the required fields, checked in a fixed order; the first empty one is reported. */
  function ValidateConfig(c: AppConfig): (err: Option<string>)
    ensures err == None <==> c.app.name != "" && c.app.version != "" && c.defaults.mode != "" && c.fonts.basePath != ""
    ensures c.app.name == "" ==> err == Some("app name is required")
    ensures c.app.name != "" && c.app.version == "" ==> err == Some("app version is required")
    ensures c.app.name != "" && c.app.version != "" && c.defaults.mode == "" ==> err == Some("default mode is required")
    ensures c.app.name != "" && c.app.version != "" && c.defaults.mode != "" && c.fonts.basePath == "" ==>
              err == Some("fonts base path is required")
  {
    if c.app.name == "" then Some("app name is required")
    else if c.app.version == "" then Some("app version is required")
    else if c.defaults.mode == "" then Some("default mode is required")
    else if c.fonts.basePath == "" then Some("fonts base path is required")
    else None
  }

  /** How far reading the config file got. */
  datatype ConfigFile = Missing | ReadFailed(readErr: string) | Unparsable(parseErr: string) | Parsed(config: AppConfig)

  /** LoadConfig: the parsed config, returned only when it validates. */
  function LoadConfig(configPath: string, file: ConfigFile): (r: Result<AppConfig>)
    ensures r.Ok? <==> file.Parsed? && ValidateConfig(file.config) == None
    ensures r.Ok? ==> r.value == file.config
    ensures file.Parsed? && ValidateConfig(file.config) != None ==>
      r == Err("invalid config: " + ValidateConfig(file.config).value)
  {
    match file
    case Missing => Err("config file does not exist: " + configPath)
    case ReadFailed(e) => Err("failed to read config file: " + e)
    case Unparsable(e) => Err("failed to parse config file: " + e)
    case Parsed(c) =>
      var v := ValidateConfig(c);
      if v.Some? then Err("invalid config: " + v.value) else Ok(c)
  }

  /** A string field after the merge: the default when it is empty. */
  function FillText(field: string, default: string): string
  {
    if field == "" then default else field
  }

  /** An integer field after the merge: the default when it is 0. */
  function FillInt(field: int, default: int): int
  {
    if field == 0 then default else field
  }

  /** A float field after the merge: the default when it is 0. */
  function FillReal(field: real, default: real): real
  {
    if field == 0.0 then default else field
  }

  /** The values MergeWithFlags leaves: each empty string or zero number replaced by its default,
      every other field kept. */
  function MergeValues(v: Values, d: DefaultsSection): (m: Values)
    ensures m.inputPath == v.inputPath && m.outputPath == v.outputPath && m.charMode == v.charMode
    ensures v.mode == "" ==> m.mode == d.mode
    ensures v.mode != "" ==> m.mode == v.mode
    ensures v.numCols == 0 ==> m.numCols == d.numCols
    ensures v.numCols != 0 ==> m.numCols == v.numCols
  {
    v.(mode := FillText(v.mode, d.mode), background := FillText(v.background, d.background),
       numCols := FillInt(v.numCols, d.numCols), scale := FillReal(v.scale, d.scale),
       fps := FillInt(v.fps, d.fps), overlayRatio := FillReal(v.overlayRatio, d.overlayRatio),
       language := FillText(v.language, d.language))
  }

  /** Merging twice with the same defaults is merging once; and after a merge a field is still empty
      only when its default is. */
  lemma MergeIdempotent(v: Values, d: DefaultsSection)
    ensures MergeValues(MergeValues(v, d), d) == MergeValues(v, d)
    ensures d.mode != "" ==> MergeValues(v, d).mode != ""
    ensures d.numCols != 0 ==> MergeValues(v, d).numCols != 0
  {
  }

  /** MergeWithFlags: fills the config's empty fields from the defaults in place and returns the same
      config. The verbose dump is not modelled. */
  method MergeWithFlags(cfg: Config, appCfg: AppConfig) returns (merged: Config)
    modifies cfg
    ensures merged == cfg
    ensures cfg.inputPath == old(cfg.inputPath) && cfg.outputPath == old(cfg.outputPath)
    ensures cfg.charMode == old(cfg.charMode)
    ensures cfg.mode == FillText(old(cfg.mode), appCfg.defaults.mode)
    ensures cfg.background == FillText(old(cfg.background), appCfg.defaults.background)
    ensures cfg.numCols == FillInt(old(cfg.numCols), appCfg.defaults.numCols)
    ensures cfg.scale == FillReal(old(cfg.scale), appCfg.defaults.scale)
    ensures cfg.fps == FillInt(old(cfg.fps), appCfg.defaults.fps)
    ensures cfg.overlayRatio == FillReal(old(cfg.overlayRatio), appCfg.defaults.overlayRatio)
    ensures cfg.language == FillText(old(cfg.language), appCfg.defaults.language)
    ensures cfg.Snapshot() == MergeValues(old(cfg.Snapshot()), appCfg.defaults)
  {
    var d := appCfg.defaults;
    cfg.mode := FillText(cfg.mode, d.mode);
    cfg.background := FillText(cfg.background, d.background);
    cfg.numCols := FillInt(cfg.numCols, d.numCols);
    cfg.scale := FillReal(cfg.scale, d.scale);
    cfg.fps := FillInt(cfg.fps, d.fps);
    cfg.overlayRatio := FillReal(cfg.overlayRatio, d.overlayRatio);
    cfg.language := FillText(cfg.language, d.language);
    return cfg;
  }
}
