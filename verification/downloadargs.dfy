/**
 * The first half of `downloadMedia`: the options of one download, the
 * format selector handed to the downloader's `-f` option, the output
 * template, and the argument vector of the downloader process.
 *
 * The argument vector is checked against a reader of the downloader's
 * command line that knows the arity of each option used here: reading back
 * the built vector gives exactly the intended settings and the URL as the
 * only positional argument.
 */
module DownloadArgs {
  import opened Wrappers
  import opened Text

  /** `DownloadOptions`; `quality` may be absent (the download route leaves it out). */
  datatype Options = Options(
    url: string,
    format: string,
    quality: Option<string>,
    customName: Option<string>,
    outputPath: Option<string>)

  /** The output template of the progress lines the downloader prints. */
  const ProgressTemplate := "%(progress._percent_str)s|%(progress._speed_str)s|%(progress._eta_str)s"

  const AudioSelector := "bestaudio/best"
  const BestSelector := "bestvideo+bestaudio/best"

  /** What Node reports when a method is called on `undefined` `quality`. */
  const QualityTypeError := "Cannot read properties of undefined (reading 'includes')"

  /** The formats that are downloaded as audio only. */
  predicate IsAudio(format: string) {
    format == "mp3" || format == "audio"
  }

  // ---------------------------------------------------------------------------
  // Paths

  /**
   * `path.join` of a directory and a file name, for names without `..`
   * segments: one separator between the two parts.
   */
  function JoinPath(dir: string, name: string): (r: string)
    ensures |r| >= |name| && r[|r| - |name|..] == name
  {
    if dir == [] then name
    else if dir[|dir| - 1] == '/' then dir + name
    else dir + "/" + name
  }

  /** `path.basename` of a path without a trailing separator: the text after the last `/`. */
  function Basename(p: string): (r: string)
    ensures '/' !in r
  {
    p[LastIndexOf(p, '/') + 1..]
  }

  /** Joining a separator-free name to a directory and taking the base name gives the name back. */
  lemma BasenameOfJoin(dir: string, name: string)
    requires '/' !in name
    ensures Basename(JoinPath(dir, name)) == name
  {
    var r := JoinPath(dir, name);
    AbsentFromSuffix(r, name, '/');
    if dir != [] {
      assert r[|r| - |name| - 1] == '/' by {
        if dir[|dir| - 1] == '/' {
          assert r == dir + name;
        } else {
          assert r == dir + "/" + name;
        }
      }
      LastIndexOfIs(r, '/', |r| - |name| - 1);
    }
  }

  /** The download directory: the requested one, or `download` under the working directory. */
  function DownloadDir(outputPath: Option<string>, cwd: string): (r: string)
    ensures Truthy(outputPath) ==> r == outputPath.value
    ensures !Truthy(outputPath) ==> r == JoinPath(cwd, "download")
  {
    if Truthy(outputPath) then outputPath.value else JoinPath(cwd, "download")
  }

  // ---------------------------------------------------------------------------
  // The format selector

  /** A selector capping the video height at `cap` in both alternatives. */
  function HeightCapped(cap: string): string {
    "bestvideo[height<=" + cap + "]+bestaudio/best[height<=" + cap + "]"
  }

  /**
   * The selector for `format` and `quality`, or the `TypeError` thrown when
   * a video format comes without a quality.
   */
  function FormatSelector(format: string, quality: Option<string>): (r: Result<string, string>)
    ensures r.Failure? <==> !IsAudio(format) && quality.None?
    ensures r.Failure? ==> r.error == QualityTypeError
  {
    if IsAudio(format) then Success(AudioSelector)
    else if quality == Some("best") || quality == Some("highest") then Success(BestSelector)
    else if quality.None? then Failure(QualityTypeError)
    else if Contains(quality.value, "p") then Success(HeightCapped(RemoveFirst(quality.value, 'p')))
    else Success(BestSelector)
  }

  /** An audio format ignores the quality, even an absent one. */
  lemma FormatSelectorAudio(format: string, quality: Option<string>)
    requires IsAudio(format)
    ensures FormatSelector(format, quality) == Success(AudioSelector)
  {
  }

  /** Without a quality, every video format fails with the `TypeError`. */
  lemma FormatSelectorNoQuality(format: string)
    ensures FormatSelector(format, None).Failure? <==> !IsAudio(format)
    ensures !IsAudio(format) ==> FormatSelector(format, None).error == QualityTypeError
  {
  }

  /** `best` and `highest` ask for the best video and audio streams. */
  lemma FormatSelectorBest(format: string, q: string)
    requires !IsAudio(format) && (q == "best" || q == "highest")
    ensures FormatSelector(format, Some(q)) == Success(BestSelector)
  {
  }

  /**
   * A video quality other than `best`/`highest` that mentions `p` caps the
   * height at the quality with its first `p` cut out; one without `p` gives
   * the best video and audio streams, as `best` and `highest` do.
   */
  lemma FormatSelectorHeight(format: string, q: string)
    requires !IsAudio(format) && q != "best" && q != "highest"
    ensures var k := IndexOf(q, 'p');
      FormatSelector(format, Some(q)) ==
        if k < 0 then Success(BestSelector) else Success(HeightCapped(q[..k] + q[k + 1..]))
  {
    ContainsChar(q, 'p');
    RemoveFirstShape(q, 'p');
    var k := IndexOf(q, 'p');
    if k >= 0 {
      assert 'p' in q;
    } else {
      assert 'p' !in q;
    }
  }

  /** The usual quality labels: `720p` caps the height at 720. */
  lemma FormatSelector720p(format: string)
    requires !IsAudio(format)
    ensures FormatSelector(format, Some("720p")) == Success(HeightCapped("720"))
  {
    FormatSelectorHeight(format, "720p");
    assert IndexOf("720p", 'p') == 3;
    assert "720p"[..3] + "720p"[4..] == "720";
  }

  /** The output template: the custom name or the title, then the extension the downloader picks. */
  function OutputTemplate(dir: string, customName: Option<string>): string {
    if Truthy(customName) then JoinPath(dir, customName.value + ".%(ext)s")
    else JoinPath(dir, "%(title)s.%(ext)s")
  }

  /**
   * The template ends with the custom name, or with the title placeholder,
   * followed by the extension placeholder.
   */
  lemma OutputTemplateEnds(dir: string, customName: Option<string>)
    ensures var t := OutputTemplate(dir, customName); var name := OrElse(customName, "%(title)s") + ".%(ext)s";
      |t| >= |name| && t[|t| - |name|..] == name
  {
  }

  // ---------------------------------------------------------------------------
  // Reading a command line back

  /** The settings a downloader command line asks for, as the downloader reads it. */
  datatype Invocation = Invocation(
    noWarnings: bool,
    newline: bool,
    progress: bool,
    extractAudio: bool,
    progressTemplate: Option<string>,
    formatSpec: Option<string>,
    output: Option<string>,
    audioFormat: Option<string>,
    audioQuality: Option<string>,
    mergeFormat: Option<string>,
    urls: seq<string>,
    pending: Option<string>,
    unknownOption: bool)

  const NoArguments := Invocation(false, false, false, false, None, None, None, None, None, None, [], None, false)

  /** The options used here that take a value. */
  predicate TakesValue(a: string) {
    a == "--progress-template" || a == "-f" || a == "-o" ||
    a == "--audio-format" || a == "--audio-quality" || a == "--merge-output-format"
  }

  predicate LooksLikeOption(a: string) {
    |a| > 0 && a[0] == '-'
  }

  function SetValue(inv: Invocation, option: string, v: string): Invocation {
    if option == "--progress-template" then inv.(progressTemplate := Some(v))
    else if option == "-f" then inv.(formatSpec := Some(v))
    else if option == "-o" then inv.(output := Some(v))
    else if option == "--audio-format" then inv.(audioFormat := Some(v))
    else if option == "--audio-quality" then inv.(audioQuality := Some(v))
    else inv.(mergeFormat := Some(v))
  }

  /** Reads one more argument: a pending option's value, a switch, an option, or a positional. */
  function ReadArg(inv: Invocation, a: string): Invocation {
    if inv.pending.Some? then SetValue(inv.(pending := None), inv.pending.value, a)
    else if a == "--no-warnings" then inv.(noWarnings := true)
    else if a == "--newline" then inv.(newline := true)
    else if a == "--progress" then inv.(progress := true)
    else if a == "-x" then inv.(extractAudio := true)
    else if TakesValue(a) then inv.(pending := Some(a))
    else if LooksLikeOption(a) then inv.(unknownOption := true)
    else inv.(urls := inv.urls + [a])
  }

  /** Reads a command line from the left. */
  function ReadArgs(args: seq<string>): Invocation {
    if args == [] then NoArguments else ReadArg(ReadArgs(args[..|args| - 1]), args[|args| - 1])
  }

  lemma ReadArgsPush(args: seq<string>, a: string)
    ensures ReadArgs(args + [a]) == ReadArg(ReadArgs(args), a)
  {
    assert (args + [a])[..|args|] == args;
  }

  /** What the command line for a download is meant to ask for. */
  function Intended(format: string, formatArg: string, template: string, url: string): Invocation {
    Invocation(
      noWarnings := true,
      newline := true,
      progress := true,
      extractAudio := IsAudio(format),
      progressTemplate := Some(ProgressTemplate),
      formatSpec := Some(formatArg),
      output := Some(template),
      audioFormat := if IsAudio(format) then Some("mp3") else None,
      audioQuality := if IsAudio(format) then Some("0") else None,
      mergeFormat := if !IsAudio(format) && format == "mp4" then Some("mp4") else None,
      urls := [url],
      pending := None,
      unknownOption := false)
  }

  /** The switches and options every download passes. */
  function BaseArgs(formatArg: string, template: string): seq<string> {
    ["--no-warnings", "--newline", "--progress",
     "--progress-template", ProgressTemplate,
     "-f", formatArg,
     "-o", template]
  }

  /**
   * The argument vector of the downloader process. The URL is the last
   * argument; when it does not look like an option, reading the vector back
   * gives exactly the intended settings, with the URL as the only positional.
   */
  method BuildArgs(url: string, format: string, formatArg: string, template: string) returns (args: seq<string>)
    ensures |args| > 0 && args[|args| - 1] == url
    ensures !LooksLikeOption(url) ==> ReadArgs(args) == Intended(format, formatArg, template, url)
  {
    args := BaseArgs(formatArg, template);
    ReadBaseArgs(formatArg, template);
    ghost var inv := ReadArgs(args);
    if IsAudio(format) {
      ReadSwitch(args, "-x");
      args := args + ["-x"];
      ReadValue(args, "--audio-format", "mp3");
      args := args + ["--audio-format", "mp3"];
      ReadValue(args, "--audio-quality", "0");
      args := args + ["--audio-quality", "0"];
      assert ReadArgs(args) == inv.(extractAudio := true, audioFormat := Some("mp3"), audioQuality := Some("0"));
    } else if format == "mp4" {
      ReadValue(args, "--merge-output-format", "mp4");
      args := args + ["--merge-output-format", "mp4"];
    }
    if !LooksLikeOption(url) {
      ReadPositional(args, url);
    }
    args := args + [url];
  }

  /** Reading the base arguments sets the three switches and the three options. */
  lemma ReadBaseArgs(formatArg: string, template: string)
    ensures ReadArgs(BaseArgs(formatArg, template)) ==
      NoArguments.(noWarnings := true, newline := true, progress := true,
        progressTemplate := Some(ProgressTemplate), formatSpec := Some(formatArg), output := Some(template))
  {
    var a7 := ["--no-warnings", "--newline", "--progress", "--progress-template", ProgressTemplate, "-f", formatArg];
    ReadFormatArgs(formatArg);
    ReadValue(a7, "-o", template);
    assert a7 + ["-o", template] == BaseArgs(formatArg, template);
  }

  lemma ReadFormatArgs(formatArg: string)
    ensures ReadArgs(["--no-warnings", "--newline", "--progress", "--progress-template", ProgressTemplate, "-f", formatArg]) ==
      NoArguments.(noWarnings := true, newline := true, progress := true,
        progressTemplate := Some(ProgressTemplate), formatSpec := Some(formatArg))
  {
    var a5 := ["--no-warnings", "--newline", "--progress", "--progress-template", ProgressTemplate];
    ReadTemplateArgs();
    ReadValue(a5, "-f", formatArg);
    assert a5 + ["-f", formatArg] == ["--no-warnings", "--newline", "--progress", "--progress-template", ProgressTemplate, "-f", formatArg];
  }

  lemma ReadTemplateArgs()
    ensures ReadArgs(["--no-warnings", "--newline", "--progress", "--progress-template", ProgressTemplate]) ==
      NoArguments.(noWarnings := true, newline := true, progress := true, progressTemplate := Some(ProgressTemplate))
  {
    var a3 := ["--no-warnings", "--newline", "--progress"];
    ReadSwitches();
    ReadValue(a3, "--progress-template", ProgressTemplate);
    assert a3 + ["--progress-template", ProgressTemplate] ==
      ["--no-warnings", "--newline", "--progress", "--progress-template", ProgressTemplate];
  }

  lemma ReadSwitches()
    ensures ReadArgs(["--no-warnings", "--newline", "--progress"]) ==
      NoArguments.(noWarnings := true, newline := true, progress := true)
  {
    var a0: seq<string> := [];
    ReadSwitch(a0, "--no-warnings");
    var a1 := a0 + ["--no-warnings"];
    ReadSwitch(a1, "--newline");
    var a2 := a1 + ["--newline"];
    ReadSwitch(a2, "--progress");
    assert a2 + ["--progress"] == ["--no-warnings", "--newline", "--progress"];
  }

  /** A switch read with no option pending turns that switch on. */
  lemma ReadSwitch(args: seq<string>, a: string)
    requires ReadArgs(args).pending.None?
    requires a == "--no-warnings" || a == "--newline" || a == "--progress" || a == "-x"
    ensures var inv := ReadArgs(args);
      ReadArgs(args + [a]) ==
        if a == "--no-warnings" then inv.(noWarnings := true)
        else if a == "--newline" then inv.(newline := true)
        else if a == "--progress" then inv.(progress := true)
        else inv.(extractAudio := true)
  {
    ReadArgsPush(args, a);
  }

  /** An option and its value, read with no option pending, set that option. */
  lemma ReadValue(args: seq<string>, option: string, v: string)
    requires ReadArgs(args).pending.None? && TakesValue(option)
    ensures ReadArgs(args + [option, v]) == SetValue(ReadArgs(args), option, v)
    ensures ReadArgs(args + [option, v]).pending.None?
  {
    ReadArgsPush(args, option);
    ReadOption(ReadArgs(args), option);
    ReadArgsPush(args + [option], v);
    assert args + [option] + [v] == args + [option, v];
  }

  /** An option that takes a value waits for it. */
  lemma ReadOption(inv: Invocation, option: string)
    requires inv.pending.None? && TakesValue(option)
    ensures ReadArg(inv, option) == inv.(pending := Some(option))
  {
  }

  /** A text that does not look like an option, read with no option pending, is a positional. */
  lemma ReadPositional(args: seq<string>, a: string)
    requires ReadArgs(args).pending.None? && !LooksLikeOption(a)
    ensures ReadArgs(args + [a]) == ReadArgs(args).(urls := ReadArgs(args).urls + [a])
  {
    ReadArgsPush(args, a);
    ReadPlain(ReadArgs(args), a);
  }

  lemma ReadPlain(inv: Invocation, a: string)
    requires inv.pending.None? && !LooksLikeOption(a)
    ensures ReadArg(inv, a) == inv.(urls := inv.urls + [a])
  {
  }
}
