/**
 * The second half of `downloadMedia`: the handlers of the downloader
 * process's events. They keep three accumulators (the last progress line,
 * the recovered file path and the collected error text) and settle the
 * download once, on the first `close` or `error` event.
 *
 * `StdoutStep`, `StderrStep`, `CloseOutcome` and `Settle` specify one event;
 * `DownloadSession` is the handlers' shared state, with one method per
 * event; `Run` replays a sequence of events.
 */
module DownloadEvents {
  import opened Wrappers
  import opened Text
  import DownloadArgs

  /** What `parseFloat` returns: a finite number, an infinity, or `NaN`. */
  datatype Num = Finite(value: real) | PosInf | NegInf | NaN

  /** `DownloadProgress`. */
  datatype Progress = Progress(percent: real, speed: string, eta: string, status: string)

  /** The value the download resolves with. */
  datatype Saved = Saved(filePath: string, fileName: string)

  /** What the handlers read besides their accumulators. */
  datatype Config = Config(
    format: string,
    customName: Option<string>,
    downloadDir: string,
    hasProgressCallback: bool,
    parseFloat: string -> Num)

  /** The accumulators, and how the download settled (`None` while pending). */
  datatype Session = Session(
    lastLine: string,
    filePath: string,
    errorOutput: string,
    outcome: Option<Result<Saved, string>>)

  const Initial := Session("", "", "", None)

  // ---------------------------------------------------------------------------
  // Progress lines

  /** `Math.min(100, Math.max(0, parseFloat(...) || 0))`. */
  function PercentOf(n: Num): (p: real)
    ensures 0.0 <= p <= 100.0
    ensures n.NaN? || n.NegInf? ==> p == 0.0
    ensures n.PosInf? ==> p == 100.0
    ensures n.Finite? ==> p == if n.value < 0.0 then 0.0 else if n.value > 100.0 then 100.0 else n.value
  {
    var orZero := if n.NaN? || n == Finite(0.0) then Finite(0.0) else n;
    var atLeastZero := match orZero
      case Finite(v) => if v < 0.0 then 0.0 else v
      case PosInf => 100.0
      case _ => 0.0;
    if atLeastZero > 100.0 then 100.0 else atLeastZero
  }

  /** The progress a line reports: `percent|speed|eta`, when a callback listens. */
  function ProgressOf(cfg: Config, line: string): (r: Option<Progress>)
    ensures r.Some? ==> 0.0 <= r.value.percent <= 100.0 && r.value.status == "downloading"
  {
    if Contains(line, "%") && cfg.hasProgressCallback then
      var parts := Split(line, '|');
      if |parts| >= 3 then
        Some(Progress(
          PercentOf(cfg.parseFloat(Trim(RemoveFirst(parts[0], '%')))),
          Trim(parts[1]),
          Trim(parts[2]),
          "downloading"))
      else None
    else None
  }

  /** The text up to the first `c`: the first piece `split` gives. */
  function UpTo(s: string, c: char): (r: string)
    ensures c !in r
  {
    var k := IndexOf(s, c);
    if k < 0 then s else s[..k]
  }

  /** The first three pieces of a line with two leading `|` separators. */
  lemma SplitProgressLine(a: string, b: string, c: string)
    requires '|' !in a && '|' !in b
    ensures var parts := Split(a + "|" + b + "|" + c, '|');
      |parts| >= 3 && parts[0] == a && parts[1] == b && parts[2] == UpTo(c, '|')
  {
    SplitTwoFront(a, b, c, '|');
    SplitFirst(c, '|');
  }

  /**
   * A progress line `a|b|c...` with a `%` and a listening callback reports the
   * percent parsed from `a` without its first `%`, and the trimmed `b` and
   * third field as speed and time left.
   */
  lemma ProgressOfLine(cfg: Config, a: string, b: string, c: string)
    requires '|' !in a && '|' !in b
    requires Contains(a + "|" + b + "|" + c, "%") && cfg.hasProgressCallback
    ensures ProgressOf(cfg, a + "|" + b + "|" + c) == Some(Progress(
      PercentOf(cfg.parseFloat(Trim(RemoveFirst(a, '%')))),
      Trim(b),
      Trim(UpTo(c, '|')),
      "downloading"))
  {
    SplitProgressLine(a, b, c);
  }

  /** A percent field that does not parse as a number is reported as 0. */
  lemma ProgressOfUnparsable(cfg: Config, a: string, b: string, c: string)
    requires '|' !in a && '|' !in b
    requires Contains(a + "|" + b + "|" + c, "%") && cfg.hasProgressCallback
    requires cfg.parseFloat(Trim(RemoveFirst(a, '%'))).NaN?
    ensures var r := ProgressOf(cfg, a + "|" + b + "|" + c); r.Some? && r.value.percent == 0.0
  {
    ProgressOfLine(cfg, a, b, c);
  }

  // ---------------------------------------------------------------------------
  // Destination recovery: the regular expression /Destination:\s*(.+)/

  const Marker := "Destination:"

  /** The index of the last character of `s` that is not a line terminator, or -1. */
  function LastNonTerminator(s: string): (k: int)
    ensures -1 <= k < |s|
    ensures k >= 0 ==> !IsLineTerminator(s[k])
    ensures forall j :: k < j < |s| ==> IsLineTerminator(s[j])
    decreases |s|
  {
    if s == [] then -1
    else if !IsLineTerminator(s[|s| - 1]) then |s| - 1
    else LastNonTerminator(s[..|s| - 1])
  }

  /**
   * The capture group of the leftmost match of the expression. After the
   * first `Destination:`, `\s*` takes as much white space as it can (line
   * breaks included) and `(.+)` the rest of that line. When only white space
   * follows, `\s*` gives characters back until `(.+)` can take the last one
   * that is not a line terminator; when there is none, nothing matches
   * (no later `Destination:` can follow).
   */
  function DestinationCapture(s: string): Option<string> {
    var i := Find(s, Marker);
    if i < 0 then None
    else
      var rest := s[i + |Marker|..];
      var t := TrimStart(rest);
      if t != [] then Some(FirstLine(t))
      else
        var k := LastNonTerminator(rest);
        if k < 0 then None else Some(rest[k..k + 1])
  }

  /** The text after the first marker. */
  function AfterMarker(s: string): string
    requires Contains(s, Marker)
  {
    s[Find(s, Marker) + |Marker|..]
  }

  /**
   * The expression matches exactly when the text holds the marker and some
   * character after it is not a line terminator.
   */
  lemma DestinationCaptureMatches(s: string)
    ensures DestinationCapture(s).Some? <==> Contains(s, Marker) && LastNonTerminator(AfterMarker(s)) >= 0
  {
    if Contains(s, Marker) {
      var rest := AfterMarker(s);
      var t := TrimStart(rest);
      TrimStartShape(rest);
      if t != [] {
        var i := |rest| - |t|;
        assert rest[i] == t[0];
        assert !IsLineTerminator(rest[i]);
      }
    }
  }

  /**
   * The trimmed capture is the rest of the line after the marker and any
   * white space (line breaks included).
   */
  lemma DestinationCaptureTrimmed(s: string)
    requires DestinationCapture(s).Some?
    ensures Trim(DestinationCapture(s).value) == Trim(FirstLine(TrimStart(AfterMarker(s))))
  {
    var rest := AfterMarker(s);
    if TrimStart(rest) == [] {
      TrimStartShape(rest);
      var k := LastNonTerminator(rest);
      assert IsSpace(rest[k]);
      TrimOfSpace(rest[k..k + 1]);
    }
  }

  /** The capture never spans two lines. */
  lemma DestinationCaptureOneLine(s: string)
    requires DestinationCapture(s).Some?
    ensures forall j :: 0 <= j < |DestinationCapture(s).value| ==> !IsLineTerminator(DestinationCapture(s).value[j])
  {
  }

  /** Trimming a white-space character leaves nothing. */
  lemma TrimOfSpace(s: string)
    requires |s| == 1 && IsSpace(s[0])
    ensures Trim(s) == []
  {
    assert TrimStart(s) == TrimStart(s[1..]);
  }

  /** The path a matched chunk recovers; `filePath` is kept when nothing matches. */
  function Recover(filePath: string, chunk: string): string {
    match DestinationCapture(chunk)
    case Some(c) => Trim(c)
    case None => filePath
  }

  // ---------------------------------------------------------------------------
  // One event

  /** A chunk of standard output: the new state and the progress reported, if any. */
  function StdoutStep(cfg: Config, st: Session, chunk: string): (Session, Option<Progress>) {
    var lastLine := match LastNonEmptyLine(chunk) case Some(l) => l case None => st.lastLine;
    var path1 :=
      if Contains(chunk, "[Merger]") || Contains(chunk, "[download] Destination:") then Recover(st.filePath, chunk)
      else st.filePath;
    var path2 := if Contains(chunk, "[ExtractAudio] Destination:") then Recover(path1, chunk) else path1;
    (st.(lastLine := lastLine, filePath := path2), ProgressOf(cfg, lastLine))
  }

  /** A chunk of standard error: collected, and searched for a destination. */
  function StderrStep(st: Session, chunk: string): Session {
    st.(errorOutput := st.errorOutput + chunk,
        filePath := if Contains(chunk, "[download]") then Recover(st.filePath, chunk) else st.filePath)
  }

  const AuthMessage := "YouTube requires authentication. Try a different video or platform."
  const UnavailableMessage := "Video is unavailable or private"
  const NetworkMessage := "Network error. Please try again."

  /** `${code}` for an exit code, which is `null` when a signal ended the process. */
  function CodeText(code: Option<int>): string {
    match code
    case Some(c) => IntToDecimal(c)
    case None => "null"
  }

  /** The name a download gets when no destination was recovered. */
  function FallbackName(cfg: Config): string {
    OrElse(cfg.customName, "download") + "." + (if cfg.format == "mp3" then "mp3" else "mp4")
  }

  /** What the `close` event settles the download with. */
  function CloseOutcome(cfg: Config, st: Session, code: Option<int>): (r: Result<Saved, string>)
    ensures r.Success? <==> code == Some(0)
  {
    if code == Some(0) then
      var fileName := if st.filePath != [] then DownloadArgs.Basename(st.filePath) else FallbackName(cfg);
      Success(Saved(if st.filePath != [] then st.filePath else DownloadArgs.JoinPath(cfg.downloadDir, fileName), fileName))
    else if Contains(st.errorOutput, "Sign in to confirm") then Failure(AuthMessage)
    else if Contains(st.errorOutput, "Video unavailable") then Failure(UnavailableMessage)
    else if Contains(st.errorOutput, "HTTP Error") then Failure(NetworkMessage)
    else Failure("Download failed with code " + CodeText(code))
  }

  /** A promise settles once: later resolutions and rejections are ignored. */
  function Settle(st: Session, r: Result<Saved, string>): (st': Session)
    ensures st'.outcome.Some?
    ensures st.outcome.Some? ==> st' == st
    ensures st.outcome.None? ==> st' == st.(outcome := Some(r))
  {
    if st.outcome.None? then st.(outcome := Some(r)) else st
  }

  /** Settling a settled download changes nothing: the first value wins. */
  lemma SettleOnce(st: Session, first: Result<Saved, string>, second: Result<Saved, string>)
    ensures Settle(Settle(st, first), second) == Settle(st, first)
    ensures Settle(st, first).outcome == (if st.outcome.Some? then st.outcome else Some(first))
  {
  }

  // ---------------------------------------------------------------------------
  // The handlers' shared state

  class DownloadSession {
    const format: string
    const customName: Option<string>
    const downloadDir: string
    const hasProgressCallback: bool
    const parseFloat: string -> Num
    var lastLine: string
    var filePath: string
    var errorOutput: string
    var outcome: Option<Result<Saved, string>>

    function Cfg(): Config {
      Config(format, customName, downloadDir, hasProgressCallback, parseFloat)
    }

    function State(): Session
      reads this
    {
      Session(lastLine, filePath, errorOutput, outcome)
    }

    constructor(format: string, customName: Option<string>, downloadDir: string,
                hasProgressCallback: bool, parseFloat: string -> Num)
      ensures Cfg() == Config(format, customName, downloadDir, hasProgressCallback, parseFloat)
      ensures State() == Initial
    {
      this.format := format;
      this.customName := customName;
      this.downloadDir := downloadDir;
      this.hasProgressCallback := hasProgressCallback;
      this.parseFloat := parseFloat;
      lastLine := "";
      filePath := "";
      errorOutput := "";
      outcome := None;
    }

    /** The `data` handler of standard output; returns what it reports to the progress callback. */
    method OnStdout(chunk: string) returns (progress: Option<Progress>)
      modifies this
      ensures (State(), progress) == StdoutStep(Cfg(), old(State()), chunk)
    {
      var line := LastNonEmptyLine(chunk);
      if line.Some? {
        lastLine := line.value;
      }
      progress := None;
      if Contains(lastLine, "%") && hasProgressCallback {
        var parts := Split(lastLine, '|');
        if |parts| >= 3 {
          var percent := PercentOf(parseFloat(Trim(RemoveFirst(parts[0], '%'))));
          progress := Some(Progress(percent, Trim(parts[1]), Trim(parts[2]), "downloading"));
        }
      }
      if Contains(chunk, "[Merger]") || Contains(chunk, "[download] Destination:") {
        var m := DestinationCapture(chunk);
        if m.Some? {
          filePath := Trim(m.value);
        }
      }
      if Contains(chunk, "[ExtractAudio] Destination:") {
        var m := DestinationCapture(chunk);
        if m.Some? {
          filePath := Trim(m.value);
        }
      }
    }

    /** The `data` handler of standard error. */
    method OnStderr(chunk: string)
      modifies this
      ensures State() == StderrStep(old(State()), chunk)
    {
      errorOutput := errorOutput + chunk;
      if Contains(chunk, "[download]") {
        var m := DestinationCapture(chunk);
        if m.Some? {
          filePath := Trim(m.value);
        }
      }
    }

    /** The `close` handler: resolves on exit code 0, rejects otherwise. */
    method OnClose(code: Option<int>)
      modifies this
      ensures State() == Settle(old(State()), CloseOutcome(Cfg(), old(State()), code))
    {
      var r: Result<Saved, string>;
      if code == Some(0) {
        var fileName := if filePath != [] then DownloadArgs.Basename(filePath) else FallbackName(Cfg());
        r := Success(Saved(if filePath != [] then filePath else DownloadArgs.JoinPath(downloadDir, fileName), fileName));
      } else {
        var errorMsg := "Download failed with code " + CodeText(code);
        if Contains(errorOutput, "Sign in to confirm") {
          errorMsg := AuthMessage;
        } else if Contains(errorOutput, "Video unavailable") {
          errorMsg := UnavailableMessage;
        } else if Contains(errorOutput, "HTTP Error") {
          errorMsg := NetworkMessage;
        }
        r := Failure(errorMsg);
      }
      if outcome.None? {
        outcome := Some(r);
      }
    }

    /** The `error` handler: the process could not be started or signalled. */
    method OnError(message: string)
      modifies this
      ensures State() == Settle(old(State()), Failure("Download error: " + message))
    {
      if outcome.None? {
        outcome := Some(Failure("Download error: " + message));
      }
    }
  }

  // ---------------------------------------------------------------------------
  // Sequences of events

  datatype Event = Stdout(chunk: string) | Stderr(chunk: string) | Close(code: Option<int>) | SpawnError(message: string)

  function Apply(cfg: Config, st: Session, e: Event): Session {
    match e
    case Stdout(c) => StdoutStep(cfg, st, c).0
    case Stderr(c) => StderrStep(st, c)
    case Close(code) => Settle(st, CloseOutcome(cfg, st, code))
    case SpawnError(m) => Settle(st, Failure("Download error: " + m))
  }

  /** The state after the events, in order. */
  function Run(cfg: Config, st: Session, events: seq<Event>): Session {
    if events == [] then st else Apply(cfg, Run(cfg, st, events[..|events| - 1]), events[|events| - 1])
  }

  /** The text of the standard-error chunks among the events, in order. */
  function StderrText(events: seq<Event>): string {
    if events == [] then []
    else StderrText(events[..|events| - 1]) + (if events[|events| - 1].Stderr? then events[|events| - 1].chunk else [])
  }

  /** The path an event recovers, if it recovers one. */
  function Recovery(e: Event): Option<string> {
    match e
    case Stdout(c) =>
      if (Contains(c, "[Merger]") || Contains(c, "[download] Destination:") || Contains(c, "[ExtractAudio] Destination:"))
         && DestinationCapture(c).Some?
      then Some(Trim(DestinationCapture(c).value)) else None
    case Stderr(c) =>
      if Contains(c, "[download]") && DestinationCapture(c).Some? then Some(Trim(DestinationCapture(c).value)) else None
    case _ => None
  }

  /** The path recovered by the last event that recovers one. */
  function LastRecovery(events: seq<Event>): Option<string> {
    if events == [] then None
    else match Recovery(events[|events| - 1])
      case Some(p) => Some(p)
      case None => LastRecovery(events[..|events| - 1])
  }

  /** One event sets the path to what it recovers, and otherwise leaves it. */
  lemma ApplyFilePath(cfg: Config, st: Session, e: Event)
    ensures Apply(cfg, st, e).filePath == Recovery(e).GetOr(st.filePath)
  {
  }

  /** The recovered path is that of the last event that recovered one: later matches win. */
  lemma {:induction false} RunFilePath(cfg: Config, st: Session, events: seq<Event>)
    ensures Run(cfg, st, events).filePath == LastRecovery(events).GetOr(st.filePath)
  {
    if events != [] {
      RunFilePath(cfg, st, events[..|events| - 1]);
      ApplyFilePath(cfg, Run(cfg, st, events[..|events| - 1]), events[|events| - 1]);
    }
  }

  /** All standard-error text is collected, in order. */
  lemma {:induction false} RunErrorOutput(cfg: Config, st: Session, events: seq<Event>)
    ensures Run(cfg, st, events).errorOutput == st.errorOutput + StderrText(events)
  {
    if events != [] {
      RunErrorOutput(cfg, st, events[..|events| - 1]);
    }
  }

  /** Replaying two stretches of events one after the other. */
  lemma {:induction false} RunAppend(cfg: Config, st: Session, a: seq<Event>, b: seq<Event>)
    ensures Run(cfg, st, a + b) == Run(cfg, Run(cfg, st, a), b)
  {
    if b != [] {
      assert (a + b)[..|a + b| - 1] == a + b[..|b| - 1];
      RunAppend(cfg, st, a, b[..|b| - 1]);
    } else {
      assert a + b == a;
    }
  }

  /** Once settled, a download stays settled the same way. */
  lemma {:induction false} RunKeepsOutcome(cfg: Config, st: Session, events: seq<Event>)
    requires st.outcome.Some?
    ensures Run(cfg, st, events).outcome == st.outcome
  {
    if events != [] {
      RunKeepsOutcome(cfg, st, events[..|events| - 1]);
    }
  }

  predicate Settles(e: Event) {
    e.Close? || e.SpawnError?
  }

  /** Output and error chunks leave a pending download pending. */
  lemma {:induction false} RunPending(cfg: Config, st: Session, events: seq<Event>)
    requires st.outcome.None?
    requires forall i :: 0 <= i < |events| ==> !Settles(events[i])
    ensures Run(cfg, st, events).outcome.None?
  {
    if events != [] {
      RunPending(cfg, st, events[..|events| - 1]);
    }
  }

  /**
   * The first `close` settles the download with the outcome computed from
   * the accumulators at that moment, whatever follows.
   */
  lemma FirstCloseSettles(cfg: Config, before: seq<Event>, code: Option<int>, after: seq<Event>)
    requires forall i :: 0 <= i < |before| ==> !Settles(before[i])
    ensures Run(cfg, Initial, before + [Close(code)] + after).outcome ==
      Some(CloseOutcome(cfg, Run(cfg, Initial, before), code))
  {
    RunPending(cfg, Initial, before);
    RunAppend(cfg, Initial, before + [Close(code)], after);
    RunAppend(cfg, Initial, before, [Close(code)]);
    assert Run(cfg, Run(cfg, Initial, before), [Close(code)]) ==
      Apply(cfg, Run(cfg, Run(cfg, Initial, before), []), Close(code));
    RunKeepsOutcome(cfg, Run(cfg, Initial, before + [Close(code)]), after);
  }

  // ---------------------------------------------------------------------------
  // What one event promises

  /**
   * A standard-output chunk sets the last line to its last non-empty line and
   * keeps the previous one when it has none; it never touches the error text
   * or the outcome.
   */
  lemma StdoutLastLine(cfg: Config, st: Session, chunk: string)
    ensures var st' := StdoutStep(cfg, st, chunk).0;
      && (AllNewlines(chunk) ==> st'.lastLine == st.lastLine)
      && (!AllNewlines(chunk) ==> IsLastLine(chunk, st'.lastLine))
      && st'.errorOutput == st.errorOutput && st'.outcome == st.outcome
  {
    LastNonEmptyLineShape(chunk);
  }

  /**
   * Progress is reported exactly when a callback listens and the last line
   * holds `%` and at least three `|`-separated fields; the percentage then
   * lies between 0 and 100.
   */
  lemma StdoutProgress(cfg: Config, st: Session, chunk: string)
    ensures var (st', p) := StdoutStep(cfg, st, chunk);
      && (p.Some? <==> cfg.hasProgressCallback && Contains(st'.lastLine, "%") && |Split(st'.lastLine, '|')| >= 3)
      && (p.Some? ==> 0.0 <= p.value.percent <= 100.0)
  {
  }

  /** A standard-error chunk is appended to the error text and changes nothing else but the path. */
  lemma StderrAppends(st: Session, chunk: string)
    ensures var st' := StderrStep(st, chunk);
      st'.errorOutput == st.errorOutput + chunk && st'.lastLine == st.lastLine && st'.outcome == st.outcome
  {
  }

  /** Exit code 0 resolves; the file name is the base name of the recovered path. */
  lemma CloseResolves(cfg: Config, st: Session)
    requires st.filePath != []
    ensures CloseOutcome(cfg, st, Some(0)) == Success(Saved(st.filePath, DownloadArgs.Basename(st.filePath)))
  {
  }

  /**
   * Without a recovered path, exit code 0 names the file after the custom
   * name (or `download`) with `.mp3` for the mp3 format and `.mp4` for every
   * other, placed in the download directory.
   */
  lemma CloseFallback(cfg: Config, st: Session)
    requires st.filePath == []
    ensures var r := CloseOutcome(cfg, st, Some(0));
      && r.Success?
      && r.value.fileName == FallbackName(cfg)
      && r.value.filePath == DownloadArgs.JoinPath(cfg.downloadDir, FallbackName(cfg))
      && ('/' !in FallbackName(cfg) ==> DownloadArgs.Basename(r.value.filePath) == r.value.fileName)
  {
    if '/' !in FallbackName(cfg) {
      DownloadArgs.BasenameOfJoin(cfg.downloadDir, FallbackName(cfg));
    }
  }

  /** The fallback name ends with the extension the format calls for. */
  lemma FallbackNameExtension(cfg: Config)
    ensures var n := FallbackName(cfg);
      |n| > 4 && n[|n| - 4] == '.' && n[|n| - 3..] == if cfg.format == "mp3" then "mp3" else "mp4"
  {
    var n := FallbackName(cfg);
    var ext := if cfg.format == "mp3" then "mp3" else "mp4";
    var base := OrElse(cfg.customName, "download");
    assert n == base + "." + ext;
    assert n[|n| - 3..] == ext;
  }

  /**
   * Any other exit rejects with the message of the first clue found in the
   * error text, in the order authentication, unavailable, network; without a
   * clue the message names the exit code.
   */
  lemma CloseRejects(cfg: Config, st: Session, code: Option<int>)
    requires code != Some(0)
    ensures var r := CloseOutcome(cfg, st, code);
      && r.Failure?
      && (Contains(st.errorOutput, "Sign in to confirm") ==> r.error == AuthMessage)
      && (!Contains(st.errorOutput, "Sign in to confirm") && Contains(st.errorOutput, "Video unavailable") ==>
            r.error == UnavailableMessage)
      && ((!Contains(st.errorOutput, "Sign in to confirm") && !Contains(st.errorOutput, "Video unavailable") &&
           Contains(st.errorOutput, "HTTP Error")) ==> r.error == NetworkMessage)
      && ((!Contains(st.errorOutput, "Sign in to confirm") && !Contains(st.errorOutput, "Video unavailable") &&
           !Contains(st.errorOutput, "HTTP Error")) ==> r.error == "Download failed with code " + CodeText(code))
  {
  }

  // ---------------------------------------------------------------------------
  // The whole download

  /**
   * `downloadMedia` for a sequence of process events: the `TypeError` of the
   * format selector, or the outcome the events settle (`None` while pending).
   */
  function DownloadMedia(opts: DownloadArgs.Options, cwd: string, hasProgressCallback: bool,
                         parseFloat: string -> Num, events: seq<Event>): Option<Result<Saved, string>>
  {
    match DownloadArgs.FormatSelector(opts.format, opts.quality)
    case Failure(e) => Some(Failure(e))
    case Success(_) =>
      var cfg := Config(opts.format, opts.customName, DownloadArgs.DownloadDir(opts.outputPath, cwd),
                        hasProgressCallback, parseFloat);
      Run(cfg, Initial, events).outcome
  }

  /** Once the format selector succeeds, the download is what the events settle. */
  lemma DownloadMediaRuns(opts: DownloadArgs.Options, cwd: string, cb: bool,
                          parseFloat: string -> Num, events: seq<Event>)
    requires DownloadArgs.FormatSelector(opts.format, opts.quality).Success?
    ensures DownloadMedia(opts, cwd, cb, parseFloat, events) ==
      Run(Config(opts.format, opts.customName, DownloadArgs.DownloadDir(opts.outputPath, cwd), cb, parseFloat),
          Initial, events).outcome
  {
  }

  /**
   * A run whose process reports no destination before exiting with code 0
   * saves the fallback name in the download directory.
   */
  lemma RunCloseFallback(cfg: Config, before: seq<Event>, after: seq<Event>)
    requires forall i :: 0 <= i < |before| ==> !Settles(before[i])
    requires Run(cfg, Initial, before).filePath == []
    ensures Run(cfg, Initial, before + [Close(Some(0))] + after).outcome ==
      Some(Success(Saved(DownloadArgs.JoinPath(cfg.downloadDir, FallbackName(cfg)), FallbackName(cfg))))
  {
    FirstCloseSettles(cfg, before, Some(0), after);
    CloseFallback(cfg, Run(cfg, Initial, before));
  }

  /** Without a custom name the fallback is `download.mp3` or `download.mp4`. */
  lemma FallbackNameDefault(cfg: Config)
    requires cfg.customName.None?
    ensures FallbackName(cfg) == "download." + (if cfg.format == "mp3" then "mp3" else "mp4")
  {
  }

  /**
   * An audio download with neither an output path nor a custom name, whose
   * process reports no destination before exiting with code 0, saves
   * `download.mp3` or `download.mp4` in `download` under the working directory.
   */
  lemma DownloadMediaAudioFallback(opts: DownloadArgs.Options, cwd: string, parseFloat: string -> Num,
                                   before: seq<Event>, after: seq<Event>)
    requires DownloadArgs.IsAudio(opts.format) && opts.customName.None? && opts.outputPath.None?
    requires forall i :: 0 <= i < |before| ==> !Settles(before[i])
    requires Run(Config(opts.format, None, DownloadArgs.JoinPath(cwd, "download"), false, parseFloat),
                 Initial, before).filePath == []
    ensures var name := "download." + (if opts.format == "mp3" then "mp3" else "mp4");
      DownloadMedia(opts, cwd, false, parseFloat, before + [Close(Some(0))] + after) ==
        Some(Success(Saved(DownloadArgs.JoinPath(DownloadArgs.JoinPath(cwd, "download"), name), name)))
  {
    var cfg := Config(opts.format, None, DownloadArgs.JoinPath(cwd, "download"), false, parseFloat);
    var events := before + [Close(Some(0))] + after;
    DownloadArgs.FormatSelectorAudio(opts.format, opts.quality);
    assert DownloadArgs.DownloadDir(opts.outputPath, cwd) == cfg.downloadDir;
    DownloadMediaRuns(opts, cwd, false, parseFloat, events);
    assert DownloadMedia(opts, cwd, false, parseFloat, events) == Run(cfg, Initial, events).outcome;
    FallbackNameDefault(cfg);
    RunCloseFallback(cfg, before, after);
  }

  /** A video download without a quality is rejected before any process event. */
  lemma DownloadMediaNoQuality(opts: DownloadArgs.Options, cwd: string, cb: bool,
                               parseFloat: string -> Num, events: seq<Event>)
    requires opts.quality.None? && !DownloadArgs.IsAudio(opts.format)
    ensures DownloadMedia(opts, cwd, cb, parseFloat, events) == Some(Failure(DownloadArgs.QualityTypeError))
  {
  }
}
