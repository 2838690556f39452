/**
 * `POST /api/download`: checks the request in a fixed order and then starts
 * one download with the URL and the format, and nothing else.
 */
module DownloadRoute {
  import opened Wrappers
  import opened Text
  import opened Http
  import DownloadArgs
  import DownloadEvents

  /** The request body, as far as the handler reads it. */
  datatype DownloadRequest = DownloadRequest(url: Option<string>, format: Option<string>)

  const FormatRequired := "Format is required"
  const DownloadFailed := "Download failed"

  /** The first check the request fails, or `None` when it passes all three. */
  function Rejection(req: DownloadRequest, urlParses: string -> bool): (e: Option<string>)
    ensures e.None? <==> UrlError(req.url, urlParses).None? && Truthy(req.format)
    ensures UrlError(req.url, urlParses).Some? ==> e == UrlError(req.url, urlParses)
    ensures e == Some(FormatRequired) <==> UrlError(req.url, urlParses).None? && !Truthy(req.format)
  {
    match UrlError(req.url, urlParses)
    case Some(msg) => Some(msg)
    case None => if Truthy(req.format) then None else Some(FormatRequired)
  }

  /** The options the download is started with: the URL and the format only. */
  function Request(req: DownloadRequest): DownloadArgs.Options
    requires Truthy(req.url) && Truthy(req.format)
  {
    DownloadArgs.Options(req.url.value, req.format.value, None, None, None)
  }

  /**
   * `POST`: `cwd`, `parseFloat` and `events` stand for the server's working
   * directory, the number parser and what the downloader process does; they
   * are consulted only once the checks pass. `None` when the process never
   * ends, so that the request is never answered.
   */
  function DownloadPost(body: Body<DownloadRequest>, urlParses: string -> bool, cwd: string,
                        parseFloat: string -> DownloadEvents.Num, events: seq<DownloadEvents.Event>)
    : (r: Option<Response<DownloadEvents.Saved>>)
    ensures (r.Some? && r.value.Fail? && r.value.status == BadRequest) <==>
      body.Parsed? && Rejection(body.fields, urlParses).Some?
  {
    match body
    case Malformed(msg) => Some(Caught(ErrorValue(msg), DownloadFailed))
    case Parsed(req) =>
      match Rejection(req, urlParses)
      case Some(e) => Some(Fail(BadRequest, e))
      case None =>
        match DownloadEvents.DownloadMedia(Request(req), cwd, false, parseFloat, events)
        case None => None
        case Some(Failure(e)) => Some(Caught(ErrorValue(e), DownloadFailed))
        case Some(Success(saved)) => Some(Ok(saved))
  }

  // ---------------------------------------------------------------------------
  // What the handler promises

  /**
   * The three checks, in order: a missing or empty URL, then an unparsable
   * one, then a missing or empty format, each answered with 400.
   */
  lemma DownloadPostChecks(req: DownloadRequest, urlParses: string -> bool, cwd: string,
                           parseFloat: string -> DownloadEvents.Num, events: seq<DownloadEvents.Event>)
    ensures var r := DownloadPost(Parsed(req), urlParses, cwd, parseFloat, events);
      && (!Truthy(req.url) ==> r == Some(Fail(BadRequest, UrlRequired)))
      && (Truthy(req.url) && !urlParses(req.url.value) ==> r == Some(Fail(BadRequest, InvalidUrl)))
      && (Truthy(req.url) && urlParses(req.url.value) && !Truthy(req.format) ==>
            r == Some(Fail(BadRequest, FormatRequired)))
  {
  }

  /** A refused request starts no download: its answer does not depend on the process. */
  lemma DownloadPostNoProcessWhenRefused(body: Body<DownloadRequest>, urlParses: string -> bool,
                                         cwd1: string, parseFloat1: string -> DownloadEvents.Num,
                                         events1: seq<DownloadEvents.Event>,
                                         cwd2: string, parseFloat2: string -> DownloadEvents.Num,
                                         events2: seq<DownloadEvents.Event>)
    requires body.Malformed? || Rejection(body.fields, urlParses).Some?
    ensures DownloadPost(body, urlParses, cwd1, parseFloat1, events1) ==
      DownloadPost(body, urlParses, cwd2, parseFloat2, events2)
    ensures DownloadPost(body, urlParses, cwd1, parseFloat1, events1).Some?
  {
  }

  /**
   * An accepted request answers what the download settles with: its saved
   * file, or 500 with its error's message.
   */
  lemma DownloadPostForwards(req: DownloadRequest, urlParses: string -> bool, cwd: string,
                             parseFloat: string -> DownloadEvents.Num, events: seq<DownloadEvents.Event>)
    requires Rejection(req, urlParses).None?
    ensures var r := DownloadPost(Parsed(req), urlParses, cwd, parseFloat, events);
      var d := DownloadEvents.DownloadMedia(Request(req), cwd, false, parseFloat, events);
      && (r.None? <==> d.None?)
      && (d.Some? && d.value.Failure? ==> r == Some(Fail(ServerError, d.value.error)))
      && (d.Some? && d.value.Success? ==> r == Some(Ok(d.value.value)))
  {
  }

  /**
   * Since no quality is passed, every format other than an audio one fails
   * with the type error of reading `includes` of `undefined`, whatever the
   * process would have done.
   */
  lemma DownloadPostVideoFails(req: DownloadRequest, urlParses: string -> bool, cwd: string,
                               parseFloat: string -> DownloadEvents.Num, events: seq<DownloadEvents.Event>)
    requires Rejection(req, urlParses).None? && !DownloadArgs.IsAudio(req.format.value)
    ensures DownloadPost(Parsed(req), urlParses, cwd, parseFloat, events) ==
      Some(Fail(ServerError, DownloadArgs.QualityTypeError))
  {
    DownloadEvents.DownloadMediaNoQuality(Request(req), cwd, false, parseFloat, events);
  }

  /**
   * An accepted audio request whose process reports no destination before
   * it exits with code 0 saves `download.mp3` (or `download.mp4` for the
   * format `audio`) in `download` under the working directory, since the
   * handler passes neither an output path nor a custom name.
   */
  lemma DownloadPostAudioFallback(req: DownloadRequest, urlParses: string -> bool, cwd: string,
                                  parseFloat: string -> DownloadEvents.Num,
                                  before: seq<DownloadEvents.Event>, after: seq<DownloadEvents.Event>)
    requires Rejection(req, urlParses).None? && DownloadArgs.IsAudio(req.format.value)
    requires forall i :: 0 <= i < |before| ==> !DownloadEvents.Settles(before[i])
    requires DownloadEvents.Run(
      DownloadEvents.Config(req.format.value, None, DownloadArgs.JoinPath(cwd, "download"), false, parseFloat),
      DownloadEvents.Initial, before).filePath == []
    ensures var name := "download." + (if req.format.value == "mp3" then "mp3" else "mp4");
      DownloadPost(Parsed(req), urlParses, cwd, parseFloat, before + [DownloadEvents.Close(Some(0))] + after) ==
        Some(Ok(DownloadEvents.Saved(DownloadArgs.JoinPath(DownloadArgs.JoinPath(cwd, "download"), name), name)))
  {
    var events := before + [DownloadEvents.Close(Some(0))] + after;
    DownloadEvents.DownloadMediaAudioFallback(Request(req), cwd, parseFloat, before, after);
    DownloadPostForwards(req, urlParses, cwd, parseFloat, events);
  }

  /** Only an accepted audio request can succeed. */
  lemma DownloadPostSucceedsOnlyForAudio(body: Body<DownloadRequest>, urlParses: string -> bool, cwd: string,
                                         parseFloat: string -> DownloadEvents.Num, events: seq<DownloadEvents.Event>)
    requires var r := DownloadPost(body, urlParses, cwd, parseFloat, events); r.Some? && r.value.Ok?
    ensures body.Parsed? && Rejection(body.fields, urlParses).None?
    ensures DownloadArgs.IsAudio(body.fields.format.value)
  {
    if body.Parsed? && Rejection(body.fields, urlParses).None? && !DownloadArgs.IsAudio(body.fields.format.value) {
      DownloadPostVideoFails(body.fields, urlParses, cwd, parseFloat, events);
    }
  }
}
