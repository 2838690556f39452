/**
 * `POST /api/info`: validates the requested URL, fetches its metadata and
 * answers it with the formats reduced to the choices the page offers.
 */
module InfoRoute {
  import opened Wrappers
  import opened Text
  import opened Http
  import Metadata

  /** The request body, as far as the handler reads it. */
  datatype InfoRequest = InfoRequest(url: Option<string>)

  /** Whether a format carries video (`"video"`) or audio only (`"audio"`). */
  datatype Kind = Video | Audio

  /** One offered format: `{id, label, quality, type}` (`label` is `caption` here). */
  datatype Choice = Choice(id: string, caption: string, quality: string, kind: Kind)

  /** The `data` of a successful answer. */
  datatype InfoData = InfoData(
    title: string,
    thumbnail: string,
    duration: real,
    uploader: string,
    description: Option<string>,
    platform: string,
    formats: seq<Choice>)

  const FetchFailed := "Failed to fetch video info"

  /** The label: the quality, then ` (resolution)` when there is a resolution. */
  function Label(f: Metadata.FormatInfo): (r: string)
    ensures |r| >= |f.quality| && r[..|f.quality|] == f.quality
    ensures r == f.quality <==> !Truthy(f.resolution)
  {
    f.quality + (if Truthy(f.resolution) then " (" + f.resolution.value + ")" else "")
  }

  /** A format is audio only when its video codec is `"none"`; an absent codec counts as video. */
  function KindOf(vcodec: Option<string>): (k: Kind)
    ensures k == Audio <==> vcodec == Some("none")
  {
    if vcodec != Some("none") then Video else Audio
  }

  function ChoiceOf(f: Metadata.FormatInfo): (c: Choice)
    ensures c.id == f.formatId && c.quality == f.quality
    ensures c.caption == Label(f) && c.kind == KindOf(f.vcodec)
  {
    Choice(f.formatId, Label(f), f.quality, KindOf(f.vcodec))
  }

  /** The `map` over the formats. */
  function Choices(fs: seq<Metadata.FormatInfo>): (r: seq<Choice>)
    ensures |r| == |fs|
    ensures forall i :: 0 <= i < |r| ==> r[i] == ChoiceOf(fs[i])
  {
    seq(|fs|, i requires 0 <= i < |fs| => ChoiceOf(fs[i]))
  }

  /** The answer built from a normalised record. */
  function Data(v: Metadata.VideoInfo): InfoData {
    InfoData(v.title, v.thumbnail, v.duration, v.uploader, v.description, v.platform, Choices(v.formats))
  }

  /**
   * `POST`: `dump` is what the downloader's `--dump-json` call produces for
   * the URL; it is consulted only once the URL checks pass.
   */
  function InfoPost(body: Body<InfoRequest>, urlParses: string -> bool, dump: Metadata.DumpOutcome): (r: Response<InfoData>)
    ensures r.Ok? <==> body.Parsed? && UrlError(body.fields.url, urlParses).None? && dump.Dumped?
    ensures r.Fail? && r.status == BadRequest <==> body.Parsed? && UrlError(body.fields.url, urlParses).Some?
  {
    match body
    case Malformed(msg) => Caught(ErrorValue(msg), FetchFailed)
    case Parsed(req) =>
      match UrlError(req.url, urlParses)
      case Some(e) => Fail(BadRequest, e)
      case None =>
        match Metadata.GetVideoInfo(req.url.value, dump)
        case Failure(e) => Caught(ErrorValue(e), FetchFailed)
        case Success(v) => Ok(Data(v))
  }

  // ---------------------------------------------------------------------------
  // What the handler promises

  /** A missing or empty URL is refused with 400 before anything else. */
  lemma InfoPostUrlRequired(req: InfoRequest, urlParses: string -> bool, dump: Metadata.DumpOutcome)
    requires !Truthy(req.url)
    ensures InfoPost(Parsed(req), urlParses, dump) == Fail(BadRequest, UrlRequired)
  {
  }

  /** A URL the parser rejects is refused with 400. */
  lemma InfoPostInvalidUrl(req: InfoRequest, urlParses: string -> bool, dump: Metadata.DumpOutcome)
    requires Truthy(req.url) && !urlParses(req.url.value)
    ensures InfoPost(Parsed(req), urlParses, dump) == Fail(BadRequest, InvalidUrl)
  {
  }

  /** A refused request does not depend on what fetching the metadata would give. */
  lemma InfoPostNoFetchWhenRefused(body: Body<InfoRequest>, urlParses: string -> bool,
                                   d1: Metadata.DumpOutcome, d2: Metadata.DumpOutcome)
    requires body.Malformed? || UrlError(body.fields.url, urlParses).Some?
    ensures InfoPost(body, urlParses, d1) == InfoPost(body, urlParses, d2)
    ensures InfoPost(body, urlParses, d1).Fail?
  {
  }

  /** A body that is not JSON answers 500 with the parser's message. */
  lemma InfoPostMalformed(message: string, urlParses: string -> bool, dump: Metadata.DumpOutcome)
    ensures InfoPost(Malformed(message), urlParses, dump) == Fail(ServerError, message)
  {
  }

  /** A failed fetch answers 500 with the wrapped message. */
  lemma InfoPostFetchFails(req: InfoRequest, urlParses: string -> bool, msg: string)
    requires UrlError(req.url, urlParses).None?
    ensures InfoPost(Parsed(req), urlParses, Metadata.DumpFailed(msg)) ==
      Fail(ServerError, Metadata.ErrorPrefix + msg)
  {
  }

  /**
   * A successful answer passes the record's fields through unchanged and
   * offers one choice per reported format, in order, at most twenty.
   */
  lemma InfoPostSucceeds(req: InfoRequest, urlParses: string -> bool, info: Metadata.RawInfo)
    requires UrlError(req.url, urlParses).None?
    ensures var r := InfoPost(Parsed(req), urlParses, Metadata.Dumped(info));
      var v := Metadata.GetVideoInfo(req.url.value, Metadata.Dumped(info)).value;
      && r.Ok?
      && r.data.title == v.title && r.data.thumbnail == v.thumbnail && r.data.duration == v.duration
      && r.data.uploader == v.uploader && r.data.description == v.description
      && r.data.platform == v.platform
      && |r.data.formats| == |v.formats| <= Metadata.MaxFormats
      && (forall i :: 0 <= i < |v.formats| ==>
           r.data.formats[i].id == v.formats[i].formatId && r.data.formats[i].quality == v.formats[i].quality)
      && (forall i :: 0 <= i < |v.formats| ==>
           r.data.formats[i].caption == Label(v.formats[i]))
      && (forall i :: 0 <= i < |v.formats| ==>
           (r.data.formats[i].kind == Audio <==> v.formats[i].vcodec == Some("none")))
  {
    Metadata.GetVideoInfoWellFormed(req.url.value, info);
  }

  /** Given the quality, the label gives back the resolution. */
  lemma LabelInjective(f: Metadata.FormatInfo, g: Metadata.FormatInfo)
    requires f.quality == g.quality && Label(f) == Label(g)
    ensures Truthy(f.resolution) <==> Truthy(g.resolution)
    ensures Truthy(f.resolution) ==> f.resolution.value == g.resolution.value
  {
    if Truthy(f.resolution) && Truthy(g.resolution) {
      var n := |f.quality|;
      var a := f.resolution.value;
      var b := g.resolution.value;
      assert Label(f)[n + 2..|Label(f)| - 1] == a;
      assert Label(g)[n + 2..|Label(g)| - 1] == b;
    }
  }
}
