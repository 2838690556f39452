/**
 * Media metadata: the record the downloader's `--dump-json` call prints, and
 * its normalisation into the `VideoInfo` the rest of the application reads.
 *
 * Every property of the dumped record may be absent (`None`); a string
 * property is "truthy" when present and non-empty, a number when present
 * and non-zero, as JavaScript's `||` and `&&` see them.
 */
module Metadata {
  import opened Wrappers
  import opened Text
  import Platform

  /** One entry of the dumped `formats` array, as far as it is read. */
  datatype RawFormat = RawFormat(
    formatId: Option<string>,
    ext: Option<string>,
    protocol: Option<string>,
    formatNote: Option<string>,
    width: Option<int>,
    height: Option<int>,
    filesize: Option<int>,
    vcodec: Option<string>,
    acodec: Option<string>)

  /** The dumped record, as far as it is read; a thumbnail is its `url`. */
  datatype RawInfo = RawInfo(
    title: Option<string>,
    thumbnail: Option<string>,
    thumbnails: Option<seq<Option<string>>>,
    duration: Option<real>,
    uploader: Option<string>,
    channel: Option<string>,
    description: Option<string>,
    formats: Option<seq<RawFormat>>)

  /** What the dump call produced: the record, or the message of the error it raised. */
  datatype DumpOutcome = Dumped(info: RawInfo) | DumpFailed(message: string)

  datatype FormatInfo = FormatInfo(
    formatId: string,
    ext: string,
    quality: string,
    resolution: Option<string>,
    filesize: Option<int>,
    vcodec: Option<string>,
    acodec: Option<string>)

  datatype VideoInfo = VideoInfo(
    title: string,
    thumbnail: string,
    duration: real,
    uploader: string,
    description: Option<string>,
    formats: seq<FormatInfo>,
    platform: string)

  /** At most this many formats are reported. */
  const MaxFormats := 20
  /** At most this many characters of the description are reported. */
  const MaxDescription := 500
  /** The protocol of fragments of a segmented stream, which are not offered. */
  const DashSegments := "http_dash_segments"
  const ErrorPrefix := "Failed to get video info: "

  predicate NonZero(n: Option<int>) {
    n.Some? && n.value != 0
  }

  // ---------------------------------------------------------------------------
  // Formats

  /** A format is offered when it has an id and an extension and is not a stream fragment. */
  predicate Offered(f: RawFormat) {
    Truthy(f.formatId) && Truthy(f.ext) && f.protocol != Some(DashSegments)
  }

  /** The offered formats, in their original order. */
  function OfferedFormats(fs: seq<RawFormat>): (r: seq<RawFormat>)
    ensures |r| <= |fs|
    ensures forall g :: g in r ==> g in fs && Offered(g)
    ensures forall f :: f in fs && Offered(f) ==> f in r
  {
    if fs == [] then []
    else (if Offered(fs[0]) then [fs[0]] else []) + OfferedFormats(fs[1..])
  }

  /** The filter keeps order: filtering a concatenation filters each part. */
  lemma {:induction false} OfferedFormatsAppend(a: seq<RawFormat>, b: seq<RawFormat>)
    ensures OfferedFormats(a + b) == OfferedFormats(a) + OfferedFormats(b)
  {
    if a != [] {
      assert (a + b)[0] == a[0];
      assert (a + b)[1..] == a[1..] + b;
      OfferedFormatsAppend(a[1..], b);
      assert OfferedFormats(a + b) == (if Offered(a[0]) then [a[0]] else []) + OfferedFormats(a[1..] + b);
    } else {
      assert a + b == b;
    }
  }

  /** `${w}x${h}` when both dimensions are non-zero. */
  function Resolution(width: Option<int>, height: Option<int>): (r: Option<string>)
    ensures r.Some? <==> NonZero(width) && NonZero(height)
  {
    if NonZero(width) && NonZero(height) then
      Some(IntToDecimal(width.value) + "x" + IntToDecimal(height.value))
    else None
  }

  /**
   * One reported format: the id and extension copied, the format note as the
   * quality (`unknown` without one), the resolution when both dimensions are
   * known, and the size and codecs passed through.
   */
  function NormaliseFormat(f: RawFormat): (r: FormatInfo)
    requires Offered(f)
    ensures r.formatId != [] && r.ext != [] && r.quality != []
    ensures r.formatId == f.formatId.value && r.ext == f.ext.value
    ensures Truthy(f.formatNote) ==> r.quality == f.formatNote.value
    ensures !Truthy(f.formatNote) ==> r.quality == "unknown"
    ensures r.resolution == Resolution(f.width, f.height)
    ensures r.resolution.Some? <==> NonZero(f.width) && NonZero(f.height)
    ensures r.filesize == f.filesize && r.vcodec == f.vcodec && r.acodec == f.acodec
  {
    FormatInfo(
      f.formatId.value,
      f.ext.value,
      OrElse(f.formatNote, "unknown"),
      Resolution(f.width, f.height),
      f.filesize,
      f.vcodec,
      f.acodec)
  }

  /**
   * The reported formats: the offered ones, normalised, in order, cut at
   * twenty.
   */
  function NormaliseFormats(fs: seq<RawFormat>): (r: seq<FormatInfo>)
    ensures var offered := OfferedFormats(fs);
      && |r| == (if |offered| < MaxFormats then |offered| else MaxFormats)
      && forall i :: 0 <= i < |r| ==> r[i] == NormaliseFormat(offered[i])
  {
    var offered := OfferedFormats(fs);
    var n := if |offered| < MaxFormats then |offered| else MaxFormats;
    seq(n, i requires 0 <= i < n => NormaliseFormat(offered[i]))
  }

  /** Once twenty formats are offered, the formats after them are never reported. */
  lemma NormaliseFormatsIgnoresLater(a: seq<RawFormat>, b: seq<RawFormat>)
    requires |OfferedFormats(a)| >= MaxFormats
    ensures NormaliseFormats(a + b) == NormaliseFormats(a)
  {
    OfferedFormatsAppend(a, b);
    var r := NormaliseFormats(a + b);
    var s := NormaliseFormats(a);
    assert |r| == |s| == MaxFormats;
    forall i | 0 <= i < MaxFormats ensures r[i] == s[i] {
      assert OfferedFormats(a + b)[i] == OfferedFormats(a)[i];
    }
  }

  // ---------------------------------------------------------------------------
  // The whole record

  /** `thumbnail || thumbnails?.[0]?.url || ''`. */
  function Thumbnail(info: RawInfo): string {
    if Truthy(info.thumbnail) then info.thumbnail.value
    else if info.thumbnails.Some? && |info.thumbnails.value| > 0 then OrElse(info.thumbnails.value[0], "")
    else ""
  }

  /** `description?.slice(0, 500)`: the first 500 characters, or all of a shorter one. */
  function Description(d: Option<string>): (r: Option<string>)
    ensures r.Some? <==> d.Some?
    ensures r.Some? ==>
      |r.value| == (if |d.value| < MaxDescription then |d.value| else MaxDescription) &&
      d.value[..|r.value|] == r.value
  {
    match d
    case None => None
    case Some(s) => Some(if |s| <= MaxDescription then s else s[..MaxDescription])
  }

  /** `getVideoInfo`: the normalised record for `url`, or the wrapped error. */
  function GetVideoInfo(url: string, dump: DumpOutcome): Result<VideoInfo, string> {
    match dump
    case DumpFailed(msg) => Failure(ErrorPrefix + msg)
    case Dumped(info) =>
      Success(VideoInfo(
        OrElse(info.title, "Unknown Title"),
        Thumbnail(info),
        if info.duration.Some? && info.duration.value != 0.0 then info.duration.value else 0.0,
        if Truthy(info.uploader) then info.uploader.value else OrElse(info.channel, "Unknown"),
        Description(info.description),
        NormaliseFormats(info.formats.GetOr([])),
        Platform.DetectPlatform(url)))
  }

  // ---------------------------------------------------------------------------
  // What the normalisation promises

  /** The call fails exactly when the dump failed, and then carries its message. */
  lemma GetVideoInfoFails(url: string, dump: DumpOutcome)
    ensures GetVideoInfo(url, dump).Failure? <==> dump.DumpFailed?
    ensures dump.DumpFailed? ==>
      GetVideoInfo(url, dump).error == ErrorPrefix + dump.message
  {
  }

  /**
   * A successful record always has a title, an uploader and at most twenty
   * formats, each with an id, an extension and a quality label, and a
   * description made of the first 500 characters of the dumped one (all of
   * it when shorter).
   */
  lemma GetVideoInfoWellFormed(url: string, info: RawInfo)
    ensures var v := GetVideoInfo(url, Dumped(info)).value;
      && v.title != [] && v.uploader != []
      && |v.formats| <= MaxFormats
      && (forall i :: 0 <= i < |v.formats| ==>
            v.formats[i].formatId != [] && v.formats[i].ext != [] && v.formats[i].quality != [])
      && (v.description.Some? <==> info.description.Some?)
      && (v.description.Some? ==>
            |v.description.value| ==
              (if |info.description.value| < MaxDescription then |info.description.value| else MaxDescription) &&
            info.description.value[..|v.description.value|] == v.description.value)
      && v.platform == Platform.DetectPlatform(url)
  {
  }

  /** When there are at most twenty offered formats, all of them are reported. */
  lemma {:induction false} NormaliseFormatsKeepsAllFew(fs: seq<RawFormat>, f: RawFormat)
    requires f in fs && Offered(f) && |OfferedFormats(fs)| <= MaxFormats
    ensures NormaliseFormat(f) in NormaliseFormats(fs)
  {
    var offered := OfferedFormats(fs);
    var i :| 0 <= i < |offered| && offered[i] == f;
    assert NormaliseFormats(fs)[i] == NormaliseFormat(f);
  }

  /** The thumbnail is the first truthy one of the two places it may be. */
  lemma ThumbnailFallback(info: RawInfo)
    ensures Truthy(info.thumbnail) ==> Thumbnail(info) == info.thumbnail.value
    ensures !Truthy(info.thumbnail) && (info.thumbnails.None? || info.thumbnails.value == []) ==>
      Thumbnail(info) == ""
    ensures !Truthy(info.thumbnail) && info.thumbnails.Some? && info.thumbnails.value != [] ==>
      Thumbnail(info) == OrElse(info.thumbnails.value[0], "")
  {
  }

  /**
   * The fallbacks of a record: a missing or empty title gives
   * `Unknown Title`; the uploader falls back on the channel, then on
   * `Unknown`; a missing or zero duration gives 0.
   */
  lemma GetVideoInfoFallbacks(url: string, info: RawInfo)
    ensures var v := GetVideoInfo(url, Dumped(info)).value;
      && (Truthy(info.title) ==> v.title == info.title.value)
      && (!Truthy(info.title) ==> v.title == "Unknown Title")
      && (Truthy(info.uploader) ==> v.uploader == info.uploader.value)
      && (!Truthy(info.uploader) && Truthy(info.channel) ==> v.uploader == info.channel.value)
      && (!Truthy(info.uploader) && !Truthy(info.channel) ==> v.uploader == "Unknown")
      && (info.duration.Some? && info.duration.value != 0.0 ==> v.duration == info.duration.value)
      && (info.duration.None? || info.duration.value == 0.0 ==> v.duration == 0.0)
  {
  }

  /** No decimal rendering of an integer contains the letter `x`. */
  lemma {:induction false} NoXInDecimal(n: int)
    ensures 'x' !in IntToDecimal(n)
  {
    NatToDecimalRoundTrip(if n < 0 then -n else n);
  }

  /** A string with one `x` splits back into the parts on either side of it. */
  lemma {:induction false} SplitAtOnlyX(a: string, b: string, c: string, d: string)
    requires 'x' !in a && 'x' !in b && 'x' !in c && 'x' !in d
    requires a + "x" + b == c + "x" + d
    ensures a == c && b == d
  {
    var s := a + "x" + b;
    assert s[|a|] == 'x';
    assert s[|c|] == 'x';
    assert a == s[..|a|] == c;
    assert b == s[|a| + 1..] == d;
  }

  /** The resolution label determines both dimensions. */
  lemma ResolutionInjective(w1: Option<int>, h1: Option<int>, w2: Option<int>, h2: Option<int>)
    requires Resolution(w1, h1).Some? && Resolution(w1, h1) == Resolution(w2, h2)
    ensures w1 == w2 && h1 == h2
  {
    NoXInDecimal(w1.value);
    NoXInDecimal(h1.value);
    NoXInDecimal(w2.value);
    NoXInDecimal(h2.value);
    SplitAtOnlyX(IntToDecimal(w1.value), IntToDecimal(h1.value), IntToDecimal(w2.value), IntToDecimal(h2.value));
    IntToDecimalInjective(w1.value, w2.value);
    IntToDecimalInjective(h1.value, h2.value);
  }
}
