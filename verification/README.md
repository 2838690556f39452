# brahman-downloader, modelled in Dafny

brahman-downloader is a web application that fetches metadata for a media
URL and downloads the media by running the `yt-dlp` command-line tool as a
child process. This project models its core:

- `src/lib/ytdlp.ts`:
  - platform detection from the URL;
  - normalisation of the tool's JSON dump into a `VideoInfo`;
  - `downloadMedia`: how the format selector, the output template and the
    argument vector are chosen, and the stdout, stderr, `close` and `error`
    handlers with their three accumulators;
  - the suggested file name.
- `src/app/api/info/route.ts`: the `POST` handler that validates a URL and
  answers its metadata.
- `src/app/api/download/route.ts`: the `POST` handler that validates a
  request and runs one download.
- `src/app/api/settings/route.ts`: `GET` and `PUT` of the single settings
  record.

The modules follow the source:

- `Wrappers` has `Option` (a JavaScript value that may be `undefined`) and
  `Result`.
- `Text` has the JavaScript string operations the code relies on: `includes`,
  ASCII `toLowerCase`, `split`, `filter(Boolean)` with `pop`, `trim`,
  `replace` of one character, the `\s` and `.` classes, `||` on strings and
  `${n}` of integers.
- `Platform` is `detectPlatform`.
- `Metadata` is the normalisation in `getVideoInfo`.
- `DownloadArgs` covers the download directory, the format selector, the
  output template and the argument vector. It also has a simplified reader
  that reads an argument vector back. The reader knows only the four
  switches and six options used here, and treats every other text that
  starts with `-` as an unknown option. It does not handle abbreviations,
  `--`, or the `--opt=value` and `-fVALUE` forms.
- `DownloadEvents` has the event handlers in two forms:
  - the class `DownloadSession`, whose fields are the handlers'
    accumulators and which has one method per event;
  - pure step functions that specify those methods, and `Run`, which
    replays a sequence of events.
- `Filename` is `generateFilename`.
- `Http` has the request bodies, the responses, the catch clauses and the
  URL checks that the routes share.
- `InfoRoute`, `DownloadRoute` and `SettingsRoute` are the handlers. In
  `SettingsRoute` the store is the class `SettingsStore`, with its one
  optional record as a field.

Inputs from outside the program are parameters:

- **The tool's outputs:**
  - `DumpOutcome` is the parsed `--dump-json` output or the error message
    of that call.
  - A sequence of process `Event`s stands for the chunks, the exit code
    or the spawn error.
- **Runtime functions:**
  - `urlParses` stands for the `URL` constructor.
  - `parseFloat` is a function from the text to a number, which may be
    NaN or infinite.
  - `cwd` is `process.cwd()`.
- **Store failures:** a `storeFails` flag.

Two facts about the code shape what the model proves:

- The download route waits for `downloadMedia` and answers its result. It
  passes no quality, so every format other than `mp3`/`audio` fails with a
  `TypeError` at `src/lib/ytdlp.ts:129` (`DownloadRoute.DownloadPostVideoFails`).
- A format with no `vcodec` is reported as `video`.

## Model

| member | source | states |
|---|---|---|
| Text.OrElse | src/lib/ytdlp.ts:97-100 | JavaScript's `or` on a string and a default: the answer is one of the two, a non-empty string always wins, and the answer is empty only when both are |
| Text.Find | src/lib/ytdlp.ts:182 | the leftmost occurrence of a text where the regular expression's search stops: -1 exactly when there is none, otherwise an occurrence with none before it |
| Text.ContainsIff | src/lib/ytdlp.ts:47 | `includes` holds exactly when the pattern occurs at some index |
| Text.ContainsChar | src/lib/ytdlp.ts:129 | `includes` of a one-character string is membership of that character |
| Text.ToLower | src/lib/ytdlp.ts:46 | `toLowerCase` keeps the length, lower-cases every ASCII letter position by position, and leaves no upper-case ASCII letter |
| Text.ToLowerIdempotent | src/lib/ytdlp.ts:46 | lower-casing twice gives the same text as once |
| Text.LastIndexOf | src/lib/ytdlp.ts:203 | the last index of a character, or -1, with no occurrence after it |
| Text.Split | src/lib/ytdlp.ts:166 | `split` gives at least one piece |
| Text.SplitFront | src/lib/ytdlp.ts:169 | a first piece without the separator is the first piece of `split`, and the rest splits on its own |
| Text.SplitFirst | src/lib/ytdlp.ts:169 | the first piece of `split` is the text up to the first separator |
| Text.SplitPieces | src/lib/ytdlp.ts:166-169 | no piece of `split` holds the separator |
| Text.SplitJoin | src/lib/ytdlp.ts:166-169 | joining the pieces of `split` with the separator gives the text back |
| Text.SplitCount | src/lib/ytdlp.ts:169-170 | `split` gives one piece more than there are separators, so three pieces means at least two vertical bars |
| Text.Contains | src/lib/ytdlp.ts:47-59 | `includes` (a predicate; `Text.ContainsIff` states its meaning) |
| Text.LastNonEmptyLine | src/lib/ytdlp.ts:166 | `split('\n').filter(Boolean).pop()` (its meaning is `Text.LastNonEmptyLineShape`) |
| Text.Trim | src/lib/ytdlp.ts:171-175 | `trim` as the start and end trims (their meaning is `Text.TrimStartShape`, `Text.TrimEndShape`, `Text.TrimEnds`) |
| Text.RemoveFirst | src/lib/ytdlp.ts:130 | `replace` with a one-character string pattern (its meaning is `Text.RemoveFirstShape`) |
| Text.IntToDecimal | src/lib/ytdlp.ts:89 | `${n}` of an integer (its meaning is `Text.NatToDecimalRoundTrip`, `Text.IntToDecimalInjective`) |
| Text.LastNonEmptyLineShape | src/lib/ytdlp.ts:166 | `split('\n').filter(Boolean).pop()` gives nothing exactly when the chunk is only newlines, and otherwise the chunk's last non-empty line |
| Text.TrimStartShape | src/lib/ytdlp.ts:183 | the start of `trim` drops exactly a leading run of white space and leaves no white space at the front |
| Text.TrimEndShape | src/lib/ytdlp.ts:183 | the end of `trim` drops exactly a trailing run of white space and leaves none at the back |
| Text.TrimEnds | src/lib/ytdlp.ts:229 | `trim` leaves no white space at either end |
| Text.TrimIsInfix | src/lib/ytdlp.ts:229 | `trim` returns a contiguous part of its input |
| Text.FirstLine | src/lib/ytdlp.ts:182 | `(.+)` takes a prefix that holds no line terminator and stops only at one |
| Text.IndexOf | src/lib/ytdlp.ts:130 | the first index of a character, or -1, with none before it |
| Text.RemoveFirstShape | src/lib/ytdlp.ts:130 | `replace('p', '')` cuts out exactly the first `p`, and leaves a text without `p` as it is |
| Text.NatToDecimalRoundTrip | src/lib/ytdlp.ts:89 | `${n}` writes digits only, with no leading zero, and reads back as `n` |
| Text.IntToDecimalInjective | src/lib/ytdlp.ts:206 | distinct integers are written differently |
| Platform.FirstRule | src/lib/ytdlp.ts:47-60 | the first rule from a given one on that matches, or the count of rules when none does; no rule before it matches |
| Platform.TagInjective | src/lib/ytdlp.ts:47-60 | distinct rules return distinct tags, and none returns `unknown` |
| Platform.DetectPlatformFirstRuleWins | src/lib/ytdlp.ts:45-61 | the tag of rule k is returned exactly when one of its host substrings occurs in the lower-cased URL and no earlier rule's does |
| Platform.DetectPlatformUnknown | src/lib/ytdlp.ts:60 | `unknown` exactly when no host substring of any rule occurs |
| Platform.DetectPlatform | src/lib/ytdlp.ts:45-61 | `detectPlatform` as the first matching rule of the table on the lower-cased URL; the answer is always one of the fourteen tags |
| Platform.DetectPlatformCaseInsensitive | src/lib/ytdlp.ts:46 | detection ignores ASCII case |
| Platform.DetectPlatformYouTube | src/lib/ytdlp.ts:47 | a URL that names youtube.com or youtu.be, in any case, is `youtube` |
| Platform.DetectPlatformXComSuffix | src/lib/ytdlp.ts:50 | any URL containing `x.com` that is not YouTube, Instagram or TikTok is tagged `twitter`, even when the host only ends in `x.com` |
| Metadata.OfferedFormats | src/lib/ytdlp.ts:74-75 | the filter keeps exactly the formats that have an id and an extension and are not DASH segments |
| Metadata.OfferedFormatsAppend | src/lib/ytdlp.ts:74-75 | the filter keeps order: filtering a concatenation concatenates the filtered parts |
| Metadata.Resolution | src/lib/ytdlp.ts:89 | a resolution exists exactly when width and height are both present and non-zero |
| Metadata.ResolutionInjective | src/lib/ytdlp.ts:89 | the `WxH` label determines both dimensions |
| Metadata.NormaliseFormat | src/lib/ytdlp.ts:76-93 | the id and extension are copied; the quality is the format note when it is non-empty and `unknown` otherwise; the resolution is present exactly when both dimensions are non-zero; size and codecs pass through |
| Metadata.NormaliseFormats | src/lib/ytdlp.ts:74-94 | the offered formats, normalised, in order, cut at 20 (what this means is stated by `Metadata.NormaliseFormatsKeepsAllFew` and `Metadata.NormaliseFormatsIgnoresLater`) |
| Metadata.NormaliseFormatsIgnoresLater | src/lib/ytdlp.ts:74-94 | once 20 formats are offered, formats after them never change what is reported |
| Metadata.NormaliseFormatsKeepsAllFew | src/lib/ytdlp.ts:94 | when at most 20 formats are offered, every one of them is reported |
| Metadata.ThumbnailFallback | src/lib/ytdlp.ts:98 | the thumbnail is the first truthy one of `thumbnail` and the first alternative's `url`, or the empty string |
| Metadata.GetVideoInfoFails | src/lib/ytdlp.ts:105-107 | the call fails exactly when the dump failed, with `Failed to get video info: ` before the message |
| Metadata.GetVideoInfoWellFormed | src/lib/ytdlp.ts:96-104 | a record always has a title and an uploader, and at most 20 well-formed formats; its description is present exactly when dumped and is the first min(500, length) characters of it; the platform is the detector's |
| Metadata.GetVideoInfoFallbacks | src/lib/ytdlp.ts:97-100 | a missing or empty title gives `Unknown Title`; the uploader falls back on the channel, then on `Unknown`; a missing or zero duration gives 0 |
| Metadata.Description | src/lib/ytdlp.ts:101 | `description?.slice(0, 500)`: present exactly when dumped, and then its first min(500, length) characters |
| Metadata.Thumbnail | src/lib/ytdlp.ts:98 | the thumbnail fallback chain (its meaning is `Metadata.ThumbnailFallback`) |
| Metadata.GetVideoInfo | src/lib/ytdlp.ts:64-109 | `getVideoInfo` on the outcome of the dump call (its meaning is `Metadata.GetVideoInfoFails`, `Metadata.GetVideoInfoWellFormed`, `Metadata.GetVideoInfoFallbacks`) |
| DownloadArgs.JoinPath | src/lib/ytdlp.ts:136-137 | the joined path ends with the name |
| DownloadArgs.Basename | src/lib/ytdlp.ts:203 | the base name holds no separator |
| DownloadArgs.BasenameOfJoin | src/lib/ytdlp.ts:203-204 | the base name of a directory joined with a separator-free name is that name |
| DownloadArgs.DownloadDir | src/lib/ytdlp.ts:118 | a non-empty requested output path is the download directory; otherwise it is `download` joined to the working directory |
| DownloadArgs.FormatSelector | src/lib/ytdlp.ts:125-133 | the selector fails exactly for a non-audio format without a quality, and then with the `TypeError` |
| DownloadArgs.OutputTemplate | src/lib/ytdlp.ts:135-137 | the output template (its meaning is `DownloadArgs.OutputTemplateEnds`) |
| DownloadArgs.FormatSelectorAudio | src/lib/ytdlp.ts:125-126 | `mp3` and `audio` select `bestaudio/best`, whatever the quality, even an absent one |
| DownloadArgs.FormatSelectorNoQuality | src/lib/ytdlp.ts:127-129 | with no quality, selection fails exactly for non-audio formats, with the `TypeError` of reading `includes` of `undefined` |
| DownloadArgs.FormatSelectorBest | src/lib/ytdlp.ts:127-128 | a video format with quality `best` or `highest` selects `bestvideo+bestaudio/best` |
| DownloadArgs.FormatSelectorHeight | src/lib/ytdlp.ts:127-133 | for a quality other than best/highest: one with a `p` caps the height at the quality without its first `p`; one without `p` selects the best streams |
| DownloadArgs.FormatSelector720p | src/lib/ytdlp.ts:129-130 | `720p` caps the height at 720 in both alternatives |
| DownloadArgs.OutputTemplateEnds | src/lib/ytdlp.ts:135-137 | the template ends with the custom name, or `%(title)s`, followed by `.%(ext)s` |
| DownloadArgs.ReadArgsPush | src/lib/ytdlp.ts:150-157 | pushing an argument reads as one more step of the reader |
| DownloadArgs.ReadBaseArgs | src/lib/ytdlp.ts:140-147 | the base vector sets the three switches, the progress template, the selector and the output template |
| DownloadArgs.BuildArgs | src/lib/ytdlp.ts:140-157 | the URL is the last argument; unless the URL starts with `-`, reading the vector back gives the intended settings (audio extraction to mp3 at quality 0 for audio formats, an mp4 merge for `mp4`, nothing extra otherwise) with the URL as the only positional |
| DownloadEvents.PercentOf | src/lib/ytdlp.ts:171-173 | the percentage lies in [0, 100]: NaN and negative values give 0, values above 100 give 100, others are kept |
| DownloadEvents.ProgressOf | src/lib/ytdlp.ts:168-179 | reported progress has a percentage in [0, 100] and status `downloading` (its fields are stated by `DownloadEvents.ProgressOfLine`) |
| DownloadEvents.SplitProgressLine | src/lib/ytdlp.ts:169-170 | a line `a`, `b`, `c` joined by vertical bars, with none in `a` and `b`, splits into at least three pieces: `a`, `b` and `c` up to its first bar |
| DownloadEvents.ProgressOfLine | src/lib/ytdlp.ts:168-179 | such a line with a `%` and a listening callback reports the percent parsed from `a` without its first `%` and trimmed, then clamped; the trimmed `b` as speed; the trimmed third field as time left |
| DownloadEvents.ProgressOfUnparsable | src/lib/ytdlp.ts:171 | a percent field that does not parse as a number is reported as 0 |
| DownloadEvents.LastNonTerminator | src/lib/ytdlp.ts:182 | the last character that is not a line terminator, with only terminators after it |
| DownloadEvents.DestinationCaptureMatches | src/lib/ytdlp.ts:182-183 | the expression matches exactly when the chunk holds `Destination:` and some character after it is not a line terminator |
| DownloadEvents.DestinationCaptureTrimmed | src/lib/ytdlp.ts:183 | the trimmed capture is the rest of the line reached after the marker and any white space |
| DownloadEvents.DestinationCaptureOneLine | src/lib/ytdlp.ts:182 | the capture never spans two lines |
| DownloadEvents.DestinationCapture | src/lib/ytdlp.ts:182 | the capture group of `/Destination:\s*(.+)/`, backtracking included (its meaning is `DownloadEvents.DestinationCaptureMatches`, `DownloadEvents.DestinationCaptureTrimmed`, `DownloadEvents.DestinationCaptureOneLine`) |
| DownloadEvents.Recover | src/lib/ytdlp.ts:182-183 | the trimmed capture when the expression matches, and the old path otherwise |
| DownloadEvents.StdoutStep | src/lib/ytdlp.ts:164-189 | one standard-output chunk (its meaning is `DownloadEvents.StdoutLastLine`, `DownloadEvents.StdoutProgress`, `DownloadEvents.ApplyFilePath`) |
| DownloadEvents.StderrStep | src/lib/ytdlp.ts:191-199 | one standard-error chunk (its meaning is `DownloadEvents.StderrAppends`, `DownloadEvents.ApplyFilePath`) |
| DownloadEvents.FallbackName | src/lib/ytdlp.ts:203 | the synthesised file name (its meaning is `DownloadEvents.FallbackNameExtension`) |
| DownloadEvents.CloseOutcome | src/lib/ytdlp.ts:201-216 | the `close` outcome resolves exactly on exit code 0 |
| DownloadEvents.Run | src/lib/ytdlp.ts:164-220 | the state after a sequence of events (its meaning is `DownloadEvents.RunFilePath`, `DownloadEvents.RunErrorOutput`, `DownloadEvents.FirstCloseSettles`) |
| DownloadEvents.DownloadMedia | src/lib/ytdlp.ts:112-222 | `downloadMedia` for a sequence of process events (its meaning is `DownloadEvents.DownloadMediaNoQuality` and the lemmas about `Run`) |
| DownloadEvents.Settle | src/lib/ytdlp.ts:204-219 | settling a promise (what this means over a run of events is stated by `DownloadEvents.SettleOnce`, `DownloadEvents.RunKeepsOutcome` and `DownloadEvents.FirstCloseSettles`) |
| DownloadEvents.SettleOnce | src/lib/ytdlp.ts:204-219 | settling twice equals settling once with the first value: the first outcome wins |
| DownloadEvents.DownloadSession.constructor | src/lib/ytdlp.ts:160-162 | the accumulators start empty and the download pending |
| DownloadEvents.DownloadSession.OnStdout | src/lib/ytdlp.ts:164-189 | the new state and the reported progress are exactly the step function's |
| DownloadEvents.DownloadSession.OnStderr | src/lib/ytdlp.ts:191-199 | the new state is exactly the step function's: error text appended, path recovered from `[download]` chunks |
| DownloadEvents.DownloadSession.OnClose | src/lib/ytdlp.ts:201-216 | the download settles with the close outcome computed from the accumulators, unless already settled |
| DownloadEvents.DownloadSession.OnError | src/lib/ytdlp.ts:218-220 | the download settles with `Download error: ` and the message, unless already settled |
| DownloadEvents.ApplyFilePath | src/lib/ytdlp.ts:181-188 | one event sets the path to what it recovers, and otherwise leaves it |
| DownloadEvents.RunFilePath | src/lib/ytdlp.ts:181-198 | after any events, the path is the one recovered by the last event that recovered one |
| DownloadEvents.RunErrorOutput | src/lib/ytdlp.ts:193 | the error text is all standard-error chunks, in order |
| DownloadEvents.RunAppend | src/lib/ytdlp.ts:164-220 | replaying two stretches of events is replaying them one after the other |
| DownloadEvents.RunKeepsOutcome | src/lib/ytdlp.ts:201-220 | once settled, the outcome never changes |
| DownloadEvents.RunPending | src/lib/ytdlp.ts:164-199 | output and error chunks never settle the download |
| DownloadEvents.FirstCloseSettles | src/lib/ytdlp.ts:201-216 | the first `close` decides the outcome from the accumulators at that moment, whatever follows |
| DownloadEvents.StdoutLastLine | src/lib/ytdlp.ts:166 | the last line becomes the chunk's last non-empty line, or stays when the chunk is only newlines; error text and outcome are untouched |
| DownloadEvents.StdoutProgress | src/lib/ytdlp.ts:168-179 | progress is reported exactly when a callback listens and the last line holds `%` and at least three fields separated by vertical bars |
| DownloadEvents.StderrAppends | src/lib/ytdlp.ts:191-193 | a standard-error chunk is appended to the error text, and the last line and outcome are kept |
| DownloadEvents.CloseResolves | src/lib/ytdlp.ts:202-204 | exit code 0 with a recovered path resolves with that path and its base name |
| DownloadEvents.RunCloseFallback | src/lib/ytdlp.ts:201-205 | a run with no destination reported before the first close, which exits with code 0, resolves with the fallback name in the download directory |
| DownloadEvents.FallbackNameDefault | src/lib/ytdlp.ts:203 | without a custom name the fallback is `download.mp3` or `download.mp4` |
| DownloadEvents.DownloadMediaRuns | src/lib/ytdlp.ts:112-222 | once the selector succeeds, the download settles as the events run in the chosen directory |
| DownloadEvents.DownloadMediaAudioFallback | src/lib/ytdlp.ts:118-205 | an audio download with no output path or custom name and no reported destination saves `download.mp3` (or `.mp4`) in `download` under the working directory |
| DownloadEvents.CloseFallback | src/lib/ytdlp.ts:203-204 | exit code 0 without a path resolves with the fallback name joined to the download directory, whose base name is that name |
| DownloadEvents.FallbackNameExtension | src/lib/ytdlp.ts:203 | the fallback name ends in `.mp3` for `mp3` and in `.mp4` for every other format |
| DownloadEvents.CloseRejects | src/lib/ytdlp.ts:205-214 | any other exit rejects with the first clue found in the error text (authentication, unavailable, network), or with the exit code |
| DownloadEvents.DownloadMediaNoQuality | src/lib/ytdlp.ts:116-129 | a video download without a quality fails with the `TypeError` whatever the process does |
| Filename.StripForbidden | src/lib/ytdlp.ts:227 | no forbidden file-name character survives |
| Filename.StripForbiddenChar | src/lib/ytdlp.ts:227 | one character is dropped exactly when it is forbidden |
| Filename.StripForbiddenAppend | src/lib/ytdlp.ts:227 | stripping a concatenation strips each part, so every other character is kept in order |
| Filename.CollapseSpace | src/lib/ytdlp.ts:228 | `replace(/\s+/g, ' ')` (its meaning is `Filename.CollapseSpaceRun`, `Filename.CollapseSpaceNoSpace`, `Filename.CollapseSpaceAppend`, `Filename.CollapseSpaceShape`, `Filename.SqueezeCollapse`) |
| Filename.CollapseSpaceRun | src/lib/ytdlp.ts:228 | a non-empty run of white space becomes exactly one space |
| Filename.CollapseSpaceNoSpace | src/lib/ytdlp.ts:228 | a text without white space is unchanged |
| Filename.CollapseSpaceAppend | src/lib/ytdlp.ts:228 | collapsing works piece by piece when the pieces meet at a character that is not white space |
| Filename.CollapseSpaceWords | src/lib/ytdlp.ts:228 | two words apart by any white-space run are joined by one space |
| Filename.Extension | src/lib/ytdlp.ts:232 | the extension (its meaning is `Filename.ExtensionOf`) |
| Filename.SanitizedName | src/lib/ytdlp.ts:226-230 | the name part (its meaning is `Filename.SanitizedNameShape`, `Filename.SanitizedNameKeepsTitle`, `Filename.SanitizedNameWords`) |
| Filename.GenerateFilename | src/lib/ytdlp.ts:225-234 | `generateFilename` (its meaning is `Filename.GenerateFilenameEnds`, `Filename.NoForbiddenCharacter`) |
| Filename.CollapseSpaceShape | src/lib/ytdlp.ts:228 | after collapsing, white space occurs only as single spaces, and every other character comes from the input |
| Filename.TrimInfix | src/lib/ytdlp.ts:229 | `trim` keeps single spacing and adds no character |
| Filename.SanitizedNameShape | src/lib/ytdlp.ts:226-230 | the name part has at most 100 characters, none forbidden, only single spaces, and none at its start |
| Filename.GenerateFilenameEnds | src/lib/ytdlp.ts:233 | the file name is the name part, a dot and the extension |
| Filename.ExtensionOf | src/lib/ytdlp.ts:232 | the extension is `mp3` exactly for `mp3` and `audio`, and the format itself otherwise |
| Filename.NoForbiddenCharacter | src/lib/ytdlp.ts:226-233 | no forbidden character occurs in the name part of the file name |
| Filename.Squeeze | src/lib/ytdlp.ts:228 | the text without its white space has no white space |
| Filename.SqueezeAppend | src/lib/ytdlp.ts:228 | removing white space commutes with concatenation |
| Filename.SqueezeCollapse | src/lib/ytdlp.ts:228 | collapsing white space keeps every other character, in order |
| Filename.SqueezeTrimStart | src/lib/ytdlp.ts:229 | trimming the start removes only white space |
| Filename.SqueezeTrimEnd | src/lib/ytdlp.ts:229 | trimming the end removes only white space |
| Filename.StripForbiddenNone | src/lib/ytdlp.ts:227 | a text without forbidden characters is unchanged |
| Filename.SanitizedNameWords | src/lib/ytdlp.ts:226-230 | a short title of two words without forbidden characters, apart by any white space, is named with the two words and one space |
| Filename.SanitizedNameKeepsTitle | src/lib/ytdlp.ts:226-230 | apart from white space, the name part is a prefix of the title without forbidden characters, and all of it when it fits in 100 characters |
| Http.Caught | src/app/api/info/route.ts:56-68 | the catch clause (what it answers in each handler is stated by `InfoRoute.InfoPostMalformed`, `InfoRoute.InfoPostFetchFails` and `DownloadRoute.DownloadPostForwards`) |
| Http.UrlError | src/app/api/info/route.ts:15-30 | the URL passes exactly when it is present, non-empty and parsable; otherwise the first failed check gives its message |
| InfoRoute.Label | src/app/api/info/route.ts:38 | the label begins with the quality and equals it exactly when there is no resolution |
| InfoRoute.KindOf | src/app/api/info/route.ts:40 | the `type` of a format (what it answers end to end is stated by `InfoRoute.InfoPostSucceeds`) |
| InfoRoute.ChoiceOf | src/app/api/info/route.ts:37-40 | one entry of the map (its fields end to end are stated by `InfoRoute.InfoPostSucceeds`) |
| InfoRoute.Choices | src/app/api/info/route.ts:36-41 | the map over the formats (its length, order and entries end to end are stated by `InfoRoute.InfoPostSucceeds`) |
| InfoRoute.LabelInjective | src/app/api/info/route.ts:38 | given the quality, the label determines the resolution |
| InfoRoute.InfoPost | src/app/api/info/route.ts:9-68 | the answer is 200 exactly when the body parsed, the URL checks pass and the dump succeeded, and 400 exactly when a URL check fails |
| InfoRoute.InfoPostUrlRequired | src/app/api/info/route.ts:15-20 | a missing or empty URL answers 400 `URL is required` |
| InfoRoute.InfoPostInvalidUrl | src/app/api/info/route.ts:23-30 | an unparsable URL answers 400 `Invalid URL format` |
| InfoRoute.InfoPostNoFetchWhenRefused | src/app/api/info/route.ts:11-33 | a refused request is answered with an error and does not depend on the metadata fetch |
| InfoRoute.InfoPostMalformed | src/app/api/info/route.ts:56-68 | a body that is not JSON answers 500 with the parser's message |
| InfoRoute.InfoPostFetchFails | src/app/api/info/route.ts:56-68 | a failed fetch answers 500 with the wrapped message |
| InfoRoute.InfoPostSucceeds | src/app/api/info/route.ts:33-55 | a success passes the record's fields through and offers one choice per format, in order, at most 20; each choice has the format's id, quality and label, and is `audio` exactly when the video codec is `none` (an absent codec gives `video`) |
| DownloadRoute.Rejection | src/app/api/download/route.ts:12-34 | the request passes exactly when both URL checks pass and a format is given; otherwise the first failed check gives its message |
| DownloadRoute.DownloadPost | src/app/api/download/route.ts:6-60 | the answer is 400 exactly when the body parsed and one of the three checks fails |
| DownloadRoute.DownloadPostChecks | src/app/api/download/route.ts:12-34 | the three checks answer 400 in order: URL required, invalid URL, format required |
| DownloadRoute.DownloadPostNoProcessWhenRefused | src/app/api/download/route.ts:11-40 | a refused request is answered whatever the process would do |
| DownloadRoute.DownloadPostForwards | src/app/api/download/route.ts:37-60 | an accepted request answers the download's file, or 500 with its error message, and no answer while it is pending |
| DownloadRoute.DownloadPostAudioFallback | src/app/api/download/route.ts:37-46 | the route passes no output path or name, so an audio download with no reported destination answers `download.mp3` (or `.mp4`) in `download` under the working directory |
| DownloadRoute.DownloadPostVideoFails | src/app/api/download/route.ts:37-40 | since no quality is passed, every non-audio format answers 500 with the `TypeError` |
| DownloadRoute.DownloadPostSucceedsOnlyForAudio | src/app/api/download/route.ts:37-46 | a success implies the request passed the checks with an audio format |
| SettingsRoute.Created | src/app/api/settings/route.ts:36-45 | a record created by `PUT` always has a quality, a format and a download path |
| SettingsRoute.Defaults | src/app/api/settings/route.ts:9-16 | the record `GET` creates: `best`, `mp4`, auto-rename on, `/downloads` (its use is stated by `SettingsRoute.SettingsStore.Get`) |
| SettingsRoute.Patched | src/app/api/settings/route.ts:47-56 | the conditional spreads of the update (their meaning is `SettingsRoute.PatchedChangesSuppliedFields`) |
| SettingsRoute.AfterPut | src/app/api/settings/route.ts:34-56 | a `PUT` creates the record when there is none and patches it otherwise |
| SettingsRoute.SettingsStore.constructor | src/app/api/settings/route.ts:6 | the store starts with the given record, if any |
| SettingsRoute.SettingsStore.Get | src/app/api/settings/route.ts:4-27 | the record is answered, created with the defaults only when absent and otherwise unchanged; a store failure answers 500 `Failed to fetch settings` and changes nothing |
| SettingsRoute.SettingsStore.Put | src/app/api/settings/route.ts:29-67 | the store holds the created or patched record, which is answered; a bad body or a store failure answers 500 `Failed to update settings` and changes nothing |
| SettingsRoute.PatchedChangesSuppliedFields | src/app/api/settings/route.ts:47-56 | an update changes exactly the supplied fields, to the supplied values |
| SettingsRoute.PatchedEmpty | src/app/api/settings/route.ts:47-56 | an empty patch changes nothing |
| SettingsRoute.PatchedIdempotent | src/app/api/settings/route.ts:47-56 | the same patch applied twice equals applying it once |
| SettingsRoute.PatchedTwice | src/app/api/settings/route.ts:47-56 | two patches in a row equal one patch in which the later one wins on each supplied field |
| SettingsRoute.CreatedFallbacks | src/app/api/settings/route.ts:36-45 | a supplied `false` flag is kept (`??`), and a supplied empty string gives the default (logical or) |
| SettingsRoute.CreatedIsPatchedDefaults | src/app/api/settings/route.ts:36-45 | unless a string field is supplied empty, creating from a patch equals patching the defaults |
| SettingsRoute.AfterPutRepeated | src/app/api/settings/route.ts:34-56 | repeating a `PUT` changes nothing, unless the first one created the record from an empty string field |
| SettingsRoute.AfterPutCreateNotRepeatable | src/app/api/settings/route.ts:36-56 | a `PUT` of `{defaultQuality: ""}` that creates the record stores `best`, and repeating it stores `""` |

## Left out

- **Process and file system:**
  - Spawning `yt-dlp` and the `exec` of the dump (src/lib/ytdlp.ts:66-69, 159).
  - `existsSync` and `mkdir` of the download directory (src/lib/ytdlp.ts:119-121).
  - The process is represented by its events. The argument vector that `BuildArgs` returns is not passed to anything.
- **Numbers:**
  - `width`, `height` and `filesize` are integers, and `${n}` is modelled by `Text.IntToDecimal`.
  - JavaScript renders fractional values and values of 1e21 or more differently, and loses integer precision above 2^53. None of this is modelled.
- **JSON:**
  - `JSON.parse` of the dump and of request bodies is left out.
  - The parsed values are datatypes whose fields are strings, integers (`width`, `height`, `filesize`), a real `duration`, or absent.
  - Bodies or fields of other JSON types, such as `null`, a number where a string is read, or a non-array `formats`, are not modelled.
- `DownloadEvents.DownloadMedia`:
  - the progress callback is not called; `OnStdout` returns the progress it would receive;
  - the download route passes no callback.
- **Runtime functions:**
  - `parseFloat` and the `URL` constructor are parameters, not models of the ECMAScript and WHATWG algorithms.
  - `process.cwd()` is a parameter.
- `console.error` logging in the routes is left out.
- `Text.ToLower`: `toLowerCase` is modelled for ASCII letters only; other letters are kept.
- Lengths count Unicode scalar values, not UTF-16 code units. This affects `slice(0, 500)` and `slice(0, 100)` on text outside the Basic Multilingual Plane.
- `DownloadArgs.JoinPath`:
  - does not normalise `.`, `..` or repeated separators inside the directory or the name;
  - states only that the name ends the joined path.
- `DownloadArgs.Basename`: `path.basename` is modelled for paths without a trailing separator.
- `DownloadArgs.BuildArgs`: the read-back is stated only for URLs that do not start with `-`. The tool would take such a URL as an option.
- `Metadata.GetVideoInfo`:
  - `duration` is a real number, so `NaN` is not modelled;
  - the catch's `Unknown error` for a non-`Error` value is not modelled, because the dump call only raises `Error`s here.
- `Http.Caught`: the non-`Error` branch is modelled, but no modelled call throws anything other than an `Error`.
- **Settings:**
  - The record's id and timestamps are left out.
  - The column default of `darkMode`, which `GET` does not set, is a parameter of `SettingsStore`. The Prisma schema is not part of this model.
  - `findFirst`, `create` and `update` failures are one `storeFails` flag, and a failure changes nothing.
  - `SettingsStore.Get` and `SettingsStore.Put` are atomic, so the store holds at most one record. In the source each handler awaits between `findFirst` and `create` (src/app/api/settings/route.ts:6-9, 34-36). Two first requests served at once can therefore both find no record and create two, after which `findFirst` answers either one. This interleaving is not modelled.
- **Not part of this model:**
  - `src/app/api/history/route.ts`, `prisma/seed.ts`, `server.js` and the React pages;
  - the download-job table.
