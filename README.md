# CutScene core in Dafny

CutScene cuts clips out of what a Plex server is playing. A browser page
lists the active sessions. The user picks a start and an end position, and
the server encodes that range with ffmpeg into a file under /tmp, with
tags and a readable name. A live preview of the range is streamed too.

This project models the decisions CutScene makes and proves properties
about them:

- **ffmpeg.go**: the keyword arguments of the encoder for a clip
  (`DoFfmpeg`) and for a preview (`DoFfmpegPreview`).
  - The three codec branches: VA-API, NVENC, and the default branch shared
    by libx264 and every unrecognised codec.
  - The container tags and their `key=value` list.
  - The error returned from the encoder's outcome.
- **application.go**: `GetUserSessions`, which picks the sessions of one
  user, and `Clip`.
  - `Clip` works step by step: parse the rating key, fetch the library
    record, probe the source, name the file, collect the tags, decide
    between stream copy and libx264, and run the encoder.
  - Every early return is modelled, with its error text and the external
    calls made up to that point.
- **plex_tv.go**: `Users.HasUser`, which asks whether a plex.tv user has
  been granted a given server.
- **frontend/src/App.js**:
  - `millisToDuration`, the text sent to the server for a position;
  - `getVideoName`, the label of a session;
  - the bounded start and end setters, which keep the end more than
    500 ms after the start;
  - the "+ms" fields, and the reset when a session is selected.

Modules and how values are represented:

- `Decimal` holds the decimal printing shared by Go (`strconv.Itoa`, `%d`,
  `%02d`) and JavaScript (`String(n)`, `padStart`, `padEnd`), and reads that
  text back. The reading is the partner each printing function is checked
  against.
- `FilePath` holds `filepath.Join` onto "/tmp" with Go's lexical cleaning.
- `Labels` compares the server's file name with the browser's label.
- Keyword arguments (`ffmpeg.KwArgs`) are a `map<Opt, ArgVal>`. `Opt`
  enumerates the options the program sets, and `Opt.Name` gives each one's
  ffmpeg spelling, so a misspelt key cannot occur.
- The metadata list is built by ranging over a Go map, whose order is not
  fixed, so it is modelled as a multiset.
- The outcomes of everything outside the core are parameters:
  - `strconv.ParseFloat` of the rating key;
  - the Plex metadata fetch;
  - ffprobe;
  - the encoder run.
- The positions in the browser are a `class Positions` whose methods update
  `startPosition` and `endPosition` in place, as React state setters do.
- JavaScript's `%` keeps the sign of the dividend. It is written out as
  `JsRem`, because Dafny's `%` is Euclidean.
- `Math.floor(x / 1000)` on integers is Dafny's `/` by a positive divisor.

The duration text is read back by `ReadDuration`, a reference reader of
`H:MM:SS` with an optional fraction of one to three digits (".5" is half a
second, as for ffmpeg's `-ss` and `-to`). The corrected `millisToDuration`
reads back as the exact position for every non-negative position. The
version as written does not: see Findings.

## Model

| member | source | states |
|---|---|---|
| `Ffmpeg.RunError` | ffmpeg.go:127-140 | No error exactly when the run succeeds. An exit failure is reported as a fixed prefix followed by the captured stderr, unchanged. Any other failure is passed through as it is. |
| `Ffmpeg.Tag.Name` | ffmpeg.go:43-59 | No tag key contains '=', so the first '=' of an entry ends its key. |
| `Ffmpeg.NameInjective` | ffmpeg.go:43-59 | Different tags have different keys. |
| `Ffmpeg.EntryInjective` | ffmpeg.go:61-64 | A "key=value" string determines both its tag and its value. |
| `Ffmpeg.ListEntries` | ffmpeg.go:61-64 | The metadata list has one element per tag in the map. It holds each "key=value" entry exactly once and nothing else, in whatever order the map is ranged. |
| `Ffmpeg.ClipMetadata` | ffmpeg.go:43-59 | Title and comment (the start time) are always present, even when empty. The show is present iff non-empty. Season, episode and year are present iff non-zero. There is never an artist tag. |
| `Ffmpeg.ClipMetadataDecimal` | ffmpeg.go:48-58 | Season, episode and year tags read back as the numbers they were printed from. |
| `Ffmpeg.CollectMetadata` | ffmpeg.go:43-59 | Filling the tag map one optional tag at a time gives exactly `ClipMetadata`. |
| `Ffmpeg.BackendOf` | ffmpeg.go:77-125 | Picks the branch of both codec switches: VA-API, NVENC, or the default branch shared by libx264 and every other codec. It has no `ensures` of its own; what each branch sets is stated by `Ffmpeg.ClipInputArgs`, `Ffmpeg.VaapiClipArgs`, `Ffmpeg.NvencClipArgs`, `Ffmpeg.SoftwareClipArgs` and `Ffmpeg.PreviewOutputArgs`. |
| `Ffmpeg.ClipInputArgs` | ffmpeg.go:68-115 | Every clip seeks to `from`, trims at `to` and logs quietly. VA-API adds its device and output format. NVENC adds CUDA, `extra_hw_frames` 8 and the CUDA output format. Every other codec gets `hwaccel auto` and nothing more. The key count is fixed per branch. |
| `Ffmpeg.PreviewInputArgs` | ffmpeg.go:148-197 | The same input arguments as a clip, except that `extra_hw_frames` is never set. |
| `Ffmpeg.PreviewInputIsClipInput` | ffmpeg.go:148-167 | A preview's input arguments are a clip's with `extra_hw_frames` removed, for every codec. |
| `Ffmpeg.ClipBaseOutputArgs` | ffmpeg.go:91-100 | Before the codec switch, the output has Vorbis audio, no chapters, no metadata copying, the faststart/metadata movflags, the tag list, the QP and the configured encoder. No filter, format or quality key is set yet. |
| `Ffmpeg.ClipOutputArgs` | ffmpeg.go:91-125 | Every clip output has Vorbis audio, no chapters, the tag list, a QP and the configured encoder, and never a container format. |
| `Ffmpeg.VaapiClipArgs` | ffmpeg.go:103-105 | VA-API always uploads and scales with `scale_vaapi`, even at height 0. It sets compression level 0, passes the QP through and sets no software quality keys. |
| `Ffmpeg.NvencClipArgs` | ffmpeg.go:106-115 | NVENC scales only for a positive height. Constant-QP rate control at 24 with `b:v` 0K is set exactly when the QP is 0; otherwise the given QP is kept. |
| `Ffmpeg.SoftwareClipArgs` | ffmpeg.go:116-124 | libx264 and unknown codecs always scale, even to height 0. They get yuv420p, CRF 23, `video_bitrate` 0 and film tuning, with the QP kept beside the CRF. |
| `Ffmpeg.PreviewBaseOutputArgs` | ffmpeg.go:169-177 | Before the codec switch, the preview output is fragmented MP4 with Vorbis audio and the encoder, and has no QP, tags or chapter arguments. |
| `Ffmpeg.PreviewOutputArgs` | ffmpeg.go:169-197 | A preview is fragmented MP4 at height 720 with no QP and no tags. NVENC always scales here. Each branch gets its own filter and quality keys. |
| `Ffmpeg.PreviewVideoIsClipAt720` | ffmpeg.go:169-197 | The video arguments of a preview equal those of a clip of height 720, for every codec. |
| `Ffmpeg.DoFfmpeg` | ffmpeg.go:42-145 | Builds exactly the invocation of `ClipInputArgs` and `ClipOutputArgs` with the clip's tag list. It writes to `filepath.Join("/tmp", Filename)` with overwrite, returns that path whatever the run's outcome, and returns the error of `RunError`. |
| `Ffmpeg.DoFfmpegPreview` | ffmpeg.go:147-215 | Builds exactly the invocation of `PreviewInputArgs` and `PreviewOutputArgs` to "pipe:" without overwrite, and returns the error of `RunError`. |
| `Application.GetUserSessions` | application.go:44-65 | A failed listing is reported with its prefix. Otherwise the result is the user's sessions in listing order, or `ErrNoUserSession` when there are none. |
| `Application.SessionsOfCounts` | application.go:50-55 | Each session of the user is kept as often as it is listed, and no other user's session is kept. |
| `Application.SessionsOfMembers` | application.go:50-55 | A session is returned iff it is listed and belongs to the user. |
| `Application.SessionsOfAppend` | application.go:50-55 | Filtering a concatenation gives the concatenation of the filtered parts, so the order is kept. |
| `Application.SessionsOfIdempotent` | application.go:50-55 | Filtering the result again changes nothing. |
| `Application.FileName` | application.go:97-117 | The file name of a clip. It has no `ensures` of its own; its properties are stated by `Application.EpisodeCodeRoundTrip`, `Application.FileNameEndsWithTimes`, `Application.ClipFileInTmp`, `Application.TitleEscapesTmp` and `Labels.FileNameIsLabel`. |
| `Application.EpisodeCodeRoundTrip` | application.go:98-106 | For season and episode 0..99, the `S%02dE%02d` code reads back as the two numbers, and only that code reads back as them. |
| `Application.FileNameEndsWithTimes` | application.go:98-117 | Every file name ends with " (from - to).mp4". |
| `Application.ClipFileInTmp` | application.go:98-127 | When no title and no time contains '/', the clip path is "/tmp/" followed by the file name. |
| `Application.TitleEscapesTmp` | application.go:111-127 | The title goes into the path unchanged, so a film titled "a/../../etc/x" is written to "/etc/x (year) (from - to).mp4", outside /tmp. |
| `Application.ClipTags` | application.go:91-120 | Title, comment (the start time) and artist (the user) are always present. Show, season and episode are present iff the item is an episode, even when empty or zero. The year is present iff it is not. |
| `Application.ClipTagsDecimal` | application.go:108-119 | The season, episode and year tags read back as the numbers. |
| `Application.CollectTags` | application.go:91-120 | Filling the tags step by step gives exactly `ClipTags`. |
| `Application.SourceURL` | application.go:80-84 | The URL ffprobe reads: host, part key, token query and token. It has no `ensures` of its own; `Application.SourceURLInjective` states its property and `Application.Clip` states that the probe is given this URL. |
| `Application.SourceURLInjective` | application.go:80-84 | Two part keys give the same source URL iff they are equal. |
| `Application.EncodeInputArgs` | application.go:129-134 | The input side has only the seek, banner and log level, with no hardware acceleration and no end time. |
| `Application.EncodeBaseOutputArgs` | application.go:137-145 | Before the copy decision, the output trims at `to` with timestamps kept. It has Vorbis audio, no chapters, the tags and `use_metadata_tags`, and no video codec yet. |
| `Application.CopiesVideo` | application.go:150-152 | The stream is copied iff the first probed stream is h264. It has no `ensures` of its own; `Application.EncodeOutputArgs` and `Application.EncodeClip` state what the decision changes. |
| `Application.EncodeOutputArgs` | application.go:137-161 | The video is copied iff the decision says copy, and then no quality keys are set. Otherwise it is libx264 with yuv420p, CRF 23, `video_bitrate` 0 and film tuning. |
| `Application.EncodeClip` | application.go:98-177 | Names the file under /tmp, builds exactly the arguments of `EncodeInputArgs` and `EncodeOutputArgs` with the clip's tags, copies iff the first probed stream is h264, and returns the path with the run's error. |
| `Application.Clip` | application.go:67-178 | A bad rating key fails before any call. A failed fetch fails after the fetch only. A failed or undecodable probe fails after fetch and probe. Each error carries its own prefix and the path is empty. Otherwise the path and run error are returned after fetch, probe and one encoder run with the arguments above. |
| `PlexTv.Users.HasUser` | plex_tv.go:42-54 | True iff some user entry with the id lists a server with the machine identifier. An earlier entry with the same id does not stop the search. |
| `PlexTv.GrantsAppend` | plex_tv.go:42-54 | Appending an entry adds exactly that entry's grant. |
| `PlexTv.ServerlessEntriesGrantNothing` | plex_tv.go:42-54 | An empty list grants nothing, and an entry without servers changes nothing. |
| `PlexTv.GrantsByMembership` | plex_tv.go:42-54 | The answer depends only on which entries and servers occur, not on their positions. |
| `PlexTv.OrderIrrelevant` | plex_tv.go:42-54 | Reordering the users, or the servers of any user, does not change the answer. |
| `PlexTv.OnlyIdentifiersMatter` | plex_tv.go:23-54 | Only the ids and machine identifiers matter: names, e-mail, ownership and pending invitations do not. |
| `FilePath.Split` | application.go:127 | The elements of a path contain no '/'. |
| `FilePath.Clean` | application.go:127 | A cleaned rooted path stays rooted. |
| `FilePath.Join` | ffmpeg.go:66 | Joining onto a rooted directory gives a rooted path. |
| `FilePath.JoinPlainName` | ffmpeg.go:66 | A plain file name (no '/', not ".", ".." or empty) joined onto "/tmp" is "/tmp/" followed by the name. |
| `FilePath.StaysUnderTmp` | ffmpeg.go:66 | A name without a ".." element gives "/tmp" itself or a path that begins with "/tmp/". |
| `FilePath.ParentElementEscapes` | ffmpeg.go:66 | A file name "../x" is written to "/x", outside /tmp. |
| `FilePath.EscapeFromTmp` | application.go:127 | A name "a/../../etc/" followed by a plain element is written under /etc, outside /tmp. |
| `FilePath.CleanTmp` | application.go:127 | "/tmp" is already clean, so an empty name gives "/tmp". |
| `Decimal.NatToStringReads` | application.go:119 | The decimal digits of n read back as n, with no leading zero. |
| `Decimal.IntToStringRoundTrip` | application.go:108-119 | `strconv.Itoa` text reads back as the integer, and it starts with '-' iff the integer is negative. |
| `Decimal.ZeroPaddedReads` | application.go:98-106 | `%0Nd` text is at least N long and reads back as the integer, negatives included. |
| `Decimal.TwoDigitPaddingsAgree` | frontend/src/App.js:28 | JavaScript's `String(n).padStart(2, '0')` and Go's `%02d` give the same text for every integer. |
| `Decimal.PadTwoDigits` | frontend/src/App.js:15 | A number 0..99 padded to two places is exactly two digits and reads back as the number. |
| `Decimal.PadStart` | frontend/src/App.js:15 | The padded text is exactly the width long, or as long as the text when that is longer. |
| `Decimal.PadEnd` | frontend/src/App.js:17 | The padded text is exactly the width long, or as long as the text when that is longer. |
| `Decimal.PadStartShape` | frontend/src/App.js:15 | `padStart` leaves a text at least the width long unchanged. Otherwise the text ends the result and only '0's come before it. |
| `Decimal.PadEndShape` | frontend/src/App.js:17 | `padEnd` leaves a text at least the width long unchanged. Otherwise the text begins the result and only '0's come after it. |
| `Frontend.JsRem` | frontend/src/App.js:11-13 | JavaScript's remainder is strictly between -b and b. It is Dafny's for a non-negative dividend and never positive for a non-positive one. |
| `Frontend.JsRemOdd` | frontend/src/App.js:11-13 | JavaScript's remainder is odd in the dividend, unlike Dafny's. |
| `Frontend.MillisToDuration` | frontend/src/App.js:9-19 | `millisToDuration` as written, with the remainder padded at the end. It has no `ensures` of its own; its properties are stated by `Frontend.AsWrittenReadBack`, `Frontend.AsWrittenFaithfulIff`, `Frontend.ShortRemaindersCollide`, `Frontend.FractionOnlyWhenNeeded` and `Frontend.HoursNeverCut`. |
| `Frontend.MillisToDurationCorrected` | frontend/src/App.js:9-19 | `millisToDuration` with the remainder padded at the start. It has no `ensures` of its own; `Frontend.CorrectedRoundTrip` and `Frontend.FractionOnlyWhenNeeded` state its properties. |
| `Frontend.ClockFields` | frontend/src/App.js:10-12 | For a non-negative position, minutes and seconds are below 60, and hours, minutes, seconds and the remainder add back to the position. |
| `Frontend.ReadClock` | frontend/src/App.js:10-15 | The clock text followed by a fraction reads as the whole seconds of the position plus the fraction. |
| `Frontend.CorrectedRoundTrip` | frontend/src/App.js:9-19 | With the remainder padded at the start, every non-negative position reads back as itself. |
| `Frontend.AsWrittenReadBack` | frontend/src/App.js:9-19 | As written, the text reads back with the remainder's digits shifted left to fill three places. |
| `Frontend.AsWrittenFaithfulIff` | frontend/src/App.js:13-17 | As written, the text reads back as the position iff the remainder is 0 or at least 100 ms. |
| `Frontend.ShortRemaindersCollide` | frontend/src/App.js:17 | 5, 50 and 500 ms print the same text, which reads as 500 ms. |
| `Frontend.FractionOnlyWhenNeeded` | frontend/src/App.js:13-18 | A '.' appears iff the position is not a whole second, in both versions. |
| `Frontend.HoursNeverCut` | frontend/src/App.js:10 | From 100 hours on, the hour field has three or more digits: it is neither wrapped nor truncated. |
| `Frontend.DigitCount` | frontend/src/App.js:17 | A remainder below 1000 prints one digit below 10, two below 100 and three otherwise: the lengths `padEnd` acts on. |
| `Frontend.VideoName` | frontend/src/App.js:21-33 | The two-line episode label is given exactly for episodes. |
| `Frontend.EpisodeLineReadsBack` | frontend/src/App.js:28 | For season and episode 0..99, the episode line is a six-character code whose digits read as the numbers, then a space and the title. |
| `Frontend.WithMillis` | frontend/src/App.js:201-202 | The candidate keeps the whole seconds of the position and has the entry as its milliseconds. |
| `Frontend.MillisFieldShowsValue` | frontend/src/App.js:195-202 | For a non-negative position, the "+ms" field then shows the entry that was typed. |
| `Frontend.Positions.constructor` | frontend/src/App.js:76-81 | Selecting a session starts at its view offset and ends one minute later, which keeps the end more than 500 ms after the start. |
| `Frontend.Positions.Select` | frontend/src/App.js:76-81 | Selecting another session resets both positions the same way. |
| `Frontend.Positions.SetBoundedStart` | frontend/src/App.js:98-102 | The start takes the value iff it is more than 500 ms before the end, and the end does not move. The guard keeps the invariant, and any change it lets through establishes it. |
| `Frontend.Positions.SetBoundedEnd` | frontend/src/App.js:104-108 | The end takes the value iff it is more than 500 ms after the start, and the start does not move. The invariant is kept in the same way. |
| `Frontend.Positions.SetStartMillis` | frontend/src/App.js:195-203 | A number 0..999 moves the start to its whole seconds plus the entry, iff that is more than 500 ms before the end. A non-number or an out-of-range entry changes nothing. The end never moves and the invariant is kept. |
| `Frontend.Positions.SetEndMillis` | frontend/src/App.js:243-251 | The same for the end, against the start. |
| `Labels.FileNameIsLabel` | application.go:98-117 | For every record, the server's file name is the browser's label on one line followed by the clip times. |

## Left out

- The process runs (`ffmpeg.Run`, `ffprobe`) and the response pipe are I/O. Their outcome is a parameter (`RunOutcome`, `ProbeOutcome`; the captured stderr is `ExitErr`'s text) and "pipe:" stands for the stream.
- The copy of the encoder's stderr to the server's own stderr after every run (ffmpeg.go:142 and :212) is logging and is not modelled.
- DoFfmpeg's encoder stdout goes to the server's stdout (ffmpeg.go:133). That output is not modelled.
- The Plex clients (session listing, library metadata, the plex.tv user list fetch and its XML decoding) are network I/O. Their results are inputs.
- api.go, context.go, main.go and `NewApplication`: HTTP routing, configuration and wiring are not part of this model.
- `strconv.ParseFloat` of the rating key is not modelled. Only its success or error matters to `Clip`, so it is an input.
- Application.Clip: requires a probed stream list to be non-empty instead of modelling the Go panic on `Streams[0]`. The panics on an empty `Metadata`, `Media` or `Media[0].Part` list (application.go:78, :82) are not modelled either: the record comes with its first part key.
- Application.EncodeClip: requires a non-empty probe result, for the same reason.
- Application.Clip: the Plex records' fields are pointers, dereferenced without a nil check: the user title (application.go:52, :94), the rating key (:68), the part key (:82), and the type, titles, indices and year (:98-119). Go panics on a nil one, so a movie record without a year panics at :114. `Session` and `LibraryMetadata` have plain fields, so the model takes every such field as present and returns a path where Go would panic.
- The order of the metadata list is Go's unspecified map order. It is a multiset, and `ListEntries` picks keys in an unspecified order.
- React rendering, `debounce`, the time pickers (`moment`) and `fetch`: the interface is not modelled. Only the state updates of the positions are.
- `parseInt` of the "+ms" field is not modelled as a function of the typed text. Its result is an `Option` entry, where `None` stands for NaN.
- `Frontend.ReadDuration` accepts a fraction of one to three digits only. Longer fractions never occur in the texts produced here.
- Negative positions are not given a read-back: `millisToDuration` is only read back for non-negative positions, which are the only ones the sliders produce.
- `filepath.Join` is modelled for a rooted directory and one name, which are the only uses here.
- Unlike ffmpeg.go:48-58, application.go:108-110 writes show, season and episode for every episode, even when they are empty or zero (`Application.ClipTags`).

## Findings

| source | as written | input that shows it | evidently intended | confidence | as-written member | corrected member |
|---|---|---|---|---|---|---|
| frontend/src/App.js:17 | The sub-second remainder is padded at the end (`padEnd(3, '0')`, modelled by `Frontend.MillisToDuration`), so 5 ms and 50 ms both print ".500". | A position of 5 ms (likewise 50 ms) prints "00:00:00.500", which denotes 500 ms. | Padding at the start (`padStart(3, '0')`, modelled by `Frontend.MillisToDurationCorrected`), so 5 ms prints ".005" and every position reads back exactly. | high; not executed | `Frontend.ShortRemaindersCollide` | `Frontend.CorrectedRoundTrip` |
