/** ffmpeg.go: the keyword arguments handed to the encoder for a clip
    (DoFfmpeg) and for a live preview (DoFfmpegPreview). The process run
    itself is a given outcome; what is modelled is the invocation built for
    it and the error returned from its outcome. */
module Ffmpeg {
  import opened Wrappers
  import opened Decimal
  import FilePath

  /** A keyword-argument value. The metadata list is kept as a multiset: it
      is produced by ranging over a Go map, whose order is unspecified. */
  datatype ArgVal = Str(s: string) | Int(n: int) | Strs(items: multiset<string>)

  /** The ffmpeg options this program sets; Name is the option's spelling. */
  datatype Opt =
    | Ss | To | Hwaccel | HideBanner | Loglevel | HwaccelDevice | HwaccelOutputFormat | ExtraHwFrames
    | Acodec | MapChapters | MapMetadata | Movflags | Metadata | Qp | Vcodec | Vf | CompressionLevel
    | Rc | BitrateV | PixFmt | Crf | VideoBitrate | Tune | Format | Copyts
  {
    function Name(): string
    {
      match this
      case Ss => "ss"
      case To => "to"
      case Hwaccel => "hwaccel"
      case HideBanner => "hide_banner"
      case Loglevel => "loglevel"
      case HwaccelDevice => "hwaccel_device"
      case HwaccelOutputFormat => "hwaccel_output_format"
      case ExtraHwFrames => "extra_hw_frames"
      case Acodec => "acodec"
      case MapChapters => "map_chapters"
      case MapMetadata => "map_metadata"
      case Movflags => "movflags"
      case Metadata => "metadata"
      case Qp => "qp"
      case Vcodec => "vcodec"
      case Vf => "vf"
      case CompressionLevel => "compression_level"
      case Rc => "rc"
      case BitrateV => "b:v"
      case PixFmt => "pix_fmt"
      case Crf => "crf"
      case VideoBitrate => "video_bitrate"
      case Tune => "tune"
      case Format => "f"
      case Copyts => "copyts"
    }
  }

  /** ffmpeg.KwArgs: option to value. */
  type KwArgs = map<Opt, ArgVal>

  /** The container metadata keys this program writes. */
  datatype Tag = Title | Comment | Artist | Show | SeasonNumber | EpisodeId | Year
  {
    function Name(): (s: string)
      ensures '=' !in s
    {
      match this
      case Title => "title"
      case Comment => "comment"
      case Artist => "artist"
      case Show => "show"
      case SeasonNumber => "season_number"
      case EpisodeId => "episode_id"
      case Year => "year"
    }
  }

  /** The encoder name; any string may be configured, three are recognised. */
  type Codec = string

  const CodecH264Vaapi: Codec := "h264_vaapi"
  const CodecH264Nvenc: Codec := "h264_nvenc"
  const CodecLibx264: Codec := "libx264"

  /** The three branches of the codec switch: VA-API, NVENC, and the default
      branch shared by libx264 and every unrecognised codec. */
  datatype Backend = Vaapi | Nvenc | Software

  function BackendOf(codec: Codec): Backend
  {
    if codec == CodecH264Vaapi then Vaapi
    else if codec == CodecH264Nvenc then Nvenc
    else Software
  }

  datatype FfmpegParamsMetadata = FfmpegParamsMetadata(
    Title: string, Show: string, SeasonNumber: int, EpisodeID: int, Year: int)

  datatype FfmpegParams = FfmpegParams(
    URL: string, From: string, To: string, Filename: string,
    Height: int, QP: int, Codec: Codec, Metadata: FfmpegParamsMetadata)

  /** How the encoder process ended: normally, with a non-zero exit status
      (its captured standard error attached), or with an error that is not
      an exit status, such as a binary that could not be started. */
  datatype RunOutcome = Ok | ExitErr(stderr: string) | OtherErr(msg: string)

  /** One encoder invocation: input URL and its arguments, output target and
      its arguments, and whether an existing output file is overwritten. */
  datatype Invocation = Invocation(
    input: string, inputArgs: KwArgs, output: string, outputArgs: KwArgs, overwrite: bool)

  const ExitErrorPrefix := "ffmpeg exited with error:\n"
  const PreviewHeight := 720
  const PreviewHeightText := "720"

  /** The preview height printed in decimal, computed once here so that the
      proofs about preview arguments need not unfold the printing. */
  lemma PreviewHeightInDecimal()
    ensures IntToString(PreviewHeight) == PreviewHeightText
  {
  }

  /** The error returned for a run outcome: an exit failure is reported with
      the captured standard error verbatim after a fixed prefix; any other
      error is passed through unchanged. */
  function RunError(run: RunOutcome): (err: Option<string>)
    ensures err.None? <==> run.Ok?
    ensures run.ExitErr? ==>
      err.Some? && ExitErrorPrefix <= err.value && err.value[|ExitErrorPrefix|..] == run.stderr
    ensures run.OtherErr? ==> err == Some(run.msg)
  {
    match run
    case Ok => None
    case ExitErr(stderr) => Some(ExitErrorPrefix + stderr)
    case OtherErr(msg) => Some(msg)
  }

  // ---------------------------------------------------------------------
  // Metadata tags

  /** One "-metadata" value: key, '=', value. */
  function Entry(t: Tag, v: string): string { t.Name() + "=" + v }

  function EntriesOf(m: map<Tag, string>, tags: set<Tag>): set<string>
  {
    set t | t in tags && t in m :: Entry(t, m[t])
  }

  /** The "key=value" strings of a tag map. */
  function Entries(m: map<Tag, string>): set<string> { EntriesOf(m, m.Keys) }

  /** Position of the first '=' in s, or |s| when there is none. */
  function EqualsAt(s: string): (i: nat)
    ensures i <= |s|
  {
    if s == [] || s[0] == '=' then 0 else 1 + EqualsAt(s[1..])
  }

  lemma {:induction false} EqualsAfterKey(k: string, v: string)
    requires '=' !in k
    ensures EqualsAt(k + "=" + v) == |k|
  {
    if k != [] {
      assert (k + "=" + v)[1..] == k[1..] + "=" + v;
      EqualsAfterKey(k[1..], v);
    }
  }

  /** No key name holds '=', so each "key=value" string names its key. */
  lemma EntryInjective(t1: Tag, v1: string, t2: Tag, v2: string)
    requires Entry(t1, v1) == Entry(t2, v2)
    ensures t1 == t2 && v1 == v2
  {
    var e, k1, k2 := Entry(t1, v1), t1.Name(), t2.Name();
    EqualsAfterKey(k1, v1);
    EqualsAfterKey(k2, v2);
    assert k1 == e[..|k1|] == k2;
    assert v1 == e[|k1| + 1..] == v2;
    NameInjective(t1, t2);
  }

  lemma NameInjective(t1: Tag, t2: Tag)
    requires t1.Name() == t2.Name()
    ensures t1 == t2
  {
  }

  /** The loop that turns a tag map into the metadata argument list. It
      ranges over the map, so the order of the list is not fixed, but the
      list holds each entry of the map exactly once and nothing else. */
  method ListEntries(m: map<Tag, string>) returns (arr: seq<string>)
    ensures |arr| == |m|
    ensures multiset(arr) == multiset(Entries(m))
  {
    arr := [];
    var rest := m.Keys;
    while rest != {}
      invariant rest <= m.Keys
      invariant |arr| + |rest| == |m.Keys|
      invariant multiset(arr) == multiset(EntriesOf(m, m.Keys - rest))
      decreases |rest|
    {
      var t :| t in rest;
      var done := m.Keys - rest;
      assert Entry(t, m[t]) !in EntriesOf(m, done) by {
        if Entry(t, m[t]) in EntriesOf(m, done) {
          var t' :| t' in done && t' in m && Entry(t', m[t']) == Entry(t, m[t]);
          EntryInjective(t', m[t'], t, m[t]);
        }
      }
      assert EntriesOf(m, m.Keys - (rest - {t})) == EntriesOf(m, done) + {Entry(t, m[t])};
      arr := arr + [Entry(t, m[t])];
      rest := rest - {t};
    }
    assert m.Keys - rest == m.Keys;
  }

  /** The tag map of a clip: title and comment (the start time) always, even
      when empty; show only when non-empty; season, episode and year only
      when non-zero, as decimal text. */
  function ClipMetadata(md: FfmpegParamsMetadata, from: string): (m: map<Tag, string>)
    ensures Title in m && m[Title] == md.Title
    ensures Comment in m && m[Comment] == from
    ensures (Show in m <==> md.Show != "") && (Show in m ==> m[Show] == md.Show)
    ensures SeasonNumber in m <==> md.SeasonNumber != 0
    ensures EpisodeId in m <==> md.EpisodeID != 0
    ensures Year in m <==> md.Year != 0
    ensures Artist !in m
  {
    var m0 := map[Title := md.Title, Comment := from];
    var m1 := if md.Show != "" then m0[Show := md.Show] else m0;
    var m2 := if md.SeasonNumber != 0 then m1[SeasonNumber := IntToString(md.SeasonNumber)] else m1;
    var m3 := if md.EpisodeID != 0 then m2[EpisodeId := IntToString(md.EpisodeID)] else m2;
    if md.Year != 0 then m3[Year := IntToString(md.Year)] else m3
  }

  /** Season, episode and year tags are the numbers in decimal: reading the
      tag text back gives the number. */
  lemma ClipMetadataDecimal(md: FfmpegParamsMetadata, from: string)
    ensures var m := ClipMetadata(md, from);
      && (SeasonNumber in m ==> ParseInt(m[SeasonNumber]) == Some(md.SeasonNumber))
      && (EpisodeId in m ==> ParseInt(m[EpisodeId]) == Some(md.EpisodeID))
      && (Year in m ==> ParseInt(m[Year]) == Some(md.Year))
  {
    IntToStringRoundTrip(md.SeasonNumber);
    IntToStringRoundTrip(md.EpisodeID);
    IntToStringRoundTrip(md.Year);
  }

  // ---------------------------------------------------------------------
  // Input arguments

  /** The seek, trim and logging arguments every invocation carries. */
  predicate HasSeekAndLogging(m: KwArgs, from: string, to: string)
  {
    && Ss in m && m[Ss] == Str(from)
    && To in m && m[To] == Str(to)
    && HideBanner in m && m[HideBanner] == Str("")
    && Loglevel in m && m[Loglevel] == Str("error")
  }

  /** The hardware-acceleration setting for a codec: VA-API, CUDA, or ffmpeg's
      own choice for libx264 and any codec it does not recognise. */
  predicate AccelFor(m: KwArgs, codec: Codec)
  {
    && Hwaccel in m
    && m[Hwaccel] == Str(if BackendOf(codec) == Vaapi then "vaapi"
                           else if BackendOf(codec) == Nvenc then "cuda"
                           else "auto")
    && (HwaccelDevice in m <==> BackendOf(codec) == Vaapi)
    && (HwaccelOutputFormat in m <==> BackendOf(codec) != Software)
    && (BackendOf(codec) == Vaapi ==>
          m[HwaccelDevice] == Str("/dev/dri/renderD128")
          && m[HwaccelOutputFormat] == Str("vaapi"))
    && (BackendOf(codec) == Nvenc ==> m[HwaccelOutputFormat] == Str("cuda"))
  }

  /** Input arguments of a clip. */
  function ClipInputArgs(p: FfmpegParams): (m: KwArgs)
    ensures HasSeekAndLogging(m, p.From, p.To)
    ensures AccelFor(m, p.Codec)
    ensures ExtraHwFrames in m <==> BackendOf(p.Codec) == Nvenc
    ensures BackendOf(p.Codec) == Nvenc ==> m[ExtraHwFrames] == Int(8)
    ensures |m.Keys| == if BackendOf(p.Codec) != Software then 7 else 5
  {
    var base := map[Ss := Str(p.From), To := Str(p.To), Hwaccel := Str("auto"),
                     HideBanner := Str(""), Loglevel := Str("error")];
    if BackendOf(p.Codec) == Vaapi then
      base[Hwaccel := Str("vaapi")][HwaccelDevice := Str("/dev/dri/renderD128")][HwaccelOutputFormat := Str("vaapi")]
    else if BackendOf(p.Codec) == Nvenc then
      base[Hwaccel := Str("cuda")][ExtraHwFrames := Int(8)][HwaccelOutputFormat := Str("cuda")]
    else base
  }

  /** Input arguments of a preview: as for a clip, without extra_hw_frames. */
  function PreviewInputArgs(from: string, to: string, codec: Codec): (m: KwArgs)
    ensures HasSeekAndLogging(m, from, to)
    ensures AccelFor(m, codec)
    ensures ExtraHwFrames !in m
    ensures |m.Keys| == if BackendOf(codec) == Vaapi then 7 else if BackendOf(codec) == Nvenc then 6 else 5
  {
    var base := map[Ss := Str(from), To := Str(to), Hwaccel := Str("auto"),
                     HideBanner := Str(""), Loglevel := Str("error")];
    if BackendOf(codec) == Vaapi then
      base[Hwaccel := Str("vaapi")][HwaccelDevice := Str("/dev/dri/renderD128")][HwaccelOutputFormat := Str("vaapi")]
    else if BackendOf(codec) == Nvenc then
      base[Hwaccel := Str("cuda")][HwaccelOutputFormat := Str("cuda")]
    else base
  }

  // ---------------------------------------------------------------------
  // Output arguments

  const VaapiFilterPrefix := "hwupload,scale_vaapi=format=nv12,scale_vaapi=-2:"

  /** The video filter and quality arguments of the software path (libx264
      and every unrecognised codec): scale to the height, even when it is 0. */
  predicate SoftwareVideo(m: KwArgs, height: int)
  {
    SoftwareVideoAt(m, IntToString(height))
  }

  predicate SoftwareVideoAt(m: KwArgs, height: string)
  {
    Vf in m && m[Vf] == Str("scale=-2:" + height) && X264Quality(m)
  }

  /** The libx264 quality arguments, set by every software encode. */
  predicate X264Quality(m: KwArgs)
  {
    && PixFmt in m && m[PixFmt] == Str("yuv420p")
    && Crf in m && m[Crf] == Int(23)
    && VideoBitrate in m && m[VideoBitrate] == Int(0)
    && Tune in m && m[Tune] == Str("film")
  }

  /** The software-only quality keys are absent. */
  predicate NoSoftwareQuality(m: KwArgs)
  {
    PixFmt !in m && Crf !in m && VideoBitrate !in m && Tune !in m
  }

  /** Output arguments of a clip, given its metadata list. The video codec
      is the configured encoder: this path never stream-copies. */
  function ClipOutputArgs(p: FfmpegParams, metadata: multiset<string>): (m: KwArgs)
    ensures Acodec in m && m[Acodec] == Str("libvorbis")
    ensures MapChapters in m && m[MapChapters] == Int(-1)
    ensures MapMetadata in m && m[MapMetadata] == Int(0)
    ensures Movflags in m && m[Movflags] == Str("+use_metadata_tags+faststart")
    ensures Metadata in m && m[Metadata] == Strs(metadata)
    ensures Vcodec in m && m[Vcodec] == Str(p.Codec)
    ensures Qp in m
    ensures Format !in m
  {
    var base := ClipBaseOutputArgs(p.QP, p.Codec, Strs(metadata));
    if BackendOf(p.Codec) == Vaapi then
      base[Vf := Str(VaapiFilterPrefix + IntToString(p.Height))][CompressionLevel := Str("0")]
    else if BackendOf(p.Codec) == Nvenc then
      var scaled := if p.Height > 0 then base[Vf := Str("scale_cuda=-2:" + IntToString(p.Height))] else base;
      if p.QP == 0 then scaled[Rc := Str("constqp")][Qp := Int(24)][BitrateV := Str("0K")] else scaled
    else
      base[Vf := Str("scale=-2:" + IntToString(p.Height))][PixFmt := Str("yuv420p")][Crf := Int(23)][VideoBitrate := Int(0)][Tune := Str("film")]
  }

  /** The metadata argument of a clip: the entries of its tag map. */
  function ClipMetadataArg(p: FfmpegParams): multiset<string>
  {
    multiset(Entries(ClipMetadata(p.Metadata, p.From)))
  }

  /** The clip output arguments set before the codec switch. */
  function ClipBaseOutputArgs(qp: int, codec: Codec, metadata: ArgVal): (m: KwArgs)
    ensures Acodec in m && m[Acodec] == Str("libvorbis")
    ensures MapChapters in m && m[MapChapters] == Int(-1)
    ensures MapMetadata in m && m[MapMetadata] == Int(0)
    ensures Movflags in m && m[Movflags] == Str("+use_metadata_tags+faststart")
    ensures Metadata in m && m[Metadata] == metadata
    ensures Vcodec in m && m[Vcodec] == Str(codec)
    ensures Qp in m && m[Qp] == Int(qp)
    ensures Format !in m && Vf !in m && Rc !in m && CompressionLevel !in m && BitrateV !in m && PixFmt !in m && Crf !in m && VideoBitrate !in m && Tune !in m
  {
    map[Acodec := Str("libvorbis"), MapChapters := Int(-1), MapMetadata := Int(0),
        Movflags := Str("+use_metadata_tags+faststart"), Metadata := metadata,
        Qp := Int(qp)][Vcodec := Str(codec)]
  }

  /** VA-API clip output: a filter chain that always starts with hwupload
      (also at height 0), compression level 0, and QP passed through. */
  lemma VaapiClipArgs(p: FfmpegParams, metadata: multiset<string>)
    requires BackendOf(p.Codec) == Vaapi
    ensures var m := ClipOutputArgs(p, metadata);
      && Vf in m && m[Vf] == Str(VaapiFilterPrefix + IntToString(p.Height))
      && "hwupload" <= m[Vf].s
      && CompressionLevel in m && m[CompressionLevel] == Str("0")
      && Qp in m && m[Qp] == Int(p.QP) && Rc !in m && NoSoftwareQuality(m)
  {
  }

  /** NVENC clip output: scaling only for a positive height, and constant-QP
      rate control at QP 24 with "b:v" 0K exactly when no QP was given. */
  lemma NvencClipArgs(p: FfmpegParams, metadata: multiset<string>)
    requires BackendOf(p.Codec) == Nvenc
    ensures var m := ClipOutputArgs(p, metadata);
      && (Vf in m <==> p.Height > 0)
      && (p.Height > 0 ==> m[Vf] == Str("scale_cuda=-2:" + IntToString(p.Height)))
      && (Rc in m <==> p.QP == 0) && (BitrateV in m <==> p.QP == 0)
      && (p.QP == 0 ==> Rc in m && m[Rc] == Str("constqp") && Qp in m && m[Qp] == Int(24) && BitrateV in m && m[BitrateV] == Str("0K"))
      && (p.QP != 0 ==> Qp in m && m[Qp] == Int(p.QP))
      && CompressionLevel !in m && NoSoftwareQuality(m)
  {
  }

  /** Clip output for libx264 and any unrecognised codec: scale to the
      height even when it is 0, yuv420p, CRF 23, video_bitrate 0, film
      tuning, and QP passed through alongside CRF. */
  lemma SoftwareClipArgs(p: FfmpegParams, metadata: multiset<string>)
    requires BackendOf(p.Codec) == Software
    ensures var m := ClipOutputArgs(p, metadata);
      && SoftwareVideo(m, p.Height) && Qp in m && m[Qp] == Int(p.QP)
      && Rc !in m && CompressionLevel !in m
  {
  }

  /** Output arguments of a preview: fragmented MP4 at height 720, no QP and
      no metadata; NVENC always scales. */
  function PreviewOutputArgs(codec: Codec): (m: KwArgs)
    ensures Acodec in m && m[Acodec] == Str("libvorbis")
    ensures Format in m && m[Format] == Str("mp4")
    ensures Movflags in m && m[Movflags] == Str("frag_keyframe+empty_moov")
    ensures Vcodec in m && m[Vcodec] == Str(codec)
    ensures Qp !in m && Metadata !in m && Rc !in m && MapChapters !in m
    ensures Vf in m
    ensures BackendOf(codec) == Vaapi ==>
      m[Vf] == Str(VaapiFilterPrefix + PreviewHeightText) && CompressionLevel in m && m[CompressionLevel] == Str("0") && NoSoftwareQuality(m)
    ensures BackendOf(codec) == Nvenc ==>
      m[Vf] == Str("scale_cuda=-2:" + PreviewHeightText) && CompressionLevel !in m && NoSoftwareQuality(m)
    ensures BackendOf(codec) == Software ==>
      SoftwareVideoAt(m, PreviewHeightText) && CompressionLevel !in m
  {
    var base := PreviewBaseOutputArgs(codec);
    if BackendOf(codec) == Vaapi then
      base[Vf := Str(VaapiFilterPrefix + PreviewHeightText)][CompressionLevel := Str("0")]
    else if BackendOf(codec) == Nvenc then
      base[Vf := Str("scale_cuda=-2:" + PreviewHeightText)]
    else
      base[Vf := Str("scale=-2:" + PreviewHeightText)][PixFmt := Str("yuv420p")][Crf := Int(23)][VideoBitrate := Int(0)][Tune := Str("film")]
  }

  /** The preview output arguments set before the codec switch. */
  function PreviewBaseOutputArgs(codec: Codec): (m: KwArgs)
    ensures Acodec in m && m[Acodec] == Str("libvorbis")
    ensures Format in m && m[Format] == Str("mp4")
    ensures Movflags in m && m[Movflags] == Str("frag_keyframe+empty_moov")
    ensures Vcodec in m && m[Vcodec] == Str(codec)
    ensures Qp !in m && Metadata !in m && Rc !in m && MapChapters !in m && Vf !in m && CompressionLevel !in m
    ensures PixFmt !in m && Crf !in m && VideoBitrate !in m && Tune !in m
  {
    map[Acodec := Str("libvorbis"), Format := Str("mp4"),
        Movflags := Str("frag_keyframe+empty_moov")][Vcodec := Str(codec)]
  }

  // ---------------------------------------------------------------------
  // The two entry points

  /** The tag map as DoFfmpeg fills it in, one optional tag at a time. */
  method CollectMetadata(md: FfmpegParamsMetadata, from: string) returns (tags: map<Tag, string>)
    ensures tags == ClipMetadata(md, from)
  {
    tags := map[Title := md.Title, Comment := from];
    if md.Show != "" {
      tags := tags[Show := md.Show];
    }
    if md.SeasonNumber != 0 {
      tags := tags[SeasonNumber := IntToString(md.SeasonNumber)];
    }
    if md.EpisodeID != 0 {
      tags := tags[EpisodeId := IntToString(md.EpisodeID)];
    }
    if md.Year != 0 {
      tags := tags[Year := IntToString(md.Year)];
    }
  }

  /** DoFfmpeg: builds the tag map, the metadata list and both argument maps
      step by step, runs the encoder into /tmp with overwrite, and returns
      the output path whether or not the run failed. */
  method DoFfmpeg(params: FfmpegParams, run: RunOutcome)
    returns (tmpFile: string, err: Option<string>, call: Invocation)
    ensures tmpFile == FilePath.Join("/tmp", params.Filename)
    ensures call == Invocation(params.URL, ClipInputArgs(params), tmpFile, ClipOutputArgs(params, ClipMetadataArg(params)), true)
    ensures err == RunError(run)
  {
    var outputMetadata := CollectMetadata(params.Metadata, params.From);

    var metadataArr := ListEntries(outputMetadata);

    tmpFile := FilePath.Join("/tmp", params.Filename);

    var inputArgs := map[Ss := Str(params.From), To := Str(params.To), Hwaccel := Str("auto"),
                         HideBanner := Str(""), Loglevel := Str("error")];
    if params.Codec == CodecH264Vaapi {
      inputArgs := inputArgs[Hwaccel := Str("vaapi")];
      inputArgs := inputArgs[HwaccelDevice := Str("/dev/dri/renderD128")];
      inputArgs := inputArgs[HwaccelOutputFormat := Str("vaapi")];
    } else if params.Codec == CodecH264Nvenc {
      inputArgs := inputArgs[Hwaccel := Str("cuda")];
      inputArgs := inputArgs[ExtraHwFrames := Int(8)];
    }

    var outputArgs := map[Acodec := Str("libvorbis"), MapChapters := Int(-1), MapMetadata := Int(0),
                          Movflags := Str("+use_metadata_tags+faststart"),
                          Metadata := Strs(multiset(metadataArr)), Qp := Int(params.QP)];
    outputArgs := outputArgs[Vcodec := Str(params.Codec)];
    assert outputArgs == ClipBaseOutputArgs(params.QP, params.Codec, Strs(ClipMetadataArg(params)));

    if params.Codec == CodecH264Vaapi {
      outputArgs := outputArgs[Vf := Str(VaapiFilterPrefix + IntToString(params.Height))];
      outputArgs := outputArgs[CompressionLevel := Str("0")];
    } else if params.Codec == CodecH264Nvenc {
      inputArgs := inputArgs[HwaccelOutputFormat := Str("cuda")];
      if params.Height > 0 {
        outputArgs := outputArgs[Vf := Str("scale_cuda=-2:" + IntToString(params.Height))];
      }
      if params.QP == 0 {
        outputArgs := outputArgs[Rc := Str("constqp")];
        outputArgs := outputArgs[Qp := Int(24)];
        outputArgs := outputArgs[BitrateV := Str("0K")];
      }
    } else {
      outputArgs := outputArgs[Vf := Str("scale=-2:" + IntToString(params.Height))];
      outputArgs := outputArgs[PixFmt := Str("yuv420p")];
      outputArgs := outputArgs[Crf := Int(23)];
      outputArgs := outputArgs[VideoBitrate := Int(0)];
      outputArgs := outputArgs[Tune := Str("film")];
    }

    call := Invocation(params.URL, inputArgs, tmpFile, outputArgs, true);
    err := RunError(run);
  }

  /** DoFfmpegPreview: the same derivation at a fixed height of 720 with
      fragmented-MP4 output written to a pipe (the response stream), which
      is not modelled beyond its name. */
  method DoFfmpegPreview(fileURL: string, from: string, to: string, codec: Codec, run: RunOutcome)
    returns (err: Option<string>, call: Invocation)
    ensures call == Invocation(fileURL, PreviewInputArgs(from, to, codec), "pipe:", PreviewOutputArgs(codec), false)
    ensures err == RunError(run)
  {
    var inputArgs := map[Ss := Str(from), To := Str(to), Hwaccel := Str("auto"),
                         HideBanner := Str(""), Loglevel := Str("error")];
    if codec == CodecH264Vaapi {
      inputArgs := inputArgs[Hwaccel := Str("vaapi")];
      inputArgs := inputArgs[HwaccelDevice := Str("/dev/dri/renderD128")];
      inputArgs := inputArgs[HwaccelOutputFormat := Str("vaapi")];
    } else if codec == CodecH264Nvenc {
      inputArgs := inputArgs[Hwaccel := Str("cuda")];
    }

    var outputArgs := map[Acodec := Str("libvorbis"), Format := Str("mp4"),
                          Movflags := Str("frag_keyframe+empty_moov")];
    outputArgs := outputArgs[Vcodec := Str(codec)];

    var height := PreviewHeight;
    PreviewHeightInDecimal();

    if codec == CodecH264Vaapi {
      outputArgs := outputArgs[Vf := Str(VaapiFilterPrefix + IntToString(height))];
      outputArgs := outputArgs[CompressionLevel := Str("0")];
    } else if codec == CodecH264Nvenc {
      inputArgs := inputArgs[HwaccelOutputFormat := Str("cuda")];
      outputArgs := outputArgs[Vf := Str("scale_cuda=-2:" + IntToString(height))];
    } else {
      outputArgs := outputArgs[Vf := Str("scale=-2:" + IntToString(height))];
      outputArgs := outputArgs[PixFmt := Str("yuv420p")];
      outputArgs := outputArgs[Crf := Int(23)];
      outputArgs := outputArgs[VideoBitrate := Int(0)];
      outputArgs := outputArgs[Tune := Str("film")];
    }

    call := Invocation(fileURL, inputArgs, "pipe:", outputArgs, false);
    err := RunError(run);
  }

  // ---------------------------------------------------------------------
  // Clip and preview compared

  /** A preview's input arguments are the clip's without extra_hw_frames. */
  lemma PreviewInputIsClipInput(p: FfmpegParams)
    ensures PreviewInputArgs(p.From, p.To, p.Codec) == ClipInputArgs(p) - {ExtraHwFrames}
  {
  }

  /** A preview scales and tunes video exactly as a clip of height 720
      would: leaving out the container flags on both sides, and the
      chapter, metadata and QP arguments on the clip's, the two agree. */
  lemma PreviewVideoIsClipAt720(p: FfmpegParams, metadata: multiset<string>)
    requires p.Height == PreviewHeight
    ensures PreviewOutputArgs(p.Codec) - {Format, Movflags}
         == ClipOutputArgs(p, metadata) - {Movflags, MapChapters, MapMetadata, Metadata, Qp, Rc, BitrateV}
  {
    match BackendOf(p.Codec)
    case Vaapi => VaapiPreviewMatchesClip(p, metadata);
    case Nvenc => NvencPreviewMatchesClip(p, metadata);
    case Software => SoftwarePreviewMatchesClip(p, metadata);
  }

  lemma VaapiPreviewMatchesClip(p: FfmpegParams, metadata: multiset<string>)
    requires p.Height == PreviewHeight && BackendOf(p.Codec) == Vaapi
    ensures PreviewOutputArgs(p.Codec) - {Format, Movflags}
         == ClipOutputArgs(p, metadata) - {Movflags, MapChapters, MapMetadata, Metadata, Qp, Rc, BitrateV}
  {
    PreviewHeightInDecimal();
    var pm := PreviewOutputArgs(p.Codec) - {Format, Movflags};
    var cm := ClipOutputArgs(p, metadata) - {Movflags, MapChapters, MapMetadata, Metadata, Qp, Rc, BitrateV};
    assert pm.Keys == cm.Keys == {Acodec, Vcodec, Vf, CompressionLevel};
  }

  lemma NvencPreviewMatchesClip(p: FfmpegParams, metadata: multiset<string>)
    requires p.Height == PreviewHeight && BackendOf(p.Codec) == Nvenc
    ensures PreviewOutputArgs(p.Codec) - {Format, Movflags}
         == ClipOutputArgs(p, metadata) - {Movflags, MapChapters, MapMetadata, Metadata, Qp, Rc, BitrateV}
  {
    PreviewHeightInDecimal();
    var pm := PreviewOutputArgs(p.Codec) - {Format, Movflags};
    var cm := ClipOutputArgs(p, metadata) - {Movflags, MapChapters, MapMetadata, Metadata, Qp, Rc, BitrateV};
    assert pm.Keys == cm.Keys == {Acodec, Vcodec, Vf};
  }

  lemma SoftwarePreviewMatchesClip(p: FfmpegParams, metadata: multiset<string>)
    requires p.Height == PreviewHeight && BackendOf(p.Codec) == Software
    ensures PreviewOutputArgs(p.Codec) - {Format, Movflags}
         == ClipOutputArgs(p, metadata) - {Movflags, MapChapters, MapMetadata, Metadata, Qp, Rc, BitrateV}
  {
    PreviewHeightInDecimal();
    var pm := PreviewOutputArgs(p.Codec) - {Format, Movflags};
    var cm := ClipOutputArgs(p, metadata) - {Movflags, MapChapters, MapMetadata, Metadata, Qp, Rc, BitrateV};
    assert pm.Keys == cm.Keys == {Acodec, Vcodec, Vf, PixFmt, Crf, VideoBitrate, Tune};
  }
}
