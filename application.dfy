/** application.go: the session lookup by user and the second revision of
    the clip path, which names the output after the library item, tags it
    with the requesting user, and stream-copies the video when the source
    is already H.264. The Plex server, ffprobe and the encoder are given as
    outcomes; the calls made to them are returned as a trace. */
module Application {
  import opened Wrappers
  import opened Decimal
  import FilePath
  import opened Ffmpeg

  /** A playing session: its rating key and the title of its user. */
  datatype Session = Session(RatingKey: string, UserTitle: string)

  /** The Plex part of the configuration. */
  datatype PlexConfig = PlexConfig(Host: string, Token: string)

  /** The first library record returned for a rating key, with the key of
      the first part of its first media. */
  datatype LibraryMetadata = LibraryMetadata(
    Type: string, Title: string, GrandparentTitle: string,
    ParentIndex: int, Index: int, Year: int, PartKey: string)

  /** What ffprobe gave: the codec names of the streams in order, a failure
      to run, or output that did not decode. */
  datatype ProbeOutcome = Probed(codecNames: seq<string>) | ProbeFailed(msg: string) | Undecodable(msg: string)

  /** The outcomes of everything Clip relies on but does not compute: the
      float parse of the rating key, the metadata fetch, the probe and the
      encoder run. */
  datatype Upstream = Upstream(ratingKey: Outcome, metadata: Result<LibraryMetadata>,
                               probe: ProbeOutcome, encode: RunOutcome)

  /** A call Clip makes to the outside world. A metadata fetch records the
      rating key as text: Go passes its float parse, which is not modelled. */
  datatype Call = FetchMetadata(ratingKey: string) | RunProbe(url: string) | RunEncoder(invocation: Invocation)

  const ErrNoUserSession := "no user session"
  const SessionsErrorPrefix := "could not get sessions: "
  const ParseKeyErrorPrefix := "could not parse rating key: "
  const MetadataErrorPrefix := "could not get library metadata: "
  const ProbeErrorPrefix := "could not get ffprobe: "
  const UnmarshalErrorPrefix := "could not unmarshal ffprobe: "
  const TokenQuery := "?X-Plex-Token="

  // ---------------------------------------------------------------------
  // Sessions of a user

  /** The sessions of a user, in the order they were listed. */
  function SessionsOf(ss: seq<Session>, user: string): seq<Session>
  {
    if ss == [] then []
    else SessionsOf(ss[..|ss| - 1], user) + (if ss[|ss| - 1].UserTitle == user then [ss[|ss| - 1]] else [])
  }

  /** GetUserSessions: a failed listing is reported with a prefix; otherwise
      the sessions of the user, or ErrNoUserSession when there are none. */
  method GetUserSessions(fetched: Result<seq<Session>>, user: string) returns (r: Result<seq<Session>>)
    ensures fetched.Failure? ==> r == Failure(SessionsErrorPrefix + fetched.error)
    ensures fetched.Success? && SessionsOf(fetched.value, user) == [] ==> r == Failure(ErrNoUserSession)
    ensures fetched.Success? && SessionsOf(fetched.value, user) != [] ==> r == Success(SessionsOf(fetched.value, user))
  {
    if fetched.Failure? {
      return Failure(SessionsErrorPrefix + fetched.error);
    }
    var sessions := fetched.value;
    var userSessions: seq<Session> := [];
    for i := 0 to |sessions|
      invariant userSessions == SessionsOf(sessions[..i], user)
    {
      assert sessions[..i + 1][..i] == sessions[..i];
      if sessions[i].UserTitle == user {
        userSessions := userSessions + [sessions[i]];
      }
    }
    assert sessions[..|sessions|] == sessions;
    if |userSessions| == 0 {
      return Failure(ErrNoUserSession);
    }
    return Success(userSessions);
  }

  /** Each session of the user is kept as often as it is listed, and no
      session of another user is kept. */
  lemma {:induction false} SessionsOfCounts(ss: seq<Session>, user: string, s: Session)
    ensures multiset(SessionsOf(ss, user))[s] == if s.UserTitle == user then multiset(ss)[s] else 0
  {
    if ss != [] {
      SessionsOfCounts(ss[..|ss| - 1], user, s);
      assert ss == ss[..|ss| - 1] + [ss[|ss| - 1]];
    }
  }

  /** A session is returned exactly when it is listed and belongs to the user. */
  lemma SessionsOfMembers(ss: seq<Session>, user: string, s: Session)
    ensures s in SessionsOf(ss, user) <==> s in ss && s.UserTitle == user
  {
    SessionsOfCounts(ss, user, s);
    assert s in SessionsOf(ss, user) <==> multiset(SessionsOf(ss, user))[s] > 0;
    assert s in ss <==> multiset(ss)[s] > 0;
  }

  /** Filtering two listings one after the other is filtering their
      concatenation: the relative order of the sessions is kept. */
  lemma {:induction false} SessionsOfAppend(a: seq<Session>, b: seq<Session>, user: string)
    ensures SessionsOf(a + b, user) == SessionsOf(a, user) + SessionsOf(b, user)
    decreases |b|
  {
    if b == [] {
      assert a + b == a;
    } else {
      var b' := b[..|b| - 1];
      assert (a + b)[..|a + b| - 1] == a + b';
      SessionsOfAppend(a, b', user);
    }
  }

  /** Filtering the result again changes nothing. */
  lemma {:induction false} SessionsOfIdempotent(ss: seq<Session>, user: string)
    ensures SessionsOf(SessionsOf(ss, user), user) == SessionsOf(ss, user)
  {
    if ss != [] {
      var init, last := ss[..|ss| - 1], ss[|ss| - 1];
      SessionsOfIdempotent(init, user);
      var tail := if last.UserTitle == user then [last] else [];
      SessionsOfAppend(SessionsOf(init, user), tail, user);
      if last.UserTitle == user {
        assert [last][..0] == [];
      }
    }
  }

  // ---------------------------------------------------------------------
  // Output name

  /** "S" and "E" with the season and episode numbers, as fmt's %02d pads them. */
  function EpisodeCode(season: int, episode: int): string
  {
    "S" + ZeroPadded(season, 2) + "E" + ZeroPadded(episode, 2)
  }

  /** Reads a six-character "Sss" "Eee" code back into its two numbers. */
  function ParseEpisodeCode(c: string): Option<(int, int)>
  {
    if |c| == 6 && c[0] == 'S' && c[3] == 'E' && AllDigits(c[1..3]) && AllDigits(c[4..]) then
      Some((NumeralValue(c[1..3]), NumeralValue(c[4..])))
    else None
  }

  lemma TwoDigitsDetermined(a: string, b: string)
    requires |a| == 2 && |b| == 2 && AllDigits(a) && AllDigits(b)
    requires NumeralValue(a) == NumeralValue(b)
    ensures a == b
  {
    TwoDigitValue(a);
    TwoDigitValue(b);
  }

  lemma TwoDigitValue(a: string)
    requires |a| == 2 && AllDigits(a)
    ensures NumeralValue(a) == 10 * DigitValue(a[0]) + DigitValue(a[1])
  {
    var first := a[..1];
    assert first[..0] == [] && first[0] == a[0];
    assert NumeralValue(first) == DigitValue(a[0]);
    assert NumeralValue(a) == 10 * NumeralValue(first) + DigitValue(a[1]);
  }

  /** For seasons and episodes 0..99 the code is six characters and reads
      back as the two numbers; every code that reads back is the code of the
      numbers it reads as. */
  lemma EpisodeCodeRoundTrip(season: int, episode: int, c: string)
    requires 0 <= season < 100 && 0 <= episode < 100
    ensures ParseEpisodeCode(EpisodeCode(season, episode)) == Some((season, episode))
    ensures ParseEpisodeCode(c) == Some((season, episode)) ==> c == EpisodeCode(season, episode)
  {
    TwoDigitCode(season);
    TwoDigitCode(episode);
    CodeFields(ZeroPadded(season, 2), ZeroPadded(episode, 2), c);
  }

  /** A number below 100 takes exactly two digits in the code. */
  lemma TwoDigitCode(n: int)
    requires 0 <= n < 100
    ensures |ZeroPadded(n, 2)| == 2 && AllDigits(ZeroPadded(n, 2)) && NumeralValue(ZeroPadded(n, 2)) == n
  {
    TwoDigitPaddingsAgree(n);
    PadTwoDigits(n);
  }

  /** How a code built from two two-digit fields parses, and that a code
      is determined by the values it parses as. */
  lemma CodeFields(s: string, e: string, c: string)
    requires |s| == 2 && AllDigits(s) && |e| == 2 && AllDigits(e)
    ensures ParseEpisodeCode("S" + s + "E" + e) == Some((NumeralValue(s), NumeralValue(e)))
    ensures ParseEpisodeCode(c) == Some((NumeralValue(s), NumeralValue(e))) ==> c == "S" + s + "E" + e
  {
    var code := "S" + s + "E" + e;
    assert code[1..3] == s && code[4..] == e;
    if ParseEpisodeCode(c) == Some((NumeralValue(s), NumeralValue(e))) {
      TwoDigitsDetermined(c[1..3], s);
      TwoDigitsDetermined(c[4..], e);
      assert c == [c[0]] + c[1..3] + [c[3]] + c[4..];
    }
  }

  /** The output file name: for an episode, show, season and episode code,
      title and the clip times; for anything else, title, year and the clip
      times. */
  function FileName(md: LibraryMetadata, from: string, to: string): string
  {
    if md.Type == "episode" then
      md.GrandparentTitle + " " + EpisodeCode(md.ParentIndex, md.Index) + " " + md.Title + TimesSuffix(from, to)
    else
      md.Title + " (" + IntToString(md.Year) + ")" + TimesSuffix(from, to)
  }

  lemma NoSlashInNumber(n: int, width: nat)
    ensures '/' !in IntToString(n) && '/' !in ZeroPadded(n, width)
  {
    var a, b := IntToString(n), ZeroPadded(n, width);
    IntToStringRoundTrip(n);
    assert IsNumeral(a) || IsNumeral(a[1..]);
    assert IsNumeral(b) || IsNumeral(b[1..]);
  }

  /** The clip times and extension that close every name. */
  function TimesSuffix(from: string, to: string): string
  {
    " (" + from + " - " + to + ").mp4"
  }

  /** Every name is a title part followed by the clip times and ".mp4". */
  lemma FileNameEndsWithTimes(md: LibraryMetadata, from: string, to: string)
    ensures var name, suffix := FileName(md, from, to), TimesSuffix(from, to);
      |suffix| <= |name| && name[|name| - |suffix|..] == suffix
  {
    var stem := if md.Type == "episode"
      then md.GrandparentTitle + " " + EpisodeCode(md.ParentIndex, md.Index) + " " + md.Title
      else md.Title + " (" + IntToString(md.Year) + ")";
    assert FileName(md, from, to) == stem + TimesSuffix(from, to);
  }

  /** When neither the titles nor the clip times hold a '/', the clip is
      written directly into /tmp under its name. */
  lemma ClipFileInTmp(md: LibraryMetadata, from: string, to: string)
    requires '/' !in md.GrandparentTitle && '/' !in md.Title && '/' !in from && '/' !in to
    ensures FilePath.Join("/tmp", FileName(md, from, to)) == "/tmp/" + FileName(md, from, to)
  {
    var suffix := TimesSuffix(from, to);
    assert '/' !in suffix;
    var stem := if md.Type == "episode"
      then md.GrandparentTitle + " " + EpisodeCode(md.ParentIndex, md.Index) + " " + md.Title
      else md.Title + " (" + IntToString(md.Year) + ")";
    NoSlashInNumber(md.ParentIndex, 2);
    NoSlashInNumber(md.Index, 2);
    NoSlashInNumber(md.Year, 2);
    assert '/' !in stem;
    var name := FileName(md, from, to);
    assert name == stem + suffix;
    assert |name| >= 5;
    FilePath.JoinPlainName(name);
  }

  /** A title is put into the name as it is, '/' and ".." included, so the
      clip of a film titled "a/../../etc/x" is written to /etc, outside /tmp. */
  lemma TitleEscapesTmp(md: LibraryMetadata, from: string, to: string)
    requires md.Type != "episode" && md.Title == "a/../../etc/x"
    requires '/' !in from && '/' !in to
    ensures FilePath.Join("/tmp", FileName(md, from, to))
         == "/etc/x (" + IntToString(md.Year) + ")" + TimesSuffix(from, to)
  {
    var tail := " (" + IntToString(md.Year) + ")" + TimesSuffix(from, to);
    var rest := "x" + tail;
    NoSlashInNumber(md.Year, 2);
    assert '/' !in rest;
    assert FileName(md, from, to) == md.Title + tail;
    assert "a/../../etc/x" + tail == "a/../../etc/" + rest;
    FilePath.EscapeFromTmp(rest);
    assert "/etc/" + rest == "/etc/x (" + IntToString(md.Year) + ")" + TimesSuffix(from, to);
  }

  // ---------------------------------------------------------------------
  // Tags and arguments

  /** The tag map of a clip: title, comment (the start time) and artist (the
      user) always; show, season and episode for an episode, even when
      empty or zero; the year, and nothing else, for anything else. */
  function ClipTags(md: LibraryMetadata, from: string, user: string): (m: map<Tag, string>)
    ensures Title in m && m[Title] == md.Title
    ensures Comment in m && m[Comment] == from
    ensures Artist in m && m[Artist] == user
    ensures Show in m <==> md.Type == "episode"
    ensures SeasonNumber in m <==> md.Type == "episode"
    ensures EpisodeId in m <==> md.Type == "episode"
    ensures Year in m <==> md.Type != "episode"
    ensures Show in m ==> m[Show] == md.GrandparentTitle
  {
    var base := map[Title := md.Title, Comment := from, Artist := user];
    if md.Type == "episode" then
      base[Show := md.GrandparentTitle][SeasonNumber := IntToString(md.ParentIndex)][EpisodeId := IntToString(md.Index)]
    else
      base[Year := IntToString(md.Year)]
  }

  /** The numeric tags are the numbers in decimal. */
  lemma ClipTagsDecimal(md: LibraryMetadata, from: string, user: string)
    ensures var m := ClipTags(md, from, user);
      && (SeasonNumber in m ==> ParseInt(m[SeasonNumber]) == Some(md.ParentIndex))
      && (EpisodeId in m ==> ParseInt(m[EpisodeId]) == Some(md.Index))
      && (Year in m ==> ParseInt(m[Year]) == Some(md.Year))
  {
    IntToStringRoundTrip(md.ParentIndex);
    IntToStringRoundTrip(md.Index);
    IntToStringRoundTrip(md.Year);
  }

  /** The source URL: server host, part key, then the token as query. */
  function SourceURL(cfg: PlexConfig, partKey: string): string
  {
    cfg.Host + partKey + TokenQuery + cfg.Token
  }

  /** Different part keys give different source URLs, so the probe is always
      pointed at the part it was asked for. */
  lemma SourceURLInjective(cfg: PlexConfig, a: string, b: string)
    ensures SourceURL(cfg, a) == SourceURL(cfg, b) <==> a == b
  {
    if SourceURL(cfg, a) == SourceURL(cfg, b) {
      var n := |cfg.Host|;
      assert |a| == |b|;
      assert SourceURL(cfg, a)[n..n + |a|] == a;
      assert SourceURL(cfg, b)[n..n + |b|] == b;
    }
  }

  /** Input arguments: seek to the start, quiet logging; no hardware
      acceleration and no end time on the input side. */
  function EncodeInputArgs(from: string): (m: KwArgs)
    ensures m.Keys == {Ss, HideBanner, Loglevel}
    ensures m[Ss] == Str(from) && m[HideBanner] == Str("") && m[Loglevel] == Str("error")
  {
    map[Ss := Str(from), HideBanner := Str(""), Loglevel := Str("error")]
  }

  /** The stream-copy decision: only a first stream already in H.264 is copied. */
  predicate CopiesVideo(codecNames: seq<string>)
    requires |codecNames| > 0
  {
    codecNames[0] == "h264"
  }

  /** Output arguments: trim at the end time with timestamps kept, Vorbis
      audio, chapters dropped, tags written, and either a video stream copy
      or a libx264 encode with its quality arguments. */
  function EncodeOutputArgs(to: string, metadata: multiset<string>, copy: bool): (m: KwArgs)
    ensures To in m && m[To] == Str(to)
    ensures Copyts in m && m[Copyts] == Str("")
    ensures Acodec in m && m[Acodec] == Str("libvorbis")
    ensures MapChapters in m && m[MapChapters] == Int(-1)
    ensures MapMetadata in m && m[MapMetadata] == Int(0)
    ensures Movflags in m && m[Movflags] == Str("use_metadata_tags")
    ensures Metadata in m && m[Metadata] == Strs(metadata)
    ensures Vcodec in m && (m[Vcodec] == Str("copy") <==> copy)
    ensures copy ==> PixFmt !in m && Crf !in m && VideoBitrate !in m && Tune !in m
    ensures !copy ==> m[Vcodec] == Str("libx264") && X264Quality(m)
    ensures Vf !in m && Qp !in m && Ss !in m && Hwaccel !in m
  {
    var base := EncodeBaseOutputArgs(to, metadata);
    if copy then base[Vcodec := Str("copy")]
    else base[Vcodec := Str("libx264")][PixFmt := Str("yuv420p")][Crf := Int(23)][VideoBitrate := Int(0)][Tune := Str("film")]
  }

  /** The output arguments set before the stream-copy decision. */
  function EncodeBaseOutputArgs(to: string, metadata: multiset<string>): (m: KwArgs)
    ensures To in m && m[To] == Str(to)
    ensures Copyts in m && m[Copyts] == Str("")
    ensures Acodec in m && m[Acodec] == Str("libvorbis")
    ensures MapChapters in m && m[MapChapters] == Int(-1)
    ensures MapMetadata in m && m[MapMetadata] == Int(0)
    ensures Movflags in m && m[Movflags] == Str("use_metadata_tags")
    ensures Metadata in m && m[Metadata] == Strs(metadata)
    ensures Vcodec !in m && PixFmt !in m && Crf !in m && VideoBitrate !in m && Tune !in m
    ensures Vf !in m && Qp !in m && Ss !in m && Hwaccel !in m
  {
    map[To := Str(to), Acodec := Str("libvorbis"), Copyts := Str(""),
        MapChapters := Int(-1), MapMetadata := Int(0),
        Movflags := Str("use_metadata_tags"), Metadata := Strs(metadata)]
  }

  /** The tag map filled key by key, as Clip does it. */
  method CollectTags(metadata: LibraryMetadata, from: string, user: string) returns (outputMetadata: map<Tag, string>)
    ensures outputMetadata == ClipTags(metadata, from, user)
  {
    outputMetadata := map[Title := metadata.Title, Comment := from, Artist := user];
    if metadata.Type == "episode" {
      outputMetadata := outputMetadata[Show := metadata.GrandparentTitle];
      outputMetadata := outputMetadata[SeasonNumber := IntToString(metadata.ParentIndex)];
      outputMetadata := outputMetadata[EpisodeId := IntToString(metadata.Index)];
    } else {
      outputMetadata := outputMetadata[Year := IntToString(metadata.Year)];
    }
  }

  // ---------------------------------------------------------------------
  // Clip

  /** Clip: parse the rating key, fetch the library record, probe the
      source, then build the name, tags and arguments and run the encoder.
      Each failure before the encoder run returns at once with an empty path
      and the wrapped error, and no later call is made; after the run the
      path is returned whatever its outcome. */
  method Clip(cfg: PlexConfig, session: Session, from: string, to: string, env: Upstream)
    returns (path: string, err: Option<string>, calls: seq<Call>)
    requires env.probe.Probed? ==> |env.probe.codecNames| > 0
    ensures env.ratingKey.Fail? ==>
      path == "" && err == Some(ParseKeyErrorPrefix + env.ratingKey.error) && calls == []
    ensures env.ratingKey.Pass? && env.metadata.Failure? ==>
      path == "" && err == Some(MetadataErrorPrefix + env.metadata.error)
      && calls == [FetchMetadata(session.RatingKey)]
    ensures env.ratingKey.Pass? && env.metadata.Success? && env.probe.ProbeFailed? ==>
      path == "" && err == Some(ProbeErrorPrefix + env.probe.msg)
      && calls == [FetchMetadata(session.RatingKey), RunProbe(SourceURL(cfg, env.metadata.value.PartKey))]
    ensures env.ratingKey.Pass? && env.metadata.Success? && env.probe.Undecodable? ==>
      path == "" && err == Some(UnmarshalErrorPrefix + env.probe.msg)
      && calls == [FetchMetadata(session.RatingKey), RunProbe(SourceURL(cfg, env.metadata.value.PartKey))]
    ensures env.ratingKey.Pass? && env.metadata.Success? && env.probe.Probed? ==>
      var md := env.metadata.value;
      var url := SourceURL(cfg, md.PartKey);
      && path == FilePath.Join("/tmp", FileName(md, from, to))
      && err == RunError(env.encode)
      && calls == [FetchMetadata(session.RatingKey), RunProbe(url),
                   RunEncoder(Invocation(url, EncodeInputArgs(from), path,
                     EncodeOutputArgs(to, multiset(Entries(ClipTags(md, from, session.UserTitle))),
                                      CopiesVideo(env.probe.codecNames)), true))]
  {
    calls := [];
    if env.ratingKey.Fail? {
      return "", Some(ParseKeyErrorPrefix + env.ratingKey.error), calls;
    }
    calls := [FetchMetadata(session.RatingKey)];
    if env.metadata.Failure? {
      return "", Some(MetadataErrorPrefix + env.metadata.error), calls;
    }
    var metadata := env.metadata.value;
    var fileURL := cfg.Host + metadata.PartKey + TokenQuery + cfg.Token;

    calls := [FetchMetadata(session.RatingKey), RunProbe(fileURL)];
    var probed: seq<string>;
    match env.probe {
      case ProbeFailed(msg) =>
        return "", Some(ProbeErrorPrefix + msg), calls;
      case Undecodable(msg) =>
        return "", Some(UnmarshalErrorPrefix + msg), calls;
      case Probed(codecNames) =>
        probed := codecNames;
    }

    var call;
    path, err, call := EncodeClip(fileURL, metadata, session.UserTitle, from, to, probed, env.encode);
    calls := [FetchMetadata(session.RatingKey), RunProbe(fileURL), RunEncoder(call)];
  }

  /** The second half of Clip, once the source has been probed: name the
      file under /tmp, collect the tags, build both argument maps, and run
      the encoder. The path is returned whatever the run's outcome. */
  method EncodeClip(fileURL: string, metadata: LibraryMetadata, user: string, from: string, to: string,
                    probed: seq<string>, encode: RunOutcome)
    returns (path: string, err: Option<string>, call: Invocation)
    requires |probed| > 0
    ensures path == FilePath.Join("/tmp", FileName(metadata, from, to))
    ensures err == RunError(encode)
    ensures call == Invocation(fileURL, EncodeInputArgs(from), path,
      EncodeOutputArgs(to, multiset(Entries(ClipTags(metadata, from, user))), CopiesVideo(probed)), true)
  {
    var fileName := FileName(metadata, from, to);
    var outputMetadata := CollectTags(metadata, from, user);
    var metadataArr := ListEntries(outputMetadata);

    path := FilePath.Join("/tmp", fileName);

    var inputArgs := map[Ss := Str(from), HideBanner := Str(""), Loglevel := Str("error")];

    var outputArgs := map[To := Str(to), Acodec := Str("libvorbis"), Copyts := Str(""),
                          MapChapters := Int(-1), MapMetadata := Int(0),
                          Movflags := Str("use_metadata_tags"), Metadata := Strs(multiset(metadataArr))];

    if probed[0] == "h264" {
      outputArgs := outputArgs[Vcodec := Str("copy")];
    } else {
      outputArgs := outputArgs[Vcodec := Str("libx264")];
      outputArgs := outputArgs[PixFmt := Str("yuv420p")];
      outputArgs := outputArgs[Crf := Int(23)];
      outputArgs := outputArgs[VideoBitrate := Int(0)];
      outputArgs := outputArgs[Tune := Str("film")];
    }

    assert inputArgs == EncodeInputArgs(from);
    assert outputArgs == EncodeOutputArgs(to, multiset(metadataArr), CopiesVideo(probed));
    call := Invocation(fileURL, inputArgs, path, outputArgs, true);
    err := RunError(encode);
  }
}
