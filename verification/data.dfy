/**
  The path and pattern logic of the results downloader (flyhostel/data/__init__.py):
  pattern filtering, session padding, the pattern-list generators and the
  source/destination pairs handed to the Dropbox sync. Listing the remote folder,
  the regular-expression engine and the transfers themselves are inputs or left out.
 */
module Data {
  import opened Wrappers
  import opened Strings
  import opened Decimal
  import opened Paths

  /** Outcome of `re.match(pattern, file)`; `Raised` stands for an invalid pattern. */
  datatype MatchOutcome = Matched | NotMatched | Raised

  /** `file.replace(folder, "")`; replacing the empty string by the empty string changes nothing. */
  function RemoveAll(s: string, part: string): string {
    if part == [] then s else ReplaceAll(s, part, [])
  }

  /** Some pattern matches the file. */
  predicate Selected(file: string, patterns: seq<string>, m: (string, string) -> MatchOutcome) {
    exists i :: 0 <= i < |patterns| && m(patterns[i], file) == Matched
  }

  /** Reference definition: the selected files, in input order, with `folder` removed. */
  function KeptFiles(folder: string, files: seq<string>, patterns: seq<string>,
                     m: (string, string) -> MatchOutcome): seq<string>
  {
    if files == [] then []
    else
      var last := files[|files| - 1];
      KeptFiles(folder, files[..|files| - 1], patterns, m)
        + (if Selected(last, patterns, m) then [RemoveAll(last, folder)] else [])
  }

  /**
    `match_files_to_patterns`: for each file, try the patterns in order; the first
    match keeps the file (with `folder` removed) and stops the search; a pattern
    whose match raises is skipped.
   */
  method MatchFilesToPatterns(folder: string, files: seq<string>, patterns: seq<string>,
                              m: (string, string) -> MatchOutcome)
    returns (keep: seq<string>)
    ensures keep == KeptFiles(folder, files, patterns, m)
    ensures |keep| <= |files|
  {
    keep := [];
    var i := 0;
    while i < |files|
      invariant 0 <= i <= |files|
      invariant keep == KeptFiles(folder, files[..i], patterns, m)
      invariant |keep| <= i
    {
      var file := files[i];
      assert files[..i + 1][..i] == files[..i];
      var j := 0;
      while j < |patterns|
        invariant 0 <= j <= |patterns|
        invariant forall k :: 0 <= k < j ==> m(patterns[k], file) != Matched
        invariant keep == KeptFiles(folder, files[..i], patterns, m)
      {
        if m(patterns[j], file) == Matched {
          keep := keep + [RemoveAll(file, folder)];
          break;
        }
        j := j + 1;
      }
      i := i + 1;
    }
    assert files[..i] == files;
  }

  /** Files contribute independently and in order: filtering a concatenation concatenates. */
  lemma {:induction false} KeptFilesConcat(folder: string, a: seq<string>, b: seq<string>,
                                           patterns: seq<string>, m: (string, string) -> MatchOutcome)
    ensures KeptFiles(folder, a + b, patterns, m)
         == KeptFiles(folder, a, patterns, m) + KeptFiles(folder, b, patterns, m)
    decreases |b|
  {
    if b == [] {
      assert a + b == a;
    } else {
      var b' := b[..|b| - 1];
      assert (a + b)[..|a + b| - 1] == a + b';
      KeptFilesConcat(folder, a, b', patterns, m);
    }
  }

  /** At most one entry per file. */
  lemma {:induction false} KeptFilesLength(folder: string, files: seq<string>, patterns: seq<string>,
                                           m: (string, string) -> MatchOutcome)
    ensures |KeptFiles(folder, files, patterns, m)| <= |files|
    decreases |files|
  {
    if files != [] {
      KeptFilesLength(folder, files[..|files| - 1], patterns, m);
    }
  }

  /** The matcher with every raising pattern read as a non-match. */
  function RaiseAsNoMatch(m: (string, string) -> MatchOutcome): (string, string) -> MatchOutcome {
    (p: string, f: string) => if m(p, f) == Raised then NotMatched else m(p, f)
  }

  /** A pattern whose match raises behaves exactly like a pattern that does not match. */
  lemma {:induction false} RaisedIsNoMatch(folder: string, files: seq<string>, patterns: seq<string>,
                                           m: (string, string) -> MatchOutcome)
    ensures KeptFiles(folder, files, patterns, m) == KeptFiles(folder, files, patterns, RaiseAsNoMatch(m))
    decreases |files|
  {
    if files != [] {
      var last := files[|files| - 1];
      var m' := RaiseAsNoMatch(m);
      assert Selected(last, patterns, m) <==> Selected(last, patterns, m') by {
        forall k | 0 <= k < |patterns|
          ensures m(patterns[k], last) == Matched <==> m'(patterns[k], last) == Matched
        {
        }
      }
      RaisedIsNoMatch(folder, files[..|files| - 1], patterns, m);
    }
  }

  /** A file that is `folder` followed by a remainder free of `folder` is kept as that remainder. */
  lemma RemoveLeadingFolder(folder: string, rest: string)
    requires !Contains(rest, folder)
    ensures RemoveAll(folder + rest, folder) == rest
  {
    if folder != [] {
      assert (folder + rest)[|folder|..] == rest;
      ReplaceAbsent(rest, folder, []);
    }
  }

  /** The two keys of `PATTERNS`. */
  datatype FileType = Analysis | ImgstoreMeta

  datatype DataError =
    | NotAbsolute           // `rootdir` or `folder` does not start with `/`
    | DotSegmentRemains     // `/./` still occurs after replacing it once
    | UnknownFileType       // the key is not in `PATTERNS`
    | MisspeltJoin          // version 2 calls `os.path.jon`
    | UnboundAnalysisFolder // a version other than 1 or 2
    | WrongSessionCount     // `--sessions` did not give exactly two numbers

  /** `PATTERNS[file_type]`. */
  function FileTypeOf(name: string): (r: Result<FileType, DataError>)
    ensures r.Success? <==> name == "analysis" || name == "imgstore_meta"
    ensures r.Failure? ==> r.error == UnknownFileType
  {
    if name == "analysis" then Success(Analysis)
    else if name == "imgstore_meta" then Success(ImgstoreMeta)
    else Failure(UnknownFileType)
  }

  /**
    `generate_analysis_patterns`: the seven idtracker.ai output paths of one session,
    each under `folder` and naming `session_` followed by the session.
   */
  function AnalysisPatterns(folder: string, session: string): (r: seq<string>)
    ensures |r| == 7
    ensures forall i :: 0 <= i < |r| ==> IsPrefix(folder, r[i]) && Contains(r[i], "session_" + session)
  {
    var s := "session_" + session;
    SessionPath(folder, session, "_error.txt");
    SessionPath(folder, session, "/video_object.npy");
    SessionPath(folder, session, "/preprocessing/blobs_collection_no_gaps.npy");
    SessionPath(folder, session, "/preprocessing/blobs_collection.npy");
    SessionPath(folder, session, "/preprocessing/fragments.npy");
    SessionPath(folder, session, "/trajectories/trajectories.npy");
    SessionPath(folder, session, "/trajectories/trajectories_wo_gaps.npy");
    [ PathJoin(folder, s + "_error.txt"),
      PathJoin(folder, s + "/video_object.npy"),
      PathJoin(folder, s + "/preprocessing/blobs_collection_no_gaps.npy"),
      PathJoin(folder, s + "/preprocessing/blobs_collection.npy"),
      PathJoin(folder, s + "/preprocessing/fragments.npy"),
      PathJoin(folder, s + "/trajectories/trajectories.npy"),
      PathJoin(folder, s + "/trajectories/trajectories_wo_gaps.npy") ]
  }

  /** A path named after a session lies under the folder and names `session_` and the session. */
  lemma SessionPath(folder: string, session: string, tail: string)
    ensures var p := PathJoin(folder, "session_" + session + tail);
      IsPrefix(folder, p) && Contains(p, "session_" + session)
  {
    var name := "session_" + session + tail;
    assert name[0] == 's';
    JoinRelative(folder, name);
    JoinContains(folder, "session_" + session, tail);
  }

  /**
    `generate_imgstore_meta_patterns`: the store metadata and the three files of one
    chunk. The metadata lies under `folder`; for a relative session string so do the
    chunk files, each of which names the session.
   */
  function ImgstoreMetaPatterns(folder: string, session: string): (r: seq<string>)
    ensures |r| == 4
    ensures IsPrefix(folder, r[0])
    ensures session != [] && session[0] != '/' ==>
      forall i :: 1 <= i < |r| ==> IsPrefix(folder, r[i]) && Contains(r[i], session)
  {
    var r := [ PathJoin(folder, "metadata.yaml"),
               PathJoin(folder, session + ".extra.json"),
               PathJoin(folder, session + ".npz"),
               PathJoin(folder, session + ".png") ];
    JoinRelative(folder, "metadata.yaml");
    if session != [] && session[0] != '/' then
      JoinRelative(folder, session + ".extra.json");
      JoinRelative(folder, session + ".npz");
      JoinRelative(folder, session + ".png");
      JoinContains(folder, session, ".extra.json");
      JoinContains(folder, session, ".npz");
      JoinContains(folder, session, ".png");
      r
    else r
  }

  function Patterns(t: FileType, folder: string, session: string): (r: seq<string>)
    ensures |r| == PatternCount(t)
    ensures session != [] && session[0] != '/' ==> forall i :: 0 <= i < |r| ==> IsPrefix(folder, r[i])
  {
    match t
    case Analysis => AnalysisPatterns(folder, session)
    case ImgstoreMeta => ImgstoreMetaPatterns(folder, session)
  }

  /** How many paths a generator produces. */
  function PatternCount(t: FileType): nat {
    match t
    case Analysis => 7
    case ImgstoreMeta => 4
  }

  /** `str(session).zfill(6)`. */
  function SessionPadded(session: int): string {
    ZFill(Str(session), 6)
  }

  /** A relative `b` joined onto `folder` keeps `folder` in front and `b` at the end. */
  lemma JoinRelative(folder: string, b: string)
    requires b != [] && b[0] != '/'
    ensures IsPrefix(folder, PathJoin(folder, b))
    ensures var p := PathJoin(folder, b); |b| <= |p| && p[|p| - |b|..] == b
  {
  }

  /**
    `list_files_one_session`: the generator's paths for one session number, padded
    to six digits. Each path lies under `folder` and ends in that session's file name.
   */
  function ListFilesOneSession(fileType: string, folder: string, session: int)
    : (r: Result<seq<string>, DataError>)
    ensures r.Success? <==> FileTypeOf(fileType).Success?
    ensures r.Success? ==> |r.value| == PatternCount(FileTypeOf(fileType).value)
    ensures r.Success? ==> forall i :: 0 <= i < |r.value| ==> IsPrefix(folder, r.value[i])
    ensures r.Success? && fileType == "analysis" ==>
      forall i :: 0 <= i < |r.value| ==> Contains(r.value[i], "session_" + SessionPadded(session))
    ensures r.Success? && fileType == "imgstore_meta" ==>
      forall i :: 1 <= i < |r.value| ==> Contains(r.value[i], SessionPadded(session))
  {
    var t :- FileTypeOf(fileType);
    var padded := SessionPadded(session);
    PaddedIsRelative(session);
    Success(Patterns(t, folder, padded))
  }

  lemma PaddedIsRelative(session: int)
    ensures SessionPadded(session) != [] && SessionPadded(session)[0] != '/'
  {
    var s := Str(session);
    assert IsDigit(s[0]) || s[0] == '-';
  }

  /** `PathJoin(folder, sub + tail)` contains `sub` when the name is relative. */
  lemma JoinContains(folder: string, sub: string, tail: string)
    requires sub != [] && sub[0] != '/'
    ensures Contains(PathJoin(folder, sub + tail), sub)
  {
    var b := sub + tail;
    var p := PathJoin(folder, b);
    JoinRelative(folder, b);
    var k := |p| - |b|;
    assert p[k..] == b;
    assert IsPrefix(sub, p[k..]);
    PrefixContains(p[k..], sub);
    ContainsSuffix(p, k, sub);
  }

  /** The session paths of every listed session, concatenated in session order; all lie under `folder`. */
  function SessionFiles(t: FileType, folder: string, sessions: seq<int>): (r: seq<string>)
    ensures |r| == |sessions| * PatternCount(t)
    ensures forall i :: 0 <= i < |r| ==> IsPrefix(folder, r[i])
  {
    if sessions == [] then []
    else
      PaddedIsRelative(sessions[0]);
      Patterns(t, folder, SessionPadded(sessions[0])) + SessionFiles(t, folder, sessions[1..])
  }

  /** One session contributes exactly its generator's paths. */
  lemma SessionFilesSingle(t: FileType, folder: string, session: int)
    ensures SessionFiles(t, folder, [session]) == Patterns(t, folder, SessionPadded(session))
  {
    assert [session][1..] == [];
  }

  /** Listing two runs of sessions lists the first run's paths, then the second's. */
  lemma {:induction false} SessionFilesConcat(t: FileType, folder: string, a: seq<int>, b: seq<int>)
    ensures SessionFiles(t, folder, a + b) == SessionFiles(t, folder, a) + SessionFiles(t, folder, b)
    decreases |a|
  {
    if a == [] {
      assert a + b == b;
    } else {
      assert (a + b)[0] == a[0];
      assert (a + b)[1..] == a[1..] + b;
      SessionFilesConcat(t, folder, a[1..], b);
    }
  }

  /** `folder.replace("/./", "/")`, the folder as shown and as listed remotely; unchanged without a `/./`. */
  function FolderDisplay(folder: string): (r: string)
    ensures |r| <= |folder|
    ensures !Contains(folder, "/./") ==> r == folder
  {
    ReplaceLength(folder, "/./", "/");
    if !Contains(folder, "/./") then ReplaceAbsent(folder, "/./", "/"); ReplaceAll(folder, "/./", "/")
    else ReplaceAll(folder, "/./", "/")
  }

  /** The piece of `folder` after its first `/./` and before any second one; empty without one. */
  function Subfolder(folder: string): (r: string)
    ensures !Contains(folder, "/./") ==> r == ""
  {
    var parts := Split(folder, "/./");
    if !Contains(folder, "/./") then SplitAbsent(folder, "/./"); ""
    else if |parts| == 1 then "" else parts[1]
  }

  /** With exactly one `/./`, the folder is shown with it shortened to `/` and the sub-folder is what follows. */
  lemma FolderWithOneDotSegment(folder: string, a: string, b: string)
    requires Split(folder, "/./") == [a, b]
    ensures FolderDisplay(folder) == a + "/" + b && Subfolder(folder) == b
  {
    ReplaceIsJoinSplit(folder, "/./", "/");
    SplitSingleIffAbsent(folder, "/./");
    assert Join([a, b], "/") == a + "/" + Join([b], "/");
  }

  /** Whatever follows, the sub-folder is the piece between the first and the second `/./`. */
  lemma SubfolderIsSecondPiece(folder: string, a: string, b: string, rest: seq<string>)
    requires Split(folder, "/./") == [a, b] + rest
    ensures Subfolder(folder) == b
  {
    SplitSingleIffAbsent(folder, "/./");
  }

  /**
    With two `/./`, the shown folder keeps all three pieces but the sub-folder is
    only the middle one, so every destination is built from `rootdir` and `b` and
    the last piece `c` is dropped.
   */
  lemma TwoDotSegmentsDropTail(folder: string, a: string, b: string, c: string, rootdir: string, keep: seq<string>)
    requires Split(folder, "/./") == [a, b, c]
    ensures FolderDisplay(folder) == a + "/" + b + "/" + c
    ensures Subfolder(folder) == b
    ensures forall i :: 0 <= i < |keep| ==>
      SyncArgs(FolderDisplay(folder), rootdir, Subfolder(folder), keep)[i].1
        == PathJoin(PathJoin(rootdir, b), LStrip(keep[i], '/'))
  {
    ReplaceIsJoinSplit(folder, "/./", "/");
    assert Join([a, b, c], "/") == a + "/" + Join([b, c], "/");
    assert Join([b, c], "/") == b + "/" + Join([c], "/");
    SubfolderIsSecondPiece(folder, a, b, [c]);
  }

  /** One source/destination pair of `sync_args`. */
  function SyncPair(display: string, rootdir: string, subfolder: string, file: string): (string, string) {
    ("Dropbox:" + display + "/" + file, PathJoin(PathJoin(rootdir, subfolder), LStrip(file, '/')))
  }

  /** `sync`: both paths go through `sanitize_path` before the transfer. */
  method Sync(src: string, dst: string) returns (s: string, d: string)
    ensures s == Collapse(src) && d == Collapse(dst)
    ensures !Contains(s, "//") && !Contains(d, "//")
    ensures NonSlash(s) == NonSlash(src) && NonSlash(d) == NonSlash(dst)
  {
    s := SanitizePath(src);
    d := SanitizePath(dst);
  }

  /** What `download_results` ends with: nothing to do, or the pairs handed to `sync`. */
  datatype Download = NothingToSync | Synced(args: seq<(string, string)>)

  /** `sync_args`: one pair per kept file, in order. */
  function SyncArgs(display: string, rootdir: string, subfolder: string, keep: seq<string>)
    : (r: seq<(string, string)>)
    ensures |r| == |keep|
    ensures forall i :: 0 <= i < |r| ==> r[i].0 == "Dropbox:" + display + "/" + keep[i]
    ensures forall i :: 0 <= i < |r| ==> r[i].1 == PathJoin(PathJoin(rootdir, subfolder), LStrip(keep[i], '/'))
  {
    seq(|keep|, i requires 0 <= i < |keep| => SyncPair(display, rootdir, subfolder, keep[i]))
  }

  /**
    The `analysis_folder` of `download_results`: the shown folder for version 1;
    version 2 calls the misspelt `os.path.jon`, and any other version leaves the
    name unbound.
   */
  function AnalysisFolder(display: string, version: int): (r: Result<string, DataError>)
    ensures r.Success? <==> version == 1
    ensures r.Success? ==> r.value == display
    ensures r.Failure? ==> r.error == (if version == 2 then MisspeltJoin else UnboundAnalysisFolder)
  {
    if version == 1 then Success(display)
    else if version == 2 then Failure(MisspeltJoin)
    else Failure(UnboundAnalysisFolder)
  }

  /** The files `download_results` filters: the remote listing, or the paths built for the given sessions. */
  function Candidates(t: FileType, display: string, sessions: Option<seq<int>>, listing: seq<string>): seq<string> {
    match sessions
    case None => listing
    case Some(ss) => SessionFiles(t, display, ss)
  }

  /**
    `download_results` up to the transfers. `listing` is the recursive remote
    listing of the shown folder, used when no sessions are given; `m` is the
    regular-expression match; patterns use the six-digit session regex. Version 2
    fails in the `os.path.jon` call, before `PATTERNS[file_type]` is looked up; any
    other version but 1 fails on the unbound `analysis_folder` only after that
    lookup has succeeded.
   */
  function DownloadResults(fileType: string, rootdir: string, folder: string, version: int,
                           sessions: Option<seq<int>>, listing: seq<string>,
                           m: (string, string) -> MatchOutcome)
    : (r: Result<Download, DataError>)
    ensures !IsPrefix("/", rootdir) || !IsPrefix("/", folder) ==> r == Failure(NotAbsolute)
    ensures r.Success? ==>
      && IsPrefix("/", rootdir) && IsPrefix("/", folder) && version == 1
      && !Contains(FolderDisplay(folder), "/./") && FileTypeOf(fileType).Success?
    ensures IsPrefix("/", rootdir) && IsPrefix("/", folder) && !Contains(FolderDisplay(folder), "/./") ==>
      && (version == 2 ==> r == Failure(MisspeltJoin))
      && (version != 2 && FileTypeOf(fileType).Failure? ==> r == Failure(UnknownFileType))
      && (version != 1 && version != 2 && FileTypeOf(fileType).Success? ==> r == Failure(UnboundAnalysisFolder))
    ensures IsPrefix("/", rootdir) && IsPrefix("/", folder) && Contains(FolderDisplay(folder), "/./") ==>
      r == Failure(DotSegmentRemains)
    ensures && IsPrefix("/", rootdir) && IsPrefix("/", folder) && !Contains(FolderDisplay(folder), "/./")
            && version == 1 && FileTypeOf(fileType).Success?
            ==> r.Success?
    ensures r.Success? ==>
      var display := FolderDisplay(folder);
      var t := FileTypeOf(fileType).value;
      var keep := KeptFiles(display, Candidates(t, display, sessions, listing), Patterns(t, display, "[0-9]{6}"), m);
      && (r.value.NothingToSync? <==> keep == [])
      && (r.value.Synced? ==> r.value.args == SyncArgs(display, rootdir, Subfolder(folder), keep))
    ensures r.Success? && r.value.Synced? ==>
      && 0 < |r.value.args|
      && (sessions.None? ==> |r.value.args| <= |listing|)
      && (forall i :: 0 <= i < |r.value.args| ==> IsPrefix("Dropbox:" + FolderDisplay(folder) + "/", r.value.args[i].0))
      && (Subfolder(folder) == [] || Subfolder(folder)[0] != '/' ==>
            forall i :: 0 <= i < |r.value.args| ==> IsPrefix(rootdir, r.value.args[i].1))
  {
    if !IsPrefix("/", rootdir) || !IsPrefix("/", folder) then Failure(NotAbsolute)
    else
      var display := FolderDisplay(folder);
      var subfolder := Subfolder(folder);
      if Contains(display, "/./") then Failure(DotSegmentRemains)
      else if version == 2 then Failure(MisspeltJoin)
      else
        var t :- FileTypeOf(fileType);
        var analysis :- AnalysisFolder(display, version);
        var patterns := Patterns(t, analysis, "[0-9]{6}");
        var files := Candidates(t, display, sessions, listing);
        var keep := KeptFiles(display, files, patterns, m);
        KeptFilesLength(display, files, patterns, m);
        if keep == [] then Success(NothingToSync)
        else
          var args := SyncArgs(display, rootdir, subfolder, keep);
          SourcesUnderFolder(display, rootdir, subfolder, keep);
          if subfolder == [] || subfolder[0] != '/' then
            DestinationsUnderRoot(display, rootdir, subfolder, keep);
            Success(Synced(args))
          else Success(Synced(args))
  }

  /** A relative sub-folder and a relative (possibly empty) name joined under `rootdir` stay under it. */
  lemma JoinUnderRoot(rootdir: string, subfolder: string, name: string)
    requires subfolder == [] || subfolder[0] != '/'
    requires name == [] || name[0] != '/'
    ensures IsPrefix(rootdir, PathJoin(PathJoin(rootdir, subfolder), name))
  {
    var base := PathJoin(rootdir, subfolder);
    assert IsPrefix(rootdir, base);
    var p := PathJoin(base, name);
    assert IsPrefix(base, p) by {
      if name != [] {
        JoinRelative(base, name);
      }
    }
    assert p[..|rootdir|] == base[..|base|][..|rootdir|];
  }

  /** Every destination lies under `rootdir` unless the sub-folder is itself absolute. */
  lemma DestinationUnderRoot(display: string, rootdir: string, subfolder: string, keep: seq<string>, i: int)
    requires 0 <= i < |keep|
    requires subfolder == [] || subfolder[0] != '/'
    ensures IsPrefix(rootdir, SyncArgs(display, rootdir, subfolder, keep)[i].1)
  {
    JoinUnderRoot(rootdir, subfolder, LStrip(keep[i], '/'));
  }

  lemma DestinationsUnderRoot(display: string, rootdir: string, subfolder: string, keep: seq<string>)
    requires subfolder == [] || subfolder[0] != '/'
    ensures forall i :: 0 <= i < |keep| ==> IsPrefix(rootdir, SyncArgs(display, rootdir, subfolder, keep)[i].1)
  {
    forall i | 0 <= i < |keep|
      ensures IsPrefix(rootdir, SyncArgs(display, rootdir, subfolder, keep)[i].1)
    {
      DestinationUnderRoot(display, rootdir, subfolder, keep, i);
    }
  }

  /** Every source is the remote shown folder followed by `/` and the kept file. */
  lemma SourcesUnderFolder(display: string, rootdir: string, subfolder: string, keep: seq<string>)
    ensures forall i :: 0 <= i < |keep| ==> IsPrefix("Dropbox:" + display + "/", SyncArgs(display, rootdir, subfolder, keep)[i].0)
  {
    var args := SyncArgs(display, rootdir, subfolder, keep);
    forall i | 0 <= i < |keep|
      ensures IsPrefix("Dropbox:" + display + "/", args[i].0)
    {
      var p := "Dropbox:" + display + "/";
      assert args[i].0 == p + keep[i];
      assert (p + keep[i])[..|p|] == p;
    }
  }

  /** The split of the folder `/a/.//b` on `/./`. */
  lemma SplitEscapingFolder()
    ensures Split("/a/.//b", "/./") == ["/a", "/b"]
  {
    var folder := "/a/.//b";
    assert folder[1..] == "a/.//b" && folder[2..] == "/.//b" && folder[5..] == "/b";
    assert !IsPrefix("/./", folder) by { assert folder[1] == 'a'; }
    assert !IsPrefix("/./", folder[1..]) by { assert folder[1] == 'a'; }
    assert IsPrefix("/./", folder[2..]);
    assert !Contains("/b", "/./") by {
      assert !IsPrefix("/./", "/b") && "/b"[1..] == "b";
      assert !Contains("b", "/./") by { assert "b"[1..] == []; }
    }
    SplitAbsent("/b", "/./");
    assert Split(folder[2..], "/./") == [[], "/b"];
    assert folder[1..][1..] == folder[2..];
    assert ConsFirst('a', [[], "/b"]) == ["a", "/b"] by {
      assert ['a'] + [] == "a";
      assert [[], "/b"][1..] == ["/b"];
    }
    assert Split(folder[1..], "/./") == ["a", "/b"];
    assert ConsFirst('/', ["a", "/b"]) == ["/a", "/b"] by {
      assert ['/'] + "a" == "/a";
      assert ["a", "/b"][1..] == ["/b"];
    }
  }

  /** The shown form of `/a/.//b` is `/a//b`, which has no `/./` left. */
  lemma DisplayEscapingFolder()
    ensures FolderDisplay("/a/.//b") == "/a//b" && !Contains("/a//b", "/./")
  {
    SplitEscapingFolder();
    ReplaceIsJoinSplit("/a/.//b", "/./", "/");
    assert Join(["/a", "/b"], "/") == "/a" + "/" + Join(["/b"], "/");
    var d := "/a//b";
    assert d[1..] == "a//b" && d[2..] == "//b" && d[3..] == "/b" && d[4..] == "b" && d[5..] == [];
    assert !IsPrefix("/./", d) by { assert d[1] == 'a'; }
    assert !IsPrefix("/./", d[2..]) by { assert d[2..][1] == '/'; }
  }

  lemma SubfolderEscapingFolder()
    ensures Subfolder("/a/.//b") == "/b"
  {
    SplitEscapingFolder();
    SplitSingleIffAbsent("/a/.//b", "/./");
  }

  /** An absolute sub-folder replaces `rootdir` in every destination. */
  lemma AbsoluteSubfolderDropsRoot(display: string, rootdir: string, subfolder: string, keep: seq<string>, i: int)
    requires subfolder != [] && subfolder[0] == '/' && 0 <= i < |keep|
    ensures SyncArgs(display, rootdir, subfolder, keep)[i].1 == PathJoin(subfolder, LStrip(keep[i], '/'))
  {
  }

  /** With an absolute sub-folder, a lone relative file lands directly under that sub-folder. */
  lemma AbsoluteDestination(display: string, rootdir: string, subfolder: string, name: string)
    requires subfolder != [] && subfolder[0] == '/' && subfolder[|subfolder| - 1] != '/'
    requires name != [] && name[0] != '/'
    ensures SyncArgs(display, rootdir, subfolder, [name])[0].1 == subfolder + "/" + name
  {
    AbsoluteSubfolderDropsRoot(display, rootdir, subfolder, [name], 0);
    assert LStrip(name, '/') == name;
  }

  lemma DestinationEscapingFolder()
    ensures SyncArgs("/a//b", "/r", "/b", ["x"])[0].1 == "/b/x"
  {
    AbsoluteDestination("/a//b", "/r", "/b", "x");
  }

  lemma DestinationOutsideRoot()
    ensures !IsPrefix("/r", "/b/x")
  {
    assert "/b/x"[1] == 'b';
  }

  /**
    The folder `/a/.//b` passes both assertions of `download_results`, yet its
    sub-folder is the absolute `/b`, so `os.path.join(rootdir, "/b", file)` drops
    `rootdir` and the download lands outside it.
   */
  lemma AbsoluteSubfolderEscapesRoot()
    ensures IsPrefix("/", "/a/.//b")
    ensures FolderDisplay("/a/.//b") == "/a//b" && !Contains("/a//b", "/./")
    ensures Subfolder("/a/.//b") == "/b"
    ensures SyncArgs("/a//b", "/r", "/b", ["x"])[0].1 == "/b/x" && !IsPrefix("/r", "/b/x")
  {
    assert "/a/.//b"[..1] == "/";
    DisplayEscapingFolder();
    SubfolderEscapingFolder();
    DestinationEscapingFolder();
    DestinationOutsideRoot();
  }


  /** `/././` keeps a `/./` after one replacement, so the assertion on the shown folder fails. */
  lemma DotSegmentCanRemain(fileType: string, rootdir: string, sessions: Option<seq<int>>,
                            listing: seq<string>, m: (string, string) -> MatchOutcome)
    requires IsPrefix("/", rootdir)
    ensures DownloadResults(fileType, rootdir, "/././", 1, sessions, listing, m) == Failure(DotSegmentRemains)
  {
    var f := "/././";
    assert IsPrefix("/./", f);
    assert f[3..] == "./";
    assert ReplaceAll("./", "/./", "/") == "./" by {
      assert !IsPrefix("/./", "./");
      assert ReplaceAll("/", "/./", "/") == "/";
    }
    assert FolderDisplay(f) == "/./";
    assert IsPrefix("/./", "/./");
  }

  /** `range(a, b)`. */
  function Range(a: int, b: int): (r: seq<int>)
    ensures |r| == if b > a then b - a else 0
    ensures forall i :: 0 <= i < |r| ==> r[i] == a + i
    decreases b - a
  {
    if a >= b then [] else [a] + Range(a + 1, b)
  }

  /** The session list `main` builds from `--sessions FIRST LAST`: `FIRST` up to but excluding `LAST`. */
  function SessionsArg(args: Option<seq<int>>): (r: Result<Option<seq<int>>, DataError>)
    ensures args.None? ==> r == Success(None)
    ensures args.Some? && |args.value| != 2 ==> r == Failure(WrongSessionCount)
    ensures args.Some? && |args.value| == 2 ==>
      && r.Success? && r.value.Some?
      && |r.value.value| == (if args.value[1] > args.value[0] then args.value[1] - args.value[0] else 0)
      && forall i :: 0 <= i < |r.value.value| ==> r.value.value[i] == args.value[0] + i
  {
    match args
    case None => Success(None)
    case Some(a) =>
      if |a| != 2 then Failure(WrongSessionCount) else Success(Some(Range(a[0], a[1])))
  }
}
