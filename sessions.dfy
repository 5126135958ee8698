/**
 * The per-user session table of the bot and the files it keeps on disk, as
 * values: the state `Store`, the per-user file paths, one transition function
 * per handler that changes the table, the invariants they keep, and the
 * properties of runs of several handlers.
 */
module Sessions {
  import opened Wrappers
  import opened Text

  type UserId = int
  type Path = string

  /** Conversation states the handlers return (`SELECT_VIDEO, WAIT_FOR_TIME = range(2)`, and the framework's `END`). */
  const SelectVideo: int := 0
  const WaitForTime: int := 1
  const End: int := -1

  /** The `KeyError` a handler raises: no record for the user, or a record without the key. */
  datatype KeyError = MissingUser(user: UserId) | MissingKey(key: string)

  /** The fixed arguments of the trim: a two-minute window, streams copied without re-encoding. */
  const TrimDuration: string := "00:02:00"
  const TrimCodec: string := "copy"

  /** The temporary directory: the `TMPDIR` environment variable, `/tmp` when it is unset. */
  function TmpDir(env: Option<Path>): (tmp: Path)
    ensures env.Some? ==> tmp == env.value
    ensures env.None? ==> tmp == "/tmp"
  {
    env.GetOr("/tmp")
  }

  predicate IsAbsolute(p: Path) {
    |p| > 0 && p[0] == '/'
  }

  /** What `os.path.join(dir, name)` puts before a relative `name`: `dir`, with a `/` added unless it is empty or already ends in one. */
  function DirPrefix(dir: Path): Path {
    if dir == "" || dir[|dir| - 1] == '/' then dir else dir + "/"
  }

  /**
   * POSIX `os.path.join(dir, name)` for two components: an absolute `name`
   * replaces `dir`; otherwise `dir`, one `/` unless `dir` is empty or already
   * ends in `/`, then `name`.
   */
  function Join(dir: Path, name: Path): Path {
    if IsAbsolute(name) then name else DirPrefix(dir) + name
  }

  /** The shape of `Join(dir, name)`, character by character. */
  lemma JoinShape(dir: Path, name: Path)
    ensures IsAbsolute(name) ==> Join(dir, name) == name
    ensures !IsAbsolute(name) ==> var p := Join(dir, name);
              && |p| == |dir| + |name| + (if dir == "" || dir[|dir| - 1] == '/' then 0 else 1)
              && p[..|dir|] == dir && p[|p| - |name|..] == name
              && (|p| > |dir| + |name| ==> p[|dir|] == '/')
  {
  }

  function VideoFolder(tmp: Path): Path { Join(tmp, "videos") }
  function CutFolder(tmp: Path): Path { Join(tmp, "cuts") }

  /** Where the upload of user `u` is saved: `VIDEO_FOLDER/<u>.mp4`. */
  function VideoPath(tmp: Path, u: UserId): (p: Path)
    ensures |p| >= 5 && p[|p| - 4..] == ".mp4" && IsDigit(p[|p| - 5])
  {
    var name := IntToDecimal(u) + ".mp4";
    assert !IsAbsolute(name);
    Join(VideoFolder(tmp), name)
  }

  /** Where the trimmed clip of user `u` is written: `CUT_FOLDER/<u>_cut.mp4`. */
  function CutPath(tmp: Path, u: UserId): (p: Path)
    ensures |p| >= 8 && p[|p| - 8..] == "_cut.mp4"
  {
    var name := IntToDecimal(u) + "_cut.mp4";
    assert !IsAbsolute(name);
    Join(CutFolder(tmp), name)
  }

  /** If `p + a + x == p + b + x` then `a == b`. */
  lemma CancelAround(p: string, a: string, b: string, x: string)
    requires p + a + x == p + b + x
    ensures a == b
  {
    var s := p + a + x;
    assert |a| == |b|;
    assert s[|p|..|p| + |a|] == a;
    assert (p + b + x)[|p|..|p| + |b|] == b;
  }

  /** Two users never share an upload path. */
  lemma VideoPathInjective(tmp: Path, u: UserId, v: UserId)
    ensures VideoPath(tmp, u) == VideoPath(tmp, v) ==> u == v
  {
    if VideoPath(tmp, u) == VideoPath(tmp, v) {
      var p := DirPrefix(VideoFolder(tmp));
      assert VideoPath(tmp, u) == p + IntToDecimal(u) + ".mp4";
      assert VideoPath(tmp, v) == p + IntToDecimal(v) + ".mp4";
      CancelAround(p, IntToDecimal(u), IntToDecimal(v), ".mp4");
      IntToDecimalInjective(u, v);
    }
  }

  /** Two users never share a clip path. */
  lemma CutPathInjective(tmp: Path, u: UserId, v: UserId)
    ensures CutPath(tmp, u) == CutPath(tmp, v) ==> u == v
  {
    if CutPath(tmp, u) == CutPath(tmp, v) {
      var p := DirPrefix(CutFolder(tmp));
      assert CutPath(tmp, u) == p + IntToDecimal(u) + "_cut.mp4";
      assert CutPath(tmp, v) == p + IntToDecimal(v) + "_cut.mp4";
      CancelAround(p, IntToDecimal(u), IntToDecimal(v), "_cut.mp4");
      IntToDecimalInjective(u, v);
    }
  }

  /** An upload path is never a clip path, whoever the two users are. */
  lemma VideoPathIsNotCutPath(tmp: Path, u: UserId, v: UserId)
    ensures VideoPath(tmp, u) != CutPath(tmp, v)
  {
  }

  /** The record `user_data[u]`: the chosen title, and the two paths once they are set. */
  datatype Session = Session(movieTitle: string, videoPath: Option<Path>, cutPath: Option<Path>)

  /** The session table `user_data` together with the set of files that exist on disk. */
  datatype Store = Store(userData: map<UserId, Session>, disk: set<Path>)

  /** How the trim-and-send step of the time handler ended. */
  datatype TrimOutcome =
    | TrimFailed   // ffmpeg failed: no clip written
    | SendFailed   // ffmpeg wrote the clip, sending it failed
    | Delivered    // the clip was written and sent

  /** The ffmpeg call the time handler issues. */
  datatype TrimCall = TrimCall(input: Path, start: string, output: Path, duration: string, codec: string)

  /** A record's paths as only ever set by the handlers of user `u`; a clip only after an upload. */
  predicate SessionValid(tmp: Path, u: UserId, r: Session) {
    && (r.videoPath.Some? ==> r.videoPath.value == VideoPath(tmp, u))
    && (r.cutPath.Some? ==> r.cutPath.value == CutPath(tmp, u) && r.videoPath.Some?)
  }

  predicate Valid(tmp: Path, s: Store) {
    forall u :: u in s.userData ==> SessionValid(tmp, u, s.userData[u])
  }

  /** The paths a record holds that `delete_files` would act on (a set and non-empty value). */
  function Recorded(r: Session): set<Path> {
    (if r.videoPath.Some? && r.videoPath.value != "" then {r.videoPath.value} else {})
    + (if r.cutPath.Some? && r.cutPath.value != "" then {r.cutPath.value} else {})
  }

  /** Every path a record holds names a file that is on disk. */
  predicate FilesPresent(s: Store) {
    forall u :: u in s.userData ==> Recorded(s.userData[u]) <= s.disk
  }

  /** `movie_selected`: the user's record becomes just the chosen title. */
  function Select(s: Store, u: UserId, title: string): (r: Store)
    ensures u in r.userData && r.userData[u].movieTitle == title
    ensures r.userData[u].videoPath.None? && r.userData[u].cutPath.None?
    ensures r.userData - {u} == s.userData - {u} && r.disk == s.disk
  {
    Store(s.userData[u := Session(title, None, None)], s.disk)
  }

  /**
   * `handle_video`: the upload is saved to the user's upload path; then the
   * path is recorded if the user has a record (otherwise `KeyError`, with the
   * file already written).
   */
  function Upload(tmp: Path, s: Store, u: UserId): (r: Store)
    ensures r.disk == s.disk + {VideoPath(tmp, u)}
    ensures r.userData.Keys == s.userData.Keys && r.userData - {u} == s.userData - {u}
    ensures u in s.userData ==>
              r.userData[u] == Session(s.userData[u].movieTitle, Some(VideoPath(tmp, u)), s.userData[u].cutPath)
  {
    var path := VideoPath(tmp, u);
    var data := if u in s.userData then s.userData[u := s.userData[u].(videoPath := Some(path))] else s.userData;
    Store(data, s.disk + {path})
  }

  /** What `handle_video` returns: `WAIT_FOR_TIME`, or the `KeyError` of a user without a record. */
  function UploadReply(s: Store, u: UserId): (r: Result<int, KeyError>)
    ensures r.Ok? <==> u in s.userData
    ensures r.Ok? ==> r.value == WaitForTime
    ensures r.Err? ==> r.error == MissingUser(u)
  {
    if u in s.userData then Ok(WaitForTime) else Err(MissingUser(u))
  }

  /** Whether `handle_time` finds `user_data[u]["video_path"]` (otherwise it raises `KeyError`). */
  predicate HasUpload(s: Store, u: UserId) {
    u in s.userData && s.userData[u].videoPath.Some?
  }

  /** The ffmpeg call `handle_time` makes for start time `start`, when it gets that far. */
  function TrimCallFor(tmp: Path, s: Store, u: UserId, start: string): (c: Option<TrimCall>)
    ensures c.Some? <==> HasUpload(s, u)
    ensures c.Some? ==> c.value.input == s.userData[u].videoPath.value && c.value.output == CutPath(tmp, u)
    ensures c.Some? ==> c.value.start == start && c.value.duration == TrimDuration && c.value.codec == TrimCodec
  {
    if HasUpload(s, u) then Some(TrimCall(s.userData[u].videoPath.value, start, CutPath(tmp, u), TrimDuration, TrimCodec))
    else None
  }

  /**
   * `handle_time`: with an upload on record, the clip is written unless ffmpeg
   * fails, and recorded only when it was also sent; without one, nothing
   * happens (`KeyError`).
   */
  function Trim(tmp: Path, s: Store, u: UserId, outcome: TrimOutcome): (r: Store)
    ensures !HasUpload(s, u) ==> r == s
    ensures r.userData.Keys == s.userData.Keys && r.userData - {u} == s.userData - {u}
    ensures r.disk == if HasUpload(s, u) && outcome != TrimFailed then s.disk + {CutPath(tmp, u)} else s.disk
    ensures u in s.userData && (outcome != Delivered || !HasUpload(s, u)) ==> r.userData[u] == s.userData[u]
    ensures HasUpload(s, u) && outcome == Delivered ==>
              r.userData[u] == s.userData[u].(cutPath := Some(CutPath(tmp, u)))
  {
    if !HasUpload(s, u) then s
    else
      var cut := CutPath(tmp, u);
      var data := if outcome == Delivered then s.userData[u := s.userData[u].(cutPath := Some(cut))] else s.userData;
      Store(data, if outcome == TrimFailed then s.disk else s.disk + {cut})
  }

  /** What `handle_time` returns: `END` whatever the trim did, or the `KeyError` of a missing upload. */
  function TrimReply(s: Store, u: UserId): (r: Result<int, KeyError>)
    ensures r.Ok? <==> HasUpload(s, u)
    ensures r.Ok? ==> r.value == End
    ensures r.Err? ==> r.error == if u in s.userData then MissingKey("video_path") else MissingUser(u)
  {
    if u !in s.userData then Err(MissingUser(u))
    else if s.userData[u].videoPath.None? then Err(MissingKey("video_path"))
    else Ok(End)
  }

  /** `delete_files`: the recorded files that exist are removed, then the record is dropped. */
  function Delete(s: Store, u: UserId): (r: Store)
    ensures u !in r.userData && r.userData == s.userData - {u}
    ensures r.disk <= s.disk
    ensures u in s.userData ==> r.disk == s.disk - Recorded(s.userData[u])
    ensures u !in s.userData ==> r.disk == s.disk
  {
    var gone := if u in s.userData then Recorded(s.userData[u]) else {};
    Store(s.userData - {u}, s.disk - gone)
  }

  lemma SelectKeepsInvariants(tmp: Path, s: Store, u: UserId, title: string)
    requires Valid(tmp, s) && FilesPresent(s)
    ensures Valid(tmp, Select(s, u, title)) && FilesPresent(Select(s, u, title))
  {
  }

  lemma UploadKeepsInvariants(tmp: Path, s: Store, u: UserId)
    requires Valid(tmp, s) && FilesPresent(s)
    ensures Valid(tmp, Upload(tmp, s, u)) && FilesPresent(Upload(tmp, s, u))
  {
  }

  lemma TrimKeepsInvariants(tmp: Path, s: Store, u: UserId, outcome: TrimOutcome)
    requires Valid(tmp, s) && FilesPresent(s)
    ensures Valid(tmp, Trim(tmp, s, u, outcome)) && FilesPresent(Trim(tmp, s, u, outcome))
  {
  }

  /**
   * `delete_files` for `u` leaves every other user's upload and clip exactly
   * as present or absent as they were: all it removes are `u`'s own paths.
   */
  lemma DeleteSparesOthers(tmp: Path, s: Store, u: UserId, v: UserId)
    requires Valid(tmp, s) && u != v
    ensures VideoPath(tmp, v) in Delete(s, u).disk <==> VideoPath(tmp, v) in s.disk
    ensures CutPath(tmp, v) in Delete(s, u).disk <==> CutPath(tmp, v) in s.disk
  {
    VideoPathInjective(tmp, u, v);
    CutPathInjective(tmp, u, v);
    VideoPathIsNotCutPath(tmp, u, v);
    VideoPathIsNotCutPath(tmp, v, u);
  }

  /** An upload by `u` writes only `u`'s upload path: every other user's files stay as they were. */
  lemma UploadSparesOthers(tmp: Path, s: Store, u: UserId, v: UserId)
    requires u != v
    ensures VideoPath(tmp, v) in Upload(tmp, s, u).disk <==> VideoPath(tmp, v) in s.disk
    ensures CutPath(tmp, v) in Upload(tmp, s, u).disk <==> CutPath(tmp, v) in s.disk
  {
    VideoPathInjective(tmp, u, v);
    VideoPathIsNotCutPath(tmp, u, v);
  }

  /** A trim for `u` writes only `u`'s clip path: every other user's files stay as they were. */
  lemma TrimSparesOthers(tmp: Path, s: Store, u: UserId, v: UserId, outcome: TrimOutcome)
    requires u != v
    ensures VideoPath(tmp, v) in Trim(tmp, s, u, outcome).disk <==> VideoPath(tmp, v) in s.disk
    ensures CutPath(tmp, v) in Trim(tmp, s, u, outcome).disk <==> CutPath(tmp, v) in s.disk
  {
    CutPathInjective(tmp, u, v);
    VideoPathIsNotCutPath(tmp, v, u);
  }

  lemma DeleteKeepsInvariants(tmp: Path, s: Store, u: UserId)
    requires Valid(tmp, s) && FilesPresent(s)
    ensures Valid(tmp, Delete(s, u)) && FilesPresent(Delete(s, u))
  {
    var r := Delete(s, u);
    forall v | v in r.userData
      ensures Recorded(r.userData[v]) <= r.disk
    {
      assert r.userData[v] == s.userData[v];
      DeleteSparesOthers(tmp, s, u, v);
    }
  }

  /** A second `delete_files` changes nothing: no record is left and no file is removed. */
  lemma DeleteIdempotent(s: Store, u: UserId)
    ensures Delete(Delete(s, u), u) == Delete(s, u)
  {
  }

  /** After `delete_files` none of the files the record named is left on disk. */
  lemma DeleteRemovesRecordedFiles(tmp: Path, s: Store, u: UserId)
    requires Valid(tmp, s) && u in s.userData
    ensures VideoPath(tmp, u) !in Delete(s, u).disk || s.userData[u].videoPath.None?
    ensures CutPath(tmp, u) !in Delete(s, u).disk || s.userData[u].cutPath.None?
  {
  }

  /** A repeated upload reuses the same slot: a second upload leaves the state as the first did. */
  lemma UploadIdempotent(tmp: Path, s: Store, u: UserId)
    ensures Upload(tmp, Upload(tmp, s, u), u) == Upload(tmp, s, u)
  {
  }

  /** A time message from a user without an upload writes no file and changes no record. */
  lemma TrimWithoutUploadChangesNothing(tmp: Path, s: Store, u: UserId, outcome: TrimOutcome)
    requires !HasUpload(s, u)
    ensures Trim(tmp, s, u, outcome) == s && TrimReply(s, u).Err?
  {
  }

  /**
   * The whole flow: choose a movie, upload, trim and send, delete. Afterwards
   * the user has no record and neither of their files is on disk.
   */
  lemma FullFlowCleansUp(tmp: Path, s: Store, u: UserId, title: string)
    ensures var s1 := Select(s, u, title);
            var s2 := Upload(tmp, s1, u);
            var s3 := Trim(tmp, s2, u, Delivered);
            var s4 := Delete(s3, u);
            && UploadReply(s1, u) == Ok(WaitForTime) && TrimReply(s2, u) == Ok(End)
            && u !in s4.userData && VideoPath(tmp, u) !in s4.disk && CutPath(tmp, u) !in s4.disk
  {
  }

  /**
   * Choosing a movie again forgets an upload already on record, so a later
   * `delete_files` leaves that file behind on disk.
   */
  lemma ReselectOrphansUpload(tmp: Path, s: Store, u: UserId, title: string)
    requires Valid(tmp, s) && FilesPresent(s)
    requires u in s.userData && s.userData[u].videoPath.Some?
    ensures VideoPath(tmp, u) in Delete(Select(s, u, title), u).disk
  {
  }

  /**
   * When ffmpeg succeeds but sending the clip fails, the clip stays on disk
   * without being recorded, so `delete_files` does not remove it.
   */
  lemma UnsentClipOutlivesDelete(tmp: Path, s: Store, u: UserId)
    requires Valid(tmp, s) && HasUpload(s, u) && s.userData[u].cutPath.None?
    ensures CutPath(tmp, u) in Delete(Trim(tmp, s, u, SendFailed), u).disk
  {
  }
}
