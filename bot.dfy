/**
 * The bot's handlers that change the module-level session table `user_data`
 * and the files on disk, as methods of one object. Each method is tied to the
 * transition of the same name in module `Sessions`, whose properties are
 * proved there.
 */
module Bot {
  import opened Wrappers
  import opened Text
  import opened Sessions

  class SessionTable {
    /** The temporary directory under which the upload and clip folders live. */
    const tmpDir: Path
    /** `user_data`: one record per user. */
    var userData: map<UserId, Session>
    /** The files that currently exist. */
    var disk: set<Path>

    function State(): Store
      reads this
    {
      Store(userData, disk)
    }

    ghost predicate Valid()
      reads this
    {
      Sessions.Valid(tmpDir, State()) && FilesPresent(State())
    }

    /** Start-up: the folders live under `TMPDIR` (given as `env`); an empty table over whatever files already exist. */
    constructor (env: Option<Path>, disk: set<Path>)
      ensures Valid()
      ensures tmpDir == TmpDir(env) && State() == Store(map[], disk)
    {
      tmpDir := TmpDir(env);
      this.userData := map[];
      this.disk := disk;
    }

    /** `movie_selected`: the user's record is replaced by one holding only the chosen title. */
    method MovieSelected(u: UserId, title: string) returns (next: int)
      requires Valid()
      modifies this
      ensures Valid()
      ensures State() == Select(old(State()), u, title)
      ensures next == SelectVideo
    {
      SelectKeepsInvariants(tmpDir, State(), u, title);
      userData := userData[u := Session(title, None, None)];
      next := SelectVideo;
    }

    /** `handle_video`: save the upload to the user's slot, then record its path. */
    method HandleVideo(u: UserId) returns (r: Result<int, KeyError>)
      requires Valid()
      modifies this
      ensures Valid()
      ensures State() == Upload(tmpDir, old(State()), u)
      ensures r == UploadReply(old(State()), u)
    {
      UploadKeepsInvariants(tmpDir, State(), u);
      var videoPath := Join(VideoFolder(tmpDir), IntToDecimal(u) + ".mp4");
      disk := disk + {videoPath};
      if u !in userData {
        return Err(MissingUser(u));
      }
      userData := userData[u := userData[u].(videoPath := Some(videoPath))];
      r := Ok(WaitForTime);
    }

    /**
     * `handle_time`: trim two minutes from `startTime` out of the user's upload
     * and send the clip; `outcome` is how ffmpeg and the send went. The clip
     * path is recorded only when both succeeded. `call` is the ffmpeg call made.
     */
    method HandleTime(u: UserId, startTime: string, outcome: TrimOutcome)
      returns (r: Result<int, KeyError>, call: Option<TrimCall>)
      requires Valid()
      modifies this
      ensures Valid()
      ensures State() == Trim(tmpDir, old(State()), u, outcome)
      ensures r == TrimReply(old(State()), u)
      ensures call == TrimCallFor(tmpDir, old(State()), u, startTime)
    {
      TrimKeepsInvariants(tmpDir, State(), u, outcome);
      if u !in userData {
        return Err(MissingUser(u)), None;
      }
      if userData[u].videoPath.None? {
        return Err(MissingKey("video_path")), None;
      }
      var videoPath := userData[u].videoPath.value;
      var cutPath := Join(CutFolder(tmpDir), IntToDecimal(u) + "_cut.mp4");
      call := Some(TrimCall(videoPath, startTime, cutPath, TrimDuration, TrimCodec));
      if outcome != TrimFailed {
        disk := disk + {cutPath};
      }
      if outcome == Delivered {
        userData := userData[u := userData[u].(cutPath := Some(cutPath))];
      }
      r := Ok(End);
    }

    /** `delete_files`: remove the recorded files that exist, then drop the record. */
    method DeleteFiles(u: UserId)
      requires Valid()
      modifies this
      ensures Valid()
      ensures State() == Delete(old(State()), u)
    {
      DeleteKeepsInvariants(tmpDir, State(), u);
      var videoPath := if u in userData then userData[u].videoPath else None;
      var cutPath := if u in userData then userData[u].cutPath else None;
      if videoPath.Some? && videoPath.value != "" && videoPath.value in disk {
        disk := disk - {videoPath.value};
      }
      if cutPath.Some? && cutPath.value != "" && cutPath.value in disk {
        disk := disk - {cutPath.value};
      }
      userData := userData - {u};
    }
  }
}
