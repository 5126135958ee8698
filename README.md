# video_searcher: the session table and the result keyboard

A Telegram bot is meant to let a user search TMDB for a movie, pick one result
from an inline keyboard, upload a video, send a start time, and get back a
two-minute clip cut by ffmpeg; `/delete` removes the user's files from the
server. As the handlers are wired, only search, selection and `/delete` are
ever reached (see the first line under "## Left out"). Apart
from the Telegram, HTTP and ffmpeg plumbing, `bot.py` holds two pieces of logic,
and this project models both of them.

- **The result keyboard** (`Search`, in `search.dfy`). `search_movie` builds one
  row per search result. The button label is `"{title} ({year})"` and the
  callback data is `"movie_{id}"`. When a button is pressed, `movie_selected`
  reads the id back with `data.split("_")[1]`. The Python string operations
  these rely on are modelled in `Text` (`text.dfy`): `str(int)` and
  `str.split` with a one-character separator; `sep.join` (`JoinWith`) is
  defined only to state the inverse of split.
- **The session table** (`Sessions`, in `sessions.dfy`, and `Bot`, in `bot.dfy`).
  The module-level dict `user_data` maps a user id to a record with
  `movie_title`, and later `video_path` and `cut_path`. Four handlers change
  it in place. `Bot.SessionTable` is that dict plus the set of files on disk,
  with one method per handler. Each method's postcondition equates the new
  state with a pure transition of module `Sessions`: `Select`, `Upload`,
  `Trim` and `Delete`. The properties are proved about those transitions:
  - every record only ever names its own user's paths;
  - every recorded file exists;
  - a handler for one user leaves every other user's record and files alone
    (`Select` by its contract; `UploadSparesOthers`, `TrimSparesOthers` and
    `DeleteSparesOthers` for the files);
  - `/delete` is idempotent;
  - a repeated upload reuses the same slot;
  - the full flow leaves nothing behind.

Two behaviours of the code are proved as they are:

- Choosing a movie again replaces the whole record. An upload already on record
  is forgotten, so a later `/delete` leaves that file on disk (`ReselectOrphansUpload`).
- If ffmpeg writes the clip but sending it fails, the clip is not recorded, so
  `/delete` does not remove it (`UnsentClipOutlivesDelete`).

Both files are bounded: the next upload or clip for that user overwrites the
same per-user path.

The environment is a parameter of the model:

- `TMPDIR` is the `env` argument of the table's constructor, which sets its
  `tmpDir` with `TmpDir` (`/tmp` when the variable is unset).
- The detail lookup's `title` is an argument of `MovieSelected`.
- The search API's `results` list is the argument of `SearchMovie`.
- How ffmpeg and the video send ended is the argument `outcome` of `HandleTime`.

How the code handles errors and order:

- The code has no stage field and no per-user lock; a record is a plain dict.
- A handler reached without the record it reads raises `KeyError`. This is
  modelled as an `Err` result: `MissingUser`, or `MissingKey("video_path")`.
- `handle_video` downloads the file before it looks up the record, so an upload
  from a user without a record stays on disk (`Upload`).
- Every trim failure is caught. The handler then returns `END` and the record
  is left as it was.

## Model

| member | source | states |
|---|---|---|
| `Text.NatToDecimal` | bot.py:42 | `str(n)` of a non-negative id is a non-empty string of digits with no leading zero |
| `Text.IntToDecimal` | bot.py:42 | `str(n)` of any integer ends in a digit; its characters are digits, except for a leading `-` |
| `Text.DecimalRoundTrip` | bot.py:42 | reading the digits of `str(n)` back gives `n` |
| `Text.IntRoundTrip` | bot.py:42 | `int(str(n)) == n` for every integer |
| `Text.IntToDecimalInjective` | bot.py:69 | distinct ids have distinct decimal numerals |
| `Text.Split` | bot.py:52 | `split("_")` always gives at least one part, and no part contains the separator |
| `Text.SplitJoin` | bot.py:52 | joining the parts of a split with the separator gives back the string |
| `Text.SplitWithoutSeparator` | bot.py:52 | a string without the separator splits into itself alone |
| `Text.SplitAtFirst` | bot.py:52 | `(a + "_" + b).split("_")` is `a` followed by the parts of `b` when `a` has no `_` |
| `Search.Year` | bot.py:40 | the year is `"????"` when `release_date` is absent, else the first at most four characters of the date |
| `Search.Label` | bot.py:42 | the label is the title, then ` (`, then exactly `Year(release_date)`, then `)`; so it is 3 to 7 characters longer than the title |
| `Search.CallbackData` | bot.py:42 | the callback data starts with `movie_` and has something after it |
| `Text.SplitFindsSeparator` | bot.py:52 | `split` gives a second part exactly when the string holds the separator |
| `Search.DecodeCallback` | bot.py:52 | `data.split("_")[1]` exists exactly when the data holds a `_` (otherwise `IndexError`), and the decoded field holds no `_` |
| `Search.CallbackRoundTrip` | bot.py:42-52 | `("movie_" + str(id)).split("_")[1] == str(id)`, and parsing it gives `id` back |
| `Search.CallbackDataInjective` | bot.py:42 | distinct movie ids give distinct callback data |
| `Search.RoutedDataDecodes` | bot.py:127 | any data matching the route `^movie_` decodes without `IndexError`, to the field after the first `_` |
| `Search.SearchMovie` | bot.py:36-47 | "nothing found" exactly when `results` is missing or empty; otherwise one row per result, in order, with the result's label and callback data; each row's data decodes to that result's id |
| `Sessions.TmpDir` | bot.py:15 | the temporary directory is `TMPDIR` when set, `/tmp` otherwise |
| `Sessions.JoinShape` | bot.py:16-17 | `os.path.join(dir, name)`: an absolute `name` replaces `dir`; otherwise `dir`, one `/` unless `dir` is empty or ends in `/`, then `name` |
| `Sessions.VideoPath` | bot.py:69 | the upload path ends in `<digit>.mp4` |
| `Sessions.CutPath` | bot.py:80 | the clip path ends in `_cut.mp4` |
| `Sessions.VideoPathInjective` | bot.py:69 | two users never share an upload path |
| `Sessions.CutPathInjective` | bot.py:80 | two users never share a clip path |
| `Sessions.VideoPathIsNotCutPath` | bot.py:69-80 | no upload path is ever a clip path |
| `Sessions.Select` | bot.py:63 | the user's record is the title alone, without paths; other records and the files are unchanged |
| `Sessions.Upload` | bot.py:68-71 | the user's upload path is on disk; an existing record gains `video_path` and keeps its title and `cut_path`; no record is created; other records are unchanged |
| `Sessions.UploadReply` | bot.py:71-74 | `handle_video` returns `WAIT_FOR_TIME` exactly when the user has a record, and otherwise raises `KeyError` for the user id |
| `Sessions.TrimCallFor` | bot.py:79-88 | ffmpeg runs exactly when the record holds `video_path`: input that path, start the given text, output the user's clip path, `t=00:02:00`, `codec=copy` |
| `Sessions.Trim` | bot.py:79-93 | without an upload nothing changes; a clip is on disk unless ffmpeg failed; `cut_path` is recorded only when the clip was also sent; other records are unchanged |
| `Sessions.TrimReply` | bot.py:79-95 | `handle_time` returns `END` exactly when the record holds `video_path`; otherwise `KeyError` for the user id, or for `"video_path"` when the record exists |
| `Sessions.Delete` | bot.py:97-108 | the record is gone; only the recorded paths are removed from disk; nothing is removed when there was no record |
| `Sessions.SelectKeepsInvariants` | bot.py:63 | selecting keeps every record naming only its user's paths, and keeps every recorded file on disk |
| `Sessions.UploadKeepsInvariants` | bot.py:68-71 | uploading keeps both invariants |
| `Sessions.TrimKeepsInvariants` | bot.py:79-93 | trimming keeps both invariants, including "a clip only after an upload" |
| `Sessions.UploadSparesOthers` | bot.py:69-70 | an upload by one user leaves every other user's upload and clip as present or absent as before |
| `Sessions.TrimSparesOthers` | bot.py:80-88 | a trim for one user leaves every other user's upload and clip as present or absent as before |
| `Sessions.DeleteSparesOthers` | bot.py:99-105 | `/delete` by one user leaves every other user's upload and clip as present or absent as before |
| `Sessions.DeleteKeepsInvariants` | bot.py:97-108 | `/delete` keeps both invariants: the other users' recorded files survive |
| `Sessions.DeleteIdempotent` | bot.py:99-108 | a second `/delete` leaves the table and the files as the first one left them |
| `Sessions.DeleteRemovesRecordedFiles` | bot.py:102-105 | after `/delete`, neither recorded upload nor recorded clip is on disk |
| `Sessions.UploadIdempotent` | bot.py:69-71 | a second upload leaves the state exactly as the first did (same slot) |
| `Sessions.TrimWithoutUploadChangesNothing` | bot.py:79 | a start time from a user with no upload on record raises `KeyError` and changes nothing |
| `Sessions.FullFlowCleansUp` | bot.py:63-108 | select, upload, deliver a clip, `/delete`: the handlers return `WAIT_FOR_TIME` and `END`, and afterwards there is no record, no upload and no clip |
| `Sessions.ReselectOrphansUpload` | bot.py:63 | choosing a movie again after an upload, then `/delete`, leaves the upload on disk |
| `Sessions.UnsentClipOutlivesDelete` | bot.py:83-92 | a clip written but not sent stays on disk after `/delete` |
| `Bot.SessionTable.constructor` | bot.py:15-26 | the folders live under `TMPDIR` (default `/tmp`); the table starts empty |
| `Bot.SessionTable.MovieSelected` | bot.py:63-64 | the new state is `Select` of the old one; returns `SELECT_VIDEO`; both invariants hold |
| `Bot.SessionTable.HandleVideo` | bot.py:66-74 | the new state is `Upload` of the old one; returns `WAIT_FOR_TIME`, or `KeyError` when the user has no record |
| `Bot.SessionTable.HandleTime` | bot.py:76-95 | the new state is `Trim` of the old one; returns `END`, or `KeyError` for a missing record or `video_path`; reports the ffmpeg call made |
| `Bot.SessionTable.DeleteFiles` | bot.py:97-108 | removes the recorded paths that exist, then the record; the new state is `Delete` of the old one |

## Left out

- Telegram transport: `reply_text`, `reply_photo`, `send_video` (apart from its success or failure), `query.answer`, `start`, `cancel`, `main`, and the `ConversationHandler`/`Application` routing. These are I/O and framework wiring. The model records only the returned state constants and the `^movie_` route pattern, and takes every reply to succeed; the two lines below say what that hides. As wired at bot.py:116-127, `search_movie` returns None, so the conversation never enters `SELECT_VIDEO`. `handle_video` and `handle_time` are never dispatched, and `movie_selected`'s return value is discarded because it is registered outside the conversation. So in the running bot no record ever gains `video_path` or `cut_path`, and `/delete` only drops the record. The model treats the four handlers as callable in any order, as if the routing worked.
- Sessions.Select: `reply_photo` (bot.py:61) runs before the record is written (bot.py:63). If it raises, the old record stays; the model always writes the new record.
- Sessions.Delete: `reply_text` (bot.py:107) runs after the files are removed but before `user_data.pop` (bot.py:108). If it raises, the record stays and names files that are gone, so `FilesPresent` would no longer hold; the model always drops the record.
- TMDB HTTP calls (bot.py:33-34, 54-55): a network client. The search results and the detail title are inputs. Lookup failures, and the poster and overview text, are not modelled.
- ffmpeg (bot.py:83-88): an external process. It becomes the `outcome` oracle. A failed run is taken to write no clip, and whether ffmpeg can succeed on a missing input is not tied to the file set.
- File contents, the download itself, `os.makedirs`, and the `TMDB_API_KEY` and `TELEGRAM_TOKEN` variables (bot.py:11-12, 19-20): only whether a path is present in the file set is modelled. Files removed by anything other than `/delete` (a restart wiping `/tmp`) are not modelled.
- Text.IntToDecimal: Python 3.11 and later raise `ValueError` when `str` converts an integer of more than 4300 digits. This limit is not modelled, because Telegram user ids and TMDB movie ids are far below it.
- Search.Year: a `release_date` that is present but JSON `null` raises `TypeError` in Python. The model only distinguishes absent from present.
- Search.SearchMovie: a result without `title` or `id` raises `KeyError` in Python. The model assumes both keys are present.
- Timecode validation: the code does none, and the text goes to ffmpeg unchanged, so the model does none.
- Concurrency: the handlers run one at a time; there is no lock to model.
