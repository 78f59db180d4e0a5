# yt-downloader: FFmpeg locator and log relay in Dafny

This project models the decision logic of `download.py`, a tkinter front end to the
yt-dlp download library. It proves properties of that model. Four parts are covered:

- **Locator** (`locator.dfy`). It validates an FFmpeg candidate by running it with
  `-version`, asks whether the bare `ffmpeg` command works, and picks the default FFmpeg
  path shown in the form: the bare command, else the first of four fixed Windows paths
  that exists and works, else the primary default `C:/tools/ffmpeg/bin/ffmpeg.exe`.
  The filesystem and the subprocess call are a `Host`: an existence predicate and the
  outcome of the version probe, both passed in as function values.
- **Log producers** (`relay.dfy`). The shared FIFO `LogQueue` is a class over a
  `seq<string>`. `CustomLogger` routes debug lines by their first marker, drops
  unmatched ones and latches `downloadFinished`. `ProgressHook` dispatches on the
  progress status, counts finished files and renders the ETA as `{eta//60:02d}:{eta%60:02d}`.
  `DownloadHighestResolution` replays the library's callbacks through a fresh logger and
  hook. Then it enqueues SUCCESS on a normal return, or an ERROR line before re-raising.
  The library call is a `LibraryRun`: the callbacks it makes, then a normal return or
  an exception.
- **Session** (`session.dfy`). The application object keeps the success flag and the
  text handed to the log panel. It covers one consumer step and a drain of the queue,
  `clear_logs`, the input checks of `start_download`, the worker of `download_thread` and
  the verdict `success or self.download_success` of `on_download_complete`.
- **Text** (`text.dfy`). Python's substring test, ASCII `str.lower()`, and the decimal
  rendering behind `{n:02d}`, with its read-back proved.

Three points where the code is easy to misread; the model does what the code does:

- The locator does not scan PATH directories or FFmpeg-home environment variables, and
  never reports "no path". It probes the bare `ffmpeg` command and four fixed paths, and
  returns the primary default string when nothing works (download.py:32-60).
- A debug message with none of the four markers is dropped, not filed by severity.
  Info, warning and error are separate methods that always enqueue (download.py:67-86).
- The ETA's minutes field is at least two characters wide and has no upper bound, so
  the ETA is not limited to `MM:SS` (download.py:106).

One part of the code is evidently a bug: the FFmpeg check lets some OSErrors escape
(see Findings). There the model has both versions. `CheckFfmpegInstallationAsWritten`,
`FindFfmpegInPathAsWritten`, `FirstUsableAsWritten` and `LocatedAsWritten` follow the
code and may raise. `CheckFfmpegInstallation`, `FindFfmpegInPath` and `Located` are the
corrected versions, and the rest of the model (the locator method and the session) uses
them.

## Model

| member | source | states |
|---|---|---|
| `Locator.CheckFfmpegInstallationAsWritten` | download.py:12-19 | As written, the check returns `returncode == 0` for a process that ran; it returns false for a timeout, a missing executable or another subprocess error; any other OSError propagates |
| `Locator.NonExecutableCandidateRaises` | download.py:14-19 | An OSError outside the caught list, such as PermissionError for a directory, escapes the check as written; the corrected check answers "invalid" |
| `Locator.CheckFfmpegInstallation` | download.py:12-19 | A candidate is valid exactly when its version query exits with status 0; wherever the check as written returns, it returns this answer |
| `Locator.FindFfmpegInPath` | download.py:21-30 | Yields the bare name `ffmpeg` exactly when `ffmpeg -version` exits 0, and nothing otherwise |
| `Locator.GetDefaultFfmpegPath` | download.py:32-60 | Bare command first, then the primary default, then paths 1..3 of the fixed list in order, each gated by exists-and-validates with early return; falls back to the primary default; the result equals `Located` |
| `Locator.FirstUsableFinds` | download.py:50-57 | The search returns the usable path that no earlier path of the list precedes |
| `Locator.FirstUsableSound` | download.py:50-57 | The search finds nothing exactly when no path is usable; otherwise its answer is a usable entry of the list with no usable entry before it |
| `Locator.LocatedPrefersBareCommand` | download.py:45-48 | When the bare command validates, the answer is `ffmpeg`, whatever the filesystem and the fixed paths' probes say |
| `Locator.LocatedFirstUsable` | download.py:46-60 | Without a working bare command, the answer is fixed path i exactly when it is the first usable one, or i is the primary default and none is usable |
| `Locator.LocatedIsCandidate` | download.py:34-60 | The answer is never absent: it is `ffmpeg` or an entry of the fixed list, and the primary default when nothing validates |
| `Locator.FindFfmpegInPathAsWritten` | download.py:21-30 | As written, the PATH search raises exactly when running the bare `ffmpeg` raises an uncaught OSError; otherwise it answers as `FindFfmpegInPath` does |
| `Locator.FirstUsableAsWrittenAnswers` | download.py:50-57 | Wherever the fixed-path scan as written answers, its answer is the corrected scan's |
| `Locator.FirstUsableAsWrittenRaisesAt` | download.py:50-57 | When the scan as written raises, it raises at an existing path whose probe raised, and no earlier path was usable or raised |
| `Locator.FirstUsableAsWrittenRaisesWhen` | download.py:50-57 | An existing path whose probe raises, with no usable path before it, makes the scan as written raise |
| `Locator.FirstUsableAsWrittenAgrees` | download.py:50-57 | The scan as written raises exactly when an existing path whose probe raises comes before every usable path; otherwise it answers as the corrected scan does |
| `Locator.LocatedAsWrittenAgrees` | download.py:32-60 | `get_default_ffmpeg_path` as written raises exactly when the bare command's probe raises, or the bare command fails and a raising fixed path comes before every usable one; whenever it answers, the answer is `Located`'s |
| `Locator.DirectoryAtPrimaryDefaultRaises` | download.py:50-51 | With no `ffmpeg` on PATH and a directory at `C:/tools/ffmpeg/bin/ffmpeg.exe`, the locator as written raises at that path, while the corrected one answers with it |
| `Text.LowerAppend` | download.py:231 | Lower-casing a concatenation lower-cases each part in place, so the lower-cased form of a tagged line still holds the lower-cased message |
| `Text.Pad2RoundTrip` | download.py:106 | `{n:02d}` is at least two characters, reads back as `n`, and is exactly two digits for 0 <= n < 100 |
| `Relay.LogQueue.constructor` | download.py:163 | A new log queue is empty |
| `Relay.LogQueue.Put` | download.py:80 | `put` appends one message at the back and keeps the earlier contents |
| `Relay.LogQueue.Get` | download.py:226 | `get` removes and returns the front message, or returns nothing from an empty queue |
| `Relay.Route` | download.py:67-77 | First-match routing relays at most one line, and that line is some rule's tag followed by the message |
| `Relay.RouteFinds` | download.py:67-77 | The first rule whose marker occurs decides the relayed line |
| `Relay.RouteDrops` | download.py:67-77 | A message matching no rule relays nothing |
| `Relay.DebugFirstMatch` | download.py:67-77 | `[download]` gives `[DEBUG] ` even when `[Merger]` also occurs; otherwise `[Merger]` gives `[MERGE] `, then `[VideoConvertor]` gives `[CONVERT] `, then `Deleting` gives `[CLEANUP] `; anything else is dropped |
| `Relay.CustomLogger.constructor` | download.py:63-65 | A new logger shares the given queue and has `downloadFinished` false |
| `Relay.CustomLogger.Debug` | download.py:67-77 | Appends exactly the first-match routing of the message and nothing else; `downloadFinished` becomes old value or (contains `[download]` and (`100%` or lower-cased `finished`)), so it never returns to false |
| `Relay.CustomLogger.Info` | download.py:79-80 | Appends exactly `[INFO] ` + message; the flag is untouched (only the queue is modified) |
| `Relay.CustomLogger.Warning` | download.py:82-83 | Appends exactly `[WARNING] ` + message; the flag is untouched |
| `Relay.CustomLogger.Error` | download.py:85-86 | Appends exactly `[ERROR] ` + message; the flag is untouched |
| `Relay.EtaRoundTrip` | download.py:100-106 | A non-zero ETA renders as a minutes field of at least two characters, `:`, and two digits of seconds below 60, and minutes * 60 + seconds is the ETA; it is never `Unknown` |
| `Relay.ProgressHook.constructor` | download.py:89-92 | A new hook shares the given queue and starts both counters at 0 |
| `Relay.ProgressHook.Call` | download.py:94-120 | `downloading` appends one `[DOWNLOAD] ` line iff the size (exact, or the estimate when the exact size is missing or 0) is positive; `finished` appends one `[FINISHED] ` line and adds 1 to `filesFinished`; `error` appends one `[ERROR] ` line; other statuses append nothing; `totalFiles` never changes |
| `Relay.HookFinishedEntry` | download.py:113-117 | Each hook call appends one `[FINISHED] ` line exactly when it advances the finished-file counter |
| `Relay.FinishedLinesMatchCounter` | download.py:71-120 | Over all callbacks of a download, the number of relayed `[FINISHED] ` lines equals the number of `finished` reports, which is how far `files_finished` advances (`Relay.Replay`) |
| `Relay.AnyReportsFinishedExists` | download.py:67-70 | The logger's flag condition over a run holds exactly when some debug callback of the run reports completion |
| `Relay.Dispatch` | download.py:67-120 | One callback adds exactly its relayed lines to the queue, adds 1 to `files_finished` exactly for a `finished` report, leaves `total_files` alone, and latches `download_finished` exactly on a debug line reporting completion |
| `Relay.Replay` | download.py:134-145 | Dispatching the library's callbacks appends their relayed lines to the shared queue in callback order; `files_finished` grows by the number of `finished` reports; `total_files` is unchanged; `download_finished` ends set exactly when it was set or some debug callback reported completion |
| `Relay.DownloadHighestResolution` | download.py:122-156 | Returns True on a normal return, or re-raises the library's exception; with a queue, appends the replayed callbacks and then the SUCCESS line, or the `[ERROR] Download failed: ` line; without a queue it enqueues nothing |
| `Session.TaggedSuccess` | download.py:80-86 | Tagging a message never hides a success marker from the consumer's test |
| `Session.RelayedSuccess` | download.py:79-86 | A success message logged at info, warning or error level reaches the queue as one line that still passes the success test |
| `Session.SuccessLineSignals` | download.py:149 | The SUCCESS line enqueued on a normal return passes the consumer's success test |
| `Session.StampedInOrder` | download.py:226-235 | The consumer shows each queued message exactly once, in queue order, as `[timestamp] message` + newline |
| `Session.WorkerLogSignals` | download.py:143-156 | Once the worker's log is consumed, a success marker was seen exactly when the download returned normally, a relayed callback carried one, or the exception text produces one |
| `Session.LoggedSuccessSurvivesRaise` | download.py:316-325 | A download that raises after an info, warning or error callback logged a success marker still leaves a success marker in the worker's log |
| `Session.App.constructor` | download.py:159-167 | The application starts with the located FFmpeg path, an empty queue, no success, and the button enabled exactly when that path validates |
| `Session.App.ValidateFfmpeg` | download.py:256-264 | Enables the button and shows the "found" status exactly when the path validates |
| `Session.App.ProcessNext` | download.py:226-235 | Takes the front message if there is one; the flag becomes old flag or (`[SUCCESS]` occurs or lower-cased `completed successfully` occurs); the stamped message is shown |
| `Session.App.Drain` | download.py:222-240 | Consuming until the queue is empty shows every message once in order; the flag ends as old flag or "some consumed message is a success message" |
| `Session.App.ClearLogs` | download.py:251-254 | Empties the shown log and resets the success flag; nothing else changes |
| `Session.App.StartDownload` | download.py:282-314 | Refuses an empty URL, then an empty FFmpeg field, then an FFmpeg that does not validate, changing nothing; otherwise clears the logs and the flag, disables the button and shows the header lines with `.` for an empty directory |
| `Session.App.DownloadThread` | download.py:316-325 | On success reports `(True, None)`; on an exception enqueues `Download error: ` + text after the download's own lines and reports `(False, text)` |
| `Session.App.SucceedsDespiteRaise` | download.py:282-339 | A started download whose library call logs a success marker at info, warning or error level and then raises is reported as a success once the consumer has drained the queue, and the button is enabled again |
| `Session.App.OnDownloadComplete` | download.py:327-339 | The verdict is success iff the worker succeeded or the success flag is set; the button is re-enabled and the matching banner and status are shown; the flag is unchanged |

## Left out

- Widget creation, layout, dialogs, `browse_directory`, `browse_ffmpeg` and `append_log` rendering are UI. The log panel is modelled only as the list of strings handed to `append_log`.
- The consumer thread, the download thread, `root.after`, `time.sleep(1)` and `queue.get(timeout=0.1)` polling are concurrency. The consumer is modelled as sequential steps, and `OnDownloadComplete` sees whatever the flag is when it runs. The consumer's `except Exception: print(...); break` path is not modelled, because every queued item is a string.
- `subprocess.run` and `os.path.exists` are foreign calls. They are the `Host`'s `probe` and `pathExists`, which give one answer per path, so two probes of the same path agree. The 5-second timeout is reduced to the `TimedOut` outcome.
- `YoutubeDL` construction, the `ydl_opts` dictionary and the `ffmpeg_location` option configure an unseen library. A run is modelled by the callbacks it makes and how it ends. Without a queue the library uses its own default logging, which is not modelled.
- `Relay.ProgressHook.Call`: the percentage `(downloaded/total)*100` with `.1f` and the speed in MB/s with `.2f` are floating-point formatting. They arrive as given strings (`FloatText`); only the line's presence, tag, file, ETA and layout are stated.
- `os.path.basename` is platform-dependent, so it is a function parameter. `time.strftime` is the clock, so timestamps are a parameter.
- `Text.Lower`: only ASCII letters are lower-cased. Python's full Unicode case mapping is not modelled.
- `Relay.ProgressHook.Call`: a progress key present with the value `None` is treated like an absent key. In the source, a `None` `total_bytes_estimate` raises TypeError at the comparison (download.py:103), a `None` `downloaded_bytes` raises TypeError in the division (download.py:104), and a `None` file name raises TypeError in `os.path.basename` (download.py:110). An `'error': None` entry relays `[ERROR] None` in the source (download.py:120), where the model relays `[ERROR] Unknown error`.
- `Locator.GetDefaultFfmpegPath`, `Locator.FindFfmpegInPath`, `Session.App.constructor`, `Session.App.ValidateFfmpeg` and `Session.App.StartDownload` use the corrected FFmpeg check. The escaping OSError of the code as written is modelled only by the `AsWritten` locator functions, not in these members: the crash of `__init__` (download.py:162) and the exceptions out of the `validate_ffmpeg` (download.py:259) and `start_download` (download.py:295) callbacks.
- The `.strip()` of the form fields is not modelled. `StartDownload` receives the stripped fields.
- `CustomLogger.download_finished` is kept and proved sticky, but nothing in the source reads it.

## Findings

| source | as written | input that shows it | evidently intended | confidence | as-written member | corrected member |
|---|---|---|---|---|---|---|
| download.py:14-19 | `except` lists only TimeoutExpired, FileNotFoundError and SubprocessError, so any other OSError from `subprocess.run` escapes. `find_ffmpeg_in_path` (download.py:23-29) has the same list. | a path to an existing directory or a non-executable file, e.g. the FFmpeg field set to a folder: `subprocess.run` raises PermissionError | the docstring and the caught list say "any failure to run means not available": return False | medium; not executed | `Locator.CheckFfmpegInstallationAsWritten`, `Locator.NonExecutableCandidateRaises`, `Locator.FindFfmpegInPathAsWritten`, `Locator.LocatedAsWrittenAgrees`, `Locator.DirectoryAtPrimaryDefaultRaises` | `Locator.CheckFfmpegInstallation` (used by the locator and the session), `Locator.LocatedFirstUsable` |
