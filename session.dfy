/**
 * The application side of download.py (YouTubeDownloaderApp) without its
 * widgets: the session's success flag, the log consumer that drains the
 * shared queue into the log panel, clear_logs, the input checks of
 * start_download, the worker of download_thread and the final verdict of
 * on_download_complete.
 *
 * The log panel is modelled as `shown`, the strings handed to append_log since
 * the last clear_logs; the status label as `status`; the Download button's
 * state as `downloadEnabled`. The consumer is sequential: each step takes the
 * next queued message, and the wall clock is a parameter.
 */
module Session {
  import opened Wrappers
  import opened Text
  import opened Locator
  import opened Relay

  /** The consumer's success test: `[SUCCESS]` occurs, or `completed successfully` occurs in the lower-cased message. */
  predicate IsSuccessMessage(m: string) {
    Contains(m, SuccessMarker) || Contains(Lower(m), "completed successfully")
  }

  predicate SawSuccess(ms: seq<string>) {
    exists i | 0 <= i < |ms| :: IsSuccessMessage(ms[i])
  }

  lemma SawSuccessAppend(a: seq<string>, b: seq<string>)
    ensures SawSuccess(a + b) <==> SawSuccess(a) || SawSuccess(b)
  {
    if SawSuccess(a + b) {
      var i :| 0 <= i < |a + b| && IsSuccessMessage((a + b)[i]);
      if i >= |a| {
        assert (a + b)[i] == b[i - |a|];
      }
    }
    if SawSuccess(a) {
      var i :| 0 <= i < |a| && IsSuccessMessage(a[i]);
      assert (a + b)[i] == a[i];
    }
    if SawSuccess(b) {
      var i :| 0 <= i < |b| && IsSuccessMessage(b[i]);
      assert (a + b)[|a| + i] == b[i];
    }
  }

  lemma SawSuccessSingle(x: string)
    ensures SawSuccess([x]) <==> IsSuccessMessage(x)
  {
    assert [x][0] == x;
  }

  /** The line download_highest_resolution enqueues on a normal return is itself a success message. */
  lemma SuccessLineSignals()
    ensures IsSuccessMessage(SuccessLine)
  {
    ContainsPrefix(SuccessMarker, " Download and processing completed successfully!");
  }

  /** Prepending a tag never hides a success marker: relaying a message keeps it a success message. */
  lemma TaggedSuccess(tag: string, m: string)
    requires IsSuccessMessage(m)
    ensures IsSuccessMessage(tag + m)
  {
    if Contains(m, SuccessMarker) {
      ContainsAfterPrefix(tag, m, SuccessMarker);
    } else {
      LowerAppend(tag, m);
      ContainsAfterPrefix(Lower(tag), Lower(m), "completed successfully");
    }
  }

  /** The consumer's rendering `f"[{timestamp}] {message}\n"`. */
  function Stamp(timestamp: string, m: string): (line: string) {
    "[" + timestamp + "] " + m + "\n"
  }

  /** The consumer's output for `ms`, the `k`-th message stamped with `clock(k)`. */
  function Stamped(ms: seq<string>, clock: nat -> string): (r: seq<string>)
    decreases |ms|
  {
    if ms == [] then []
    else Stamped(ms[..|ms| - 1], clock) + [Stamp(clock(|ms| - 1), ms[|ms| - 1])]
  }

  /** What delivering `pending[k]` after `pending[..k]` adds to the panel and to the success test. */
  lemma DrainStep(pending: seq<string>, k: nat, clock: nat -> string)
    requires k < |pending|
    ensures Stamped(pending[..k + 1], clock) == Stamped(pending[..k], clock) + [Stamp(clock(k), pending[k])]
    ensures SawSuccess(pending[..k + 1]) <==> SawSuccess(pending[..k]) || IsSuccessMessage(pending[k])
  {
    assert pending[..k + 1] == pending[..k] + [pending[k]];
    assert pending[..k + 1][..k] == pending[..k];
    SawSuccessAppend(pending[..k], [pending[k]]);
    SawSuccessSingle(pending[k]);
  }

  /** FIFO delivery: every message is shown exactly once, in the order it was queued. */
  lemma {:induction false} StampedInOrder(ms: seq<string>, clock: nat -> string)
    ensures |Stamped(ms, clock)| == |ms|
    ensures forall k | 0 <= k < |ms| :: Stamped(ms, clock)[k] == Stamp(clock(k), ms[k])
    decreases |ms|
  {
    if ms != [] {
      var init := ms[..|ms| - 1];
      StampedInOrder(init, clock);
      forall k | 0 <= k < |ms| - 1
        ensures Stamped(ms, clock)[k] == Stamp(clock(k), ms[k])
      {
        assert init[k] == ms[k];
      }
    }
  }

  const WorkerErrorPrefix := "Download error: "

  /** Everything the download worker puts on the queue: the download's own log, plus the worker's line when it raised. */
  function WorkerLog(run: LibraryRun, basename: string -> string): (r: seq<string>) {
    DownloadLog(run, basename) +
    match run
    case Completed(_) => []
    case Failed(_, reason) => [WorkerErrorPrefix + reason]
  }

  /**
   * Once the worker's log is consumed, the flag is set exactly when the
   * download returned normally (its SUCCESS line is a marker), or the library
   * relayed a marker, or the exception's text carries one.
   */
  lemma WorkerLogSignals(run: LibraryRun, basename: string -> string)
    ensures SawSuccess(WorkerLog(run, basename)) <==>
      run.Completed? || SawSuccess(Emitted(run.events, basename)) ||
      (run.Failed? && (IsSuccessMessage(FailedPrefix + run.reason) || IsSuccessMessage(WorkerErrorPrefix + run.reason)))
  {
    var e := Emitted(run.events, basename);
    match run
    case Completed(_) =>
      assert WorkerLog(run, basename) == e + [SuccessLine];
      SawSuccessAppend(e, [SuccessLine]);
      SawSuccessSingle(SuccessLine);
      SuccessLineSignals();
    case Failed(_, reason) =>
      var x, y := FailedPrefix + reason, WorkerErrorPrefix + reason;
      assert WorkerLog(run, basename) == (e + [x]) + [y];
      SawSuccessAppend(e + [x], [y]);
      SawSuccessAppend(e, [x]);
      SawSuccessSingle(x);
      SawSuccessSingle(y);
  }

  /**
   * A download that raises after the library logged a success marker at
   * info, warning or error level still leaves a success marker in the
   * worker's log.
   */
  lemma LoggedSuccessSurvivesRaise(run: LibraryRun, basename: string -> string, i: nat, m: string)
    requires run.Failed? && i < |run.events| && IsSuccessMessage(m)
    requires run.events[i] in {LogInfo(m), LogWarning(m), LogError(m)}
    ensures SawSuccess(WorkerLog(run, basename))
  {
    var events := run.events;
    var before, after := events[..i], events[i + 1..];
    assert events == before + [events[i]] + after;
    EmittedAppend(before + [events[i]], after, basename);
    EmittedAppend(before, [events[i]], basename);
    var line := EventEntries(events[i], basename);
    assert Emitted([events[i]], basename) == line by {
      assert [events[i]][..0] == [];
    }
    RelayedSuccess(events[i], m, basename);
    SawSuccessSingle(line[0]);
    SawSuccessAppend(Emitted(before, basename), line);
    SawSuccessAppend(Emitted(before, basename) + line, Emitted(after, basename));
    WorkerLogSignals(run, basename);
  }

  /** A success message logged at info, warning or error level is relayed as one line that is still a success message. */
  lemma RelayedSuccess(e: LibraryEvent, m: string, basename: string -> string)
    requires e in {LogInfo(m), LogWarning(m), LogError(m)} && IsSuccessMessage(m)
    ensures |EventEntries(e, basename)| == 1 && IsSuccessMessage(EventEntries(e, basename)[0])
  {
    match e
    case LogInfo(_) => TaggedSuccess(InfoTag, m);
    case LogWarning(_) => TaggedSuccess(WarningTag, m);
    case LogError(_) => TaggedSuccess(ErrorTag, m);
  }

  /** How on_download_complete is called: whether the worker succeeded, and the error text otherwise. */
  datatype Completion = Completion(success: bool, error: Option<string>)

  /** The message boxes start_download may show instead of starting, or that it started. */
  datatype StartResult = MissingUrl | MissingFfmpegPath | FfmpegNotFound | Started

  const Rule := "\n" + Repeat('=', 50) + "\n"

  /** Python's `c * n` for a one-character string `c`. */
  function Repeat(c: char, n: nat): (r: string)
    ensures |r| == n && forall i | 0 <= i < n :: r[i] == c
  {
    if n == 0 then [] else [c] + Repeat(c, n - 1)
  }

  /** Python's `f"{error}"` for an optional error text. */
  function ErrorText(error: Option<string>): (text: string) {
    error.GetOr("None")
  }

  function CompletionLines(ok: bool, error: Option<string>): (lines: seq<string>) {
    if ok then [Rule, "DOWNLOAD COMPLETED SUCCESSFULLY!\n", "Check your output directory for the downloaded file.\n"]
    else [Rule, "DOWNLOAD FAILED: " + ErrorText(error) + "\n"]
  }

  function StartLines(url: string, directory: string, ffmpegPath: string): (lines: seq<string>) {
    ["Starting download for: " + url + "\n", "Output directory: " + directory + "\n",
     "FFmpeg path: " + ffmpegPath + "\n", Repeat('-', 50) + "\n"]
  }

  function ValidationStatus(valid: bool): (status: string) {
    if valid then "FFmpeg found and ready to use" else "FFmpeg not found. Please locate FFmpeg installation."
  }

  class App {
    const queue: LogQueue
    var ffmpegPath: string
    var downloadSuccess: bool
    var shown: seq<string>
    var status: string
    var downloadEnabled: bool

    /** `__init__`: locate the default FFmpeg path, start with an empty queue and no success, and validate that path. */
    constructor (h: Host)
      ensures fresh(queue) && queue.items == []
      ensures ffmpegPath == Located(h)
      ensures !downloadSuccess && shown == []
      ensures downloadEnabled == CheckFfmpegInstallation(h.probe(ffmpegPath))
      ensures status == ValidationStatus(downloadEnabled)
    {
      var path := GetDefaultFfmpegPath(h);
      ffmpegPath := path;
      queue := new LogQueue();
      downloadSuccess := false;
      shown := [];
      var valid := CheckFfmpegInstallation(h.probe(path));
      status := ValidationStatus(valid);
      downloadEnabled := valid;
    }

    /** validate_ffmpeg, given the outcome of running the path in the form with `-version`: it enables the button exactly when that path works. */
    method ValidateFfmpeg(probe: ProbeOutcome)
      modifies this
      ensures downloadEnabled == CheckFfmpegInstallation(probe)
      ensures status == ValidationStatus(downloadEnabled)
      ensures ffmpegPath == old(ffmpegPath) && downloadSuccess == old(downloadSuccess) && shown == old(shown)
    {
      var valid := CheckFfmpegInstallation(probe);
      status := ValidationStatus(valid);
      downloadEnabled := valid;
    }

    /** One pass of consume_logs: take the next message, latch the success flag on a marker, and show it stamped. */
    method ProcessNext(timestamp: string) returns (delivered: bool)
      modifies this, queue
      ensures delivered == (old(queue.items) != [])
      ensures queue.items == if delivered then old(queue.items)[1..] else []
      ensures downloadSuccess == (old(downloadSuccess) || (delivered && IsSuccessMessage(old(queue.items)[0])))
      ensures shown == old(shown) + if delivered then [Stamp(timestamp, old(queue.items)[0])] else []
      ensures ffmpegPath == old(ffmpegPath) && status == old(status) && downloadEnabled == old(downloadEnabled)
    {
      var message := queue.Get();
      delivered := message.Some?;
      if delivered {
        if Contains(message.value, SuccessMarker) || Contains(Lower(message.value), "completed successfully") {
          downloadSuccess := true;
        }
        shown := shown + [Stamp(timestamp, message.value)];
      }
    }

    /**
     * The consumer run until the queue is empty: every queued message is shown
     * once, in order, and the flag ends set exactly when it was already set or
     * one of them is a success message.
     */
    method Drain(clock: nat -> string)
      modifies this, queue
      ensures queue.items == []
      ensures shown == old(shown) + Stamped(old(queue.items), clock)
      ensures downloadSuccess == (old(downloadSuccess) || SawSuccess(old(queue.items)))
      ensures ffmpegPath == old(ffmpegPath) && status == old(status) && downloadEnabled == old(downloadEnabled)
    {
      ghost var pending := queue.items;
      var k := 0;
      while queue.items != []
        invariant 0 <= k <= |pending| && queue.items == pending[k..]
        invariant shown == old(shown) + Stamped(pending[..k], clock)
        invariant downloadSuccess == (old(downloadSuccess) || SawSuccess(pending[..k]))
        invariant ffmpegPath == old(ffmpegPath) && status == old(status) && downloadEnabled == old(downloadEnabled)
        decreases |queue.items|
      {
        DrainStep(pending, k, clock);
        var _ := ProcessNext(clock(k));
        AppendAssociates(old(shown), Stamped(pending[..k], clock), [Stamp(clock(k), pending[k])]);
        k := k + 1;
      }
      assert pending[..k] == pending;
    }

    /** clear_logs: empty the log panel and forget any success seen so far. */
    method ClearLogs()
      modifies this
      ensures shown == [] && !downloadSuccess
      ensures ffmpegPath == old(ffmpegPath) && status == old(status) && downloadEnabled == old(downloadEnabled)
    {
      shown := [];
      downloadSuccess := false;
    }

    /**
     * start_download's checks and set-up, given the stripped form fields and
     * the outcome of running the FFmpeg field with `-version`. It refuses an
     * empty URL, an empty FFmpeg field and an FFmpeg that does not work, in
     * that order, changing nothing; otherwise it clears the log and the flag,
     * disables the button and shows the four header lines.
     */
    method StartDownload(url: string, directory: string, ffmpegEntry: string, probe: ProbeOutcome)
      returns (r: StartResult)
      modifies this
      ensures url == "" ==> r == MissingUrl
      ensures url != "" && ffmpegEntry == "" ==> r == MissingFfmpegPath
      ensures url != "" && ffmpegEntry != "" && !CheckFfmpegInstallation(probe) ==> r == FfmpegNotFound
      ensures r == Started <==> url != "" && ffmpegEntry != "" && CheckFfmpegInstallation(probe)
      ensures r != Started ==> unchanged(this)
      ensures r == Started ==>
        !downloadSuccess && !downloadEnabled && status == "Downloading..." &&
        shown == StartLines(url, if directory == "" then "." else directory, ffmpegEntry) &&
        ffmpegPath == old(ffmpegPath)
    {
      var dir := if directory == "" then "." else directory;
      if url == "" {
        return MissingUrl;
      }
      if ffmpegEntry == "" {
        return MissingFfmpegPath;
      }
      if !CheckFfmpegInstallation(probe) {
        return FfmpegNotFound;
      }
      ClearLogs();
      downloadEnabled := false;
      status := "Downloading...";
      shown := shown + StartLines(url, dir, ffmpegEntry);
      r := Started;
    }

    /** download_thread: run the download; when it raises, add the worker's own error line and report the failure. */
    method DownloadThread(run: LibraryRun, basename: string -> string) returns (c: Completion)
      modifies queue
      ensures queue.items == old(queue.items) + WorkerLog(run, basename)
      ensures c == if run.Completed? then Completion(true, None) else Completion(false, Some(run.reason))
    {
      var r := DownloadHighestResolution(queue, run, basename);
      match r
      case Normal(_) =>
        c := Completion(true, None);
      case Raised(e) =>
        queue.Put(WorkerErrorPrefix + e);
        c := Completion(false, Some(e));
    }

    /**
     * on_download_complete: the verdict is success when the worker succeeded
     * or the consumer has seen a success message; the button is enabled again
     * and the matching banner is shown.
     */
    method OnDownloadComplete(c: Completion) returns (ok: bool)
      modifies this
      ensures ok == (c.success || old(downloadSuccess))
      ensures downloadEnabled
      ensures status == if ok then "Download completed successfully!" else "Error: " + ErrorText(c.error)
      ensures shown == old(shown) + CompletionLines(ok, c.error)
      ensures downloadSuccess == old(downloadSuccess) && ffmpegPath == old(ffmpegPath)
    {
      downloadEnabled := true;
      ok := c.success || downloadSuccess;
      if ok {
        status := "Download completed successfully!";
      } else {
        status := "Error: " + ErrorText(c.error);
      }
      shown := shown + CompletionLines(ok, c.error);
    }

    /**
     * One session in the interleaving where the consumer drains the queue
     * before on_download_complete runs: a download that starts, whose library
     * call logs a success message at info, warning or error level and then
     * raises, is still reported as a success, and the button is enabled again.
     */
    method SucceedsDespiteRaise(url: string, directory: string, ffmpegEntry: string, probe: ProbeOutcome,
                                run: LibraryRun, basename: string -> string, clock: nat -> string, i: nat, m: string)
      returns (ok: bool)
      requires url != "" && ffmpegEntry != "" && CheckFfmpegInstallation(probe)
      requires run.Failed? && i < |run.events| && IsSuccessMessage(m)
      requires run.events[i] in {LogInfo(m), LogWarning(m), LogError(m)}
      modifies this, queue
      ensures ok && downloadEnabled && status == "Download completed successfully!"
    {
      var started := StartDownload(url, directory, ffmpegEntry, probe);
      ghost var before := queue.items;
      var c := DownloadThread(run, basename);
      LoggedSuccessSurvivesRaise(run, basename, i, m);
      SawSuccessAppend(before, WorkerLog(run, basename));
      Drain(clock);
      ok := OnDownloadComplete(c);
    }
  }
}
