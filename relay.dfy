/**
 * The log producers of download.py: the shared FIFO log queue, the logger
 * adapter handed to the download library (CustomLogger), the progress hook
 * (ProgressHook) with its ETA text, and download_highest_resolution, which
 * wires both to the library call and reports its outcome on the queue.
 */
module Relay {
  import opened Wrappers
  import opened Text

  /** queue.Queue of log strings: unbounded, first in first out. */
  class LogQueue {
    var items: seq<string>

    constructor ()
      ensures items == []
    {
      items := [];
    }

    /** `put`: append at the back. */
    method Put(m: string)
      modifies this
      ensures items == old(items) + [m]
    {
      items := items + [m];
    }

    /** `get(timeout=...)`: the front message, or nothing when the queue is empty (queue.Empty). */
    method Get() returns (m: Option<string>)
      modifies this
      ensures old(items) == [] ==> m == None && items == []
      ensures old(items) != [] ==> m == Some(old(items)[0]) && items == old(items)[1..]
    {
      if items == [] {
        m := None;
      } else {
        m := Some(items[0]);
        items := items[1..];
      }
    }
  }

  const DebugTag := "[DEBUG] "
  const MergeTag := "[MERGE] "
  const ConvertTag := "[CONVERT] "
  const CleanupTag := "[CLEANUP] "
  const InfoTag := "[INFO] "
  const WarningTag := "[WARNING] "
  const ErrorTag := "[ERROR] "
  const DownloadTag := "[DOWNLOAD] "
  const FinishedTag := "[FINISHED] "
  const SuccessMarker := "[SUCCESS]"
  const SuccessLine := SuccessMarker + " Download and processing completed successfully!"
  const FailedPrefix := "[ERROR] Download failed: "

  /** The debug routing table: a message containing the marker is relayed with the tag; the first matching row decides. */
  const DebugRules: seq<(string, string)> := [
    ("[download]", DebugTag),
    ("[Merger]", MergeTag),
    ("[VideoConvertor]", ConvertTag),
    ("Deleting", CleanupTag)
  ]

  /** First-match routing of `msg` through `rules`: the tagged message of the first row whose marker occurs, or nothing. */
  function Route(rules: seq<(string, string)>, msg: string): (r: seq<string>)
    ensures |r| <= 1
    ensures r != [] ==> exists i | 0 <= i < |rules| :: r[0] == rules[i].1 + msg
    decreases |rules|
  {
    if rules == [] then []
    else if Contains(msg, rules[0].0) then [rules[0].1 + msg]
    else
      var r := Route(rules[1..], msg);
      assert r != [] ==> exists i | 0 <= i < |rules| :: r[0] == rules[i].1 + msg by {
        if r != [] {
          var k :| 0 <= k < |rules[1..]| && r[0] == rules[1..][k].1 + msg;
          assert rules[1..][k] == rules[k + 1];
        }
      }
      r
  }

  ghost predicate FirstMatchAt(rules: seq<(string, string)>, msg: string, i: int) {
    0 <= i < |rules| && Contains(msg, rules[i].0) &&
    forall j | 0 <= j < i :: !Contains(msg, rules[j].0)
  }

  lemma {:induction false} RouteFinds(rules: seq<(string, string)>, msg: string, i: int)
    requires FirstMatchAt(rules, msg, i)
    ensures Route(rules, msg) == [rules[i].1 + msg]
    decreases i
  {
    if i > 0 {
      assert !Contains(msg, rules[0].0);
      forall j | 0 <= j < i - 1
        ensures !Contains(msg, rules[1..][j].0)
      {
        assert rules[1..][j] == rules[j + 1];
      }
      RouteFinds(rules[1..], msg, i - 1);
    }
  }

  lemma {:induction false} RouteDrops(rules: seq<(string, string)>, msg: string)
    requires forall j | 0 <= j < |rules| :: !Contains(msg, rules[j].0)
    ensures Route(rules, msg) == []
    decreases |rules|
  {
    if rules != [] {
      assert !Contains(msg, rules[0].0);
      forall j | 0 <= j < |rules| - 1
        ensures !Contains(msg, rules[1..][j].0)
      {
        assert rules[1..][j] == rules[j + 1];
      }
      RouteDrops(rules[1..], msg);
    }
  }

  /** What CustomLogger.debug relays for `msg`. */
  function DebugEntries(msg: string): (r: seq<string>) {
    Route(DebugRules, msg)
  }

  /**
   * CustomLogger.debug routes by the first marker that occurs, in the order
   * `[download]`, `[Merger]`, `[VideoConvertor]`, `Deleting`, and drops a
   * message that has none of them.
   */
  lemma DebugFirstMatch(msg: string)
    ensures Contains(msg, "[download]") ==> DebugEntries(msg) == [DebugTag + msg]
    ensures !Contains(msg, "[download]") && Contains(msg, "[Merger]") ==>
      DebugEntries(msg) == [MergeTag + msg]
    ensures !Contains(msg, "[download]") && !Contains(msg, "[Merger]") && Contains(msg, "[VideoConvertor]") ==>
      DebugEntries(msg) == [ConvertTag + msg]
    ensures (!Contains(msg, "[download]") && !Contains(msg, "[Merger]") && !Contains(msg, "[VideoConvertor]") &&
             Contains(msg, "Deleting")) ==> DebugEntries(msg) == [CleanupTag + msg]
    ensures (!Contains(msg, "[download]") && !Contains(msg, "[Merger]") && !Contains(msg, "[VideoConvertor]") &&
             !Contains(msg, "Deleting")) ==> DebugEntries(msg) == []
  {
    if Contains(msg, "[download]") {
      RouteFinds(DebugRules, msg, 0);
    } else if Contains(msg, "[Merger]") {
      RouteFinds(DebugRules, msg, 1);
    } else if Contains(msg, "[VideoConvertor]") {
      RouteFinds(DebugRules, msg, 2);
    } else if Contains(msg, "Deleting") {
      RouteFinds(DebugRules, msg, 3);
    } else {
      RouteDrops(DebugRules, msg);
    }
  }

  /** A `[download]` debug line that reports completion: it contains `100%` or, in any letter case, `finished`. */
  predicate ReportsFinished(msg: string) {
    Contains(msg, "[download]") && (Contains(msg, "100%") || Contains(Lower(msg), "finished"))
  }

  /** The `logger` object handed to the download library. */
  class CustomLogger {
    const queue: LogQueue
    var downloadFinished: bool

    constructor (q: LogQueue)
      ensures queue == q && !downloadFinished
    {
      queue := q;
      downloadFinished := false;
    }

    /** Relays `msg` by its first marker and latches `downloadFinished` on a completion line; it never clears the flag. */
    method Debug(msg: string)
      modifies this, queue
      ensures queue.items == old(queue.items) + DebugEntries(msg)
      ensures downloadFinished == (old(downloadFinished) || ReportsFinished(msg))
    {
      DebugFirstMatch(msg);
      if Contains(msg, "[download]") {
        if Contains(msg, "100%") || Contains(Lower(msg), "finished") {
          downloadFinished := true;
        }
        queue.Put(DebugTag + msg);
      } else if Contains(msg, "[Merger]") {
        queue.Put(MergeTag + msg);
      } else if Contains(msg, "[VideoConvertor]") {
        queue.Put(ConvertTag + msg);
      } else if Contains(msg, "Deleting") {
        queue.Put(CleanupTag + msg);
      }
    }

    method Info(msg: string)
      modifies queue
      ensures queue.items == old(queue.items) + [InfoTag + msg]
    {
      queue.Put(InfoTag + msg);
    }

    method Warning(msg: string)
      modifies queue
      ensures queue.items == old(queue.items) + [WarningTag + msg]
    {
      queue.Put(WarningTag + msg);
    }

    method Error(msg: string)
      modifies queue
      ensures queue.items == old(queue.items) + [ErrorTag + msg]
    {
      queue.Put(ErrorTag + msg);
    }
  }

  /**
   * The keys of the progress dictionary the hook reads. An absent key and a
   * key whose value is falsy-None are both `None`.
   */
  datatype ProgressInfo = ProgressInfo(
    status: string,
    totalBytes: Option<int>,
    totalBytesEstimate: Option<int>,
    eta: Option<int>,
    filename: Option<string>,
    error: Option<string>)

  /**
   * The floating-point renderings in a progress line, taken as given:
   * `(downloaded / total) * 100` with `.1f` and the speed in MB/s with `.2f`.
   */
  datatype FloatText = FloatText(percent: string, speedMb: string)

  /** `d.get('total_bytes') or d.get('total_bytes_estimate', 0)`: a missing or zero exact size falls back to the estimate. */
  function TotalSize(d: ProgressInfo): (total: int) {
    if d.totalBytes.Some? && d.totalBytes.value != 0 then d.totalBytes.value
    else d.totalBytesEstimate.GetOr(0)
  }

  /** The file name shown: the default `Unknown file` as is, any other name through `basename`. */
  function Display(filename: Option<string>, basename: string -> string): (shown: string) {
    var f := filename.GetOr("Unknown file");
    if f == "Unknown file" then f else basename(f)
  }

  /** The ETA text: `Unknown` for a missing or zero ETA, else `{eta//60:02d}:{eta%60:02d}`. */
  function EtaText(eta: Option<int>): (r: string) {
    if eta.None? || eta.value == 0 then "Unknown"
    else
      var e := eta.value;
      Pad2(e / 60) + ":" + Pad2(e % 60)
  }

  /**
   * The ETA text of a non-zero ETA reads back as that ETA: a minutes field of
   * at least two characters, a colon, and exactly two digits of seconds below
   * 60, with minutes * 60 + seconds equal to the ETA. It is never `Unknown`.
   */
  lemma EtaRoundTrip(e: int)
    requires e != 0
    ensures var r := EtaText(Some(e)); var k := |r| - 3;
      |r| >= 5 && r[k] == ':' && r != "Unknown" &&
      IsIntText(r[..k]) && AllDigits(r[k + 1..]) && |r[k + 1..]| == 2 &&
      DigitsValue(r[k + 1..]) < 60 &&
      SignedValue(r[..k]) * 60 + DigitsValue(r[k + 1..]) == e
  {
    var m, s := e / 60, e % 60;
    Pad2RoundTrip(m);
    Pad2RoundTrip(s);
    var r := EtaText(Some(e));
    assert r == Pad2(m) + ":" + Pad2(s);
    var k := |r| - 3;
    assert r[..k] == Pad2(m);
    assert r[k + 1..] == Pad2(s);
    assert DigitsValue(Pad2(s)) == s by {
      assert Pad2(s)[0] != '-';
    }
  }

  function DownloadLine(file: string, text: FloatText, eta: string): (line: string) {
    DownloadTag + (file + " - " + text.percent + "% | Speed: " + text.speedMb + " MB/s | ETA: " + eta)
  }

  /** What one call of the progress hook relays. */
  function HookEntries(d: ProgressInfo, text: FloatText, basename: string -> string): (r: seq<string>) {
    if d.status == "downloading" then
      if TotalSize(d) > 0 then [DownloadLine(Display(d.filename, basename), text, EtaText(d.eta))] else []
    else if d.status == "finished" then [FinishedTag + Display(d.filename, basename)]
    else if d.status == "error" then [ErrorTag + d.error.GetOr("Unknown error")]
    else []
  }

  /** The number of relayed lines that start with `tag`. */
  function CountTagged(log: seq<string>, tag: string): (n: nat)
    decreases |log|
  {
    if log == [] then 0
    else CountTagged(log[..|log| - 1], tag) + (if tag <= log[|log| - 1] then 1 else 0)
  }

  lemma {:induction false} CountTaggedAppend(a: seq<string>, b: seq<string>, tag: string)
    ensures CountTagged(a + b, tag) == CountTagged(a, tag) + CountTagged(b, tag)
    decreases |b|
  {
    if b != [] {
      var b' := b[..|b| - 1];
      assert (a + b)[..|a + b| - 1] == a + b';
      assert (a + b)[|a + b| - 1] == b[|b| - 1];
      CountTaggedAppend(a, b', tag);
    } else {
      assert a + b == a;
    }
  }

  /** A single line tagged `t` counts as finished exactly when `t` is the `[FINISHED] ` tag. */
  lemma TaggedLineCount(t: string, rest: string)
    requires t == FinishedTag || (|t| >= 2 && t[1] != FinishedTag[1])
    ensures CountTagged([t + rest], FinishedTag) == if t == FinishedTag then 1 else 0
  {
    var log := [t + rest];
    assert log[..0] == [];
    if t == FinishedTag {
      assert (t + rest)[..|t|] == t;
    } else {
      assert (t + rest)[1] == t[1];
    }
  }

  /** Each call of the hook relays one `[FINISHED] ` line exactly when it counts a finished file. */
  lemma HookFinishedEntry(d: ProgressInfo, text: FloatText, basename: string -> string)
    ensures CountTagged(HookEntries(d, text, basename), FinishedTag) == if d.status == "finished" then 1 else 0
  {
    var file := Display(d.filename, basename);
    if d.status == "downloading" {
      if TotalSize(d) > 0 {
        TaggedLineCount(DownloadTag, file + " - " + text.percent + "% | Speed: " + text.speedMb + " MB/s | ETA: " +
          EtaText(d.eta));
      }
    } else if d.status == "finished" {
      TaggedLineCount(FinishedTag, file);
    } else if d.status == "error" {
      TaggedLineCount(ErrorTag, d.error.GetOr("Unknown error"));
    }
  }

  /** The dictionary-driven callback registered in `progress_hooks`. */
  class ProgressHook {
    const queue: LogQueue
    var filesFinished: int
    var totalFiles: int

    constructor (q: LogQueue)
      ensures queue == q && filesFinished == 0 && totalFiles == 0
    {
      queue := q;
      filesFinished := 0;
      totalFiles := 0;
    }

    /**
     * `__call__`: a `downloading` report relays one progress line when the
     * size is known and positive; `finished` relays one line and counts the
     * file; `error` relays one line; any other status does nothing.
     */
    method Call(d: ProgressInfo, text: FloatText, basename: string -> string)
      modifies this, queue
      ensures queue.items == old(queue.items) + HookEntries(d, text, basename)
      ensures filesFinished == old(filesFinished) + (if d.status == "finished" then 1 else 0)
      ensures totalFiles == old(totalFiles)
    {
      if d.status == "downloading" {
        var total := TotalSize(d);
        if total > 0 {
          var etaStr := EtaText(d.eta);
          var fileDisplay := Display(d.filename, basename);
          queue.Put(DownloadLine(fileDisplay, text, etaStr));
        }
      } else if d.status == "finished" {
        var fileDisplay := Display(d.filename, basename);
        queue.Put(FinishedTag + fileDisplay);
        filesFinished := filesFinished + 1;
      } else if d.status == "error" {
        queue.Put(ErrorTag + d.error.GetOr("Unknown error"));
      }
    }
  }

  /** One callback the download library makes while `ydl.download` runs. */
  datatype LibraryEvent =
    | LogDebug(msg: string)
    | LogInfo(msg: string)
    | LogWarning(msg: string)
    | LogError(msg: string)
    | Progress(d: ProgressInfo, text: FloatText)

  /** How `ydl.download([url])` goes: the callbacks it makes, then a normal return or an exception with its text. */
  datatype LibraryRun =
    | Completed(events: seq<LibraryEvent>)
    | Failed(events: seq<LibraryEvent>, reason: string)

  /** A Python call that returns a value or raises an exception whose `str` is `reason`. */
  datatype Raise<T> = Normal(value: T) | Raised(reason: string)

  function EventEntries(e: LibraryEvent, basename: string -> string): (r: seq<string>) {
    match e
    case LogDebug(m) => DebugEntries(m)
    case LogInfo(m) => [InfoTag + m]
    case LogWarning(m) => [WarningTag + m]
    case LogError(m) => [ErrorTag + m]
    case Progress(d, text) => HookEntries(d, text, basename)
  }

  /** What the logger and hook relay, in order, for a sequence of library callbacks. */
  function Emitted(events: seq<LibraryEvent>, basename: string -> string): (r: seq<string>)
    decreases |events|
  {
    if events == [] then []
    else Emitted(events[..|events| - 1], basename) + EventEntries(events[|events| - 1], basename)
  }

  lemma {:induction false} EmittedAppend(a: seq<LibraryEvent>, b: seq<LibraryEvent>, basename: string -> string)
    ensures Emitted(a + b, basename) == Emitted(a, basename) + Emitted(b, basename)
    decreases |b|
  {
    if b == [] {
      assert a + b == a;
    } else {
      var b' := b[..|b| - 1];
      assert (a + b)[..|a + b| - 1] == a + b';
      assert (a + b)[|a + b| - 1] == b[|b| - 1];
      EmittedAppend(a, b', basename);
    }
  }

  function FinishedReports(events: seq<LibraryEvent>): (n: nat)
    decreases |events|
  {
    if events == [] then 0
    else
      var e := events[|events| - 1];
      FinishedReports(events[..|events| - 1]) + FinishedReport(e)
  }

  /**
   * Over a whole download, the number of `[FINISHED] ` lines relayed equals the
   * number of `finished` reports, which is how far the hook's `filesFinished`
   * counter advances.
   */
  lemma {:induction false} FinishedLinesMatchCounter(events: seq<LibraryEvent>, basename: string -> string)
    ensures CountTagged(Emitted(events, basename), FinishedTag) == FinishedReports(events)
    decreases |events|
  {
    if events != [] {
      var init, e := events[..|events| - 1], events[|events| - 1];
      FinishedLinesMatchCounter(init, basename);
      CountTaggedAppend(Emitted(init, basename), EventEntries(e, basename), FinishedTag);
      match e
      case Progress(d, text) => HookFinishedEntry(d, text, basename);
      case LogDebug(m) => DebugNotFinished(m);
      case LogInfo(m) => TaggedLineCount(InfoTag, m);
      case LogWarning(m) => TaggedLineCount(WarningTag, m);
      case LogError(m) => TaggedLineCount(ErrorTag, m);
    }
  }

  /** No debug line is relayed with the `[FINISHED] ` tag. */
  lemma DebugNotFinished(m: string)
    ensures CountTagged(DebugEntries(m), FinishedTag) == 0
  {
    var r := DebugEntries(m);
    if r != [] {
      var i :| 0 <= i < |DebugRules| && r[0] == DebugRules[i].1 + m;
      assert r == [DebugRules[i].1 + m];
      TaggedLineCount(DebugRules[i].1, m);
    }
  }

  /** Everything download_highest_resolution puts on the queue for `run`. */
  function DownloadLog(run: LibraryRun, basename: string -> string): (r: seq<string>) {
    Emitted(run.events, basename) +
    match run
    case Completed(_) => [SuccessLine]
    case Failed(_, reason) => [FailedPrefix + reason]
  }

  /** A debug callback whose line latches the logger's completion flag. */
  predicate FinishesLog(e: LibraryEvent) {
    e.LogDebug? && ReportsFinished(e.msg)
  }

  /** Some callback of the run latches the flag. */
  predicate AnyReportsFinished(events: seq<LibraryEvent>)
    decreases |events|
  {
    events != [] && (AnyReportsFinished(events[..|events| - 1]) || FinishesLog(events[|events| - 1]))
  }

  /** The flag latches exactly when some debug callback reports completion. */
  lemma {:induction false} AnyReportsFinishedExists(events: seq<LibraryEvent>)
    ensures AnyReportsFinished(events) <==> exists i | 0 <= i < |events| :: FinishesLog(events[i])
    decreases |events|
  {
    if events != [] {
      var init := events[..|events| - 1];
      AnyReportsFinishedExists(init);
      assert forall k | 0 <= k < |init| :: init[k] == events[k];
    }
  }

  /** What one more callback adds to the relayed lines, the counter and the flag. */
  lemma ReplayStep(events: seq<LibraryEvent>, i: nat, basename: string -> string)
    requires i < |events|
    ensures Emitted(events[..i + 1], basename) == Emitted(events[..i], basename) + EventEntries(events[i], basename)
    ensures FinishedReports(events[..i + 1]) == FinishedReports(events[..i]) + FinishedReport(events[i])
    ensures AnyReportsFinished(events[..i + 1]) == (AnyReportsFinished(events[..i]) || FinishesLog(events[i]))
  {
    var pre, ext := events[..i], events[..i + 1];
    assert ext[..i] == pre;
    assert ext[i] == events[i];
  }

  /** 1 for a `finished` progress report, else 0. */
  function FinishedReport(e: LibraryEvent): (n: nat) {
    if e.Progress? && e.d.status == "finished" then 1 else 0
  }

  /** One callback, dispatched to the logger or the hook as yt-dlp does with `logger` and `progress_hooks`. */
  method Dispatch(logger: CustomLogger, hook: ProgressHook, e: LibraryEvent, basename: string -> string)
    requires hook.queue == logger.queue
    modifies logger, hook, logger.queue
    ensures logger.queue.items == old(logger.queue.items) + EventEntries(e, basename)
    ensures hook.filesFinished == old(hook.filesFinished) + FinishedReport(e)
    ensures hook.totalFiles == old(hook.totalFiles)
    ensures logger.downloadFinished == (old(logger.downloadFinished) || FinishesLog(e))
  {
    match e {
      case LogDebug(m) => logger.Debug(m);
      case LogInfo(m) => logger.Info(m);
      case LogWarning(m) => logger.Warning(m);
      case LogError(m) => logger.Error(m);
      case Progress(d, text) => hook.Call(d, text, basename);
    }
  }

  /**
   * Dispatching `events[i]` after `events[..i]` have been dispatched from the
   * state (`items0`, `finished0`, `flag0`) leaves the state `events[..i + 1]`
   * produces from it.
   */
  method DispatchNext(logger: CustomLogger, hook: ProgressHook, events: seq<LibraryEvent>, i: nat, basename: string -> string,
                      ghost items0: seq<string>, ghost finished0: int, ghost flag0: bool)
    requires i < |events| && hook.queue == logger.queue
    requires logger.queue.items == items0 + Emitted(events[..i], basename)
    requires hook.filesFinished == finished0 + FinishedReports(events[..i])
    requires logger.downloadFinished == (flag0 || AnyReportsFinished(events[..i]))
    modifies logger, hook, logger.queue
    ensures logger.queue.items == items0 + Emitted(events[..i + 1], basename)
    ensures hook.filesFinished == finished0 + FinishedReports(events[..i + 1])
    ensures hook.totalFiles == old(hook.totalFiles)
    ensures logger.downloadFinished == (flag0 || AnyReportsFinished(events[..i + 1]))
  {
    ReplayStep(events, i, basename);
    ghost var added := EventEntries(events[i], basename);
    Dispatch(logger, hook, events[i], basename);
    assert logger.queue.items == (items0 + Emitted(events[..i], basename)) + added;
    AppendAssociates(items0, Emitted(events[..i], basename), added);
  }

  lemma AppendAssociates<T>(a: seq<T>, b: seq<T>, c: seq<T>)
    ensures (a + b) + c == a + (b + c)
  {
  }

  /**
   * The library's callbacks during `ydl.download`, each dispatched to the
   * logger or the hook that share one queue: the queue grows by the relayed
   * lines in callback order, the hook counts the `finished` reports, and the
   * logger's flag latches on a completion line.
   */
  method Replay(logger: CustomLogger, hook: ProgressHook, events: seq<LibraryEvent>, basename: string -> string)
    requires hook.queue == logger.queue
    modifies logger, hook, logger.queue
    ensures logger.queue.items == old(logger.queue.items) + Emitted(events, basename)
    ensures hook.filesFinished == old(hook.filesFinished) + FinishedReports(events)
    ensures hook.totalFiles == old(hook.totalFiles)
    ensures logger.downloadFinished == (old(logger.downloadFinished) || AnyReportsFinished(events))
  {
    var q := logger.queue;
    ghost var items0, finished0, flag0 := q.items, hook.filesFinished, logger.downloadFinished;
    var i := 0;
    while i < |events|
      invariant 0 <= i <= |events|
      invariant q.items == items0 + Emitted(events[..i], basename)
      invariant hook.filesFinished == finished0 + FinishedReports(events[..i])
      invariant hook.totalFiles == old(hook.totalFiles)
      invariant logger.downloadFinished == (flag0 || AnyReportsFinished(events[..i]))
    {
      DispatchNext(logger, hook, events, i, basename, items0, finished0, flag0);
      i := i + 1;
    }
    assert events[..|events|] == events;
  }

  /**
   * download_highest_resolution: with a queue, the library's callbacks are
   * relayed through a fresh logger and hook, then SUCCESS is enqueued on a
   * normal return, or an ERROR line before the exception is re-raised. Without
   * a queue nothing is enqueued.
   */
  method DownloadHighestResolution(q: LogQueue?, run: LibraryRun, basename: string -> string)
    returns (r: Raise<bool>)
    modifies q
    ensures r == if run.Completed? then Normal(true) else Raised(run.reason)
    ensures q != null ==> q.items == old(q.items) + DownloadLog(run, basename)
  {
    if q != null {
      var logger := new CustomLogger(q);
      var hook := new ProgressHook(q);
      Replay(logger, hook, run.events, basename);
    }
    match run
    case Completed(_) =>
      if q != null {
        q.Put(SuccessLine);
      }
      r := Normal(true);
    case Failed(_, reason) =>
      if q != null {
        q.Put(FailedPrefix + reason);
      }
      r := Raised(reason);
  }
}
