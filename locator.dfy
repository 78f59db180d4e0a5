/**
 * The FFmpeg locator of download.py: validating a candidate by running it with
 * `-version`, asking whether the bare `ffmpeg` command works, and choosing the
 * default FFmpeg path shown in the form.
 *
 * The filesystem and the subprocess call are not modelled; a `Host` supplies
 * them as two function values: whether a path exists (`os.path.exists`) and
 * what running `[path, '-version']` with a 5-second timeout ends in.
 */
module Locator {
  import opened Wrappers

  /** How `subprocess.run([path, '-version'], timeout=5)` ends. */
  datatype ProbeOutcome =
    | Exited(code: int)     // the process ran and exited with this status
    | TimedOut              // subprocess.TimeoutExpired
    | NotFound              // FileNotFoundError: no such executable
    | SubprocessFailure     // any other subprocess.SubprocessError
    | OsFailure             // any other OSError, e.g. PermissionError when the path is a directory

  /** What a call of the validity check does: return a boolean, or let an exception escape. */
  datatype CheckResult = Returned(valid: bool) | Propagates

  /**
   * check_ffmpeg_installation as written: only TimeoutExpired, FileNotFoundError
   * and SubprocessError are caught, so any other OSError escapes to the caller.
   */
  function CheckFfmpegInstallationAsWritten(o: ProbeOutcome): (r: CheckResult)
    ensures r.Propagates? <==> o.OsFailure?
    ensures r.Returned? ==> (r.valid <==> o == Exited(0))
  {
    match o
    case Exited(code) => Returned(code == 0)
    case OsFailure => Propagates
    case _ => Returned(false)
  }

  /** A candidate that exists but cannot be executed makes the check as written raise instead of answering "invalid". */
  lemma NonExecutableCandidateRaises()
    ensures CheckFfmpegInstallationAsWritten(OsFailure) == Propagates
    ensures !CheckFfmpegInstallation(OsFailure)
  {
  }

  /**
   * check_ffmpeg_installation as intended: valid exactly when the version query
   * exits with status 0; every failure to run it means "invalid". Wherever the
   * check as written returns, it returns this answer.
   */
  function CheckFfmpegInstallation(o: ProbeOutcome): (valid: bool)
    ensures valid <==> o == Exited(0)
    ensures CheckFfmpegInstallationAsWritten(o).Returned? ==> CheckFfmpegInstallationAsWritten(o).valid == valid
  {
    o.Exited? && o.code == 0
  }

  /** The outside world the locator observes. */
  datatype Host = Host(pathExists: string -> bool, probe: string -> ProbeOutcome)

  const Bare := "ffmpeg"
  const PrimaryDefault := "C:/tools/ffmpeg/bin/ffmpeg.exe"
  const CommonPaths: seq<string> := [
    PrimaryDefault,
    "C:/ffmpeg/bin/ffmpeg.exe",
    "C:/Program Files/ffmpeg/bin/ffmpeg.exe",
    "C:/Program Files (x86)/ffmpeg/bin/ffmpeg.exe"
  ]

  /** Running `path -version` succeeds. */
  predicate Works(h: Host, path: string) {
    CheckFfmpegInstallation(h.probe(path))
  }

  /** The gate each fixed path passes through: it exists and it works. */
  predicate Usable(h: Host, path: string) {
    h.pathExists(path) && Works(h, path)
  }

  /** find_ffmpeg_in_path: the bare command name when `ffmpeg -version` succeeds, and nothing otherwise. */
  function FindFfmpegInPath(h: Host): (r: Option<string>)
    ensures r.Some? <==> h.probe(Bare) == Exited(0)
    ensures r.Some? ==> r.value == Bare
  {
    if Works(h, Bare) then Some(Bare) else None
  }

  /** The first usable path of `paths`, in order. */
  function FirstUsable(h: Host, paths: seq<string>): (r: Option<string>)
    decreases |paths|
  {
    if paths == [] then None
    else if Usable(h, paths[0]) then Some(paths[0])
    else FirstUsable(h, paths[1..])
  }

  /** The path get_default_ffmpeg_path settles on. */
  function Located(h: Host): (path: string) {
    match FindFfmpegInPath(h)
    case Some(p) => p
    case None => FirstUsable(h, CommonPaths).GetOr(PrimaryDefault)
  }

  /**
   * get_default_ffmpeg_path: the bare command if it works, else the primary
   * default if it exists and works, else the first of the other fixed paths
   * that does, else the primary default regardless.
   */
  method GetDefaultFfmpegPath(h: Host) returns (path: string)
    ensures path == Located(h)
  {
    var pathFfmpeg := FindFfmpegInPath(h);
    if pathFfmpeg.Some? {
      return pathFfmpeg.value;
    }
    if h.pathExists(PrimaryDefault) && CheckFfmpegInstallation(h.probe(PrimaryDefault)) {
      return PrimaryDefault;
    }
    var rest := CommonPaths[1..];
    var i := 0;
    while i < |rest|
      invariant 0 <= i <= |rest|
      invariant FirstUsable(h, CommonPaths) == FirstUsable(h, rest[i..])
    {
      if h.pathExists(rest[i]) && CheckFfmpegInstallation(h.probe(rest[i])) {
        return rest[i];
      }
      assert rest[i..][1..] == rest[i + 1..];
      i := i + 1;
    }
    return PrimaryDefault;
  }

  /** `FirstUsable` finds the usable path that comes before every other usable one. */
  lemma {:induction false} FirstUsableFinds(h: Host, paths: seq<string>, i: nat)
    requires i < |paths| && Usable(h, paths[i])
    requires forall j | 0 <= j < i :: !Usable(h, paths[j])
    ensures FirstUsable(h, paths) == Some(paths[i])
    decreases i
  {
    if i > 0 {
      assert !Usable(h, paths[0]);
      forall j | 0 <= j < i - 1
        ensures !Usable(h, paths[1..][j])
      {
        assert paths[1..][j] == paths[j + 1];
      }
      FirstUsableFinds(h, paths[1..], i - 1);
    }
  }

  /** `FirstUsable` only answers with a usable path of the list that no earlier path beats. */
  lemma {:induction false} FirstUsableSound(h: Host, paths: seq<string>)
    ensures FirstUsable(h, paths).None? <==> forall j | 0 <= j < |paths| :: !Usable(h, paths[j])
    ensures FirstUsable(h, paths).Some? ==>
      exists i | 0 <= i < |paths| ::
        paths[i] == FirstUsable(h, paths).value && Usable(h, paths[i]) &&
        forall j | 0 <= j < i :: !Usable(h, paths[j])
    decreases |paths|
  {
    if paths != [] && !Usable(h, paths[0]) {
      FirstUsableSound(h, paths[1..]);
      var tail := paths[1..];
      assert forall j | 0 <= j < |tail| :: tail[j] == paths[j + 1];
      if FirstUsable(h, tail).None? {
        forall j | 0 <= j < |paths|
          ensures !Usable(h, paths[j])
        {
          if j > 0 { assert paths[j] == tail[j - 1]; }
        }
      } else {
        var k :| 0 <= k < |tail| && tail[k] == FirstUsable(h, tail).value && Usable(h, tail[k]) &&
          forall j | 0 <= j < k :: !Usable(h, tail[j]);
        forall j | 0 <= j < k + 1
          ensures !Usable(h, paths[j])
        {
          if j > 0 { assert paths[j] == tail[j - 1]; }
        }
        assert paths[k + 1] == tail[k];
      }
    }
  }

  /**
   * When the bare command works, it wins and no fixed path is consulted: any
   * other host that answers the same for the bare command, whatever its
   * filesystem and its other probes, gets the same answer.
   */
  lemma LocatedPrefersBareCommand(h: Host, other: Host)
    requires Works(h, Bare) && other.probe(Bare) == h.probe(Bare)
    ensures Located(h) == Bare && Located(other) == Bare
  {
  }

  /**
   * Without a working bare command, the locator answers with fixed path `i`
   * exactly when that path is the first usable one, or when `i` is the primary
   * default and no fixed path is usable.
   */
  lemma LocatedFirstUsable(h: Host, i: nat)
    requires !Works(h, Bare) && i < |CommonPaths|
    ensures Located(h) == CommonPaths[i] <==>
      (Usable(h, CommonPaths[i]) && forall j | 0 <= j < i :: !Usable(h, CommonPaths[j])) ||
      (i == 0 && forall j | 0 <= j < |CommonPaths| :: !Usable(h, CommonPaths[j]))
  {
    FirstUsableSound(h, CommonPaths);
    if Usable(h, CommonPaths[i]) && forall j | 0 <= j < i :: !Usable(h, CommonPaths[j]) {
      FirstUsableFinds(h, CommonPaths, i);
    }
  }

  /** The answer is never absent: it is the bare command or one of the fixed paths, the primary default when nothing is usable. */
  lemma LocatedIsCandidate(h: Host)
    ensures Located(h) == Bare || Located(h) in CommonPaths
    ensures !Works(h, Bare) && (forall j | 0 <= j < |CommonPaths| :: !Usable(h, CommonPaths[j])) ==>
      Located(h) == PrimaryDefault
  {
    FirstUsableSound(h, CommonPaths);
  }

  /**
   * What a search as written does: answer, or let the OSError raised while
   * probing the candidate `at` escape.
   */
  datatype Search<T> = Answer(value: T) | Raises(at: string)

  /** A candidate the search as written reaches a probe for, and whose probe raises an uncaught OSError. */
  predicate Escaping(h: Host, path: string) {
    h.pathExists(path) && h.probe(path).OsFailure?
  }

  /**
   * find_ffmpeg_in_path as written: it catches the same three exceptions as
   * check_ffmpeg_installation, so an OSError from running the bare command
   * escapes; otherwise it answers as the corrected search does.
   */
  function FindFfmpegInPathAsWritten(h: Host): (r: Search<Option<string>>)
    ensures r.Raises? <==> h.probe(Bare).OsFailure?
    ensures r.Raises? ==> r.at == Bare
    ensures r.Answer? ==> r.value == FindFfmpegInPath(h)
  {
    match CheckFfmpegInstallationAsWritten(h.probe(Bare))
    case Propagates => Raises(Bare)
    case Returned(v) => Answer(if v then Some(Bare) else None)
  }

  /**
   * The scan over fixed paths as written: `os.path.exists(path) and
   * check_ffmpeg_installation(path)` only probes existing paths, and a probe
   * that raises ends the scan.
   */
  function FirstUsableAsWritten(h: Host, paths: seq<string>): (r: Search<Option<string>>)
    decreases |paths|
  {
    if paths == [] then Answer(None)
    else if !h.pathExists(paths[0]) then FirstUsableAsWritten(h, paths[1..])
    else match CheckFfmpegInstallationAsWritten(h.probe(paths[0]))
      case Propagates => Raises(paths[0])
      case Returned(v) => if v then Answer(Some(paths[0])) else FirstUsableAsWritten(h, paths[1..])
  }

  /** get_default_ffmpeg_path as written. */
  function LocatedAsWritten(h: Host): (r: Search<string>) {
    match FindFfmpegInPathAsWritten(h)
    case Raises(p) => Raises(p)
    case Answer(found) =>
      if found.Some? then Answer(found.value)
      else match FirstUsableAsWritten(h, CommonPaths)
        case Raises(p) => Raises(p)
        case Answer(o) => Answer(o.GetOr(PrimaryDefault))
  }

  /** Wherever the scan as written answers, it answers as the corrected scan does. */
  lemma {:induction false} FirstUsableAsWrittenAnswers(h: Host, paths: seq<string>)
    ensures FirstUsableAsWritten(h, paths).Answer? ==>
      FirstUsableAsWritten(h, paths).value == FirstUsable(h, paths)
    decreases |paths|
  {
    if paths != [] {
      FirstUsableAsWrittenAnswers(h, paths[1..]);
    }
  }

  /** When the scan as written raises, it raises at an escaping path that every earlier path neither escapes nor passes. */
  lemma {:induction false} FirstUsableAsWrittenRaisesAt(h: Host, paths: seq<string>)
    ensures FirstUsableAsWritten(h, paths).Raises? ==>
      exists i | 0 <= i < |paths| ::
        paths[i] == FirstUsableAsWritten(h, paths).at && Escaping(h, paths[i]) &&
        forall j | 0 <= j < i :: !Usable(h, paths[j]) && !Escaping(h, paths[j])
    decreases |paths|
  {
    if paths != [] && !Escaping(h, paths[0]) && !Usable(h, paths[0]) {
      var tail := paths[1..];
      FirstUsableAsWrittenRaisesAt(h, tail);
      if FirstUsableAsWritten(h, tail).Raises? {
        var k :| 0 <= k < |tail| && tail[k] == FirstUsableAsWritten(h, tail).at && Escaping(h, tail[k]) &&
          forall j | 0 <= j < k :: !Usable(h, tail[j]) && !Escaping(h, tail[j]);
        assert paths[k + 1] == tail[k];
        forall j | 0 <= j < k + 1
          ensures !Usable(h, paths[j]) && !Escaping(h, paths[j])
        {
          if j > 0 { assert paths[j] == tail[j - 1]; }
        }
      }
    }
  }

  /** An escaping path before every usable one makes the scan as written raise. */
  lemma {:induction false} FirstUsableAsWrittenRaisesWhen(h: Host, paths: seq<string>, i: nat)
    requires i < |paths| && Escaping(h, paths[i])
    requires forall j | 0 <= j < i :: !Usable(h, paths[j])
    ensures FirstUsableAsWritten(h, paths).Raises?
    decreases i
  {
    if i > 0 && !Escaping(h, paths[0]) {
      assert !Usable(h, paths[0]);
      var tail := paths[1..];
      assert tail[i - 1] == paths[i];
      forall j | 0 <= j < i - 1
        ensures !Usable(h, tail[j])
      {
        assert tail[j] == paths[j + 1];
      }
      FirstUsableAsWrittenRaisesWhen(h, tail, i - 1);
    }
  }

  /**
   * The scan as written raises exactly when an escaping path comes before
   * every usable one, and otherwise answers as the corrected scan does.
   */
  lemma FirstUsableAsWrittenAgrees(h: Host, paths: seq<string>)
    ensures FirstUsableAsWritten(h, paths).Answer? ==>
      FirstUsableAsWritten(h, paths).value == FirstUsable(h, paths)
    ensures FirstUsableAsWritten(h, paths).Raises? <==>
      exists i | 0 <= i < |paths| :: Escaping(h, paths[i]) && forall j | 0 <= j < i :: !Usable(h, paths[j])
  {
    FirstUsableAsWrittenAnswers(h, paths);
    FirstUsableAsWrittenRaisesAt(h, paths);
    if exists i | 0 <= i < |paths| :: Escaping(h, paths[i]) && forall j | 0 <= j < i :: !Usable(h, paths[j]) {
      var i :| 0 <= i < |paths| && Escaping(h, paths[i]) && forall j | 0 <= j < i :: !Usable(h, paths[j]);
      FirstUsableAsWrittenRaisesWhen(h, paths, i);
    }
  }

  /**
   * get_default_ffmpeg_path as written raises exactly when the bare command's
   * probe raises, or the bare command does not work and some fixed path that
   * exists and whose probe raises comes before every usable one; whenever it
   * answers, its answer is the corrected locator's.
   */
  lemma LocatedAsWrittenAgrees(h: Host)
    ensures LocatedAsWritten(h).Answer? ==> LocatedAsWritten(h).value == Located(h)
    ensures LocatedAsWritten(h).Raises? <==>
      h.probe(Bare).OsFailure? ||
      (!Works(h, Bare) &&
       exists i | 0 <= i < |CommonPaths| ::
         Escaping(h, CommonPaths[i]) && forall j | 0 <= j < i :: !Usable(h, CommonPaths[j]))
  {
    FirstUsableAsWrittenAgrees(h, CommonPaths);
  }

  /**
   * A host where `ffmpeg` is not on PATH, `C:/tools/ffmpeg/bin/ffmpeg.exe`
   * exists but is a directory, and no other fixed path exists: the locator as
   * written raises, where the corrected one answers with the primary default.
   */
  lemma DirectoryAtPrimaryDefaultRaises()
    ensures var h := Host(p => p == PrimaryDefault, p => if p == PrimaryDefault then OsFailure else NotFound);
      LocatedAsWritten(h) == Raises(PrimaryDefault) && Located(h) == PrimaryDefault
  {
    var h := Host(p => p == PrimaryDefault, p => if p == PrimaryDefault then OsFailure else NotFound);
    assert !Usable(h, PrimaryDefault);
    assert h.probe(Bare) == NotFound;
    LocatedIsCandidate(h);
  }
}
