/** `HourlyFileSink`: a writer for one hourly file, kept in a folder named after the date the
    writer was created. Opening retries under the next description while another process holds
    the file, and tolerates one access denial. */
module HourlyWriters {
  import opened Outcomes
  import opened Text
  import opened Clock
  import opened FileSystemModel
  import opened Events
  import opened HourlyDescriptions
  import opened OpenRetry

  /** The name reported by `ObjectDisposedException`. */
  const ThisObjectName: string := "HourlyFileSink"

  /** A writer for one hourly file. The constructor either opens the file or throws, so the
      output is never null. */
  datatype HourlyFileSink = HourlyFileSink(description: HourlyLogFileDescription, writer: Writer, disposed: bool)

  /** The folder of the files: the root and the construction-time date as `yyyy-MM-dd`. */
  function Folder(root: string, utcNow: DateTime): (r: string)
    ensures |r| >= |root| && r[..|root|] == root
    ensures |r| >= 10 && r[|r| - 10..] == YyyyDashMmDashDd(utcNow)
  {
    Combine(root, YyyyDashMmDashDd(utcNow))
  }

  /** The path of a description's file in a folder. */
  function PathIn(folder: string): HourlyLogFileDescription -> string {
    (d: HourlyLogFileDescription) => Combine(folder, d.FileName())
  }

  /** Paths under a folder. */
  predicate Under(folder: string, path: string) {
    |path| >= |folder| && path[..|folder|] == folder
  }

  /** What constructing a writer leaves behind: the directories, created before any open, and
      the writer or the exception that escaped. */
  datatype Construction = Construction(directories: set<string>, sink: Result<HourlyFileSink>)

  /** The constructor. `next` is `HourlyLogFileDescription.Next`, and `preamble` the preamble
      length of the encoding (UTF-8 when none is given). The directory is ensured before every
      attempt; since it is the same one each time, once is enough. */
  function Open(root: string, d: HourlyLogFileDescription, next: HourlyLogFileDescription -> HourlyLogFileDescription,
                utcNow: DateTime, directories: set<string>, open: string -> OpenOutcome, preamble: nat, fuel: nat)
    : (r: Construction)
    ensures EnsureDirectoryCreated(directories, Folder(root, utcNow)).Ok?
    ensures r.directories == EnsureDirectoryCreated(directories, Folder(root, utcNow)).value.directories
    ensures r.sink.Ok? ==> r.sink.value.description == d && !r.sink.value.disposed
    ensures r.sink.Ok? ==> Under(Folder(root, utcNow), r.sink.value.writer.output.path)
    ensures r.sink.Ok? <==> OpenWithRetry(next, PathIn(Folder(root, utcNow)), d, open, preamble, true, fuel).Ok?
  {
    var folder := Folder(root, utcNow);
    var created := EnsureDirectoryCreated(directories, folder).value.directories;
    var result := OpenWithRetry(next, PathIn(folder), d, open, preamble, true, fuel);
    OpenedPathHas(next, PathIn(folder), d, open, preamble, true, fuel, p => Under(folder, p));
    match result
    case Err(x) => Construction(created, Err(x))
    case Ok(w) => Construction(created, Ok(HourlyFileSink(d, w, false)))
  }

  /** `Emit`: a null event throws; a disposed writer throws; otherwise the event is formatted and
      flushed. */
  function Emit(s: HourlyFileSink, e: Option<LogEvent>): (r: Result<HourlyFileSink>)
    ensures e.None? ==> r == Err(ArgumentNull("logEvent"))
    ensures e.Some? && s.disposed ==> r == Err(ObjectDisposed(ThisObjectName))
    ensures e.Some? && !s.disposed ==>
              r.Ok? && r.value.description == s.description && !r.value.disposed &&
              r.value.writer.output.path == s.writer.output.path &&
              r.value.writer.output.length == s.writer.output.length + s.writer.preamblePending + e.value.bytes
  {
    if e.None? then Err(ArgumentNull("logEvent"))
    else if s.disposed then Err(ObjectDisposed(ThisObjectName))
    else Ok(s.(writer := Write(s.writer, e.value.bytes)))
  }

  /** `Dispose`: flush and close once; later calls do nothing. */
  function Dispose(s: HourlyFileSink): (r: HourlyFileSink)
    ensures r.disposed
    ensures r.description == s.description && r.writer == s.writer
  {
    if s.disposed then s else s.(disposed := true)
  }

  /** A second `Dispose` does nothing, and a disposed writer refuses every event. */
  lemma DisposeIdempotent(s: HourlyFileSink, e: LogEvent)
    ensures Dispose(Dispose(s)) == Dispose(s)
    ensures Emit(Dispose(s), Some(e)) == Err(ObjectDisposed(ThisObjectName))
  {
  }

  /** One access denial is tolerated: the next description's file is opened instead. */
  lemma OneDenialTolerated(root: string, d: HourlyLogFileDescription, next: HourlyLogFileDescription -> HourlyLogFileDescription,
                           utcNow: DateTime, directories: set<string>, open: string -> OpenOutcome, preamble: nat, fuel: nat)
    requires fuel >= 1
    requires open(PathIn(Folder(root, utcNow))(d)).Unauthorized?
    requires open(PathIn(Folder(root, utcNow))(next(d))).Opened?
    ensures var r := Open(root, d, next, utcNow, directories, open, preamble, fuel).sink;
            var p := PathIn(Folder(root, utcNow))(next(d));
            r.Ok? && r.value.writer == StartWriter(p, open(p).existingBytes, preamble) && r.value.description == d
  {
    var path := PathIn(Folder(root, utcNow));
    FirstDenialRetried(next, path, d, open, preamble, fuel, 0);
    assert Iterate(next, d, 1) == next(d);
    assert Attempt(next, path, next(d), 0) == path(next(d));
    FirstUncontendedAttemptDecides(next, path, next(d), open, preamble, false, fuel - 1, 0);
  }

  /** A second access denial escapes: denied, then denied again at the next description. */
  lemma SecondDenialEscapes(root: string, d: HourlyLogFileDescription, next: HourlyLogFileDescription -> HourlyLogFileDescription,
                            utcNow: DateTime, directories: set<string>, open: string -> OpenOutcome, preamble: nat, fuel: nat)
    requires fuel >= 1
    requires open(PathIn(Folder(root, utcNow))(d)).Unauthorized?
    requires open(PathIn(Folder(root, utcNow))(next(d))).Unauthorized?
    ensures Open(root, d, next, utcNow, directories, open, preamble, fuel).sink ==
            Err(UnauthorizedAccess(PathIn(Folder(root, utcNow))(next(d))))
  {
    var path := PathIn(Folder(root, utcNow));
    assert Iterate(next, d, 1) == next(d);
    assert Attempt(next, path, d, 0) == path(d);
    assert Attempt(next, path, d, 1) == path(next(d));
    OpenRetry.SecondDenialEscapes(next, path, d, open, preamble, fuel, 0, 1);
  }

  /** Contention moves the open on to the next description without using up the tolerated denial. */
  lemma ContentionKeepsDenialTolerance(root: string, d: HourlyLogFileDescription,
                                       next: HourlyLogFileDescription -> HourlyLogFileDescription, utcNow: DateTime,
                                       directories: set<string>, open: string -> OpenOutcome, preamble: nat, fuel: nat)
    requires fuel >= 1
    requires open(PathIn(Folder(root, utcNow))(d)).Contention?
    ensures Open(root, d, next, utcNow, directories, open, preamble, fuel).sink.Ok? <==>
            OpenWithRetry(next, PathIn(Folder(root, utcNow)), next(d), open, preamble, true, fuel - 1).Ok?
  {
  }
}
