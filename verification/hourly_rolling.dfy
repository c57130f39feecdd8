/** `HourlyRollingFileSink` of the size-rolling package's hourly variant: one file per hour, the
    writer replaced when an event falls outside the current file's hour. Before the new file is
    opened, a retention policy deletes the oldest files of the log directory beyond a limit. */
module HourlyRolling {
  import opened Outcomes
  import opened Clock
  import opened FileSystemModel
  import opened Events
  import opened HourlyLogFiles
  import opened HourlyDescriptions
  import opened Retention
  import H = HourlyWriters

  /** What the sink reads from the outside world at one step: the clock, the existing
      directories, the files of the log directory with their creation times (and the names alone,
      for the scan at construction), the files whose delete fails, the outcome of opening each
      path, the preamble length of the encoding, and the bound on open retries. */
  datatype World = World(
    utcNow: DateTime,
    directories: set<string>,
    entries: seq<FileEntry>,
    undeletable: set<string>,
    open: string -> OpenOutcome,
    preamble: nat,
    fuel: nat)

  /** The rolling sink: its log directory, its retention limit (`None` for unlimited), the
      `Next` of its descriptions, and the state machine. `HourlyLogFileDescription` declares no
      `Next`, so `next` is an arbitrary function here. */
  datatype HourlyRollingFileSink = HourlyRollingFileSink(
    logDirectory: string,
    retainedFileCountLimit: Option<int32>,
    next: HourlyLogFileDescription -> HourlyLogFileDescription,
    state: RollingState<H.HourlyFileSink>)

  /** One step: the sink afterwards, the directories afterwards, the deletions made, and the
      exception that escaped. */
  datatype Step = Step(sink: HourlyRollingFileSink, directories: set<string>, deletions: seq<Deletion>, thrown: Option<Error>)

  /** `ApplyRetentionPolicy`, with `current` the name of the file still being written. */
  function ApplyRetentionPolicy(logDirectory: string, limit: Option<int32>, entries: seq<FileEntry>, current: string,
                                undeletable: set<string>): (r: seq<Deletion>)
    ensures limit.None? ==> r == []
    ensures forall i :: 0 <= i < |r| ==>
              exists x :: x in entries && !Text.EqualsIgnoreCase(current, Name(x)) &&
                          r[i].path == Text.Combine(logDirectory, Name(x))
  {
    var obsolete := HourlyObsolete(entries, current, limit);
    DeletesOnlySelected(logDirectory, obsolete, undeletable);
    DeleteAll(logDirectory, obsolete, undeletable)
  }

  /** What construction leaves behind: the directories, and the sink or the exception that
      escaped from the constructor. */
  datatype Construction = Construction(directories: set<string>, sink: Result<HourlyRollingFileSink>)

  /** The constructor (`GetLatestSink`): ensure the log directory, scan it for the latest file of
      the hour, and open a writer. `describe` stands for a constructor of `HourlyLogFileDescription`
      from a `HourlyLogFileInfo` and a time, which the class does not declare. The empty log
      directory cannot be created, and the constructor throws before anything else. */
  function Construct(logDirectory: string, limit: Option<int32>, next: HourlyLogFileDescription -> HourlyLogFileDescription,
                     describe: (HourlyLogFileInfo, DateTime) -> HourlyLogFileDescription, listing: seq<string>, world: World)
    : (r: Construction)
    ensures logDirectory == [] ==> r == Construction(world.directories, Err(EmptyPath))
    ensures logDirectory != [] ==> logDirectory in r.directories && H.Folder(logDirectory, world.utcNow) in r.directories
    ensures logDirectory != [] ==>
            var d := describe(GetLatestOrNew(world.utcNow, listing), world.utcNow);
            var opening := H.Open(logDirectory, d, next, world.utcNow,
                                  EnsureDirectoryCreated(world.directories, logDirectory).value.directories,
                                  world.open, world.preamble, world.fuel);
            (r.sink.Ok? <==> opening.sink.Ok?) &&
            (r.sink.Ok? ==> r.sink.value == HourlyRollingFileSink(logDirectory, limit, next, Active(opening.sink.value)) &&
                            r.sink.value.state.writer.description == d && !r.sink.value.state.writer.disposed)
  {
    match EnsureDirectoryCreated(world.directories, logDirectory)
    case Err(x) => Construction(world.directories, Err(x))
    case Ok(ensured) =>
      var d := describe(GetLatestOrNew(world.utcNow, listing), world.utcNow);
      var c := H.Open(logDirectory, d, next, world.utcNow, ensured.directories, world.open, world.preamble, world.fuel);
      match c.sink
      case Err(x) => Construction(c.directories, Err(x))
      case Ok(w) => Construction(c.directories, Ok(HourlyRollingFileSink(logDirectory, limit, next, Active(w))))
  }

  /** The sink starts on the latest file of the construction time: the description is made from
      `GetLatestOrNew` at that time, whose sequence is at least 1 and at least that of every
      listed file of the pattern. */
  lemma StartsOnLatestOfHour(logDirectory: string, limit: Option<int32>, next: HourlyLogFileDescription -> HourlyLogFileDescription,
                             describe: (HourlyLogFileInfo, DateTime) -> HourlyLogFileDescription, listing: seq<string>, world: World)
    requires Construct(logDirectory, limit, next, describe, listing, world).sink.Ok?
    ensures var s := Construct(logDirectory, limit, next, describe, listing, world).sink.value;
            var info := GetLatestOrNew(world.utcNow, listing);
            s.state.writer.description == describe(info, world.utcNow) && info.date == world.utcNow &&
            info.sequence >= 1 &&
            forall x :: x in listing && Patterns.Capture(Pattern(world.utcNow), x).Some? ==>
                          Patterns.Capture(Pattern(world.utcNow), x).value <= info.sequence
  {
  }

  /** `NextFileSink`: compute the next description, apply the retention policy against the file
      still open, dispose the writer, open the next one. An exception from the open leaves the
      disposed writer in place, and the deletions made. */
  function NextFileSink(sink: HourlyRollingFileSink, current: H.HourlyFileSink, world: World): (r: Step)
    ensures r.sink.logDirectory == sink.logDirectory && r.sink.next == sink.next &&
            r.sink.retainedFileCountLimit == sink.retainedFileCountLimit
    ensures r.deletions == ApplyRetentionPolicy(sink.logDirectory, sink.retainedFileCountLimit, world.entries,
                                                current.description.FileName(), world.undeletable)
    ensures r.directories == H.Open(sink.logDirectory, sink.next(current.description), sink.next, world.utcNow,
                                    world.directories, world.open, world.preamble, world.fuel).directories
    ensures r.sink.state.Active?
    ensures r.thrown.None? ==>
              r.sink.state.writer.description == sink.next(current.description) && !r.sink.state.writer.disposed
    ensures r.thrown.Some? ==> r.sink.state.writer == H.Dispose(current)
  {
    var following := sink.next(current.description);
    var deletions := ApplyRetentionPolicy(sink.logDirectory, sink.retainedFileCountLimit, world.entries,
                                          current.description.FileName(), world.undeletable);
    var closed := H.Dispose(current);
    var c := H.Open(sink.logDirectory, following, sink.next, world.utcNow, world.directories, world.open,
                    world.preamble, world.fuel);
    match c.sink
    case Err(x) => Step(sink.(state := Active(closed)), c.directories, deletions, Some(x))
    case Ok(w) => Step(sink.(state := Active(w)), c.directories, deletions, None)
  }

  /** `Emit`: a null event, then a disposed sink, throw; an event outside the current file's hour
      rotates the writer first; then the event is written. */
  function Emit(sink: HourlyRollingFileSink, e: Option<LogEvent>, world: World): (r: Step)
    ensures r.sink.logDirectory == sink.logDirectory && r.sink.next == sink.next &&
            r.sink.retainedFileCountLimit == sink.retainedFileCountLimit
    ensures e.None? ==> r == Step(sink, world.directories, [], Some(ArgumentNull("logEvent")))
    ensures e.Some? && sink.state.Disposed? ==>
              r == Step(sink, world.directories, [], Some(ObjectDisposed(H.ThisObjectName)))
  {
    if e.None? then Step(sink, world.directories, [], Some(ArgumentNull("logEvent")))
    else match sink.state
      case Disposed => Step(sink, world.directories, [], Some(ObjectDisposed(H.ThisObjectName)))
      case Active(current) =>
        var rotated :=
          if current.description.SameHour(e.value.timestamp) then Step(sink, world.directories, [], None)
          else NextFileSink(sink, current, world);
        if rotated.thrown.Some? then rotated
        else match H.Emit(rotated.sink.state.writer, e)
          case Err(x) => rotated.(thrown := Some(x))
          case Ok(w) => rotated.(sink := rotated.sink.(state := Active(w)))
  }

  /** `Dispose`: the first call disposes the writer and ends in `Disposed`; later calls do nothing. */
  function Dispose(sink: HourlyRollingFileSink): (r: HourlyRollingFileSink)
    ensures r.state.Disposed?
    ensures r.logDirectory == sink.logDirectory && r.retainedFileCountLimit == sink.retainedFileCountLimit
  {
    sink.(state := Disposed)
  }

  /** A second `Dispose` does nothing, and a disposed sink refuses every event, touching nothing. */
  lemma DisposeIdempotent(sink: HourlyRollingFileSink, e: LogEvent, world: World)
    ensures Dispose(Dispose(sink)) == Dispose(sink)
    ensures Emit(Dispose(sink), Some(e), world) ==
            Step(Dispose(sink), world.directories, [], Some(ObjectDisposed(H.ThisObjectName)))
  {
  }

  /** Within the current file's hour nothing rotates: the event goes to the same writer, no
      directory is created and no file deleted. */
  lemma SameHourKeepsWriter(sink: HourlyRollingFileSink, e: LogEvent, world: World)
    requires sink.state.Active? && !sink.state.writer.disposed
    requires sink.state.writer.description.SameHour(e.timestamp)
    ensures var r := Emit(sink, Some(e), world);
            r.thrown.None? && r.deletions == [] && r.directories == world.directories &&
            r.sink.state == Active(H.Emit(sink.state.writer, Some(e)).value)
  {
  }

  /** Outside the current file's hour the writer rotates: retention runs against the file still
      open, and the event goes to a writer for `Next` of the old description when it opens. */
  lemma OtherHourRotates(sink: HourlyRollingFileSink, e: LogEvent, world: World)
    requires sink.state.Active?
    requires !sink.state.writer.description.SameHour(e.timestamp)
    ensures var r := Emit(sink, Some(e), world);
            var current := sink.state.writer;
            var opening := H.Open(sink.logDirectory, sink.next(current.description), sink.next, world.utcNow,
                                  world.directories, world.open, world.preamble, world.fuel);
            r.deletions == ApplyRetentionPolicy(sink.logDirectory, sink.retainedFileCountLimit, world.entries,
                                                current.description.FileName(), world.undeletable) &&
            r.directories == opening.directories &&
            (r.thrown.None? <==> opening.sink.Ok?) &&
            (r.thrown.None? ==> r.sink.state.Active? &&
                                r.sink.state.writer.description == sink.next(current.description) &&
                                !r.sink.state.writer.disposed) &&
            (r.thrown.Some? ==> r.sink.state == Active(H.Dispose(current)))
  {
  }

  /** Retention never deletes the file still open, and with a limit it leaves at most that many of
      the listed files (at least the open one), when at most one of them bears the open file's
      name; a limit of `int.MinValue` wraps and deletes nothing. */
  lemma RetentionSparesOpenFile(sink: HourlyRollingFileSink, e: LogEvent, world: World, limit: int32)
    requires sink.state.Active? && sink.retainedFileCountLimit == Some(limit)
    requires !sink.state.writer.description.SameHour(e.timestamp)
    requires |Filter(world.entries, Named(sink.state.writer.description.FileName()), true)| <= 1
    ensures var r := Emit(sink, Some(e), world);
            var name := sink.state.writer.description.FileName();
            (limit > -INT32_LIMIT ==> |world.entries| - |r.deletions| <= (if limit < 1 then 1 else limit)) &&
            (limit == -INT32_LIMIT && |world.entries| < INT32_LIMIT ==> r.deletions == []) &&
            forall i :: 0 <= i < |r.deletions| ==>
              exists x :: x in world.entries && !Text.EqualsIgnoreCase(name, Name(x)) &&
                          r.deletions[i].path == Text.Combine(sink.logDirectory, Name(x))
  {
    var name := sink.state.writer.description.FileName();
    var deletions := ApplyRetentionPolicy(sink.logDirectory, Some(limit), world.entries, name, world.undeletable);
    assert Emit(sink, Some(e), world).deletions == deletions by {
      OtherHourRotates(sink, e, world);
    }
    assert (limit > -INT32_LIMIT ==> |world.entries| - |deletions| <= (if limit < 1 then 1 else limit)) &&
           (limit == -INT32_LIMIT && |world.entries| < INT32_LIMIT ==> deletions == []) by {
      assert |deletions| == |HourlyObsolete(world.entries, name, Some(limit))|;
      HourlyKeepsAtMostLimit(world.entries, name, limit);
    }
  }

  /** After a rotation whose open failed, a late event of the old file's hour is not rotated and
      reaches the disposed writer, which throws. */
  lemma LateEventAfterFailedRotation(sink: HourlyRollingFileSink, e1: LogEvent, e2: LogEvent, world1: World, world2: World)
    requires sink.state.Active? && !sink.state.writer.description.SameHour(e1.timestamp)
    requires H.Open(sink.logDirectory, sink.next(sink.state.writer.description), sink.next, world1.utcNow,
                    world1.directories, world1.open, world1.preamble, world1.fuel).sink.Err?
    requires sink.state.writer.description.SameHour(e2.timestamp)
    ensures var first := Emit(sink, Some(e1), world1);
            first.thrown.Some? &&
            Emit(first.sink, Some(e2), world2).thrown == Some(ObjectDisposed(H.ThisObjectName))
  {
  }
}
