/** `AlternateRollingFileSink` of the portable package: files named by `LogFileInfo`
    (date, process and sequence) in a log directory, resumed from the latest file of the day and
    rotated once the size limit is reached. Its description and writer types are not part of
    this model: the description is taken to pair a `LogFileInfo` with the limit and to rotate
    with `LogFileInfo.Next`, and the writer constructor is a parameter. */
module PortableAlternateRolling {
  import opened Outcomes
  import opened Clock
  import opened FileSystemModel
  import opened Events
  import opened ProcessLogFiles
  import W = SizeWriters
  import R = SizeRolling

  datatype SizeLimitedLogFileDescription = SizeLimitedLogFileDescription(logFileInfo: LogFileInfo, sizeLimitBytes: int64)

  type Sink = W.SizeLimitedFileSink<SizeLimitedLogFileDescription>

  /** `Next()` of a description, reading the clock as `now` and the current process. */
  function NextAt(now: DateTime, current: Option<Process>): SizeLimitedLogFileDescription -> SizeLimitedLogFileDescription {
    (d: SizeLimitedLogFileDescription) => SizeLimitedLogFileDescription(d.logFileInfo.Next(now, current), d.sizeLimitBytes)
  }

  /** The rolling sink: its log directory and the state machine. */
  datatype AlternateRollingFileSink = AlternateRollingFileSink(logDirectory: string, state: RollingState<Sink>)

  /** What construction leaves behind: the directories, and the sink or the exception. */
  datatype Construction = Construction(directories: set<string>, sink: Result<AlternateRollingFileSink>)

  /** The constructor (`GetLatestSink`): ensure the directory, resume from the latest file of the
      day in it, open the writer. Ensuring the empty directory throws, as the file system of
      the package (`Directory.CreateDirectory`) does. */
  function Construct(logDirectory: string, limit: int64, directories: set<string>, listing: seq<string>,
                     now: DateTime, current: Option<Process>, openWriter: SizeLimitedLogFileDescription -> Result<Sink>)
    : (r: Construction)
    ensures logDirectory == [] ==> r == Construction(directories, Err(EmptyPath))
    ensures logDirectory != [] ==> r.directories == EnsureDirectoryCreated(directories, logDirectory).value.directories
    ensures var d := SizeLimitedLogFileDescription(GetLatestOrNew(now, current, listing), limit);
            (r.sink.Ok? <==> logDirectory != [] && openWriter(d).Ok?) &&
            (r.sink.Ok? ==> r.sink.value == AlternateRollingFileSink(logDirectory, Active(openWriter(d).value)))
  {
    match EnsureDirectoryCreated(directories, logDirectory)
    case Err(x) => Construction(directories, Err(x))
    case Ok(created) =>
      var d := SizeLimitedLogFileDescription(GetLatestOrNew(now, current, listing), limit);
      match openWriter(d)
      case Err(x) => Construction(created.directories, Err(x))
      case Ok(w) => Construction(created.directories, Ok(AlternateRollingFileSink(logDirectory, Active(w))))
  }

  /** The sink resumes from the latest file of the day: its sequence is at least 1 and at least that
      of every matching file of the directory, and its date is the construction time. */
  lemma ResumesFromLatest(logDirectory: string, limit: int64, directories: set<string>, listing: seq<string>,
                          now: DateTime, current: Option<Process>, openWriter: SizeLimitedLogFileDescription -> Result<Sink>)
    requires R.FreshOpener(openWriter)
    requires Construct(logDirectory, limit, directories, listing, now, current, openWriter).sink.Ok?
    ensures var s := Construct(logDirectory, limit, directories, listing, now, current, openWriter).sink.value;
            var info := s.state.writer.description.logFileInfo;
            var pattern := Pattern(now, GetProcess(current));
            R.Valid(s.state) && info.date == now && info.sequence >= 1 &&
            forall x :: x in listing && Patterns.Capture(pattern, x).Some? ==> Patterns.Capture(pattern, x).value <= info.sequence
  {
  }

  /** `Emit`: a null event, then a disposed sink, throw; a writer past its limit is replaced by
      one for the next description at the time of the event; then the event is written. */
  function Emit(sink: AlternateRollingFileSink, e: Option<LogEvent>, now: DateTime, current: Option<Process>,
                openWriter: SizeLimitedLogFileDescription -> Result<Sink>)
    : (r: Outcome<AlternateRollingFileSink>)
    ensures r.state.logDirectory == sink.logDirectory
    ensures e.None? ==> r == Outcome(sink, Some(ArgumentNull("logEvent")))
    ensures e.Some? && sink.state.Disposed? ==> r == Outcome(sink, Some(ObjectDisposed(W.ThisObjectName)))
  {
    var r := R.Emit(sink.state, e, NextAt(now, current), openWriter);
    Outcome(sink.(state := r.state), r.thrown)
  }

  /** An event reaching an active sink rotates exactly when the limit was reached: the new
      description is the next `LogFileInfo` (sequence + 1 on the same day, 1 on a new day), and
      without a rotation the description stays. */
  lemma EmitRotation(sink: AlternateRollingFileSink, e: LogEvent, now: DateTime, current: Option<Process>,
                     openWriter: SizeLimitedLogFileDescription -> Result<Sink>)
    requires R.Valid(sink.state) && sink.state.Active? && R.FreshOpener(openWriter)
    ensures var r := Emit(sink, Some(e), now, current, openWriter);
            var writer := sink.state.writer;
            var info := writer.description.logFileInfo;
            R.Valid(r.state.state) && r.state.state.Active? &&
            (r.thrown.None? <==> !writer.sizeLimitReached || openWriter(NextAt(now, current)(writer.description)).Ok?) &&
            (r.thrown.None? && !writer.sizeLimitReached ==> r.state.state.writer.description == writer.description) &&
            (r.thrown.None? && writer.sizeLimitReached ==>
               r.state.state.writer.description.logFileInfo.date == now &&
               r.state.state.writer.description.sizeLimitBytes == writer.description.sizeLimitBytes &&
               r.state.state.writer.description.logFileInfo.sequence ==
                 (if SameDate(info.date, now) then Inc32(info.sequence) else 1))
  {
    var next := NextAt(now, current);
    R.ValidPreserved(sink.state, Some(e), next, openWriter);
    R.OnlyOpeningThrows(sink.state, e, next, openWriter);
    if !sink.state.writer.sizeLimitReached || openWriter(next(sink.state.writer.description)).Ok? {
      R.RotatesIffLimitReached(sink.state.writer, e, next, openWriter);
    }
  }

  /** `Dispose`: the first call disposes the writer and ends in `Disposed`; later calls do nothing. */
  function Dispose(sink: AlternateRollingFileSink): (r: Outcome<AlternateRollingFileSink>)
    ensures R.Valid(sink.state) ==> r == Outcome(sink.(state := Disposed), None)
    ensures sink.state.Disposed? ==> r == Outcome(sink, None)
  {
    var r := R.Dispose(sink.state);
    Outcome(sink.(state := r.state), r.thrown)
  }

  /** A second `Dispose` does nothing, and a disposed sink refuses every event. */
  lemma DisposeIdempotent(sink: AlternateRollingFileSink, e: LogEvent, now: DateTime, current: Option<Process>,
                          openWriter: SizeLimitedLogFileDescription -> Result<Sink>)
    requires R.Valid(sink.state)
    ensures Dispose(Dispose(sink).state) == Dispose(sink)
    ensures Emit(Dispose(sink).state, Some(e), now, current, openWriter).thrown == Some(ObjectDisposed(W.ThisObjectName))
  {
  }

  /** With a 10-byte limit in an empty directory, the first event goes to sequence 1 and passes
      the limit, so the second, on the same day, goes to sequence 2. */
  lemma TenByteLimitRollsOnSecondEvent(logDirectory: string, directories: set<string>, created: DateTime,
                                       later: DateTime, current: Option<Process>, e: LogEvent,
                                       openWriter: SizeLimitedLogFileDescription -> Result<Sink>)
    requires R.FreshOpener(openWriter)
    requires forall d :: openWriter(d).Ok? && openWriter(d).value.sizeLimitBytes == d.sizeLimitBytes
    requires SameDate(created, later) && e.bytes > 10
    ensures logDirectory == [] ==> Construct(logDirectory, 10, directories, [], created, current, openWriter).sink == Err(EmptyPath)
    ensures var c := Construct(logDirectory, 10, directories, [], created, current, openWriter).sink;
            logDirectory != [] ==>
            c.Ok? && c.value.state.Active? && c.value.state.writer.description.logFileInfo.sequence == 1 &&
            var first := Emit(c.value, Some(e), later, current, openWriter);
            first.thrown.None? && first.state.state.Active? &&
            first.state.state.writer.description.logFileInfo.sequence == 1 &&
            var second := Emit(first.state, Some(e), later, current, openWriter);
            second.thrown.None? && second.state.state.Active? &&
            second.state.state.writer.description.logFileInfo.sequence == 2
  {
    var c := Construct(logDirectory, 10, directories, [], created, current, openWriter).sink;
    if logDirectory != [] {
      assert c.Ok?;
      EmitRotation(c.value, e, later, current, openWriter);
      var first := Emit(c.value, Some(e), later, current, openWriter);
      assert first.state.state.writer.sizeLimitReached;
      EmitRotation(first.state, e, later, current, openWriter);
    }
  }
}
