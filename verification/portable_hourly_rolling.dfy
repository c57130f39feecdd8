/** `HourlyRollingFileSink` of the portable package: one file per hour, named after the hour of
    the event that opened it; no scan of existing files and no retention. Its writer type is not
    part of this model: the writer constructor is a parameter, and its writers are taken to
    behave as `HourlyWriters.HourlyFileSink` once open. */
module PortableHourlyRolling {
  import opened Outcomes
  import opened Clock
  import opened Events
  import opened HourlyDescriptions
  import H = HourlyWriters

  type Opener = HourlyLogFileDescription -> Result<H.HourlyFileSink>

  /** The writer constructor opens, when it succeeds, a live writer for the description asked for. */
  ghost predicate FreshOpener(openWriter: Opener) {
    forall d :: openWriter(d).Ok? ==> openWriter(d).value.description == d && !openWriter(d).value.disposed
  }

  /** The rolling sink: its log directory and the state machine. */
  datatype HourlyRollingFileSink = HourlyRollingFileSink(logDirectory: string, state: RollingState<H.HourlyFileSink>)

  /** The constructor (`GetLatestSink`): a writer for the hour of the construction time; an open
      that fails escapes from the constructor. */
  function Construct(logDirectory: string, utcNow: DateTime, openWriter: Opener): (r: Result<HourlyRollingFileSink>)
    ensures r.Ok? <==> openWriter(HourlyLogFileDescription(utcNow)).Ok?
    ensures r.Ok? ==> r.value.logDirectory == logDirectory && r.value.state.Active? &&
                      r.value.state.writer == openWriter(HourlyLogFileDescription(utcNow)).value
  {
    match openWriter(HourlyLogFileDescription(utcNow))
    case Err(x) => Err(x)
    case Ok(w) => Ok(HourlyRollingFileSink(logDirectory, Active(w)))
  }

  /** `NextFileSink`: the description of the event's hour, the old writer disposed, a new one
      opened. An exception from the open leaves the disposed writer in place. */
  function NextFileSink(current: H.HourlyFileSink, at: DateTime, openWriter: Opener): (r: Outcome<H.HourlyFileSink>)
    ensures r.thrown.None? <==> openWriter(HourlyLogFileDescription(at)).Ok?
    ensures r.thrown.None? ==> r.state == openWriter(HourlyLogFileDescription(at)).value
    ensures r.thrown.Some? ==> r.state == H.Dispose(current)
  {
    var closed := H.Dispose(current);
    match openWriter(HourlyLogFileDescription(at))
    case Err(x) => Outcome(closed, Some(x))
    case Ok(w) => Outcome(w, None)
  }

  /** `Emit`: a null event, then a disposed sink, throw; an event outside the current file's hour
      rotates the writer to the event's hour first; then the event is written. */
  function Emit(sink: HourlyRollingFileSink, e: Option<LogEvent>, openWriter: Opener): (r: Outcome<HourlyRollingFileSink>)
    ensures r.state.logDirectory == sink.logDirectory
    ensures e.None? ==> r == Outcome(sink, Some(ArgumentNull("logEvent")))
    ensures e.Some? && sink.state.Disposed? ==> r == Outcome(sink, Some(ObjectDisposed(H.ThisObjectName)))
    ensures e.Some? && sink.state.Active? ==> r.state.state.Active?
  {
    if e.None? then Outcome(sink, Some(ArgumentNull("logEvent")))
    else match sink.state
      case Disposed => Outcome(sink, Some(ObjectDisposed(H.ThisObjectName)))
      case Active(current) =>
        var rotated :=
          if current.description.SameHour(e.value.timestamp) then Outcome(current, None)
          else NextFileSink(current, e.value.timestamp, openWriter);
        if rotated.thrown.Some? then Outcome(sink.(state := Active(rotated.state)), rotated.thrown)
        else match H.Emit(rotated.state, e)
          case Err(x) => Outcome(sink.(state := Active(rotated.state)), Some(x))
          case Ok(w) => Outcome(sink.(state := Active(w)), None)
  }

  /** An event reaching a live writer goes through exactly when it is of the writer's hour or the
      file of its own hour opens, and then the sink writes to a file of the event's hour: the one
      it had, or one described by the event's time. */
  lemma EmitLandsInEventHour(sink: HourlyRollingFileSink, e: LogEvent, openWriter: Opener)
    requires sink.state.Active? && !sink.state.writer.disposed && FreshOpener(openWriter)
    ensures var r := Emit(sink, Some(e), openWriter);
            var current := sink.state.writer;
            (r.thrown.None? <==>
               current.description.SameHour(e.timestamp) || openWriter(HourlyLogFileDescription(e.timestamp)).Ok?) &&
            (r.thrown.None? ==>
               !r.state.state.writer.disposed &&
               r.state.state.writer.description.SameHour(e.timestamp) &&
               r.state.state.writer.description ==
                 (if current.description.SameHour(e.timestamp) then current.description
                  else HourlyLogFileDescription(e.timestamp)))
  {
    SameHourEquivalence(e.timestamp, e.timestamp, e.timestamp);
  }

  /** Two events of one hour share a file: once the first went through, the second is written by
      the same writer without a rotation, whatever the writer constructor would do. */
  lemma OneHourOneFile(sink: HourlyRollingFileSink, e1: LogEvent, e2: LogEvent, openWriter: Opener, laterWriter: Opener)
    requires sink.state.Active? && !sink.state.writer.disposed && FreshOpener(openWriter)
    requires Emit(sink, Some(e1), openWriter).thrown.None?
    requires HourlyLogFileDescription(e1.timestamp).SameHour(e2.timestamp)
    ensures var first := Emit(sink, Some(e1), openWriter);
            var second := Emit(first.state, Some(e2), laterWriter);
            second.thrown.None? &&
            second.state.state.writer.description == first.state.state.writer.description &&
            second.state.state.writer.writer.output.path == first.state.state.writer.writer.output.path
  {
    EmitLandsInEventHour(sink, e1, openWriter);
    var first := Emit(sink, Some(e1), openWriter);
    var d := first.state.state.writer.description;
    SameHourMeaning(d, e1.timestamp);
    SameHourMeaning(HourlyLogFileDescription(e1.timestamp), e2.timestamp);
    SameHourMeaning(d, e2.timestamp);
  }

  /** After a rotation whose open failed, a late event of the old file's hour is not rotated and
      reaches the disposed writer, which throws. */
  lemma LateEventAfterFailedRotation(sink: HourlyRollingFileSink, e1: LogEvent, e2: LogEvent, openWriter: Opener)
    requires sink.state.Active? && !sink.state.writer.description.SameHour(e1.timestamp)
    requires openWriter(HourlyLogFileDescription(e1.timestamp)).Err?
    requires sink.state.writer.description.SameHour(e2.timestamp)
    ensures var first := Emit(sink, Some(e1), openWriter);
            first.thrown == Some(openWriter(HourlyLogFileDescription(e1.timestamp)).error) &&
            Emit(first.state, Some(e2), openWriter).thrown == Some(ObjectDisposed(H.ThisObjectName))
  {
  }

  /** `Dispose`: the first call disposes the writer and ends in `Disposed`; later calls do nothing. */
  function Dispose(sink: HourlyRollingFileSink): (r: HourlyRollingFileSink)
    ensures r.state.Disposed? && r.logDirectory == sink.logDirectory
  {
    sink.(state := Disposed)
  }

  /** A second `Dispose` does nothing, and a disposed sink refuses every event. */
  lemma DisposeIdempotent(sink: HourlyRollingFileSink, e: LogEvent, openWriter: Opener)
    ensures Dispose(Dispose(sink)) == Dispose(sink)
    ensures Emit(Dispose(sink), Some(e), openWriter) == Outcome(Dispose(sink), Some(ObjectDisposed(H.ThisObjectName)))
  {
  }
}
