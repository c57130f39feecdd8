/** The state machine the three size-rolling sinks share: an active `SizeLimitedFileSink` that
    is replaced by one for the next description once its size limit is reached, until the
    sink is disposed. The description type, its `Next` and the constructor of the writer are
    parameters; each sink instantiates them. */
module SizeRolling {
  import opened Outcomes
  import opened Events
  import W = SizeWriters

  type Sink<D> = W.SizeLimitedFileSink<D>

  /** What the writer constructor promises: a writer it returns describes the description it was
      given, holds an open stream, and is neither disposed nor past its limit. */
  ghost predicate FreshOpener<D(!new)>(openWriter: D -> Result<Sink<D>>) {
    forall d :: openWriter(d).Ok? ==>
      openWriter(d).value.description == d && openWriter(d).value.writer.Some? &&
      !openWriter(d).value.disposed && !openWriter(d).value.sizeLimitReached
  }

  /** The invariant of an active sink: it holds an open stream, and its writer is disposed only
      after the limit was reached (a rotation whose new writer failed to open). */
  predicate Valid<D>(s: RollingState<Sink<D>>) {
    s.Active? ==> s.writer.writer.Some? && (s.writer.disposed ==> s.writer.sizeLimitReached)
  }

  /** `NewFileWhenLimitReached`: while the flag is down the writer stays; once it is up, the
      next description is computed, the old writer disposed and a writer for the next one
      opened. An exception leaves the sink holding the old writer, disposed if it got that far. */
  function NewFileWhenLimitReached<D>(current: Sink<D>, next: D -> D, openWriter: D -> Result<Sink<D>>)
    : (r: Outcome<Sink<D>>)
    ensures !current.sizeLimitReached ==> r == Outcome(current, None)
    ensures current.sizeLimitReached && r.thrown.None? ==>
              openWriter(next(current.description)) == Ok(r.state)
    ensures current.sizeLimitReached && r.thrown.Some? ==>
              r.state.description == current.description && r.state.sizeLimitReached &&
              (r.state.disposed || r.thrown == Some(NullReference))
  {
    if !current.sizeLimitReached then Outcome(current, None)
    else
      var following := next(current.description);
      match W.Dispose(current)
      case Err(x) => Outcome(current, Some(x))
      case Ok(closed) =>
        match openWriter(following)
        case Err(x) => Outcome(closed, Some(x))
        case Ok(replacement) => Outcome(replacement, None)
  }

  /** `Emit`: a null event throws before anything else; a disposed sink throws; otherwise the
      writer is rotated if needed and the event is written. */
  function Emit<D>(s: RollingState<Sink<D>>, e: Option<LogEvent>, next: D -> D, openWriter: D -> Result<Sink<D>>)
    : (r: Outcome<RollingState<Sink<D>>>)
    ensures e.None? ==> r == Outcome(s, Some(ArgumentNull("logEvent")))
    ensures e.Some? && s.Disposed? ==> r == Outcome(s, Some(ObjectDisposed(W.ThisObjectName)))
    ensures e.Some? && s.Active? ==> r.state.Active?
  {
    if e.None? then Outcome(s, Some(ArgumentNull("logEvent")))
    else match s
      case Disposed => Outcome(s, Some(ObjectDisposed(W.ThisObjectName)))
      case Active(current) =>
        var rotated := NewFileWhenLimitReached(current, next, openWriter);
        if rotated.thrown.Some? then Outcome(Active(rotated.state), rotated.thrown)
        else match W.Emit(rotated.state, e)
          case Err(x) => Outcome(Active(rotated.state), Some(x))
          case Ok(written) => Outcome(Active(written), None)
  }

  /** `Dispose`: the first call disposes the writer and ends in `Disposed`; later calls do
      nothing. */
  function Dispose<D>(s: RollingState<Sink<D>>): (r: Outcome<RollingState<Sink<D>>>)
    ensures s.Disposed? ==> r == Outcome(s, None)
    ensures Valid(s) ==> r == Outcome(Disposed, None)
  {
    match s
    case Disposed => Outcome(s, None)
    case Active(current) =>
      match W.Dispose(current)
      case Err(x) => Outcome(s, Some(x))
      case Ok(_) => Outcome(Disposed, None)
  }

  /** A second `Dispose` does nothing, and a disposed sink refuses every event. */
  lemma DisposeIdempotent<D>(s: RollingState<Sink<D>>, e: LogEvent, next: D -> D, openWriter: D -> Result<Sink<D>>)
    requires Valid(s)
    ensures Dispose(Dispose(s).state) == Dispose(s)
    ensures Emit(Dispose(s).state, Some(e), next, openWriter).thrown == Some(ObjectDisposed(W.ThisObjectName))
  {
  }

  /** Rotation happens exactly when the writer's flag is up. Without it the event goes to the same
      writer; with it, and a successful open, the event goes to a fresh writer for `Next` of the
      old description. */
  lemma RotatesIffLimitReached<D(!new)>(current: Sink<D>, e: LogEvent, next: D -> D, openWriter: D -> Result<Sink<D>>)
    requires Valid(Active(current)) && FreshOpener(openWriter)
    requires current.sizeLimitReached ==> openWriter(next(current.description)).Ok?
    ensures var r := Emit(Active(current), Some(e), next, openWriter);
            r.thrown.None? &&
            (!current.sizeLimitReached ==> r.state == Active(W.Emit(current, Some(e)).value)) &&
            (current.sizeLimitReached ==>
               r.state == Active(W.Emit(openWriter(next(current.description)).value, Some(e)).value) &&
               r.state.writer.description == next(current.description))
  {
  }

  /** A failed open during rotation leaves the old writer disposed and the exception escaping;
      the next event, once the file can be opened, retries the same next description. */
  lemma FailedOpenRetriedOnNextEvent<D(!new)>(current: Sink<D>, e1: LogEvent, e2: LogEvent, next: D -> D,
                                        failing: D -> Result<Sink<D>>, working: D -> Result<Sink<D>>)
    requires Valid(Active(current)) && current.sizeLimitReached
    requires failing(next(current.description)).Err?
    requires FreshOpener(working) && working(next(current.description)).Ok?
    ensures var first := Emit(Active(current), Some(e1), next, failing);
            first.thrown == Some(failing(next(current.description)).error) &&
            first.state.Active? && first.state.writer.disposed &&
            first.state.writer.description == current.description
    ensures var first := Emit(Active(current), Some(e1), next, failing);
            var second := Emit(first.state, Some(e2), next, working);
            second.thrown.None? && second.state.Active? &&
            second.state.writer.description == next(current.description)
  {
  }

  /** Every step keeps the invariant, whatever its outcome. */
  lemma ValidPreserved<D(!new)>(s: RollingState<Sink<D>>, e: Option<LogEvent>, next: D -> D, openWriter: D -> Result<Sink<D>>)
    requires Valid(s) && FreshOpener(openWriter)
    ensures Valid(Emit(s, e, next, openWriter).state)
    ensures Valid(Dispose(s).state)
  {
  }

  /** The writer's own checks never fire inside a valid sink: the only exceptions an event can
      raise are the rolling sink's own and those of opening the next file. */
  lemma OnlyOpeningThrows<D(!new)>(s: RollingState<Sink<D>>, e: LogEvent, next: D -> D, openWriter: D -> Result<Sink<D>>)
    requires Valid(s) && FreshOpener(openWriter) && s.Active?
    ensures var r := Emit(s, Some(e), next, openWriter);
            r.thrown.Some? ==>
              s.writer.sizeLimitReached && r.thrown == Some(openWriter(next(s.writer.description)).error)
  {
  }
}
