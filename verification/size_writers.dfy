/** `SizeLimitedFileSink` of the size-rolling sink: a writer for one file that raises a sticky
    flag once the file grows past the size limit, and that opens its file with a retry under
    the next name while another process holds it. */
module SizeWriters {
  import opened Outcomes
  import opened Text
  import opened FileNames
  import opened FileSystemModel
  import opened Events
  import opened SizeDescriptions
  import opened OpenRetry

  /** The name reported by `ObjectDisposedException`. */
  const ThisObjectName: string := "SizeLimitedFileSink"

  /** A writer for one log file. `D` is the description type of the sink that owns it. */
  datatype SizeLimitedFileSink<D> = SizeLimitedFileSink(
    description: D,
    sizeLimitBytes: int64,
    writer: Option<Writer>,     // null only through the constructor that takes a writer
    disposed: bool,
    sizeLimitReached: bool)

  /** The constructor that takes an already open writer (or null). */
  function WithWriter<D>(description: D, sizeLimitBytes: int64, writer: Option<Writer>): (s: SizeLimitedFileSink<D>)
    ensures s.description == description && s.writer == writer
    ensures !s.disposed && !s.sizeLimitReached
  {
    SizeLimitedFileSink(description, sizeLimitBytes, writer, false, false)
  }

  /** `Emit`: a null event throws; a disposed writer throws; without a writer nothing happens;
      otherwise the event is written and flushed, and the flag is raised when the stream is
      now strictly longer than the limit. The flag is never lowered. */
  function Emit<D>(s: SizeLimitedFileSink<D>, e: Option<LogEvent>): (r: Result<SizeLimitedFileSink<D>>)
    ensures e.None? ==> r == Err(ArgumentNull("logEvent"))
    ensures e.Some? && s.disposed ==> r == Err(ObjectDisposed(ThisObjectName))
    ensures e.Some? && !s.disposed ==> r.Ok?
    ensures r.Ok? ==> r.value.description == s.description && r.value.sizeLimitBytes == s.sizeLimitBytes
    ensures r.Ok? ==> !r.value.disposed && (s.sizeLimitReached ==> r.value.sizeLimitReached)
    ensures r.Ok? && s.writer.None? ==> r.value == s
    ensures r.Ok? && s.writer.Some? ==>
              var written := Write(s.writer.value, e.value.bytes);
              r.value.writer == Some(written) &&
              (r.value.sizeLimitReached <==> s.sizeLimitReached || written.output.length > s.sizeLimitBytes)
  {
    if e.None? then Err(ArgumentNull("logEvent"))
    else if s.disposed then Err(ObjectDisposed(ThisObjectName))
    else match s.writer
      case None => Ok(s)
      case Some(w) =>
        var written := Write(w, e.value.bytes);
        Ok(s.(writer := Some(written), sizeLimitReached := s.sizeLimitReached || written.output.length > s.sizeLimitBytes))
  }

  /** `Dispose`: flush and close once; later calls do nothing. Flushing a null writer throws. */
  function Dispose<D>(s: SizeLimitedFileSink<D>): (r: Result<SizeLimitedFileSink<D>>)
    ensures s.disposed ==> r == Ok(s)
    ensures !s.disposed && s.writer.None? ==> r == Err(NullReference)
    ensures !s.disposed && s.writer.Some? ==> r.Ok? && r.value.disposed
    ensures r.Ok? ==> r.value.description == s.description && r.value.sizeLimitReached == s.sizeLimitReached
  {
    if s.disposed then Ok(s)
    else if s.writer.None? then Err(NullReference)
    else Ok(s.(disposed := true))
  }

  /** A second `Dispose` does nothing. */
  lemma DisposeIdempotent<D>(s: SizeLimitedFileSink<D>)
    requires Dispose(s).Ok?
    ensures Dispose(Dispose(s).value) == Dispose(s)
  {
  }

  /** Emitting into a disposed writer always fails, whatever the event. */
  lemma EmitAfterDispose<D>(s: SizeLimitedFileSink<D>, e: LogEvent)
    requires Dispose(s).Ok?
    ensures Emit(Dispose(s).value, Some(e)) == Err(ObjectDisposed(ThisObjectName))
  {
  }

  /** Several events emitted in turn; stops at the first exception. */
  function EmitAll<D>(s: SizeLimitedFileSink<D>, events: seq<LogEvent>): Result<SizeLimitedFileSink<D>>
    decreases |events|
  {
    if events == [] then Ok(s)
    else match Emit(s, Some(events[0]))
      case Err(x) => Err(x)
      case Ok(s') => EmitAll(s', events[1..])
  }

  function TotalBytes(events: seq<LogEvent>): nat {
    if events == [] then 0 else events[0].bytes + TotalBytes(events[1..])
  }

  /** Over a run of events the flag ends up raised exactly when it already was, or the file has
      grown past the limit: the stream only grows, so once past the limit it stays past it. */
  lemma {:induction false} FlagMeansPastLimit<D>(s: SizeLimitedFileSink<D>, events: seq<LogEvent>)
    requires !s.disposed && s.writer.Some? && events != []
    ensures EmitAll(s, events).Ok?
    ensures var w := s.writer.value;
            var r := EmitAll(s, events).value;
            var length := w.output.length + w.preamblePending + TotalBytes(events);
            r.writer == Some(Writer(Output(w.output.path, length), 0)) &&
            (r.sizeLimitReached <==> s.sizeLimitReached || length > s.sizeLimitBytes)
    decreases |events|
  {
    var s' := Emit(s, Some(events[0])).value;
    if |events| > 1 {
      FlagMeansPastLimit(s', events[1..]);
    }
  }

  /** A one-byte limit is reached by the first event: the preamble alone passes it. */
  lemma OneByteLimitReachedAfterOneEvent<D>(d: D, path: string, e: LogEvent)
    ensures var s := WithWriter(d, 1, Some(StartWriter(path, 0, Utf8PreambleBytes)));
            Emit(s, Some(e)).Ok? && Emit(s, Some(e)).value.sizeLimitReached
  {
  }

  /** The path of a description's file in the sink's folder. */
  function PathIn(folder: string): SizeLimitedLogFileDescription -> string {
    (d: SizeLimitedLogFileDescription) => Combine(folder, d.FullName())
  }

  /** `OpenFileForWriting`: ensure the folder, then open the file of the description; while
      another process holds it, try the next name. Access denials and other I/O errors escape.
      Ensuring the folder throws only for the empty folder (see `EnsureDirectoryCreated`); the set
      of directories is not tracked here. */
  function OpenFileForWriting(folder: string, d: SizeLimitedLogFileDescription, open: string -> OpenOutcome,
                              preamble: nat, fuel: nat): (r: Result<Writer>)
    ensures folder == [] ==> r == Err(EmptyPath)
    ensures var p := Combine(folder, d.FullName());
            folder != [] && !open(p).Contention? ==> r == Settle(p, open(p), preamble)
  {
    if folder == [] then Err(EmptyPath)
    else
      assert PathIn(folder)(d) == Combine(folder, d.FullName());
      OpenWithRetry(Rotate, PathIn(folder), d, open, preamble, false, fuel)
  }

  /** Contention at the requested file moves the open on to the next name. */
  lemma ContentionTriesNextName(folder: string, d: SizeLimitedLogFileDescription, open: string -> OpenOutcome,
                                preamble: nat, fuel: nat)
    requires fuel > 0 && open(Combine(folder, d.FullName())).Contention?
    ensures OpenFileForWriting(folder, d, open, preamble, fuel) ==
            OpenFileForWriting(folder, d.Next(), open, preamble, fuel - 1)
  {
    assert PathIn(folder)(d) == Combine(folder, d.FullName());
    assert Rotate(d) == d.Next();
  }

  /** The constructor that opens the file with `encoding ?? Encoding.UTF8`: the writer keeps the
      description it was asked for, even when the file it opened is a later one. */
  function Open(folder: string, d: SizeLimitedLogFileDescription, encoding: Option<nat>, open: string -> OpenOutcome,
                fuel: nat): (r: Result<SizeLimitedFileSink<SizeLimitedLogFileDescription>>)
    ensures r.Ok? ==> r.value.description == d && r.value.sizeLimitBytes == d.sizeLimitBytes
    ensures r.Ok? ==> r.value.writer.Some? && !r.value.disposed && !r.value.sizeLimitReached
    ensures r.Ok? <==> OpenFileForWriting(folder, d, open, PreambleOf(encoding), fuel).Ok?
    ensures r.Ok? ==> r.value.writer == Some(OpenFileForWriting(folder, d, open, PreambleOf(encoding), fuel).value)
    ensures r.Err? ==> r.error == OpenFileForWriting(folder, d, open, PreambleOf(encoding), fuel).error
  {
    match OpenFileForWriting(folder, d, open, PreambleOf(encoding), fuel)
    case Err(x) => Err(x)
    case Ok(w) => Ok(SizeLimitedFileSink(d, d.sizeLimitBytes, Some(w), false, false))
  }

  /** When the requested file is held and the next one opens, the writer appends to the next
      file while still describing the requested one. */
  lemma RetryKeepsRequestedDescription(folder: string, d: SizeLimitedLogFileDescription, encoding: Option<nat>,
                                       open: string -> OpenOutcome, fuel: nat)
    requires fuel >= 1
    requires open(Combine(folder, d.FullName())).Contention? && open(Combine(folder, d.Next().FullName())).Opened?
    ensures folder == [] ==> Open(folder, d, encoding, open, fuel) == Err(EmptyPath)
    ensures folder != [] ==> Open(folder, d, encoding, open, fuel).Ok?
    ensures folder != [] ==> Open(folder, d, encoding, open, fuel).value.description == d
    ensures folder != [] ==> Open(folder, d, encoding, open, fuel).value.writer.value.output.path == Combine(folder, d.Next().FullName())
    ensures Combine(folder, d.Next().FullName()) != Combine(folder, d.FullName())
  {
    ContentionTriesNextName(folder, d, open, PreambleOf(encoding), fuel);
    var r := OpenFileForWriting(folder, d.Next(), open, PreambleOf(encoding), fuel - 1);
    assert folder != [] ==> r.Ok? && r.value.output.path == Combine(folder, d.Next().FullName());
    NextRenamesFile(d);
    CombineInjective(folder, d.Next().FullName(), d.FullName());
  }
}
