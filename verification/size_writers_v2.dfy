/** `SizeLimitedFileSink` of the V2 size-rolling sink. Its `Emit` and `Dispose` are the ones of
    `SizeWriters`; it differs in opening its file once, with no retry. */
module SizeWritersV2 {
  import opened Outcomes
  import opened Text
  import opened FileSystemModel
  import opened Events
  import opened SizeDescriptionsV2
  import W = SizeWriters

  type Sink = W.SizeLimitedFileSink<SizeLimitedLogFileDescription>

  /** The constructor that opens the file: the folder is ensured first, which throws for the
      empty folder (see `EnsureDirectoryCreated`); then exactly the description's `FullName` in
      the folder is opened with `encoding ?? Encoding.UTF8`, and every failure, contention
      included, escapes. */
  function Open(folder: string, d: SizeLimitedLogFileDescription, encoding: Option<nat>, open: string -> OpenOutcome)
    : (r: Result<Sink>)
    ensures folder == [] ==> r == Err(EmptyPath)
    ensures var path := Combine(folder, d.FullName());
            (r.Ok? <==> folder != [] && open(path).Opened?) &&
            (r.Ok? ==> r.value == W.WithWriter(d, d.sizeLimitBytes,
                                    Some(StartWriter(path, open(path).existingBytes, PreambleOf(encoding))))) &&
            (folder != [] && (open(path).Contention? || open(path).OtherIOError?) ==> r == Err(IOFailure(path))) &&
            (folder != [] && open(path).Unauthorized? ==> r == Err(UnauthorizedAccess(path)))
  {
    var path := Combine(folder, d.FullName());
    if folder == [] then Err(EmptyPath)
    else
      match open(path)
      case Opened(n) => Ok(W.WithWriter(d, d.sizeLimitBytes, Some(StartWriter(path, n, PreambleOf(encoding)))))
      case Unauthorized => Err(UnauthorizedAccess(path))
      case _ => Err(IOFailure(path))
  }

  /** Without a retry, only the description's own file matters: two file systems that agree on
      it open identically. */
  lemma OpenLooksAtOneFile(folder: string, d: SizeLimitedLogFileDescription, encoding: Option<nat>,
                           open1: string -> OpenOutcome, open2: string -> OpenOutcome)
    requires open1(Combine(folder, d.FullName())) == open2(Combine(folder, d.FullName()))
    ensures Open(folder, d, encoding, open1) == Open(folder, d, encoding, open2)
  {
  }

  /** An opened writer: the first event sets the flag exactly when the encoding's preamble (on an
      empty file only), the bytes already in the file and the event together pass the limit. With
      the default encoding the preamble is UTF-8's 3 bytes; without a preamble it is 0. */
  lemma FirstEventAgainstLimit(folder: string, d: SizeLimitedLogFileDescription, encoding: Option<nat>,
                               open: string -> OpenOutcome, e: LogEvent)
    requires folder != [] && open(Combine(folder, d.FullName())).Opened?
    ensures var n := open(Combine(folder, d.FullName())).existingBytes;
            var preamble := if n == 0 then PreambleOf(encoding) else 0;
            var r := W.Emit(Open(folder, d, encoding, open).value, Some(e));
            r.Ok? && (r.value.sizeLimitReached <==> n + preamble + e.bytes > d.sizeLimitBytes) &&
            (encoding.None? ==> (r.value.sizeLimitReached <==> n + (if n == 0 then 3 else 0) + e.bytes > d.sizeLimitBytes)) &&
            (encoding == Some(0) ==> (r.value.sizeLimitReached <==> n + e.bytes > d.sizeLimitBytes))
  {
  }

  /** An opened writer disposes once; a second `Dispose` does nothing and `Emit` then throws. */
  lemma OpenedWriterLifecycle(folder: string, d: SizeLimitedLogFileDescription, encoding: Option<nat>,
                              open: string -> OpenOutcome, e: LogEvent)
    requires Open(folder, d, encoding, open).Ok?
    ensures var s := Open(folder, d, encoding, open).value;
            W.Dispose(s).Ok? && W.Dispose(s).value.disposed &&
            W.Dispose(W.Dispose(s).value) == W.Dispose(s) &&
            W.Emit(W.Dispose(s).value, Some(e)) == Err(ObjectDisposed(W.ThisObjectName)) &&
            W.Emit(s, None) == Err(ArgumentNull("logEvent"))
  {
  }
}
