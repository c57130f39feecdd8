/** What the sinks ask of the file system, reduced to values: the outcome of opening a file for
    append, an open stream, and the set of existing directories. */
module FileSystemModel {
  import opened Outcomes

  /** The outcome of `File.Open(path, FileMode.Append, FileAccess.Write, FileShare.Read)`. */
  datatype OpenOutcome =
    | Opened(existingBytes: nat)   // the stream, positioned after the bytes already in the file
    | Contention                   // an IOException whose message starts "The process cannot access the file"
    | Unauthorized                 // UnauthorizedAccessException
    | OtherIOError                 // any other IOException

  /** An open `StreamWriter`: the file it appends to and the length of its stream. */
  datatype Output = Output(path: string, length: nat)

  /** Bytes of the UTF-8 preamble a `StreamWriter` writes before its first output on an empty stream. */
  const Utf8PreambleBytes: nat := 3

  /** `encoding ?? Encoding.UTF8`, with an encoding reduced to the length of its preamble
      (`None` for null): the default is UTF-8 with its preamble, and `new UTF8Encoding(false)`
      is `Some(0)`. */
  function PreambleOf(encoding: Option<nat>): (n: nat)
    ensures encoding.None? ==> n == Utf8PreambleBytes
    ensures encoding.Some? ==> n == encoding.value
  {
    match encoding
    case None => Utf8PreambleBytes
    case Some(n) => n
  }

  /** An open output: the stream writer's file, its stream length, and the preamble bytes its
      first flush still has to write. */
  datatype Writer = Writer(output: Output, preamblePending: nat)

  /** A freshly opened writer over a file that already holds `existingBytes`: the preamble is
      due only when the file is empty. */
  function StartWriter(path: string, existingBytes: nat, preamble: nat): (w: Writer)
    ensures w.output == Output(path, existingBytes)
    ensures w.preamblePending == (if existingBytes == 0 then preamble else 0)
  {
    Writer(Output(path, existingBytes), if existingBytes == 0 then preamble else 0)
  }

  /** Formatting an event and flushing: the pending preamble and the event's bytes are appended. */
  function Write(w: Writer, bytes: nat): (r: Writer)
    ensures r.output.path == w.output.path
    ensures r.output.length == w.output.length + w.preamblePending + bytes
    ensures r.preamblePending == 0
  {
    Writer(Output(w.output.path, w.output.length + w.preamblePending + bytes), 0)
  }

  /** The directories after an "ensure created" step, and whether it had to create one. */
  datatype DirectoryCheck = DirectoryCheck(directories: set<string>, createCalled: bool)

  /** `EnsureDirectoryCreated`: create the directory only when it does not exist. The empty path
      never exists (`Directory.Exists("")` is false), and `Directory.CreateDirectory("")` throws
      `ArgumentException`, so ensuring it always throws and changes nothing. */
  function EnsureDirectoryCreated(existing: set<string>, path: string): (r: Result<DirectoryCheck>)
    ensures r.Err? <==> path == []
    ensures r.Err? ==> r.error == EmptyPath
    ensures r.Ok? ==> path in r.value.directories
    ensures r.Ok? ==> (r.value.createCalled <==> path !in existing)
    ensures r.Ok? ==> forall d :: d in existing ==> d in r.value.directories
    ensures r.Ok? ==> forall d :: d in r.value.directories && d != path ==> d in existing
  {
    if path == [] then Err(EmptyPath)
    else if path in existing then Ok(DirectoryCheck(existing, false))
    else Ok(DirectoryCheck(existing + {path}, true))
  }

  /** A second check of the same directory creates nothing and changes nothing. */
  lemma EnsureDirectoryCreatedIdempotent(existing: set<string>, path: string)
    ensures var once := EnsureDirectoryCreated(existing, path);
            once.Ok? ==>
              var twice := EnsureDirectoryCreated(once.value.directories, path);
              twice.Ok? && !twice.value.createCalled && twice.value.directories == once.value.directories
  {
  }
}
