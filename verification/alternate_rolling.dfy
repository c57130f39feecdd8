/** `AlternateRollingFileSink` of the size-rolling package: files named after a path template,
    resumed from the latest file of the template's folder, rotated to the next sequence once the
    size limit is reached. Its writers retry under the next name while a file is held. */
module AlternateRolling {
  import opened Outcomes
  import opened Text
  import opened FileNames
  import opened FileSystemModel
  import opened Events
  import opened SizeDescriptions
  import opened LatestFiles
  import W = SizeWriters
  import R = SizeRolling

  type Sink = W.SizeLimitedFileSink<SizeLimitedLogFileDescription>

  /** The rolling sink: the folder of the template and the encoding (`None` for null), both fixed
      at construction, and the state machine. */
  datatype AlternateRollingFileSink = AlternateRollingFileSink(folder: string, encoding: Option<nat>, state: RollingState<Sink>)

  /** `GetLatestFileDescription` over the paths the folder lists: the parse of the first listed
      path of highest sequence, whatever its name, or the parse of the template. */
  function GetLatestFileDescription(template: string, limit: int64, listing: seq<string>)
    : (r: SizeLimitedLogFileDescription)
    ensures r.sizeLimitBytes == limit
    ensures listing == [] ==> r.components == ParseLogFileName(template)
    ensures listing != [] ==>
              exists i :: 0 <= i < |listing| && r.components == ParseLogFileName(listing[i]) &&
                forall j :: 0 <= j < |listing| ==> ParseLogFileName(listing[j]).sequence <= r.components.sequence
  {
    SizeLimitedLogFileDescription(LatestComponents(template, listing), limit)
  }

  /** The writer constructor of this package, over a fixed folder, file system and retry bound. */
  function OpenIn(folder: string, encoding: Option<nat>, open: string -> OpenOutcome, fuel: nat)
    : SizeLimitedLogFileDescription -> Result<Sink>
  {
    (d: SizeLimitedLogFileDescription) => W.Open(folder, d, encoding, open, fuel)
  }

  /** The constructor. `listing` is what `Directory.GetFiles` returns for the template's folder,
      or `None` when that folder does not exist, and then the listing throws before any writer
      is opened. Otherwise the folder is the template's directory, and the writer opens the
      latest file, or a later one while files are held, with `encoding ?? Encoding.UTF8`; a
      failed open escapes from the constructor. A template without a directory gives the empty
      folder, whose creation throws. */
  function Construct(template: string, limit: int64, encoding: Option<nat>, listing: Option<seq<string>>,
                     open: string -> OpenOutcome, fuel: nat): (r: Result<AlternateRollingFileSink>)
    ensures listing.None? ==> r == Err(DirectoryNotFound)
    ensures listing.Some? && NoSeparator(template) ==> r == Err(EmptyPath)
    ensures r.Ok? <==>
              listing.Some? &&
              W.OpenFileForWriting(DirectoryName(template), GetLatestFileDescription(template, limit, listing.value),
                                   open, PreambleOf(encoding), fuel).Ok?
    ensures r.Ok? ==>
              var d := GetLatestFileDescription(template, limit, listing.value);
              r.value.folder == DirectoryName(template) && r.value.encoding == encoding && R.Valid(r.value.state) &&
              r.value.state.Active? && r.value.state.writer.description == d &&
              r.value.state.writer.writer ==
                Some(W.OpenFileForWriting(DirectoryName(template), d, open, PreambleOf(encoding), fuel).value)
  {
    var folder := DirectoryName(template);
    LastSeparatorFound(template);
    match listing
    case None => Err(DirectoryNotFound)
    case Some(paths) =>
      match W.Open(folder, GetLatestFileDescription(template, limit, paths), encoding, open, fuel)
      case Err(x) => Err(x)
      case Ok(w) => Ok(AlternateRollingFileSink(folder, encoding, Active(w)))
  }

  /** The constructor as evidently intended: a folder that does not exist yet is listed as an
      empty one, so that the writer, which creates the folder, gets to open the template's file. */
  function ConstructCreatingFolder(template: string, limit: int64, encoding: Option<nat>, listing: Option<seq<string>>,
                                   open: string -> OpenOutcome, fuel: nat): (r: Result<AlternateRollingFileSink>)
    ensures listing.Some? ==> r == Construct(template, limit, encoding, listing, open, fuel)
    ensures listing.None? ==> r == Construct(template, limit, encoding, Some([]), open, fuel)
  {
    Construct(template, limit, encoding, Some(if listing.None? then [] else listing.value), open, fuel)
  }

  /** A first run into a folder that does not exist: as written the constructor throws
      `DirectoryNotFoundException` even when the writer would create the folder and open the
      template's file; as intended it starts on the template's own file. */
  lemma MissingFolderThrows(template: string, limit: int64, encoding: Option<nat>, open: string -> OpenOutcome, fuel: nat)
    requires !NoSeparator(template)
    requires open(Combine(DirectoryName(template), GetLatestFileDescription(template, limit, []).FullName())).Opened?
    ensures Construct(template, limit, encoding, None, open, fuel) == Err(DirectoryNotFound)
    ensures var c := ConstructCreatingFolder(template, limit, encoding, None, open, fuel);
            c.Ok? && c.value.state.writer.description.components == ParseLogFileName(template)
  {
    LastSeparatorFound(template);
    var d := GetLatestFileDescription(template, limit, []);
    assert W.OpenFileForWriting(DirectoryName(template), d, open, PreambleOf(encoding), fuel).Ok?;
  }

  function Next(d: SizeLimitedLogFileDescription): SizeLimitedLogFileDescription {
    d.Next()
  }

  /** `Emit`: a null event, then a disposed sink, throw; otherwise the writer is rotated when
      past its limit and the event is written. */
  function Emit(sink: AlternateRollingFileSink, e: Option<LogEvent>, open: string -> OpenOutcome, fuel: nat)
    : (r: Outcome<AlternateRollingFileSink>)
    ensures r.state.folder == sink.folder && r.state.encoding == sink.encoding
    ensures e.None? ==> r == Outcome(sink, Some(ArgumentNull("logEvent")))
    ensures e.Some? && sink.state.Disposed? ==> r == Outcome(sink, Some(ObjectDisposed(W.ThisObjectName)))
  {
    var r := R.Emit(sink.state, e, Next, OpenIn(sink.folder, sink.encoding, open, fuel));
    Outcome(sink.(state := r.state), r.thrown)
  }

  /** The writers this package opens are fresh ones for the description asked for. */
  lemma OpenerIsFresh(folder: string, encoding: Option<nat>, open: string -> OpenOutcome, fuel: nat)
    ensures R.FreshOpener(OpenIn(folder, encoding, open, fuel))
  {
  }

  /** An event reaching an active sink: a writer past its limit is replaced by one for `Next()` of
      its description, and the event goes through exactly when no rotation is due or the open of
      the next file (with its retries) succeeds; the invariant holds whatever happens. */
  lemma EmitRotation(sink: AlternateRollingFileSink, e: LogEvent, open: string -> OpenOutcome, fuel: nat)
    requires R.Valid(sink.state) && sink.state.Active?
    ensures var r := Emit(sink, Some(e), open, fuel);
            var current := sink.state.writer;
            var following := current.description.Next();
            R.Valid(r.state.state) && r.state.state.Active? &&
            (r.thrown.None? <==>
               !current.sizeLimitReached ||
               W.OpenFileForWriting(sink.folder, following, open, PreambleOf(sink.encoding), fuel).Ok?) &&
            (r.thrown.None? ==>
               r.state.state.writer.description == (if current.sizeLimitReached then following else current.description))
  {
    var opener := OpenIn(sink.folder, sink.encoding, open, fuel);
    OpenerIsFresh(sink.folder, sink.encoding, open, fuel);
    R.ValidPreserved(sink.state, Some(e), Next, opener);
    R.OnlyOpeningThrows(sink.state, e, Next, opener);
    var current := sink.state.writer;
    if !current.sizeLimitReached || opener(Next(current.description)).Ok? {
      R.RotatesIffLimitReached(current, e, Next, opener);
    }
  }

  /** `Dispose`: the first call disposes the writer and ends in `Disposed`; later calls do nothing. */
  function Dispose(sink: AlternateRollingFileSink): (r: Outcome<AlternateRollingFileSink>)
    ensures R.Valid(sink.state) ==> r == Outcome(sink.(state := Disposed), None)
    ensures sink.state.Disposed? ==> r == Outcome(sink, None)
  {
    var r := R.Dispose(sink.state);
    Outcome(sink.(state := r.state), r.thrown)
  }

  /** A second `Dispose` does nothing, and a disposed sink refuses every event. */
  lemma DisposeIdempotent(sink: AlternateRollingFileSink, e: LogEvent, open: string -> OpenOutcome, fuel: nat)
    requires R.Valid(sink.state)
    ensures Dispose(Dispose(sink).state) == Dispose(sink)
    ensures Emit(Dispose(sink).state, Some(e), open, fuel).thrown == Some(ObjectDisposed(W.ThisObjectName))
  {
  }

  /** The sink resumes from any file of its folder, even one of another name than the template's:
      with a lone rendered file in the folder, the sink describes that file. */
  lemma ResumesFromAnyName(template: string, limit: int64, encoding: Option<nat>, dir: string, sep: char,
                           c: FileNameComponents, open: string -> OpenOutcome, fuel: nat)
    requires PlainSegment(c.name) && PlainSegment(c.extension) && c.sequence < 100000
    requires IsSeparator(sep)
    requires Construct(template, limit, encoding, Some([dir + [sep] + c.FullName()]), open, fuel).Ok?
    ensures Construct(template, limit, encoding, Some([dir + [sep] + c.FullName()]), open, fuel).value.state.writer.description ==
            SizeLimitedLogFileDescription(c, limit)
  {
    AnyNameCanBeLatest(template, dir, sep, c);
  }
}
