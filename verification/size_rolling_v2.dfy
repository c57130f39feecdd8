/** `SizeRollingFileSink` of the V2 package: files named after a path template, resumed from the
    latest file of the template's folder, rotated to the next sequence once the size limit is
    reached. Its writers open their file once, with no retry. */
module SizeRollingV2 {
  import opened Outcomes
  import opened Text
  import opened FileNames
  import opened FileSystemModel
  import opened Events
  import opened SizeDescriptionsV2
  import opened LatestFiles
  import W = SizeWriters
  import WV2 = SizeWritersV2
  import R = SizeRolling

  type Sink = W.SizeLimitedFileSink<SizeLimitedLogFileDescription>

  /** The rolling sink: the folder of the template and the encoding (`None` for null), both fixed
      at construction, and the state machine. */
  datatype SizeRollingFileSink = SizeRollingFileSink(folder: string, encoding: Option<nat>, state: RollingState<Sink>)

  /** `GetLatestFileDescription` over the paths the folder lists. */
  function GetLatestFileDescription(template: string, limit: int64, listing: seq<string>)
    : (r: SizeLimitedLogFileDescription)
    ensures r.sizeLimitBytes == limit
    ensures listing == [] ==> r.components == ParseLogFileName(template)
    ensures listing != [] ==>
              exists i :: 0 <= i < |listing| && r.components == ParseLogFileName(listing[i]) &&
                forall j :: 0 <= j < |listing| ==> ParseLogFileName(listing[j]).sequence <= r.components.sequence
  {
    SizeLimitedLogFileDescription(LatestComponents(template, listing), limit)
  }

  /** The writer constructor of this package, over a fixed folder and file system. */
  function OpenIn(folder: string, encoding: Option<nat>, open: string -> OpenOutcome)
    : SizeLimitedLogFileDescription -> Result<Sink>
  {
    (d: SizeLimitedLogFileDescription) => WV2.Open(folder, d, encoding, open)
  }

  /** The constructor. `listing` is what `Directory.GetFiles` returns for the template's folder,
      or `None` when that folder does not exist, and then the listing throws before any writer
      is opened. Otherwise the folder is the template's directory, and the writer opens the
      latest file with `encoding ?? Encoding.UTF8`; an open that fails escapes from the
      constructor. A template without a directory gives the empty folder, whose creation throws. */
  function Construct(template: string, limit: int64, encoding: Option<nat>, listing: Option<seq<string>>,
                     open: string -> OpenOutcome): (r: Result<SizeRollingFileSink>)
    ensures listing.None? ==> r == Err(DirectoryNotFound)
    ensures listing.Some? && NoSeparator(template) ==> r == Err(EmptyPath)
    ensures listing.Some? ==>
              var d := GetLatestFileDescription(template, limit, listing.value);
              var path := Combine(DirectoryName(template), d.FullName());
              (r.Ok? <==> !NoSeparator(template) && open(path).Opened?) &&
              (r.Ok? ==> r.value.folder == DirectoryName(template) && r.value.encoding == encoding &&
                         R.Valid(r.value.state) && r.value.state.Active? && r.value.state.writer.description == d &&
                         r.value.state.writer.writer ==
                           Some(StartWriter(path, open(path).existingBytes, PreambleOf(encoding))))
  {
    var folder := DirectoryName(template);
    LastSeparatorFound(template);
    match listing
    case None => Err(DirectoryNotFound)
    case Some(paths) =>
      match WV2.Open(folder, GetLatestFileDescription(template, limit, paths), encoding, open)
      case Err(x) => Err(x)
      case Ok(w) => Ok(SizeRollingFileSink(folder, encoding, Active(w)))
  }

  /** The constructor as evidently intended: a folder that does not exist yet is listed as an
      empty one, so that the writer, which creates the folder, gets to open the template's file. */
  function ConstructCreatingFolder(template: string, limit: int64, encoding: Option<nat>, listing: Option<seq<string>>,
                                   open: string -> OpenOutcome): (r: Result<SizeRollingFileSink>)
    ensures listing.Some? ==> r == Construct(template, limit, encoding, listing, open)
    ensures listing.None? ==> r == Construct(template, limit, encoding, Some([]), open)
  {
    Construct(template, limit, encoding, Some(if listing.None? then [] else listing.value), open)
  }

  /** A first run into a folder that does not exist: as written the constructor throws
      `DirectoryNotFoundException` even when the writer would create the folder and open the
      template's file; as intended it starts on the template's own file. */
  lemma MissingFolderThrows(template: string, limit: int64, encoding: Option<nat>, open: string -> OpenOutcome)
    requires !NoSeparator(template)
    requires open(Combine(DirectoryName(template), GetLatestFileDescription(template, limit, []).FullName())).Opened?
    ensures Construct(template, limit, encoding, None, open) == Err(DirectoryNotFound)
    ensures var c := ConstructCreatingFolder(template, limit, encoding, None, open);
            c.Ok? && c.value.state.writer.description.components == ParseLogFileName(template)
  {
  }

  /** `Emit`: a null event, then a disposed sink, throw; otherwise the writer is rotated when
      past its limit and the event is written. */
  function Emit(sink: SizeRollingFileSink, e: Option<LogEvent>, open: string -> OpenOutcome)
    : (r: Outcome<SizeRollingFileSink>)
    ensures r.state.folder == sink.folder && r.state.encoding == sink.encoding
    ensures e.None? ==> r == Outcome(sink, Some(ArgumentNull("logEvent")))
    ensures e.Some? && sink.state.Disposed? ==> r == Outcome(sink, Some(ObjectDisposed(W.ThisObjectName)))
  {
    var r := R.Emit(sink.state, e, Next, OpenIn(sink.folder, sink.encoding, open));
    Outcome(sink.(state := r.state), r.thrown)
  }

  /** An event reaching an active sink: a writer past its limit is replaced by one for the next
      sequence, and the event goes through exactly when no rotation is due or the next file
      opens; the invariant holds whatever happens. */
  lemma EmitRotation(sink: SizeRollingFileSink, e: LogEvent, open: string -> OpenOutcome)
    requires R.Valid(sink.state) && sink.state.Active?
    ensures var r := Emit(sink, Some(e), open);
            var current := sink.state.writer;
            var following := Next(current.description);
            R.Valid(r.state.state) && r.state.state.Active? &&
            (r.thrown.None? <==>
               !current.sizeLimitReached ||
               (sink.folder != [] && open(Combine(sink.folder, following.FullName())).Opened?)) &&
            (r.thrown.None? ==>
               r.state.state.writer.description == (if current.sizeLimitReached then following else current.description))
  {
    var opener := OpenIn(sink.folder, sink.encoding, open);
    OpenerIsFresh(sink.folder, sink.encoding, open);
    R.ValidPreserved(sink.state, Some(e), Next, opener);
    R.OnlyOpeningThrows(sink.state, e, Next, opener);
    var current := sink.state.writer;
    if !current.sizeLimitReached || opener(Next(current.description)).Ok? {
      R.RotatesIffLimitReached(current, e, Next, opener);
    }
  }

  /** The writers this package opens are fresh ones for the description asked for. */
  lemma OpenerIsFresh(folder: string, encoding: Option<nat>, open: string -> OpenOutcome)
    ensures R.FreshOpener(OpenIn(folder, encoding, open))
  {
  }

  /** `Dispose`: the first call disposes the writer and ends in `Disposed`; later calls do nothing. */
  function Dispose(sink: SizeRollingFileSink): (r: Outcome<SizeRollingFileSink>)
    ensures R.Valid(sink.state) ==> r == Outcome(sink.(state := Disposed), None)
    ensures sink.state.Disposed? ==> r == Outcome(sink, None)
  {
    var r := R.Dispose(sink.state);
    Outcome(sink.(state := r.state), r.thrown)
  }

  /** A second `Dispose` does nothing, and a disposed sink refuses every event. */
  lemma DisposeIdempotent(sink: SizeRollingFileSink, e: LogEvent, open: string -> OpenOutcome)
    requires R.Valid(sink.state)
    ensures Dispose(Dispose(sink).state) == Dispose(sink)
    ensures Emit(Dispose(sink).state, Some(e), open).thrown == Some(ObjectDisposed(W.ThisObjectName))
  {
  }

  /** The template of the test suite parses as name "applog", sequence 0, extension "txt". */
  lemma TemplateParses(dir: string, sep: char)
    requires IsSeparator(sep)
    ensures ParseLogFileName(dir + [sep] + "applog.txt") == FileNameComponents("applog", 0, "txt")
    ensures |dir| >= RootLength(dir + [sep] + "applog.txt") ==> DirectoryName(dir + [sep] + "applog.txt") == dir
    ensures |dir| < RootLength(dir + [sep] + "applog.txt") ==> DirectoryName(dir + [sep] + "applog.txt") == dir + [sep]
  {
    var file := "applog.txt";
    assert "applog" + "." + "txt" == file;
    assert "applog"[1] == 'p';
    assert PlainSegment("applog") && PlainSegment("txt") && NoSeparator(file);
    ParseWithoutSequence("applog", "txt");
    ParseIgnoresDirectory(dir, sep, file);
    DirectoryNameBefore(dir, sep, file);
  }

  /** On an empty folder the latest sequence is 0: the template's own. */
  lemma EmptyFolderStartsAtZero(dir: string, sep: char, limit: int64)
    requires IsSeparator(sep)
    ensures GetLatestFileDescription(dir + [sep] + "applog.txt", limit, []).components.sequence == 0
  {
    TemplateParses(dir, sep);
  }

  /** With files of sequences 1 and 2 in the folder, the latest sequence is 2. */
  lemma LatestOfOneAndTwo(dir: string, sep: char, limit: int64)
    requires IsSeparator(sep)
    ensures var listing := [dir + [sep] + FileNameComponents("applog", 1, "txt").FullName(),
                            dir + [sep] + FileNameComponents("applog", 2, "txt").FullName()];
            GetLatestFileDescription(dir + [sep] + "applog.txt", limit, listing).components.sequence == 2
  {
    assert "applog"[1] == 'p';
    assert PlainSegment("applog") && PlainSegment("txt");
    HigherSequenceWins(dir + [sep] + "applog.txt", dir, sep, FileNameComponents("applog", 1, "txt"),
                       FileNameComponents("applog", 2, "txt"));
  }

  /** With a 10-byte limit, the default encoding and new files in an existing, empty folder, the
      first event goes to the template's sequence and passes the limit (the UTF-8 preamble and the
      event exceed 10 bytes), so the second goes to the next sequence. */
  lemma TenByteLimitRollsOnSecondEvent(template: string, e: LogEvent, open: string -> OpenOutcome)
    requires ParseLogFileName(template).sequence == 0
    requires forall p :: open(p) == Opened(0)
    requires e.bytes > 7
    ensures NoSeparator(template) ==> Construct(template, 10, None, Some([]), open) == Err(EmptyPath)
    ensures var c := Construct(template, 10, None, Some([]), open);
            !NoSeparator(template) ==>
            c.Ok? && c.value.state.Active? && c.value.state.writer.description.components.sequence == 0 &&
            var first := Emit(c.value, Some(e), open);
            first.thrown.None? && first.state.state.Active? &&
            first.state.state.writer.description.components.sequence == 0 &&
            var second := Emit(first.state, Some(e), open);
            second.thrown.None? && second.state.state.Active? &&
            second.state.state.writer.description.components.sequence == 1
  {
    var c := Construct(template, 10, None, Some([]), open);
    if !NoSeparator(template) {
      assert c.Ok?;
      EmitRotation(c.value, e, open);
      var first := Emit(c.value, Some(e), open);
      assert first.state.state.writer.sizeLimitReached;
      EmitRotation(first.state, e, open);
    }
  }

  /** The test suite's case: template `applog.txt`, a 10-byte limit, sequence 0 then 1. */
  lemma TestSuiteRollsAtTenBytes(dir: string, sep: char, e: LogEvent, open: string -> OpenOutcome)
    requires IsSeparator(sep)
    requires forall p :: open(p) == Opened(0)
    requires e.bytes > 7
    ensures var c := Construct(dir + [sep] + "applog.txt", 10, None, Some([]), open);
            c.Ok? && c.value.state.writer.description.components.sequence == 0 &&
            Emit(Emit(c.value, Some(e), open).state, Some(e), open).state.state.writer.description.components.sequence == 1
  {
    var template := dir + [sep] + "applog.txt";
    TemplateParses(dir, sep);
    assert template[|dir|] == sep;
    TenByteLimitRollsOnSecondEvent(template, e, open);
  }
}
