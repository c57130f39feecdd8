/** `LogFileInfo`: files named `yyyyMMdd-<pid>-<process name>-NNNNN.log`, numbered from 1
    within a day, so that several processes can share one log directory. */
module ProcessLogFiles {
  import opened Outcomes
  import opened Decimal
  import opened Clock
  import opened Patterns
  import opened Text

  const LogSuffix: string := ".log"

  /** The running process as `Process.GetCurrentProcess` reports it. */
  datatype Process = Process(id: int, name: string)

  /** What `GetProcess` keeps of the running process. */
  datatype ProcessData = ProcessData(id: int, name: string)

  /** `GetProcess`: the process id and a name cut to 20 characters plus "..."; (0, "") when
      there is no process. */
  function GetProcess(current: Option<Process>): (r: ProcessData)
    ensures current.None? ==> r == ProcessData(0, "")
    ensures current.Some? ==> r.id == current.value.id
    ensures current.Some? && |current.value.name| < 20 ==> r.name == current.value.name
    ensures current.Some? && |current.value.name| >= 20 ==>
              |r.name| == 23 && r.name[..20] == current.value.name[..20] && r.name[20..] == "..."
  {
    match current
    case None => ProcessData(0, "")
    case Some(p) =>
      var name := if |p.name| < 20 then p.name else p.name[..20] + "...";
      ProcessData(p.id, name)
  }

  /** A process name as kept is never longer than 23 characters and starts like the original. */
  lemma ProcessNameBounded(current: Option<Process>)
    ensures |GetProcess(current).name| <= 23
    ensures current.Some? ==>
              var n := if |current.value.name| < 20 then |current.value.name| else 20;
              GetProcess(current).name[..n] == current.value.name[..n]
  {
  }

  /** The constructor's fields. */
  datatype LogFileInfo = LogFileInfo(date: DateTime, sequence: uint32, processId: int, processName: string) {

    /** The constructor's `FileName`, exactly as written: the date, the pid and the name, each
        followed by a dash, then the padded sequence and `.log`. The pid and name segments are
        always present, even when there is no process (pid 0, empty name). */
    function FileNameAsWritten(): (r: string)
      ensures var k := |ProcessPrefix(date, processId, processName)|;
              |r| >= k + 9 && r[..k] == ProcessPrefix(date, processId, processName) &&
              r[|r| - 4..] == LogSuffix && AllDigits(r[k..|r| - 4]) && Value(r[k..|r| - 4]) == sequence &&
              (sequence < 100000 ==> |r| == k + 9)
    {
      var prefix := ProcessPrefix(date, processId, processName);
      var digits := ZeroPad(sequence, 5);
      var r := prefix + digits + ".log";
      assert r[..|prefix|] == prefix && r[|prefix|..|r| - 4] == digits;
      assert sequence < 100000 ==> |digits| == 5 by { if sequence < 100000 { FivePlaces(sequence); } }
      r
    }

    /** The name the scan of `GetLatestOrNew` looks for: without pid and name when the pid is 0,
        as written otherwise. */
    function FileName(): (r: string)
      ensures processId != 0 ==> r == FileNameAsWritten()
      ensures processId == 0 ==>
                |r| >= 18 && r[..8] == Yyyymmdd(date) && r[8] == '-' && r[|r| - 4..] == LogSuffix &&
                AllDigits(r[9..|r| - 4]) && Value(r[9..|r| - 4]) == sequence &&
                (sequence < 100000 ==> |r| == 18)
    {
      if processId == 0 then
        var digits := ZeroPad(sequence, 5);
        var r := Yyyymmdd(date) + "-" + digits + ".log";
        assert r[9..|r| - 4] == digits;
        assert sequence < 100000 ==> |digits| == 5 by { if sequence < 100000 { FivePlaces(sequence); } }
        r
      else FileNameAsWritten()
    }

    /** `Next()`, reading the clock as `now` and the process as `current`. */
    function Next(now: DateTime, current: Option<Process>): (r: LogFileInfo)
      ensures r.date == now
      ensures SameDate(date, now) ==> r.sequence == Inc32(sequence)
      ensures !SameDate(date, now) ==> r.sequence == 1
      ensures r.processId == GetProcess(current).id && r.processName == GetProcess(current).name
    {
      if !SameDate(date, now) then Create(now, 1, current)
      else Create(now, Inc32(sequence), current)
    }
  }

  /** `new LogFileInfo(date, sequence)`: the process identity is read at construction. */
  function Create(date: DateTime, sequence: uint32, current: Option<Process>): (r: LogFileInfo)
    ensures r.date == date && r.sequence == sequence
    ensures r.processId == GetProcess(current).id && r.processName == GetProcess(current).name
  {
    var p := GetProcess(current);
    LogFileInfo(date, sequence, p.id, p.name)
  }

  /** `yyyyMMdd-<pid>-<name>-`: the date, the pid and the name, each followed by a dash. */
  function ProcessPrefix(date: DateTime, processId: int, processName: string): (r: string)
    ensures var pid := IntToString(processId);
            |r| == 11 + |pid| + |processName| && r[..8] == Yyyymmdd(date) && r[8] == '-' &&
            r[9..9 + |pid|] == pid && r[9 + |pid|] == '-' &&
            r[10 + |pid|..|r| - 1] == processName && r[|r| - 1] == '-'
  {
    var pid := IntToString(processId);
    var r := Yyyymmdd(date) + "-" + pid + "-" + processName + "-";
    assert r[..8] == Yyyymmdd(date) && r[9..9 + |pid|] == pid && r[10 + |pid|..|r| - 1] == processName;
    r
  }

  /** The scan's pattern: `yyyyMMdd-(\d{5}).log` when the pid is 0, and
      `yyyyMMdd-<pid>-<name>-(\d{5}).log` otherwise. It finds every name `FileName` renders for
      the date and process, and reads back its sequence. */
  function Pattern(date: DateTime, p: ProcessData): (sp: SequencePattern)
    ensures forall s: uint32 :: s < 100000 ==>
              Capture(sp, LogFileInfo(date, s, p.id, p.name).FileName()) == Some(s)
  {
    var prefix := if p.id == 0 then Yyyymmdd(date) + "-" else ProcessPrefix(date, p.id, p.name);
    var sp := SequencePattern(Compile(prefix), Compile(".log"));
    assert forall s: uint32 :: s < 100000 ==>
             Capture(sp, LogFileInfo(date, s, p.id, p.name).FileName()) == Some(s) by {
      forall s: uint32 | s < 100000
        ensures Capture(sp, LogFileInfo(date, s, p.id, p.name).FileName()) == Some(s)
      {
        SplicedNameRoundTrip(prefix, s, LogSuffix);
      }
    }
    sp
  }

  /** `GetLatestOrNew(date, directory)`: the largest sequence of a listed path matching this
      process's pattern for the date, or 1. */
  function GetLatestOrNew(date: DateTime, current: Option<Process>, listing: seq<string>): (r: LogFileInfo)
    ensures r.date == date && r.sequence >= 1
    ensures r.processId == GetProcess(current).id && r.processName == GetProcess(current).name
    ensures var sp := Pattern(date, GetProcess(current));
            && (forall x :: x in listing && Capture(sp, x).Some? ==> Capture(sp, x).value <= r.sequence)
            && (r.sequence == 1 || exists x :: x in listing && Capture(sp, x) == Some(r.sequence))
  {
    var sp := Pattern(date, GetProcess(current));
    Create(date, ScanLatest(sp, listing, 1), current)
  }

  /** The scan uses the date-only pattern exactly when the pid is 0. */
  lemma PatternChoice(date: DateTime, current: Option<Process>)
    ensures GetProcess(current).id == 0 <==>
              Pattern(date, GetProcess(current)) == SequencePattern(Compile(Yyyymmdd(date) + "-"), Compile(LogSuffix))
  {
    var p := GetProcess(current);
    if p.id != 0 {
      var a := ProcessPrefix(date, p.id, p.name);
      var b := Yyyymmdd(date) + "-";
      assert |a| > |b| by {
        assert |IntToString(p.id)| >= 1;
      }
      assert |Compile(a)| != |Compile(b)|;
    }
  }

  /** `yyyyMMdd-`: the start shared by both patterns. A folder in which it occurs nowhere cannot
      lend the scan a match. */
  function DatedLead(date: DateTime): seq<Elem> {
    Compile(Yyyymmdd(date) + "-")
  }

  lemma DatedLeadStartsPattern(date: DateTime, p: ProcessData)
    ensures 1 <= |DatedLead(date)| <= |Pattern(date, p).Elems()|
    ensures Pattern(date, p).Elems()[..|DatedLead(date)|] == DatedLead(date)
    ensures RejectsSeparators(DatedLead(date))
  {
    var d := Yyyymmdd(date);
    if p.id == 0 {
      LeadOfPrefix(Pattern(date, p), d + "-", d);
    } else {
      LeadOfPrefix(Pattern(date, p), ProcessPrefix(date, p.id, p.name), d);
    }
  }

  lemma LeadOfPrefix(sp: SequencePattern, prefix: string, d: string)
    requires |d| == 8 && AllDigits(d) && |prefix| >= 9 && prefix[..8] == d && prefix[8] == '-'
    requires sp.before == Compile(prefix)
    ensures sp.Elems()[..9] == Compile(d + "-") && RejectsSeparators(Compile(d + "-"))
  {
    assert prefix == prefix[..9] + prefix[9..] && prefix[..9] == d + "-";
    CompilePrefix(d + "-", prefix[9..]);
    assert forall k :: 0 <= k < 8 ==> IsDigit(d[k]);
    LiteralRejectsSeparators(d + "-");
  }

  /** Every name `FileName` produces in a folder is found again by the scan of the same process
      and date over the folder's full paths. */
  lemma FileNameIsFound(info: LogFileInfo, folder: string)
    requires info.sequence < 100000
    requires !FoundIn(DatedLead(info.date), folder)
    ensures Capture(Pattern(info.date, ProcessData(info.processId, info.processName)),
                    Combine(folder, info.FileName())) == Some(info.sequence)
  {
    var p := ProcessData(info.processId, info.processName);
    if info.processId == 0 {
      SplicedNameRoundTrip(Yyyymmdd(info.date) + "-", info.sequence, LogSuffix);
    } else {
      SplicedNameRoundTrip(ProcessPrefix(info.date, info.processId, info.processName), info.sequence, LogSuffix);
    }
    DatedLeadStartsPattern(info.date, p);
    CaptureInFolder(Pattern(info.date, p), DatedLead(info.date), folder, info.FileName());
  }

  /** As written, a file of a process with pid 0 is never found by the scan for pid 0: its name
      carries the segments "-0-" and "-", which the date-only pattern does not allow. */
  lemma ZeroPidNameNotFound(date: DateTime, sequence: uint32)
    requires sequence < 100000
    ensures Capture(Pattern(date, ProcessData(0, "")), LogFileInfo(date, sequence, 0, "").FileNameAsWritten()) == None
  {
    var name := LogFileInfo(date, sequence, 0, "").FileNameAsWritten();
    ZeroPidNameShape(date, sequence);
    var e := Pattern(date, ProcessData(0, "")).Elems();
    ZeroPidPatternShape(date);
    DashesRefuseDateOnly(e, name, Yyyymmdd(date)[5]);
  }

  /** A name with "-0--" after its eight leading characters fits nowhere in a date-only
      pattern: at 0 a digit is expected where the second "-" stands; at 1 a "-" where "0"
      stands; at 2 a digit where the third "-" stands; at 3 a date digit where the first "-"
      stands; later positions leave too little room. */
  lemma DashesRefuseDateOnly(e: seq<Elem>, name: string, d5: char)
    requires |name| == 21 && name[8] == '-' && name[9] == '0' && name[10] == '-' && name[11] == '-'
    requires |e| == 18 && e[8] == Lit('-') && e[9] == Digit && e[10] == Digit && e[5] == Lit(d5) && IsDigit(d5)
    ensures forall i: nat :: !MatchesAt(e, name, i)
  {
    forall i: nat ensures !MatchesAt(e, name, i) {
      if i == 0 { assert !ElemMatches(e[10], name[i + 10]); }
      else if i == 1 { assert !ElemMatches(e[8], name[i + 8]); }
      else if i == 2 { assert !ElemMatches(e[9], name[i + 9]); }
      else if i == 3 { assert !ElemMatches(e[5], name[i + 5]); }
    }
  }

  lemma ZeroPidNameShape(date: DateTime, sequence: uint32)
    requires sequence < 100000
    ensures var name := LogFileInfo(date, sequence, 0, "").FileNameAsWritten();
            && |name| == 21
            && name[8] == '-' && name[9] == '0' && name[10] == '-' && name[11] == '-'
  {
    FivePlaces(sequence);
    assert IntToString(0) == "0";
    var d := Yyyymmdd(date);
    assert ProcessPrefix(date, 0, "") == d + "-0--";
  }

  lemma ZeroPidPatternShape(date: DateTime)
    ensures var e := Pattern(date, ProcessData(0, "")).Elems();
            && |e| == 18
            && e[8] == Lit('-') && e[9] == Digit && e[10] == Digit
            && e[5] == Lit(Yyyymmdd(date)[5]) && IsDigit(Yyyymmdd(date)[5])
  {
    var d := Yyyymmdd(date);
    var c := Compile(d + "-");
    assert |c| == 9;
    assert c[5] == Lit(d[5]);
    assert c[8] == Lit('-');
  }

  /** Without a process, the scan's name has no pid or name segment, while the constructor's
      carries the pid 0 and an empty name. */
  lemma NamesWithoutProcess(date: DateTime, sequence: uint32)
    ensures Create(date, sequence, None).FileName() == Yyyymmdd(date) + "-" + ZeroPad(sequence, 5) + LogSuffix
    ensures Create(date, sequence, None).FileNameAsWritten() == Yyyymmdd(date) + "-0--" + ZeroPad(sequence, 5) + LogSuffix
  {
    var info := Create(date, sequence, None);
    assert info == LogFileInfo(date, sequence, 0, "");
    assert IntToString(0) == "0";
    assert ProcessPrefix(date, 0, "") == Yyyymmdd(date) + "-0--";
  }

  /** The test suite's expectation for 2015-01-15, sequence 77 holds of `FileName` without a
      process. */
  lemma RendersTestName()
    ensures Create(DateTime(2015, 1, 15, 0, 0, 0), 77, None).FileName() == "20150115-00077.log"
  {
    NamesWithoutProcess(DateTime(2015, 1, 15, 0, 0, 0), 77);
    JanuaryFifteenth();
    SeventySevenPadded();
    assert "20150115" + "-" + "00077" + LogSuffix == "20150115-00077.log";
  }

  /** As written, the constructor's name for sequence 77 without a process carries the empty pid
      and name segments on every date: `20150115-0--00077.log` for the test suite's date. */
  lemma WritesTestNameWithEmptySegments(date: DateTime)
    ensures Create(date, 77, None).FileNameAsWritten() == Yyyymmdd(date) + "-0--00077.log"
  {
    NamesWithoutProcess(date, 77);
    SeventySevenPadded();
  }
}
