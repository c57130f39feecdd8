/** `SizeLimitedLogFileInfo`: files named `yyyyMMdd-NNNNN.log`, numbered from 1 within a day. */
module DailyLogFiles {
  import opened Outcomes
  import opened Decimal
  import opened Clock
  import opened Patterns
  import opened Text

  const LogSuffix: string := ".log"

  /** A date and a sequence number; the file name is derived from both. */
  datatype SizeLimitedLogFileInfo = SizeLimitedLogFileInfo(date: DateTime, sequence: uint32) {

    /** `yyyyMMdd-NNNNN.log`: the date, a dash, the sequence padded to five digits. */
    function FileName(): (r: string)
      ensures |r| >= 18 && r[..8] == Yyyymmdd(date) && r[8] == '-' && r[|r| - 4..] == LogSuffix
      ensures AllDigits(r[9..|r| - 4]) && Value(r[9..|r| - 4]) == sequence
      ensures sequence < 100000 ==> |r| == 18
    {
      var digits := ZeroPad(sequence, 5);
      var r := Yyyymmdd(date) + "-" + digits + ".log";
      assert r[9..|r| - 4] == digits;
      assert sequence < 100000 ==> |digits| == 5 by { if sequence < 100000 { FivePlaces(sequence); } }
      r
    }

    /** `Next()`, reading the clock as `now`: the day's next sequence, or 1 on a new day. */
    function Next(now: DateTime): (r: SizeLimitedLogFileInfo)
      ensures r.date == now
      ensures SameDate(date, now) ==> r.sequence == Inc32(sequence)
      ensures !SameDate(date, now) ==> r.sequence == 1
    {
      if !SameDate(date, now) then SizeLimitedLogFileInfo(now, 1)
      else SizeLimitedLogFileInfo(now, Inc32(sequence))
    }
  }

  function DatePrefix(date: DateTime): (r: string)
    ensures |r| == 9 && r[..8] == Yyyymmdd(date) && r[8] == '-'
  {
    Yyyymmdd(date) + "-"
  }

  /** `yyyyMMdd-(\d{5}).log` for the given date. */
  function Pattern(date: DateTime): SequencePattern {
    SequencePattern(Compile(DatePrefix(date)), Compile(LogSuffix))
  }

  /** `GetLatestOrNew(date, directory)` over the paths the directory lists: the largest sequence
      of a file matching the date's pattern, and 1 when none matches. */
  function GetLatestOrNew(date: DateTime, listing: seq<string>): (r: SizeLimitedLogFileInfo)
    ensures r.date == date && r.sequence >= 1
    ensures forall x :: x in listing && Capture(Pattern(date), x).Some? ==> Capture(Pattern(date), x).value <= r.sequence
    ensures r.sequence == 1 || exists x :: x in listing && Capture(Pattern(date), x) == Some(r.sequence)
  {
    SizeLimitedLogFileInfo(date, ScanLatest(Pattern(date), listing, 1))
  }

  /** `yyyyMMdd-(\d{5})`: the part of the pattern before `.log`. A folder in which it occurs
      nowhere cannot lend the scan a match. */
  function NumberedDay(date: DateTime): seq<Elem> {
    Compile(DatePrefix(date)) + FiveDigits
  }

  lemma NumberedDayLeadsPattern(date: DateTime)
    ensures 1 <= |NumberedDay(date)| <= |Pattern(date).Elems()|
    ensures Pattern(date).Elems()[..|NumberedDay(date)|] == NumberedDay(date)
    ensures RejectsSeparators(NumberedDay(date))
  {
    var d := DatePrefix(date);
    assert forall k :: 0 <= k < 8 ==> IsDigit(d[k]) by {
      assert forall k :: 0 <= k < 8 ==> d[k] == d[..8][k];
    }
  }

  /** The scan of the folder's full paths recognises every name this type renders, and reads
      back its sequence. */
  lemma FileNameIsFound(info: SizeLimitedLogFileInfo, folder: string)
    requires info.sequence < 100000
    requires !FoundIn(NumberedDay(info.date), folder)
    ensures Capture(Pattern(info.date), Combine(folder, info.FileName())) == Some(info.sequence)
  {
    SplicedNameRoundTrip(DatePrefix(info.date), info.sequence, LogSuffix);
    NumberedDayLeadsPattern(info.date);
    CaptureInFolder(Pattern(info.date), NumberedDay(info.date), folder, info.FileName());
  }

  /** Files of another date in the folder never match the scan's pattern. */
  lemma OtherDatesIgnored(date: DateTime, info: SizeLimitedLogFileInfo, folder: string)
    requires info.sequence < 100000
    requires !SameDate(date, info.date)
    requires !FoundIn(NumberedDay(date), folder)
    ensures Capture(Pattern(date), Combine(folder, info.FileName())) == None
  {
    YyyymmddIdentifiesDate(date, info.date);
    assert DatePrefix(date)[..8] != DatePrefix(info.date)[..8];
    OtherPrefixIgnored(DatePrefix(date), DatePrefix(info.date), info.sequence, LogSuffix);
    FivePlaces(info.sequence);
    NumberedDayLeadsPattern(date);
    CaptureInFolder(Pattern(date), NumberedDay(date), folder, info.FileName());
  }

  /** With no matching file the scan starts a new day at sequence 1. */
  lemma EmptyDirectoryStartsAtOne(date: DateTime, listing: seq<string>)
    requires forall x :: x in listing ==> Capture(Pattern(date), x).None?
    ensures GetLatestOrNew(date, listing).sequence == 1
  {
  }

  /** Paths whose captures are 1, 2 and 3 resume at 3. */
  lemma LatestOfThree(date: DateTime, p1: string, p2: string, p3: string)
    requires Capture(Pattern(date), p1) == Some(1) && Capture(Pattern(date), p2) == Some(2)
    requires Capture(Pattern(date), p3) == Some(3)
    ensures GetLatestOrNew(date, [p1, p2, p3]).sequence == 3
  {
    var sp, listing := Pattern(date), [p1, p2, p3];
    assert forall x :: x in listing ==> x == p1 || x == p2 || x == p3;
    assert listing[2] == p3;
    ScanIsMaximum(sp, listing, 1, 3);
  }

  /** A folder holding the files of sequences 1, 2 and 3 for the day resumes at sequence 3. */
  lemma LatestOfOneTwoThree(date: DateTime, folder: string)
    requires !FoundIn(NumberedDay(date), folder)
    ensures GetLatestOrNew(date, [Combine(folder, SizeLimitedLogFileInfo(date, 1).FileName()),
                                  Combine(folder, SizeLimitedLogFileInfo(date, 2).FileName()),
                                  Combine(folder, SizeLimitedLogFileInfo(date, 3).FileName())]).sequence == 3
  {
    FileNameIsFound(SizeLimitedLogFileInfo(date, 1), folder);
    FileNameIsFound(SizeLimitedLogFileInfo(date, 2), folder);
    FileNameIsFound(SizeLimitedLogFileInfo(date, 3), folder);
    LatestOfThree(date, Combine(folder, SizeLimitedLogFileInfo(date, 1).FileName()),
                  Combine(folder, SizeLimitedLogFileInfo(date, 2).FileName()),
                  Combine(folder, SizeLimitedLogFileInfo(date, 3).FileName()));
  }

  /** A restart on the same day resumes at or past every file written that day in the folder. */
  lemma ResumesPastWrittenFile(info: SizeLimitedLogFileInfo, now: DateTime, folder: string, listing: seq<string>)
    requires info.sequence < 100000
    requires SameDate(info.date, now)
    requires !FoundIn(NumberedDay(info.date), folder)
    requires Combine(folder, info.FileName()) in listing
    ensures GetLatestOrNew(now, listing).sequence >= info.sequence
  {
    YyyymmddIdentifiesDate(info.date, now);
    assert Pattern(now) == Pattern(info.date);
    FileNameIsFound(info, folder);
  }

  /** The scan reads whole paths, so a folder that is itself named like a file of the day
      decides the sequence of every file in it: a restart beside the file of sequence 2 in a
      folder named as sequence 1 resumes at 1. */
  lemma FolderCanShadowNames(date: DateTime)
    ensures var folder := SizeLimitedLogFileInfo(date, 1).FileName();
            GetLatestOrNew(date, [Combine(folder, SizeLimitedLogFileInfo(date, 2).FileName())]).sequence == 1
  {
    var folder := SizeLimitedLogFileInfo(date, 1).FileName();
    var path := Combine(folder, SizeLimitedLogFileInfo(date, 2).FileName());
    SplicedNameRoundTrip(DatePrefix(date), 1, LogSuffix);
    CaptureFromFolder(Pattern(date), folder, SizeLimitedLogFileInfo(date, 2).FileName());
    assert Capture(Pattern(date), path) == Some(1);
    assert forall x :: x in [path] ==> x == path;
    ScanIsMaximum(Pattern(date), [path], 1, 1);
  }

  /** `k` rotations within one day advance the sequence by exactly `k`. */
  function NextTimes(info: SizeLimitedLogFileInfo, now: DateTime, k: nat): SizeLimitedLogFileInfo
  {
    if k == 0 then info else NextTimes(info, now, k - 1).Next(now)
  }

  lemma {:induction false} NextTimesSameDay(info: SizeLimitedLogFileInfo, now: DateTime, k: nat)
    requires SameDate(info.date, now)
    requires info.sequence + k < UINT32_LIMIT
    ensures NextTimes(info, now, k).sequence == info.sequence + k
    ensures k > 0 ==> NextTimes(info, now, k).date == now
  {
    if k > 0 {
      NextTimesSameDay(info, now, k - 1);
      var prev := NextTimes(info, now, k - 1);
      assert SameDate(prev.date, now);
    }
  }

  /** Within a day `Next` never reuses the current file name, even past five digits or across the
      `uint` wrap to 0; across days it restarts at 1 under another date. */
  lemma NextRenamesFile(info: SizeLimitedLogFileInfo, now: DateTime)
    ensures info.Next(now).FileName() != info.FileName()
  {
    var n := info.Next(now);
    if SameDate(info.date, now) {
      var a, b := n.FileName(), info.FileName();
      assert Value(a[9..|a| - 4]) != Value(b[9..|b| - 4]);
    } else {
      YyyymmddIdentifiesDate(info.date, now);
      assert n.FileName()[..8] == Yyyymmdd(now);
      assert info.FileName()[..8] == Yyyymmdd(info.date);
    }
  }

  /** The file name of the test suite: 2015-01-15, sequence 77. */
  lemma RendersTestName()
    ensures SizeLimitedLogFileInfo(DateTime(2015, 1, 15, 0, 0, 0), 77).FileName() == "20150115-00077.log"
  {
    JanuaryFifteenth();
    SeventySevenPadded();
  }
}
