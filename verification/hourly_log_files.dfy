/** `HourlyLogFileInfo`: files named `HH-NNNNN.log`, numbered from 1 within an hour of the clock. */
module HourlyLogFiles {
  import opened Outcomes
  import opened Decimal
  import opened Clock
  import opened Patterns
  import opened Text

  const LogSuffix: string := ".log"

  /** A time and a sequence number; the file name is derived from the hour and the sequence. */
  datatype HourlyLogFileInfo = HourlyLogFileInfo(date: DateTime, sequence: uint32) {

    /** `HH-NNNNN.log`: the two-digit hour, a dash, the sequence padded to five digits. */
    function FileName(): (r: string)
      ensures |r| >= 12 && r[..2] == Hh(date) && r[2] == '-' && r[|r| - 4..] == LogSuffix
      ensures AllDigits(r[3..|r| - 4]) && Value(r[3..|r| - 4]) == sequence
      ensures sequence < 100000 ==> |r| == 12
    {
      var digits := ZeroPad(sequence, 5);
      var r := Hh(date) + "-" + digits + ".log";
      assert r[3..|r| - 4] == digits;
      assert sequence < 100000 ==> |digits| == 5 by { if sequence < 100000 { FivePlaces(sequence); } }
      r
    }

    /** `Next()`, reading the clock as `now`: only the hour of day is compared, not the date. */
    function Next(now: DateTime): (r: HourlyLogFileInfo)
      ensures r.date == now
      ensures date.hour == now.hour ==> r.sequence == Inc32(sequence)
      ensures date.hour != now.hour ==> r.sequence == 1
    {
      if date.hour != now.hour then HourlyLogFileInfo(now, 1)
      else HourlyLogFileInfo(now, Inc32(sequence))
    }
  }

  function HourPrefix(date: DateTime): (r: string)
    ensures |r| == 3 && r[..2] == Hh(date) && r[2] == '-'
  {
    Hh(date) + "-"
  }

  /** `HH-(\d{5}).log` for the hour of the given time. */
  function Pattern(date: DateTime): SequencePattern {
    SequencePattern(Compile(HourPrefix(date)), Compile(LogSuffix))
  }

  /** `GetLatestOrNew(date, directory)` over the listed paths: the largest sequence of a file
      matching the hour's pattern, or 1; the result carries the given time, not a file's. */
  function GetLatestOrNew(date: DateTime, listing: seq<string>): (r: HourlyLogFileInfo)
    ensures r.date == date && r.sequence >= 1
    ensures forall x :: x in listing && Capture(Pattern(date), x).Some? ==> Capture(Pattern(date), x).value <= r.sequence
    ensures r.sequence == 1 || exists x :: x in listing && Capture(Pattern(date), x) == Some(r.sequence)
  {
    HourlyLogFileInfo(date, ScanLatest(Pattern(date), listing, 1))
  }

  /** `HH-(\d{5})`: the part of the pattern before `.log`. A folder in which it occurs nowhere
      cannot lend the scan a match. */
  function NumberedHour(date: DateTime): seq<Elem> {
    Compile(HourPrefix(date)) + FiveDigits
  }

  lemma NumberedHourLeadsPattern(date: DateTime)
    ensures 1 <= |NumberedHour(date)| <= |Pattern(date).Elems()|
    ensures Pattern(date).Elems()[..|NumberedHour(date)|] == NumberedHour(date)
    ensures RejectsSeparators(NumberedHour(date))
  {
    var h := HourPrefix(date);
    assert forall k :: 0 <= k < 2 ==> IsDigit(h[k]) by {
      assert forall k :: 0 <= k < 2 ==> h[k] == h[..2][k];
    }
  }

  /** The scan of the folder's full paths recognises every name this type renders, and reads
      back its sequence. */
  lemma FileNameIsFound(info: HourlyLogFileInfo, folder: string)
    requires info.sequence < 100000
    requires !FoundIn(NumberedHour(info.date), folder)
    ensures Capture(Pattern(info.date), Combine(folder, info.FileName())) == Some(info.sequence)
  {
    SplicedNameRoundTrip(HourPrefix(info.date), info.sequence, LogSuffix);
    NumberedHourLeadsPattern(info.date);
    CaptureInFolder(Pattern(info.date), NumberedHour(info.date), folder, info.FileName());
  }

  /** Files of another hour in the folder never match the scan's pattern. */
  lemma OtherHoursIgnored(date: DateTime, info: HourlyLogFileInfo, folder: string)
    requires info.sequence < 100000
    requires date.hour != info.date.hour
    requires !FoundIn(NumberedHour(date), folder)
    ensures Capture(Pattern(date), Combine(folder, info.FileName())) == None
  {
    HhIdentifiesHour(date, info.date);
    assert HourPrefix(date)[..2] != HourPrefix(info.date)[..2];
    OtherPrefixIgnored(HourPrefix(date), HourPrefix(info.date), info.sequence, LogSuffix);
    FivePlaces(info.sequence);
    NumberedHourLeadsPattern(date);
    CaptureInFolder(Pattern(date), NumberedHour(date), folder, info.FileName());
  }

  /** The same hour on the next day continues the sequence instead of restarting it. */
  lemma NextIgnoresTheDate()
    ensures HourlyLogFileInfo(DateTime(2015, 1, 15, 10, 0, 0), 4).Next(DateTime(2015, 1, 16, 10, 30, 0)).sequence == 5
  {
  }

  /** Within an hour `Next` never reuses the current file name, even past five digits or across
      the `uint` wrap to 0; in another hour the two-digit prefix differs. */
  lemma NextRenamesFile(info: HourlyLogFileInfo, now: DateTime)
    ensures info.Next(now).FileName() != info.FileName()
  {
    var n := info.Next(now);
    HhIdentifiesHour(info.date, now);
    if info.date.hour == now.hour {
      var a, b := n.FileName(), info.FileName();
      assert Value(a[3..|a| - 4]) != Value(b[3..|b| - 4]);
    } else {
      assert n.FileName()[..2] == Hh(now);
      assert info.FileName()[..2] == Hh(info.date);
    }
  }
}
