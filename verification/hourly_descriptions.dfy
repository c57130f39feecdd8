/** `HourlyLogFileDescription`: the hour a file covers, named `HH.log`. */
module HourlyDescriptions {
  import opened Decimal
  import opened Clock

  /** The time the description was made for. */
  datatype HourlyLogFileDescription = HourlyLogFileDescription(dateTime: DateTime) {

    /** `FileName`: the two-digit hour and `.log`. */
    function FileName(): (r: string)
      ensures |r| == 6 && r[2..] == ".log"
      ensures AllDigits(r[..2]) && Value(r[..2]) == dateTime.hour
    {
      var r := Hh(dateTime) + ".log";
      assert r[..2] == Hh(dateTime);
      r
    }

    /** `Date`: the time of day dropped. */
    function Date(): (r: DateTime)
      ensures SameDate(r, dateTime)
      ensures r.hour == 0 && r.minute == 0 && r.second == 0
    {
      DateOf(dateTime)
    }

    /** `SameHour(t)`: `t` falls on the same date and in the same hour. */
    predicate SameHour(t: DateTime) {
      Date() == DateOf(t) && dateTime.hour == t.hour
    }
  }

  /** `SameHour` compares the calendar date and the hour, and nothing finer. */
  lemma SameHourMeaning(d: HourlyLogFileDescription, t: DateTime)
    ensures d.SameHour(t) <==> SameDate(d.dateTime, t) && d.dateTime.hour == t.hour
  {
  }

  /** A description covers the time it was made for; covering is symmetric and transitive. */
  lemma SameHourEquivalence(a: DateTime, b: DateTime, c: DateTime)
    ensures HourlyLogFileDescription(a).SameHour(a)
    ensures HourlyLogFileDescription(a).SameHour(b) ==> HourlyLogFileDescription(b).SameHour(a)
    ensures HourlyLogFileDescription(a).SameHour(b) && HourlyLogFileDescription(b).SameHour(c)
            ==> HourlyLogFileDescription(a).SameHour(c)
  {
  }

  /** The file name identifies the hour only: descriptions share a name exactly when their hours
      agree, whatever their dates, so two hours of the same clock value on different days need
      different folders. */
  lemma FileNameIdentifiesHour(a: HourlyLogFileDescription, b: HourlyLogFileDescription)
    ensures a.FileName() == b.FileName() <==> a.dateTime.hour == b.dateTime.hour
  {
    if a.FileName() == b.FileName() {
      assert a.FileName()[..2] == b.FileName()[..2];
    } else {
      HhIdentifiesHour(a.dateTime, b.dateTime);
    }
  }

  /** `Date` is idempotent: taking it twice is taking it once. */
  lemma DateIdempotent(d: HourlyLogFileDescription)
    ensures HourlyLogFileDescription(d.Date()).Date() == d.Date()
  {
  }

  /** The hour 7 is written "07.log". */
  lemma SevenOClock(d: DateTime)
    requires d.hour == 7
    ensures HourlyLogFileDescription(d).FileName() == "07.log"
  {
    assert Digits(7) == "7";
    assert Zeros(1) == "0";
  }
}
