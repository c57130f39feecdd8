/** UTC date-times as the sinks see them, and the `ToString` formats they use. */
module Clock {
  import opened Decimal

  type Year = y: int | 1 <= y <= 9999 witness 1
  type Month = m: int | 1 <= m <= 12 witness 1
  type Day = d: int | 1 <= d <= 31 witness 1
  type Hour = h: int | 0 <= h < 24
  type Minute = m: int | 0 <= m < 60

  /** A `DateTime` down to the second. */
  datatype DateTime = DateTime(year: Year, month: Month, day: Day, hour: Hour, minute: Minute, second: Minute)

  /** `DateTime.Date`: midnight of the same calendar day. */
  function DateOf(t: DateTime): (r: DateTime)
    ensures SameDate(r, t)
    ensures r.hour == 0 && r.minute == 0 && r.second == 0
  {
    t.(hour := 0, minute := 0, second := 0)
  }

  /** `a.Date == b.Date`. */
  predicate SameDate(a: DateTime, b: DateTime) {
    a.year == b.year && a.month == b.month && a.day == b.day
  }

  /** The `yyyyMMdd` format. */
  function Yyyymmdd(t: DateTime): (s: string)
    ensures |s| == 8 && AllDigits(s)
    ensures Value(s[..4]) == t.year && Value(s[4..6]) == t.month && Value(s[6..]) == t.day
  {
    FourPlaces(t.year);
    TwoPlaces(t.month);
    TwoPlaces(t.day);
    var s := ZeroPad(t.year, 4) + ZeroPad(t.month, 2) + ZeroPad(t.day, 2);
    assert s[..4] == ZeroPad(t.year, 4);
    assert s[4..6] == ZeroPad(t.month, 2);
    assert s[6..] == ZeroPad(t.day, 2);
    s
  }

  /** The `HH` format: the hour on the 24-hour clock, two digits. */
  function Hh(t: DateTime): (s: string)
    ensures |s| == 2 && AllDigits(s) && Value(s) == t.hour
  {
    TwoPlaces(t.hour);
    ZeroPad(t.hour, 2)
  }

  /** The `yyyy-MM-dd` format. */
  function YyyyDashMmDashDd(t: DateTime): (s: string)
    ensures |s| == 10 && s[4] == '-' && s[7] == '-'
    ensures AllDigits(s[..4]) && Value(s[..4]) == t.year
    ensures AllDigits(s[5..7]) && Value(s[5..7]) == t.month
    ensures AllDigits(s[8..]) && Value(s[8..]) == t.day
  {
    FourPlaces(t.year);
    TwoPlaces(t.month);
    TwoPlaces(t.day);
    var s := ZeroPad(t.year, 4) + "-" + ZeroPad(t.month, 2) + "-" + ZeroPad(t.day, 2);
    assert s[..4] == ZeroPad(t.year, 4);
    assert s[5..7] == ZeroPad(t.month, 2);
    assert s[8..] == ZeroPad(t.day, 2);
    s
  }

  /** The `yyyyMMdd` rendering identifies the calendar date. */
  lemma YyyymmddIdentifiesDate(a: DateTime, b: DateTime)
    ensures Yyyymmdd(a) == Yyyymmdd(b) <==> SameDate(a, b)
  {
    if Yyyymmdd(a) == Yyyymmdd(b) {
      assert Yyyymmdd(a)[..4] == Yyyymmdd(b)[..4];
      assert Yyyymmdd(a)[4..6] == Yyyymmdd(b)[4..6];
      assert Yyyymmdd(a)[6..] == Yyyymmdd(b)[6..];
    }
  }

  /** The `HH` rendering identifies the hour. */
  lemma HhIdentifiesHour(a: DateTime, b: DateTime)
    ensures Hh(a) == Hh(b) <==> a.hour == b.hour
  {
  }

  /** The date of the test suite, 2015-01-15, renders as "20150115". */
  lemma JanuaryFifteenth()
    ensures Yyyymmdd(DateTime(2015, 1, 15, 0, 0, 0)) == "20150115"
  {
    assert Digits(2) == "2";
    assert Digits(20) == Digits(2) + [DigitChar(0)];
    assert Digits(20) == "20";
    assert Digits(201) == Digits(20) + [DigitChar(1)];
    assert Digits(201) == "201";
    assert Digits(2015) == Digits(201) + [DigitChar(5)];
    assert Digits(2015) == "2015";
    assert Digits(1) == "1";
    assert Digits(15) == Digits(1) + [DigitChar(5)];
    assert Digits(15) == "15";
    assert Zeros(1) == "0";
    assert ZeroPad(2015, 4) == "2015";
    assert ZeroPad(1, 2) == "01";
    assert ZeroPad(15, 2) == "15";
  }
}
