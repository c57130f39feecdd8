/** `SizeLimitedLogFileDescription` of the V2 size-rolling sink, whose `Next` is an extension method. */
module SizeDescriptionsV2 {
  import opened Outcomes
  import opened Decimal
  import opened FileNames

  datatype SizeLimitedLogFileDescription =
    SizeLimitedLogFileDescription(components: FileNameComponents, sizeLimitBytes: int64) {

    function FullName(): string {
      components.FullName()
    }
  }

  /** `SizeLimitedLogFileExtensions.Next(previous)`: same name, extension and limit, one sequence on. */
  function Next(previous: SizeLimitedLogFileDescription): (r: SizeLimitedLogFileDescription)
    ensures r.components.name == previous.components.name
    ensures r.components.extension == previous.components.extension
    ensures r.sizeLimitBytes == previous.sizeLimitBytes
    ensures previous.components.sequence < UINT32_LIMIT - 1 ==> r.components.sequence == previous.components.sequence + 1
    ensures previous.components.sequence == UINT32_LIMIT - 1 ==> r.components.sequence == 0
  {
    var c := previous.components;
    SizeLimitedLogFileDescription(FileNameComponents(c.name, Inc32(c.sequence), c.extension), previous.sizeLimitBytes)
  }

  /** Names before and after a rotation agree everywhere except in the five sequence digits,
      which then hold the next number. */
  lemma NextChangesOnlyTheDigits(d: SizeLimitedLogFileDescription)
    requires d.components.sequence < 99999
    ensures |Next(d).FullName()| == |d.FullName()|
    ensures var i := |d.components.name|;
            Next(d).FullName()[..i] == d.FullName()[..i] &&
            Next(d).FullName()[i + 5..] == d.FullName()[i + 5..] &&
            Next(d).FullName()[i..i + 5] == ZeroPad(d.components.sequence + 1, 5) &&
            d.FullName()[i..i + 5] == ZeroPad(d.components.sequence, 5)
    ensures Next(d).FullName() != d.FullName()
  {
    var c := d.components;
    FivePlaces(c.sequence);
    FivePlaces(c.sequence + 1);
    var i := |c.name|;
    var tail := if c.extension == "" then "" else "." + c.extension;
    assert d.FullName() == c.name + ZeroPad(c.sequence, 5) + tail;
    assert Next(d).FullName() == c.name + ZeroPad(c.sequence + 1, 5) + tail;
    assert d.FullName()[i + 5..] == tail;
    assert Next(d).FullName()[i + 5..] == tail;
    if ZeroPad(c.sequence + 1, 5) == ZeroPad(c.sequence, 5) {
      ZeroPadInjective(c.sequence + 1, c.sequence, 5);
    }
  }
}
