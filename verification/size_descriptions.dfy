/** `SizeLimitedLogFileDescription` of the size-rolling sink: the components of the current file
    name and the size limit that applies to it. */
module SizeDescriptions {
  import opened Outcomes
  import opened Decimal
  import opened FileNames

  datatype SizeLimitedLogFileDescription =
    SizeLimitedLogFileDescription(components: FileNameComponents, sizeLimitBytes: int64) {

    function FullName(): string {
      components.FullName()
    }

    /** `Next()`: the same name, extension and limit, one sequence number on. */
    function Next(): (r: SizeLimitedLogFileDescription)
      ensures r.components.name == components.name
      ensures r.components.extension == components.extension
      ensures r.sizeLimitBytes == sizeLimitBytes
      ensures components.sequence < UINT32_LIMIT - 1 ==> r.components.sequence == components.sequence + 1
      ensures components.sequence == UINT32_LIMIT - 1 ==> r.components.sequence == 0
    {
      var incremented := FileNameComponents(components.name, Inc32(components.sequence), components.extension);
      SizeLimitedLogFileDescription(incremented, sizeLimitBytes)
    }
  }

  /** `Next` as a function value, for repeated rotation with `Iterate`. */
  const Rotate: SizeLimitedLogFileDescription -> SizeLimitedLogFileDescription := (d: SizeLimitedLogFileDescription) => d.Next()

  /** Below the 32-bit bound, `k` rotations add exactly `k` to the sequence and change nothing else. */
  lemma {:induction false} RotationsAdvance(d: SizeLimitedLogFileDescription, k: nat)
    requires d.components.sequence + k < UINT32_LIMIT
    ensures Iterate(Rotate, d, k).components.sequence == d.components.sequence + k
    ensures Iterate(Rotate, d, k).components.name == d.components.name
    ensures Iterate(Rotate, d, k).components.extension == d.components.extension
    ensures Iterate(Rotate, d, k).sizeLimitBytes == d.sizeLimitBytes
    decreases k
  {
    if k > 0 {
      assert Rotate(d) == d.Next();
      RotationsAdvance(d.Next(), k - 1);
    }
  }

  /** Every rotation names a different file, past the five-digit range and across the wrap
      too: the padded sequences differ in value, and so in length or in text. */
  lemma NextRenamesFile(d: SizeLimitedLogFileDescription)
    ensures d.Next().FullName() != d.FullName()
  {
    var c := d.components;
    var n := d.Next().components;
    var tail := if c.extension == "" then "" else "." + c.extension;
    var a, b := ZeroPad(c.sequence, 5), ZeroPad(n.sequence, 5);
    assert d.FullName() == c.name + a + tail;
    assert d.Next().FullName() == c.name + b + tail;
    if |a| == |b| {
      var i := |c.name|;
      assert d.FullName()[i..i + |a|] == a;
      assert d.Next().FullName()[i..i + |b|] == b;
      assert Value(a) != Value(b);
    }
  }

  /** At the last sequence number the counter wraps and the next file is numbered 0. */
  lemma NextWrapsAtMaximum(d: SizeLimitedLogFileDescription)
    requires d.components.sequence == UINT32_LIMIT - 1
    ensures d.Next().components.sequence == 0
  {
  }
}
