/** `GetLatestFileDescription` of the two path-template sinks: every file of the template's
    folder is parsed, the one of highest sequence wins (the first listed among equals, since
    `OrderByDescending` is stable), and the template itself stands in when the folder is empty. */
module LatestFiles {
  import opened Outcomes
  import opened Text
  import opened Decimal
  import opened FileNames

  /** The position of the first entry of highest sequence. */
  function FirstLatest(parsed: seq<FileNameComponents>): (i: nat)
    requires |parsed| > 0
    ensures i < |parsed|
    ensures forall j :: 0 <= j < |parsed| ==> parsed[j].sequence <= parsed[i].sequence
    ensures forall j :: 0 <= j < i ==> parsed[j].sequence < parsed[i].sequence
  {
    if |parsed| == 1 then 0
    else
      var k := FirstLatest(parsed[1..]) + 1;
      if parsed[0].sequence >= parsed[k].sequence then 0 else k
  }

  /** `Select(ParseRollingLogfile)`: the parse of every listed path. */
  function ParseAll(listing: seq<string>): (r: seq<FileNameComponents>)
    ensures |r| == |listing|
    ensures forall i :: 0 <= i < |listing| ==> r[i] == ParseLogFileName(listing[i])
  {
    seq(|listing|, i requires 0 <= i < |listing| => ParseLogFileName(listing[i]))
  }

  /** The components of the latest file: the parse of the first listed path of highest sequence,
      whatever its name; the parse of the template when nothing is listed. */
  function LatestComponents(template: string, listing: seq<string>): (c: FileNameComponents)
    ensures listing == [] ==> c == ParseLogFileName(template)
    ensures listing != [] ==>
              exists i :: 0 <= i < |listing| && c == ParseLogFileName(listing[i]) &&
                (forall j :: 0 <= j < |listing| ==> ParseLogFileName(listing[j]).sequence <= c.sequence) &&
                (forall j :: 0 <= j < i ==> ParseLogFileName(listing[j]).sequence < c.sequence)
  {
    if listing == [] then ParseLogFileName(template)
    else
      var parsed := ParseAll(listing);
      var i := FirstLatest(parsed);
      parsed[i]
  }

  /** The characterisation decides the result: among the highest sequences, the first listed path
      wins. */
  lemma LatestIsFirstOfHighest(template: string, listing: seq<string>, i: nat)
    requires i < |listing|
    requires forall j :: 0 <= j < |listing| ==> ParseLogFileName(listing[j]).sequence <= ParseLogFileName(listing[i]).sequence
    requires forall j :: 0 <= j < i ==> ParseLogFileName(listing[j]).sequence < ParseLogFileName(listing[i]).sequence
    ensures LatestComponents(template, listing) == ParseLogFileName(listing[i])
  {
    var parsed := ParseAll(listing);
    var k := FirstLatest(parsed);
    assert parsed[k].sequence <= parsed[i].sequence && parsed[i].sequence <= parsed[k].sequence;
    if k != i {
      assert false;
    }
  }

  /** Of two listed paths, the one parsed with the higher sequence is the latest, in either order. */
  lemma LatestOfTwo(template: string, p: string, q: string)
    requires ParseLogFileName(p).sequence < ParseLogFileName(q).sequence
    ensures LatestComponents(template, [p, q]) == ParseLogFileName(q)
    ensures LatestComponents(template, [q, p]) == ParseLogFileName(q)
  {
    var x, y := ParseLogFileName(p), ParseLogFileName(q);
    var l1, l2 := [p, q], [q, p];
    assert forall j :: 0 <= j < 2 ==> ParseLogFileName(l1[j]) == (if j == 0 then x else y);
    assert forall j :: 0 <= j < 2 ==> ParseLogFileName(l2[j]) == (if j == 0 then y else x);
    LatestIsFirstOfHighest(template, l1, 1);
    LatestIsFirstOfHighest(template, l2, 0);
  }

  /** Every file of the folder takes part, whatever its name: a lone file of any rendered name is
      the latest, even when the template names another file. */
  lemma AnyNameCanBeLatest(template: string, dir: string, sep: char, c: FileNameComponents)
    requires PlainSegment(c.name) && PlainSegment(c.extension) && c.sequence < 100000
    requires IsSeparator(sep)
    ensures LatestComponents(template, [dir + [sep] + c.FullName()]) == c
  {
    ParseInvertsFullName(c, dir, sep);
    LatestIsFirstOfHighest(template, [dir + [sep] + c.FullName()], 0);
  }

  /** Two rendered files of one name: the one of higher sequence is the latest, in either order. */
  lemma HigherSequenceWins(template: string, dir: string, sep: char, a: FileNameComponents, b: FileNameComponents)
    requires PlainSegment(a.name) && PlainSegment(a.extension) && a.sequence < 100000
    requires PlainSegment(b.name) && PlainSegment(b.extension) && b.sequence < 100000
    requires IsSeparator(sep) && a.sequence < b.sequence
    ensures LatestComponents(template, [dir + [sep] + a.FullName(), dir + [sep] + b.FullName()]) == b
    ensures LatestComponents(template, [dir + [sep] + b.FullName(), dir + [sep] + a.FullName()]) == b
  {
    var p := dir + [sep] + a.FullName();
    var q := dir + [sep] + b.FullName();
    ParseInvertsFullName(a, dir, sep);
    ParseInvertsFullName(b, dir, sep);
    LatestOfTwo(template, p, q);
  }
}
