/** `FileNameComponents` and `FileNameParser`: the `{name}{sequence:00000}.{extension}` template
    of the size-rolling sinks. Their source is not part of this model; they are specified here by
    the behaviour the test suites pin down. */
module FileNames {
  import opened Outcomes
  import opened Decimal
  import opened Text

  /** A name, a sequence and an extension ("" when there is none). */
  datatype FileNameComponents = FileNameComponents(name: string, sequence: uint32, extension: string) {

    /** `FullName`: the name, the sequence padded to five digits, then `.` and the extension
        unless the extension is empty. `FullNameReadBack` states what a reader finds in it. */
    function FullName(): string {
      name + ZeroPad(sequence, 5) + (if extension == "" then "" else "." + extension)
    }
  }

  /** A rendered name read back: the name, a run of at least five digits whose value is the
      sequence (exactly five below 100000), then `.` and the extension unless it is empty. */
  lemma FullNameReadBack(c: FileNameComponents)
    ensures var r := c.FullName();
            var k := |r| - (if c.extension == "" then 0 else |c.extension| + 1);
            |c.name| + 5 <= k <= |r| && r[..|c.name|] == c.name &&
            AllDigits(r[|c.name|..k]) && Value(r[|c.name|..k]) == c.sequence &&
            (c.sequence < 100000 ==> k == |c.name| + 5) &&
            r[k..] == (if c.extension == "" then "" else "." + c.extension)
  {
    var digits := ZeroPad(c.sequence, 5);
    var r := c.FullName();
    assert r[..|c.name|] == c.name && r[|c.name|..|c.name| + |digits|] == digits;
    if c.sequence < 100000 {
      FivePlaces(c.sequence);
    }
  }

  /** Names and extensions the template can carry through a round trip. */
  predicate PlainSegment(s: string) {
    NoSeparator(s) && NoChar(s, '.')
  }

  /** The part before the extension: a trailing run of five digits is the sequence; without one
      the sequence is 0 and the whole stem is the name. */
  function SplitStem(stem: string, extension: string): (c: FileNameComponents)
    ensures c.extension == extension
    ensures c.sequence < 100000
    ensures (|stem| >= 5 && AllDigits(stem[|stem| - 5..])) ==> c.name + stem[|stem| - 5..] == stem
    ensures !(|stem| >= 5 && AllDigits(stem[|stem| - 5..])) ==> c.name == stem && c.sequence == 0
  {
    if |stem| >= 5 && AllDigits(stem[|stem| - 5..]) then
      var digits := stem[|stem| - 5..];
      ValueBound(digits);
      assert Pow10(5) == 100000;
      assert stem[..|stem| - 5] + digits == stem;
      FileNameComponents(stem[..|stem| - 5], Value(digits), extension)
    else FileNameComponents(stem, 0, extension)
  }

  /** `FileNameParser.ParseLogFileName`: the file name of the path, split at its last dot into
      stem and extension (none without a dot), then the stem split by `SplitStem`. */
  function ParseLogFileName(path: string): (c: FileNameComponents)
    ensures NoSeparator(c.name) && PlainSegment(c.extension)
    ensures c.sequence < 100000
  {
    var file := BaseName(path);
    var dot := LastIndexOf(file, '.');
    if dot < 0 then
      SplitStem(file, "")
    else
      SuffixPlain(file, dot);
      SplitStem(file[..dot], file[dot + 1..])
  }

  /** What follows the last dot of a name without separators is a plain segment. */
  lemma SuffixPlain(file: string, dot: int)
    requires NoSeparator(file) && 0 <= dot < |file| && dot == LastIndexOf(file, '.')
    ensures PlainSegment(file[dot + 1..])
  {
    var ext := file[dot + 1..];
    forall i | 0 <= i < |ext| ensures ext[i] != '.' && !IsSeparator(ext[i]) {
      assert ext[i] == file[dot + 1 + i];
    }
  }

  /** The directory part of a path does not affect parsing. */
  lemma ParseIgnoresDirectory(dir: string, sep: char, file: string)
    requires IsSeparator(sep) && NoSeparator(file)
    ensures ParseLogFileName(dir + [sep] + file) == ParseLogFileName(file)
  {
    BaseNameAfter(dir, sep, file);
  }

  /** A bare file name splits at the dot before its extension. */
  lemma ParseSplitsExtension(stem: string, extension: string)
    requires PlainSegment(stem) && PlainSegment(extension)
    ensures extension == "" ==> ParseLogFileName(stem) == SplitStem(stem, "")
    ensures extension != "" ==> ParseLogFileName(stem + "." + extension) == SplitStem(stem, extension)
  {
    if extension == "" {
      BaseNameAfter("", '/', stem);
      LastIndexOfAbsent(stem, '.');
    } else {
      var file := stem + "." + extension;
      assert file == stem + ['.'] + extension;
      assert NoSeparator(file) by {
        forall i | 0 <= i < |file| ensures !IsSeparator(file[i]) {
          if i > |stem| { assert file[i] == extension[i - |stem| - 1]; }
        }
      }
      BaseNameAfter("", '/', file);
      LastIndexOfSplit(stem, '.', extension);
      assert file[..|stem|] == stem;
      assert file[|stem| + 1..] == extension;
    }
  }

  /** Five trailing digits are read back as the sequence. */
  lemma SplitStemInvertsPad(name: string, n: nat, extension: string)
    requires n < 100000
    ensures SplitStem(name + ZeroPad(n, 5), extension) == FileNameComponents(name, n, extension)
  {
    var pad := ZeroPad(n, 5);
    FivePlaces(n);
    var stem := name + pad;
    assert stem[|stem| - 5..] == pad;
    assert stem[..|stem| - 5] == name;
  }

  /** Parsing a name the template rendered gives back its components, whatever directory the
      file sits in. */
  lemma ParseInvertsFullName(c: FileNameComponents, dir: string, sep: char)
    requires PlainSegment(c.name) && PlainSegment(c.extension)
    requires c.sequence < 100000
    requires IsSeparator(sep)
    ensures ParseLogFileName(c.FullName()) == c
    ensures ParseLogFileName(dir + [sep] + c.FullName()) == c
  {
    var pad := ZeroPad(c.sequence, 5);
    FivePlaces(c.sequence);
    var stem := c.name + pad;
    var full := c.FullName();
    assert c.extension == "" ==> full == stem;
    assert c.extension != "" ==> full == stem + "." + c.extension;
    assert PlainSegment(stem) by {
      forall i | 0 <= i < |stem| ensures !IsSeparator(stem[i]) && stem[i] != '.' {
        if i >= |c.name| { assert stem[i] == pad[i - |c.name|]; }
      }
    }
    ParseSplitsExtension(stem, c.extension);
    SplitStemInvertsPad(c.name, c.sequence, c.extension);
    assert NoSeparator(full) by {
      forall i | 0 <= i < |full| ensures !IsSeparator(full[i]) {
        if i >= |stem| + 1 { assert full[i] == c.extension[i - |stem| - 1]; }
        else if i < |stem| { assert full[i] == stem[i]; }
      }
    }
    ParseIgnoresDirectory(dir, sep, c.FullName());
  }

  /** A stem without five trailing digits parses with sequence 0 and keeps its whole text. */
  lemma ParseWithoutSequence(stem: string, extension: string)
    requires PlainSegment(stem) && PlainSegment(extension)
    requires |stem| >= 5 ==> !IsDigit(stem[|stem| - 5])
    ensures extension == "" ==> ParseLogFileName(stem) == FileNameComponents(stem, 0, "")
    ensures extension != "" ==> ParseLogFileName(stem + "." + extension) == FileNameComponents(stem, 0, extension)
  {
    ParseSplitsExtension(stem, extension);
    if |stem| >= 5 {
      assert stem[|stem| - 5..][0] == stem[|stem| - 5];
    }
  }

  /** `C:\logs\applog` and `logs\applog`: name "applog", sequence 0, no extension. */
  lemma ParserTestCasesWithoutExtension()
    ensures ParseLogFileName("C:\\logs\\applog") == FileNameComponents("applog", 0, "")
    ensures ParseLogFileName("logs\\applog") == FileNameComponents("applog", 0, "")
  {
    var p, q := "C:\\logs\\applog", "logs\\applog";
    var stem := "applog";
    assert p == "C:\\logs" + ['\\'] + stem;
    assert q == "logs" + ['\\'] + stem;
    assert stem[1] == 'p';
    assert PlainSegment(stem);
    ParseWithoutSequence(stem, "");
    ParseIgnoresDirectory("C:\\logs", '\\', stem);
    ParseIgnoresDirectory("logs", '\\', stem);
  }

  /** `C:\logs\applog.txt` and `logs\applog.txt`: name "applog", sequence 0, extension "txt". */
  lemma ParserTestCasesWithExtension()
    ensures ParseLogFileName("C:\\logs\\applog.txt") == FileNameComponents("applog", 0, "txt")
    ensures ParseLogFileName("logs\\applog.txt") == FileNameComponents("applog", 0, "txt")
  {
    var p, q := "C:\\logs\\applog.txt", "logs\\applog.txt";
    var file := "applog.txt";
    assert p == "C:\\logs" + ['\\'] + file;
    assert q == "logs" + ['\\'] + file;
    assert "applog" + "." + "txt" == file;
    assert "applog"[1] == 'p';
    assert PlainSegment("applog") && PlainSegment("txt") && NoSeparator(file);
    ParseWithoutSequence("applog", "txt");
    ParseIgnoresDirectory("C:\\logs", '\\', file);
    ParseIgnoresDirectory("logs", '\\', file);
  }

  /** `C:\logs\applog{Date}.txt`: the `{Date}` token stays in the name. */
  lemma ParserTestCaseWithToken()
    ensures ParseLogFileName("C:\\logs\\applog{Date}.txt") == FileNameComponents("applog{Date}", 0, "txt")
  {
    var p := "C:\\logs\\applog{Date}.txt";
    var file := "applog{Date}.txt";
    assert p == "C:\\logs" + ['\\'] + file;
    assert "applog{Date}" + "." + "txt" == file;
    assert "applog{Date}"[7] == 'D';
    assert PlainSegment("applog{Date}") && PlainSegment("txt") && NoSeparator(file);
    ParseWithoutSequence("applog{Date}", "txt");
    ParseIgnoresDirectory("C:\\logs", '\\', file);
  }

  /** A path ending in `applog00000.txt` parses as name "applog", sequence 0, extension "txt",
      whatever its directory. */
  lemma ParsesApplogZero(dir: string, sep: char)
    requires IsSeparator(sep)
    ensures ParseLogFileName(dir + [sep] + "applog00000.txt") == FileNameComponents("applog", 0, "txt")
  {
    var c := FileNameComponents("applog", 0, "txt");
    ZeroPadded();
    assert c.FullName() == "applog00000.txt";
    assert PlainSegment("applog") && PlainSegment("txt");
    ParseInvertsFullName(c, dir, sep);
  }

  /** `C:\logs\applog00000.txt` and `logs\applog00000.txt`: name "applog", sequence 0, "txt". */
  lemma ParserTestCasesWithSequence()
    ensures ParseLogFileName("C:\\logs\\applog00000.txt") == FileNameComponents("applog", 0, "txt")
    ensures ParseLogFileName("logs\\applog00000.txt") == FileNameComponents("applog", 0, "txt")
  {
    var p, q := "C:\\logs\\applog00000.txt", "logs\\applog00000.txt";
    assert p == "C:\\logs" + ['\\'] + "applog00000.txt";
    assert q == "logs" + ['\\'] + "applog00000.txt";
    ParsesApplogZero("C:\\logs", '\\');
    ParsesApplogZero("logs", '\\');
  }

  /** ("name", 0, "txt") renders "name00000.txt"; ("name", 1200, no extension) renders
      "name01200"; ("applog", 0, "txt") renders "applog00000.txt". */
  lemma RenderingTestCases()
    ensures FileNameComponents("name", 0, "txt").FullName() == "name00000.txt"
    ensures FileNameComponents("name", 1200, "").FullName() == "name01200"
    ensures FileNameComponents("applog", 0, "txt").FullName() == "applog00000.txt"
  {
    ZeroPadded();
    TwelveHundredPadded();
  }
}
