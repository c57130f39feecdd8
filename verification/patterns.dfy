/** The regular expressions of the "latest file" scans. Every one of them has a fixed length:
    literal text, the `.` wildcard and one five-digit group `(\d{5})`. `Regex.Match` is
    unanchored, so a pattern is searched for anywhere in the path and the leftmost match wins. */
module Patterns {
  import opened Outcomes
  import opened Decimal
  import opened Text

  /** One position of a fixed-length pattern. */
  datatype Elem = Lit(c: char) | AnyChar | Digit

  predicate ElemMatches(e: Elem, c: char) {
    match e
    case Lit(x) => c == x
    case AnyChar => c != '\n'     // `.` matches everything but a line feed
    case Digit => IsDigit(c)
  }

  /** Text spliced into a pattern: `.` becomes the wildcard, every other character is literal. */
  function Compile(text: string): (p: seq<Elem>)
    ensures |p| == |text|
    ensures forall i :: 0 <= i < |text| ==> p[i] == if text[i] == '.' then AnyChar else Lit(text[i])
  {
    seq(|text|, i requires 0 <= i < |text| => if text[i] == '.' then AnyChar else Lit(text[i]))
  }

  /** The pattern matches `s` at position `i`. */
  predicate MatchesAt(p: seq<Elem>, s: string, i: nat) {
    i + |p| <= |s| && forall k :: 0 <= k < |p| ==> ElemMatches(p[k], s[i + k])
  }

  /** Compiled text always matches the text it came from. */
  lemma CompiledMatchesItself(text: string)
    ensures MatchesAt(Compile(text), text, 0)
  {
  }

  /** Matching a concatenation is matching each part in turn. */
  lemma MatchesConcat(p: seq<Elem>, q: seq<Elem>, s: string, t: string)
    requires MatchesAt(p, s, 0) && MatchesAt(q, t, 0) && |p| == |s|
    ensures MatchesAt(p + q, s + t, 0)
  {
    var pq := p + q;
    var st := s + t;
    forall k | 0 <= k < |pq|
      ensures ElemMatches(pq[k], st[k])
    {
      if k >= |p| {
        assert pq[k] == q[k - |p|] && st[k] == t[k - |p|];
      }
    }
  }

  const FiveDigits: seq<Elem> := [Digit, Digit, Digit, Digit, Digit]

  /** `before(\d{5})after`: group 1 is the five digits. */
  datatype SequencePattern = SequencePattern(before: seq<Elem>, after: seq<Elem>) {
    function Elems(): seq<Elem> {
      before + FiveDigits + after
    }
  }

  /** `Regex.Match`: the leftmost position at or after `from` where `p` matches. */
  function FirstMatch(p: seq<Elem>, s: string, from: nat): (r: Option<nat>)
    ensures r.Some? ==> from <= r.value && MatchesAt(p, s, r.value)
    ensures forall j: nat :: from <= j && (r.None? || j < r.value) ==> !MatchesAt(p, s, j)
    decreases |s| - from
  {
    if from + |p| > |s| then None
    else if MatchesAt(p, s, from) then Some(from)
    else FirstMatch(p, s, from + 1)
  }

  /** The five characters of group 1 when the pattern matches at `i`. */
  function Group(sp: SequencePattern, s: string, i: nat): (g: string)
    requires MatchesAt(sp.Elems(), s, i)
    ensures |g| == 5 && AllDigits(g)
  {
    var e := sp.Elems();
    var g := s[i + |sp.before|..i + |sp.before| + 5];
    assert forall k :: 0 <= k < 5 ==> e[|sp.before| + k] == Digit && g[k] == s[i + |sp.before| + k];
    g
  }

  /** `uint.Parse(Regex.Match(path, pattern).Groups[1].Value)` when the match succeeds. */
  function Capture(sp: SequencePattern, path: string): (r: Option<nat>)
    ensures r.Some? <==> exists i: nat :: MatchesAt(sp.Elems(), path, i)
    ensures r.Some? ==> r.value < 100000
  {
    match FirstMatch(sp.Elems(), path, 0)
    case None => None
    case Some(i) =>
      var g := Group(sp, path, i);
      ValueBound(g);
      assert Pow10(5) == 100000;
      Some(Value(g))
  }

  /** A path that matches from its first character yields the digits found there. */
  lemma CaptureAtStart(sp: SequencePattern, path: string)
    requires MatchesAt(sp.Elems(), path, 0)
    ensures Capture(sp, path) == Some(Value(Group(sp, path, 0)))
  {
  }

  /** The loop shared by every `GetLatestOrNew`: starting from `current`, adopt each captured
      sequence that is larger than the best so far. */
  function ScanLatest(sp: SequencePattern, listing: seq<string>, current: nat): (r: nat)
    ensures r >= current
    ensures forall x :: x in listing && Capture(sp, x).Some? ==> Capture(sp, x).value <= r
    ensures r == current || exists x :: x in listing && Capture(sp, x) == Some(r)
    decreases |listing|
  {
    if listing == [] then current
    else
      var c := Capture(sp, listing[0]);
      var best := if c.Some? && c.value > current then c.value else current;
      var r := ScanLatest(sp, listing[1..], best);
      assert forall x :: x in listing ==> x == listing[0] || x in listing[1..];
      r
  }

  /** The scan result is the largest of `current` and every captured sequence: any value with
      those two properties is the scan result. */
  lemma ScanIsMaximum(sp: SequencePattern, listing: seq<string>, current: nat, m: nat)
    requires m >= current
    requires forall x :: x in listing && Capture(sp, x).Some? ==> Capture(sp, x).value <= m
    requires m == current || exists x :: x in listing && Capture(sp, x) == Some(m)
    ensures ScanLatest(sp, listing, current) == m
  {
  }

  /** The scan does not depend on the order in which the directory lists its files. */
  lemma ScanOrderIndependent(sp: SequencePattern, a: seq<string>, b: seq<string>, current: nat)
    requires multiset(a) == multiset(b)
    ensures ScanLatest(sp, a, current) == ScanLatest(sp, b, current)
  {
    forall x | x in a ensures x in b {
      assert x in multiset(a);
    }
    forall x | x in b ensures x in a {
      assert x in multiset(b);
    }
    ScanIsMaximum(sp, a, current, ScanLatest(sp, b, current));
  }

  /** A name built as `prefix + five digits + suffix` is found by the pattern spliced from the
      same prefix and suffix, and yields its sequence. */
  lemma SplicedNameRoundTrip(prefix: string, n: nat, suffix: string)
    requires n < 100000
    ensures MatchesAt(SequencePattern(Compile(prefix), Compile(suffix)).Elems(), prefix + ZeroPad(n, 5) + suffix, 0)
    ensures Capture(SequencePattern(Compile(prefix), Compile(suffix)), prefix + ZeroPad(n, 5) + suffix) == Some(n)
  {
    var sp := SequencePattern(Compile(prefix), Compile(suffix));
    var pad := ZeroPad(n, 5);
    FivePlaces(n);
    var name := prefix + pad + suffix;
    CompiledMatchesItself(prefix);
    CompiledMatchesItself(suffix);
    assert MatchesAt(FiveDigits, pad, 0);
    MatchesConcat(Compile(prefix), FiveDigits, prefix, pad);
    MatchesConcat(Compile(prefix) + FiveDigits, Compile(suffix), prefix + pad, suffix);
    assert sp.Elems() == Compile(prefix) + FiveDigits + Compile(suffix);
    CaptureAtStart(sp, name);
    assert Group(sp, name, 0) == pad;
  }

  /** A name of the pattern's exact length whose prefix differs from the pattern's literal
      prefix is not matched. */
  lemma OtherPrefixIgnored(prefix: string, other: string, n: nat, suffix: string)
    requires n < 100000
    requires |other| == |prefix| && other != prefix
    requires forall i :: 0 <= i < |prefix| ==> prefix[i] != '.'
    ensures Capture(SequencePattern(Compile(prefix), Compile(suffix)), other + ZeroPad(n, 5) + suffix) == None
  {
    var sp := SequencePattern(Compile(prefix), Compile(suffix));
    var name := other + ZeroPad(n, 5) + suffix;
    FivePlaces(n);
    var e := sp.Elems();
    assert |e| == |name|;
    assert !(forall k :: 0 <= k < |prefix| ==> prefix[k] == other[k]);
    var k :| 0 <= k < |prefix| && prefix[k] != other[k];
    assert e[k] == Lit(prefix[k]) && name[k] == other[k];
    assert !ElemMatches(e[k], name[k]);
    assert !MatchesAt(e, name, 0);
    assert forall i: nat :: i > 0 ==> !MatchesAt(e, name, i);
  }

  /** The pattern `q` occurs somewhere in `s`. */
  ghost predicate FoundIn(q: seq<Elem>, s: string) {
    exists i: nat :: MatchesAt(q, s, i)
  }

  /** No element of `q` accepts a directory separator. */
  predicate RejectsSeparators(q: seq<Elem>) {
    forall k :: 0 <= k < |q| ==> !ElemMatches(q[k], '/') && !ElemMatches(q[k], '\\')
  }

  /** A pattern that begins with `q` cannot match from inside `head` when `q` occurs nowhere in
      `head` and `head` is empty or ends in a separator: a match would either lie in `head` or
      have to accept its final separator. */
  lemma NoMatchInHead(e: seq<Elem>, q: seq<Elem>, head: string, rest: string)
    requires 1 <= |q| <= |e| && e[..|q|] == q && RejectsSeparators(q)
    requires head == [] || IsSeparator(head[|head| - 1])
    requires !FoundIn(q, head)
    ensures forall i: nat :: i < |head| ==> !MatchesAt(e, head + rest, i)
  {
    var path := head + rest;
    forall i: nat | i < |head| && i + |e| <= |path|
      ensures !MatchesAt(e, path, i)
    {
      var k: nat;
      if i + |q| <= |head| {
        assert !MatchesAt(q, head, i);
        k :| k < |q| && !ElemMatches(q[k], head[i + k]);
      } else {
        k := |head| - 1 - i;
      }
      assert q[k] == e[k] && path[i + k] == head[i + k];
    }
  }

  /** `q` does not occur in a folder followed by a separator when it does not occur in the
      folder: an occurrence reaching the separator would have to accept it. */
  lemma NotFoundWithSeparator(q: seq<Elem>, folder: string, sep: char)
    requires 1 <= |q| && RejectsSeparators(q) && IsSeparator(sep)
    requires !FoundIn(q, folder)
    ensures !FoundIn(q, folder + [sep])
  {
    var s := folder + [sep];
    forall i: nat | i + |q| <= |s|
      ensures !MatchesAt(q, s, i)
    {
      var k: nat;
      if i + |q| <= |folder| {
        assert !MatchesAt(q, folder, i);
        k :| k < |q| && !ElemMatches(q[k], folder[i + k]);
        assert s[i + k] == folder[i + k];
      } else {
        k := |folder| - i;
        assert s[i + k] == sep;
      }
      assert !ElemMatches(q[k], s[i + k]);
    }
  }

  /** A match at the start of `name` is a match after the `head` the name is appended to. */
  lemma MatchesAfterHead(e: seq<Elem>, head: string, name: string)
    ensures MatchesAt(e, name, 0) <==> MatchesAt(e, head + name, |head|)
  {
    var path := head + name;
    assert forall k :: 0 <= k < |name| ==> path[|head| + k] == name[k];
  }

  /** `GetFiles` lists full paths. When the pattern begins with a `q` that occurs nowhere in the
      folder, the folder cannot lend the scan a match: a file name matching from its first
      character is captured as the bare name is, and a name of the pattern's length that does
      not match there is not captured at all. */
  lemma CaptureInFolder(sp: SequencePattern, q: seq<Elem>, folder: string, name: string)
    requires 1 <= |q| <= |sp.Elems()| && sp.Elems()[..|q|] == q && RejectsSeparators(q)
    requires !FoundIn(q, folder)
    ensures MatchesAt(sp.Elems(), name, 0) ==> Capture(sp, Combine(folder, name)) == Capture(sp, name)
    ensures |name| == |sp.Elems()| && !MatchesAt(sp.Elems(), name, 0) ==> Capture(sp, Combine(folder, name)) == None
  {
    var head := if folder == [] || IsSeparator(folder[|folder| - 1]) then folder else folder + "/";
    assert Combine(folder, name) == head + name;
    if head != folder {
      NotFoundWithSeparator(q, folder, '/');
    }
    NoMatchInHead(sp.Elems(), q, head, name);
    CaptureAfterHead(sp, head, name);
  }

  /** When the pattern cannot match from inside `head`, the capture of `head + name` is the
      capture of `name` matched from its first character, or nothing. */
  lemma CaptureAfterHead(sp: SequencePattern, head: string, name: string)
    requires forall i: nat :: i < |head| ==> !MatchesAt(sp.Elems(), head + name, i)
    ensures MatchesAt(sp.Elems(), name, 0) ==> Capture(sp, head + name) == Capture(sp, name)
    ensures |name| == |sp.Elems()| && !MatchesAt(sp.Elems(), name, 0) ==> Capture(sp, head + name) == None
  {
    var e := sp.Elems();
    var path := head + name;
    MatchesAfterHead(e, head, name);
    if MatchesAt(e, name, 0) {
      var m := FirstMatch(e, path, 0);
      assert m == Some(|head|);
      var b := |sp.before|;
      assert path[|head| + b..|head| + b + 5] == name[b..b + 5];
      assert Group(sp, path, |head|) == Group(sp, name, 0);
    } else if |name| == |e| {
      forall i: nat ensures !MatchesAt(e, path, i) {
      }
    }
  }

  /** A folder that itself matches the pattern from its first character decides the capture of
      every path beneath it. */
  lemma CaptureFromFolder(sp: SequencePattern, folder: string, name: string)
    requires MatchesAt(sp.Elems(), folder, 0)
    ensures Capture(sp, Combine(folder, name)) == Capture(sp, folder)
  {
    var e := sp.Elems();
    var path := Combine(folder, name);
    assert MatchesAt(e, path, 0) by {
      assert forall k :: 0 <= k < |folder| ==> path[k] == folder[k];
    }
    assert Group(sp, path, 0) == Group(sp, folder, 0);
  }

  /** Compiling a concatenation compiles each part in turn. */
  lemma CompilePrefix(a: string, b: string)
    ensures Compile(a + b)[..|a|] == Compile(a)
  {
    assert forall k :: 0 <= k < |a| ==> (a + b)[k] == a[k];
  }

  /** Text without a dot or a separator compiles to literals that refuse every separator. */
  lemma LiteralRejectsSeparators(text: string)
    requires forall k :: 0 <= k < |text| ==> text[k] != '.' && !IsSeparator(text[k])
    ensures RejectsSeparators(Compile(text))
  {
  }
}
