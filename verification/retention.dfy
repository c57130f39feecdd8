/** Retention: which log files a rotation deletes. Both the hourly sink's `ApplyRetentionPolicy`
    and `FileRetentionPolicy.Apply` order the listed files newest first by creation time, drop
    the current file (compared ignoring case), keep the newest `limit - 1` of the rest and
    delete the others, logging and skipping a delete that fails. */
module Retention {
  import opened Outcomes
  import opened Decimal
  import opened Text
  import opened Patterns

  /** A listed file: the path `Directory.GetFiles` returns and its creation time in ticks. */
  datatype FileEntry = FileEntry(path: string, created: int)

  /** `FileInfo.Name`: the file name without its directory. */
  function Name(e: FileEntry): string {
    BaseName(e.path)
  }

  /** Newest first: every entry is at least as new as every entry after it. */
  predicate NewestFirstOrder(s: seq<FileEntry>) {
    forall i, j :: 0 <= i < j < |s| ==> s[i].created >= s[j].created
  }

  /** One step of a stable sort, newest first: `e` goes before the first entry that is not newer. */
  function Insert(e: FileEntry, s: seq<FileEntry>): (r: seq<FileEntry>)
    ensures multiset(r) == multiset(s) + multiset{e}
    ensures |r| == |s| + 1
  {
    if s == [] || s[0].created <= e.created then [e] + s
    else
      assert s == [s[0]] + s[1..];
      [s[0]] + Insert(e, s[1..])
  }

  /** Inserting an entry no newer than a bound into entries no newer than it keeps them so. */
  lemma {:induction false} InsertBounded(e: FileEntry, s: seq<FileEntry>, b: int)
    requires forall i :: 0 <= i < |s| ==> s[i].created <= b
    requires e.created <= b
    ensures forall i :: 0 <= i < |Insert(e, s)| ==> Insert(e, s)[i].created <= b
  {
    if s != [] && s[0].created > e.created {
      InsertBounded(e, s[1..], b);
      assert Insert(e, s) == [s[0]] + Insert(e, s[1..]);
    }
  }

  lemma {:induction false} InsertSorted(e: FileEntry, s: seq<FileEntry>)
    requires NewestFirstOrder(s)
    ensures NewestFirstOrder(Insert(e, s))
  {
    if s != [] && s[0].created > e.created {
      var t := Insert(e, s[1..]);
      InsertSorted(e, s[1..]);
      InsertBounded(e, s[1..], s[0].created);
      assert Insert(e, s) == [s[0]] + t;
    }
  }

  /** `OrderByDescending(m => m.CreationTime)`: newest first; LINQ's sort is stable, so files
      created at the same time keep their listing order. */
  function NewestFirst(s: seq<FileEntry>): (r: seq<FileEntry>)
    ensures multiset(r) == multiset(s)
    ensures NewestFirstOrder(r)
  {
    if s == [] then []
    else
      var t := NewestFirst(s[1..]);
      InsertSorted(s[0], t);
      assert s == [s[0]] + s[1..];
      Insert(s[0], t)
  }

  /** The entries created at time `c`, in order. */
  function CreatedAt(s: seq<FileEntry>, c: int): seq<FileEntry> {
    if s == [] then [] else (if s[0].created == c then [s[0]] else []) + CreatedAt(s[1..], c)
  }

  /** The entries created at `c` of a sequence with a given first entry. */
  lemma CreatedAtCons(x: FileEntry, t: seq<FileEntry>, c: int)
    ensures CreatedAt([x] + t, c) == (if x.created == c then [x] else []) + CreatedAt(t, c)
  {
    assert ([x] + t)[0] == x && ([x] + t)[1..] == t;
  }

  lemma {:induction false} InsertKeepsTies(e: FileEntry, s: seq<FileEntry>, c: int)
    ensures CreatedAt(Insert(e, s), c) == (if e.created == c then [e] else []) + CreatedAt(s, c)
  {
    if s != [] && s[0].created > e.created {
      var rest := Insert(e, s[1..]);
      InsertKeepsTies(e, s[1..], c);
      assert Insert(e, s) == [s[0]] + rest;
      assert s == [s[0]] + s[1..];
      CreatedAtCons(s[0], rest, c);
      CreatedAtCons(s[0], s[1..], c);
      if e.created == c {
        assert CreatedAt(Insert(e, s), c) == [e] + CreatedAt(s[1..], c);
      } else {
        assert CreatedAt(rest, c) == CreatedAt(s[1..], c);
      }
    } else {
      CreatedAtCons(e, s, c);
    }
  }

  /** The sort is stable: among files created at the same time, the order is the listing's. */
  lemma {:induction false} NewestFirstStable(s: seq<FileEntry>, c: int)
    ensures CreatedAt(NewestFirst(s), c) == CreatedAt(s, c)
  {
    if s != [] {
      NewestFirstStable(s[1..], c);
      InsertKeepsTies(s[0], NewestFirst(s[1..]), c);
    }
  }

  /** LINQ `Where`: the entries on which `p` is `keep`, in order. */
  function Filter(s: seq<FileEntry>, p: FileEntry -> bool, keep: bool): (r: seq<FileEntry>)
    ensures |r| <= |s|
    ensures forall e :: e in r <==> e in s && p(e) == keep
  {
    if s == [] then []
    else
      var rest := Filter(s[1..], p, keep);
      assert forall e :: e in s <==> e == s[0] || e in s[1..];
      if p(s[0]) == keep then [s[0]] + rest else rest
  }

  /** Every entry is kept by exactly one of a filter and its complement. */
  lemma {:induction false} FilterPartition(s: seq<FileEntry>, p: FileEntry -> bool)
    ensures |Filter(s, p, true)| + |Filter(s, p, false)| == |s|
  {
    if s != [] {
      FilterPartition(s[1..], p);
    }
  }

  /** A filter keeps the newest-first order. */
  lemma {:induction false} FilterSorted(s: seq<FileEntry>, p: FileEntry -> bool, keep: bool)
    requires NewestFirstOrder(s)
    ensures NewestFirstOrder(Filter(s, p, keep))
  {
    if s != [] {
      FilterSorted(s[1..], p, keep);
      var rest := Filter(s[1..], p, keep);
      forall x | x in rest ensures s[0].created >= x.created {
        var j :| 0 <= j < |s[1..]| && s[1..][j] == x;
        assert s[j + 1] == x;
      }
    }
  }

  lemma {:induction false} FilterInsertCount(e: FileEntry, s: seq<FileEntry>, p: FileEntry -> bool, keep: bool)
    ensures |Filter(Insert(e, s), p, keep)| == |Filter(s, p, keep)| + (if p(e) == keep then 1 else 0)
  {
    if s != [] && s[0].created > e.created {
      FilterInsertCount(e, s[1..], p, keep);
      assert Insert(e, s)[1..] == Insert(e, s[1..]);
    } else {
      assert ([e] + s)[1..] == s;
    }
  }

  /** Sorting does not change how many entries a filter keeps. */
  lemma {:induction false} FilterNewestFirstCount(s: seq<FileEntry>, p: FileEntry -> bool, keep: bool)
    ensures |Filter(NewestFirst(s), p, keep)| == |Filter(s, p, keep)|
  {
    if s != [] {
      FilterNewestFirstCount(s[1..], p, keep);
      FilterInsertCount(s[0], NewestFirst(s[1..]), p, keep);
    }
  }

  /** LINQ `Skip(n)`: the elements after the first `n`; a count of zero or less skips none. */
  function Skip<T>(s: seq<T>, n: int): (r: seq<T>)
    ensures |r| == if n <= 0 then |s| else if n >= |s| then 0 else |s| - n
    ensures r == s[|s| - |r|..]
  {
    if n <= 0 then s else if n >= |s| then [] else s[n..]
  }

  /** The entry is the current file: its name equals `current` ignoring case. */
  function Named(current: string): FileEntry -> bool {
    (e: FileEntry) => EqualsIgnoreCase(current, Name(e))
  }

  /** The selection both policies share: from entries in newest-first order, the ones that are
      not the current file, past the newest `limit - 1`, computed as an unchecked `int`. */
  function Obsolete(ordered: seq<FileEntry>, current: string, limit: int32): seq<FileEntry> {
    Skip(Filter(ordered, Named(current), false), Dec32(limit))
  }

  /** Only non-current entries of the input are selected. */
  lemma ObsoleteMembers(ordered: seq<FileEntry>, current: string, limit: int32)
    ensures forall e :: e in Obsolete(ordered, current, limit) ==> e in ordered && !EqualsIgnoreCase(current, Name(e))
  {
    var others := Filter(ordered, Named(current), false);
    var r := Obsolete(ordered, current, limit);
    var k := |others| - |r|;
    assert r == others[k..];
    forall e | e in r ensures e in others {
      var i :| 0 <= i < |r| && r[i] == e;
      assert others[k + i] == e;
    }
    forall e | e in others ensures e in ordered && !EqualsIgnoreCase(current, Name(e)) {
      assert Named(current)(e) == EqualsIgnoreCase(current, Name(e));
    }
  }

  /** A sorted listing holds the same entries as the listing. */
  lemma NewestFirstMembers(s: seq<FileEntry>)
    ensures forall e :: e in NewestFirst(s) <==> e in s
  {
    var r := NewestFirst(s);
    forall e ensures e in r <==> e in s {
      assert e in r <==> e in multiset(r);
      assert e in s <==> e in multiset(s);
    }
  }

  /** `HourlyRollingFileSink.ApplyRetentionPolicy`: every listed file is a candidate; nothing is
      deleted without a limit. */
  function HourlyObsolete(listing: seq<FileEntry>, current: string, limit: Option<int32>): (r: seq<FileEntry>)
    ensures limit.None? ==> r == []
    ensures forall e :: e in r ==> e in listing && !EqualsIgnoreCase(current, Name(e))
  {
    match limit
    case None => []
    case Some(n) =>
      ObsoleteMembers(NewestFirst(listing), current, n);
      NewestFirstMembers(listing);
      Obsolete(NewestFirst(listing), current, n)
  }

  /** A hex digit or a slash: what `(/[0-9a-fA-F]*)+` may contain after its first slash. */
  predicate HexOrSlash(c: char) {
    IsDigit(c) || 'a' <= c <= 'f' || 'A' <= c <= 'F' || c == '/'
  }

  /** `(/[0-9a-fA-F]*)+/` occupies `path[a..b]`: a slash, hex digits and slashes, a slash. */
  predicate HexFolders(path: string, a: int, b: int) {
    0 <= a && a + 2 <= b <= |path| && path[a] == '/' && path[b - 1] == '/' &&
    forall k :: a < k < b - 1 ==> HexOrSlash(path[k])
  }

  /** `{filename}-[0-9]{5}.log`, with the file name spliced in unescaped. */
  function NamePattern(filename: string): seq<Elem> {
    Compile(filename) + [Lit('-')] + FiveDigits + [AnyChar] + Compile("log")
  }

  /** `regex.IsMatch(path)` for `(/[0-9a-fA-F]*)+/{filename}-[0-9]{5}.log`, unanchored. */
  predicate PolicyMatches(filename: string, path: string) {
    exists a, b | 0 <= a < b <= |path| :: HexFolders(path, a, b) && MatchesAt(NamePattern(filename), path, b)
  }

  function Candidate(filename: string): FileEntry -> bool {
    (e: FileEntry) => PolicyMatches(filename, e.path)
  }

  /** A file `FileRetentionPolicy.Apply` may delete: listed, not the current file (ignoring case),
      and matching the pattern built from the current name up to its last dash. */
  predicate PolicyCandidate(listing: seq<FileEntry>, currentFilename: string, e: FileEntry) {
    var dash := LastIndexOf(currentFilename, '-');
    dash >= 0 && e in listing && !EqualsIgnoreCase(currentFilename, Name(e)) &&
    PolicyMatches(currentFilename[..dash], e.path)
  }

  /** The selection of `FileRetentionPolicy.Apply`: nothing without a limit; a current name without a dash makes
      `Substring` throw; otherwise the candidates are the listed paths matching the pattern
      built from the current name up to its last dash. */
  function PolicyObsolete(listing: seq<FileEntry>, currentFilename: string, limit: Option<int32>)
    : (r: Result<seq<FileEntry>>)
    ensures limit.None? ==> r == Ok([])
    ensures limit.Some? && NoChar(currentFilename, '-') ==> r == Err(ArgumentOutOfRange)
    ensures limit.Some? && !NoChar(currentFilename, '-') ==> r.Ok?
    ensures r.Ok? ==> forall e :: e in r.value ==> PolicyCandidate(listing, currentFilename, e)
  {
    if limit.None? then Ok([])
    else
      var dash := LastIndexOf(currentFilename, '-');
      if dash < 0 then
        Err(ArgumentOutOfRange)
      else
        var filename := currentFilename[..dash];
        var candidates := Filter(listing, Candidate(filename), true);
        ObsoleteMembers(NewestFirst(candidates), currentFilename, limit.value);
        NewestFirstMembers(candidates);
        Ok(Obsolete(NewestFirst(candidates), currentFilename, limit.value))
  }

  /** The number deleted is the number of non-current entries beyond the newest `limit - 1`; at
      `int.MinValue` that count wraps to `int.MaxValue`. */
  lemma ObsoleteCount(ordered: seq<FileEntry>, current: string, limit: int32)
    ensures var others := |Filter(ordered, Named(current), false)|;
            var kept := if limit == -INT32_LIMIT then INT32_LIMIT - 1 else if limit - 1 <= 0 then 0 else limit - 1;
            |Obsolete(ordered, current, limit)| == if others <= kept then 0 else others - kept
  {
  }

  /** A limit of `int.MinValue` deletes nothing (of fewer than 2^31 other files), while
      every limit up to 1 deletes every file but the current one. */
  lemma WrappedLimitKeepsAll(ordered: seq<FileEntry>, current: string, limit: int32)
    ensures |Filter(ordered, Named(current), false)| < INT32_LIMIT && limit == -INT32_LIMIT ==>
              Obsolete(ordered, current, limit) == []
    ensures -INT32_LIMIT < limit <= 1 ==> Obsolete(ordered, current, limit) == Filter(ordered, Named(current), false)
  {
  }

  /** An element that is not in a suffix sits before it. */
  lemma IndexBeforeSuffix<T>(s: seq<T>, m: nat, i: nat)
    requires m <= |s| && i < |s| && s[i] !in s[m..]
    ensures i < m
  {
    forall j | m <= j < |s| ensures s[j] in s[m..] {
      assert s[m..][j - m] == s[j];
    }
  }

  /** The files kept are the newest: every non-current entry that is not deleted is at least as
      new as every deleted one. */
  lemma SurvivorsAreNewest(ordered: seq<FileEntry>, current: string, limit: int32)
    requires NewestFirstOrder(ordered)
    ensures var others := Filter(ordered, Named(current), false);
            var deleted := Obsolete(ordered, current, limit);
            forall k, d :: k in others && k !in deleted && d in deleted ==> k.created >= d.created
  {
    var others := Filter(ordered, Named(current), false);
    FilterSorted(ordered, Named(current), false);
    var deleted := Obsolete(ordered, current, limit);
    var m := |others| - |deleted|;
    assert deleted == others[m..];
    forall k, d | k in others && k !in deleted && d in deleted ensures k.created >= d.created {
      var i :| 0 <= i < |others| && others[i] == k;
      var j :| 0 <= j < |deleted| && deleted[j] == d;
      assert others[m + j] == d;
      IndexBeforeSuffix(others, m, i);
      assert others[i].created >= others[m + j].created;
    }
  }

  /** The hourly policy leaves at most `max(limit, 1)` of the listed files when at most one of
      them has the current file's name: the current file and the newest `limit - 1` others. At
      `int.MinValue` the skip count wraps and nothing is deleted. */
  lemma HourlyKeepsAtMostLimit(listing: seq<FileEntry>, current: string, limit: int32)
    requires |Filter(listing, Named(current), true)| <= 1
    ensures limit > -INT32_LIMIT ==>
              |listing| - |HourlyObsolete(listing, current, Some(limit))| <= if limit < 1 then 1 else limit
    ensures limit == -INT32_LIMIT && |listing| < INT32_LIMIT ==> HourlyObsolete(listing, current, Some(limit)) == []
  {
    FilterPartition(listing, Named(current));
    FilterNewestFirstCount(listing, Named(current), false);
    ObsoleteCount(NewestFirst(listing), current, limit);
  }

  /** The open file is spared under any spelling of its name: a listed file whose name equals
      the current one ignoring case is selected by neither policy. */
  lemma CaseVariantsSpared(listing: seq<FileEntry>, current: string, limit: Option<int32>)
    ensures forall e :: e in listing && EqualsIgnoreCase(Name(e), current) ==>
              e !in HourlyObsolete(listing, current, limit) &&
              (PolicyObsolete(listing, current, limit).Ok? ==> e !in PolicyObsolete(listing, current, limit).value)
  {
    forall e | e in listing && EqualsIgnoreCase(Name(e), current)
      ensures EqualsIgnoreCase(current, Name(e))
    {
      EqualsIgnoreCaseSymmetric(Name(e), current);
    }
  }

  /** What happened to one selected file. */
  datatype Deletion = Deleted(path: string) | Logged(path: string)

  /** One pass of the delete loop: the selected name combined with the directory is deleted, or,
      when the delete fails, logged. */
  function Attempt(directory: string, e: FileEntry, undeletable: set<string>): (d: Deletion)
    ensures d.path == Combine(directory, Name(e))
    ensures d.Logged? <==> d.path in undeletable
  {
    var path := Combine(directory, Name(e));
    if path in undeletable then Logged(path) else Deleted(path)
  }

  /** The delete loop: each selected file in turn; a delete that fails is logged and the loop goes
      on. No exception escapes. */
  function DeleteAll(directory: string, obsolete: seq<FileEntry>, undeletable: set<string>): (r: seq<Deletion>)
    ensures |r| == |obsolete|
    ensures forall i :: 0 <= i < |r| ==> r[i] == Attempt(directory, obsolete[i], undeletable)
  {
    if obsolete == [] then []
    else [Attempt(directory, obsolete[0], undeletable)] + DeleteAll(directory, obsolete[1..], undeletable)
  }

  /** A failed delete does not stop the loop: every selected file is attempted, and the files
      deleted are exactly those whose delete does not fail. */
  lemma FailuresSkipped(directory: string, obsolete: seq<FileEntry>, undeletable: set<string>, i: nat)
    requires i < |obsolete|
    ensures var path := Combine(directory, Name(obsolete[i]));
            DeleteAll(directory, obsolete, undeletable)[i] == if path in undeletable then Logged(path) else Deleted(path)
  {
  }

  /** `FileRetentionPolicy.Apply`: the selection of `PolicyObsolete`, then the delete loop over the
      log directory. Every file deleted or logged is a candidate of the policy. */
  function Apply(logDirectory: string, limit: Option<int32>, listing: seq<FileEntry>, currentFilename: string,
                 undeletable: set<string>): (r: Result<seq<Deletion>>)
    ensures limit.None? ==> r == Ok([])
    ensures limit.Some? && NoChar(currentFilename, '-') ==> r == Err(ArgumentOutOfRange)
    ensures limit.Some? && !NoChar(currentFilename, '-') ==> r.Ok?
    ensures r.Ok? ==> forall i :: 0 <= i < |r.value| ==>
              exists x :: PolicyCandidate(listing, currentFilename, x) &&
                          r.value[i].path == Combine(logDirectory, Name(x))
  {
    match PolicyObsolete(listing, currentFilename, limit)
    case Err(x) => Err(x)
    case Ok(obsolete) =>
      DeletesOnlySelected(logDirectory, obsolete, undeletable);
      Ok(DeleteAll(logDirectory, obsolete, undeletable))
  }

  /** Each attempt of the delete loop is on the path of one of the files it was given. */
  lemma DeletesOnlySelected(directory: string, obsolete: seq<FileEntry>, undeletable: set<string>)
    ensures forall i :: 0 <= i < |obsolete| ==>
              obsolete[i] in obsolete &&
              DeleteAll(directory, obsolete, undeletable)[i].path == Combine(directory, Name(obsolete[i]))
  {
  }
}
