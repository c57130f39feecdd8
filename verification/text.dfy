/** String helpers the sinks borrow from the framework: `LastIndexOf`, `Path.GetFileName`,
    `Path.Combine` and ordinal case-insensitive comparison. */
module Text {

  predicate IsSeparator(c: char) {
    c == '/' || c == '\\'
  }

  predicate NoSeparator(s: string) {
    forall i :: 0 <= i < |s| ==> !IsSeparator(s[i])
  }

  predicate NoChar(s: string, c: char) {
    forall i :: 0 <= i < |s| ==> s[i] != c
  }

  /** `s.LastIndexOf(c)`: the last position holding `c`, or -1. */
  function LastIndexOf(s: string, c: char): (r: int)
    ensures -1 <= r < |s|
    ensures r >= 0 ==> s[r] == c
    ensures forall i :: r < i < |s| ==> s[i] != c
  {
    if s == [] then -1
    else if s[|s| - 1] == c then |s| - 1
    else LastIndexOf(s[..|s| - 1], c)
  }

  /** The last position holding a directory separator, or -1. */
  function LastSeparator(s: string): (r: int)
    ensures -1 <= r < |s|
    ensures r >= 0 ==> IsSeparator(s[r])
    ensures forall i :: r < i < |s| ==> !IsSeparator(s[i])
  {
    if s == [] then -1
    else if IsSeparator(s[|s| - 1]) then |s| - 1
    else LastSeparator(s[..|s| - 1])
  }

  /** `Path.GetFileName`: what follows the last separator. */
  function BaseName(path: string): (r: string)
    ensures NoSeparator(r)
    ensures r <= path || (|r| <= |path| && r == path[|path| - |r|..])
  {
    path[LastSeparator(path) + 1..]
  }

  /** The length of the root `Path.GetDirectoryName` keeps whole: a leading separator, or a
      drive letter with its colon and separator; 0 for a relative path. */
  function RootLength(path: string): (n: nat)
    ensures n <= |path|
    ensures n > 0 ==> IsSeparator(path[n - 1]) && forall i :: 0 <= i < n - 1 ==> !IsSeparator(path[i])
  {
    if |path| >= 1 && IsSeparator(path[0]) then 1
    else if |path| >= 3 && path[1] == ':' && IsSeparator(path[2]) then 3
    else 0
  }

  /** `Path.GetDirectoryName`: what precedes the last separator, "" when there is none; when the
      last separator closes the root, the root with its separator. */
  function DirectoryName(path: string): (r: string)
    ensures LastSeparator(path) < 0 ==> r == ""
    ensures LastSeparator(path) >= 0 ==> r != ""
    ensures LastSeparator(path) >= RootLength(path) ==>
              |r| < |path| && IsSeparator(path[|r|]) && path == r + [path[|r|]] + BaseName(path)
    ensures 0 <= LastSeparator(path) < RootLength(path) ==>
              |r| == RootLength(path) && IsSeparator(r[|r| - 1]) && path == r + BaseName(path)
  {
    var k := LastSeparator(path);
    if k < 0 then ""
    else if k < RootLength(path) then
      assert path == path[..k + 1] + path[k + 1..];
      path[..k + 1]
    else
      assert path == path[..k] + [path[k]] + path[k + 1..];
      path[..k]
  }

  /** `Path.Combine(folder, name)` for a relative file name. */
  function Combine(folder: string, name: string): (r: string)
    ensures |r| >= |name| && r[|r| - |name|..] == name
    ensures |r| >= |folder| && r[..|folder|] == folder
    ensures folder == "" ==> r == name
  {
    if folder == [] then name
    else if IsSeparator(folder[|folder| - 1]) then folder + name
    else folder + "/" + name
  }

  /** Ordinal upper-casing of one character (ASCII letters only). */
  function UpperAscii(c: char): char {
    if 'a' <= c <= 'z' then (c as int - 32) as char else c
  }

  /** `StringComparer.OrdinalIgnoreCase.Compare(a, b) == 0`. */
  predicate EqualsIgnoreCase(a: string, b: string) {
    |a| == |b| && forall i :: 0 <= i < |a| ==> UpperAscii(a[i]) == UpperAscii(b[i])
  }

  lemma EqualsIgnoreCaseSymmetric(a: string, b: string)
    requires EqualsIgnoreCase(a, b)
    ensures EqualsIgnoreCase(b, a)
  {
  }

  /** A character that does not occur has no last position. */
  lemma {:induction false} LastIndexOfAbsent(s: string, c: char)
    requires NoChar(s, c)
    ensures LastIndexOf(s, c) == -1
  {
    if s != [] {
      LastIndexOfAbsent(s[..|s| - 1], c);
    }
  }

  /** The last occurrence is the one not followed by another. */
  lemma {:induction false} LastIndexOfSplit(a: string, c: char, b: string)
    requires NoChar(b, c)
    ensures LastIndexOf(a + [c] + b, c) == |a|
    decreases |b|
  {
    var s := a + [c] + b;
    if b != [] {
      var b' := b[..|b| - 1];
      assert s[..|s| - 1] == a + [c] + b';
      assert s[|s| - 1] == b[|b| - 1];
      LastIndexOfSplit(a, c, b');
    }
  }

  /** A path's base name is what follows its last separator. */
  lemma BaseNameAfter(dir: string, sep: char, name: string)
    requires IsSeparator(sep) && NoSeparator(name)
    ensures BaseName(name) == name
    ensures BaseName(dir + [sep] + name) == name
  {
    LastSeparatorAbsent(name);
    var p := dir + [sep] + name;
    assert IsSeparator(p[|dir|]);
    assert forall i :: |dir| < i < |p| ==> p[i] == name[i - |dir| - 1];
    assert LastSeparator(p) == |dir|;
    assert p[|dir| + 1..] == name;
  }

  /** A path's directory name is what precedes its last separator, unless that separator closes
      the root, which is kept with it. */
  lemma DirectoryNameBefore(dir: string, sep: char, name: string)
    requires IsSeparator(sep) && NoSeparator(name)
    ensures |dir| >= RootLength(dir + [sep] + name) ==> DirectoryName(dir + [sep] + name) == dir
    ensures |dir| < RootLength(dir + [sep] + name) ==> DirectoryName(dir + [sep] + name) == dir + [sep]
  {
    var p := dir + [sep] + name;
    BaseNameAfter(dir, sep, name);
    assert IsSeparator(p[|dir|]);
    assert LastSeparator(p) == |dir|;
    assert p[..|dir|] == dir && p[..|dir| + 1] == dir + [sep];
  }

  /** A path has a last separator exactly when it has a separator. */
  lemma LastSeparatorFound(s: string)
    ensures LastSeparator(s) >= 0 <==> !NoSeparator(s)
  {
    if NoSeparator(s) {
      LastSeparatorAbsent(s);
    }
  }

  lemma {:induction false} LastSeparatorAbsent(s: string)
    requires NoSeparator(s)
    ensures LastSeparator(s) == -1
  {
    if s != [] {
      LastSeparatorAbsent(s[..|s| - 1]);
    }
  }

  /** Names combined with the same folder give equal paths only when equal. */
  lemma CombineInjective(folder: string, a: string, b: string)
    ensures Combine(folder, a) == Combine(folder, b) <==> a == b
  {
    var head := if folder == [] || IsSeparator(folder[|folder| - 1]) then folder else folder + "/";
    assert Combine(folder, a) == head + a && Combine(folder, b) == head + b;
    assert a == (head + a)[|head|..] && b == (head + b)[|head|..];
  }
}
