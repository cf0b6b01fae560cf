/**
  Repository-relative paths: slash-separated strings, in cleaned form, ordered as Go orders
  strings.
*/
module Paths {

  type Path = string

  // strings.Split(path, "/")
  function Segments(path: Path): (segments: seq<string>)
    ensures |segments| > 0
  {
    if path == "" then [""]
    else
      var rest := Segments(path[1..]);
      if path[0] == '/' then [""] + rest else [[path[0]] + rest[0]] + rest[1..]
  }

  // The directories a file at this path lies in, outermost first.
  function Directories(path: Path): seq<string>
  {
    Segments(path)[..|Segments(path)| - 1]
  }

  // excludedDirectory: walk does not look inside these.
  predicate ExcludedName(name: string)
  {
    name in {".git", ".sovereign", "attempts", "node_modules", "vendor", ".venv", "venv", "__pycache__"}
  }

  predicate Excluded(path: Path)
  {
    exists name | name in Directories(path) :: ExcludedName(name)
  }

  // The cleaned paths normalizePath lets through.
  predicate Normal(path: Path)
  {
    && (exists c | c in path :: c !in " \t\n\r")
    && '\0' !in path
    && forall s | s in Segments(path) :: s !in {"", ".", "..", ".git", ".sovereign", "attempts"}
  }

  // validateRepositoryPath
  predicate RepositoryPath(path: Path)
  {
    && 0 < |path| <= 512 && '\\' !in path
    && forall s | s in Segments(path) :: s !in {"", ".", "..", ".git"}
  }

  function Lower(s: string): string
  {
    if s == "" then ""
    else [if 'A' <= s[0] <= 'Z' then ((s[0] as int) + 32) as char else s[0]] + Lower(s[1..])
  }

  predicate EndsWith(s: string, suffix: string)
  {
    |suffix| <= |s| && s[|s| - |suffix|..] == suffix
  }

  function LastDot(s: string): (i: int)
    ensures -1 <= i < |s|
  {
    if s == "" then -1 else if s[|s| - 1] == '.' then |s| - 1 else LastDot(s[..|s| - 1])
  }

  // isTestPath, for ASCII names.
  predicate IsTestPath(path: Path)
  {
    var base := Segments(path)[|Segments(path)| - 1];
    var stem := if LastDot(base) > 0 then base[..LastDot(base)] else "";
    || (exists d | d in Directories(path) ::
          Lower(d) in {"test", "tests", "testdata", "test_data", "__tests__"} || EndsWith(Lower(d), ".tests"))
    || "test_" <= Lower(base) || Lower(base) == "conftest.py"
    || EndsWith(Lower(stem), "_test") || EndsWith(Lower(stem), ".test") || EndsWith(Lower(stem), ".spec")
    || EndsWith(stem, "Test") || EndsWith(stem, "Tests")
  }

  // The directory paths above a path.
  function Parents(path: Path): set<Path>
  {
    set i | 0 <= i < |path| && path[i] == '/' :: path[..i]
  }

  // Go's string order.
  predicate Less(a: Path, b: Path)
  {
    b != "" && (a == "" || a[0] < b[0] || (a[0] == b[0] && Less(a[1..], b[1..])))
  }

  lemma {:induction false} LessTotal(a: Path, b: Path)
    ensures a == b || Less(a, b) || Less(b, a)
    ensures !(Less(a, b) && Less(b, a))
    ensures !Less(a, a)
  {
    if a != "" && b != "" && a[0] == b[0] {
      LessTotal(a[1..], b[1..]);
      assert a == [a[0]] + a[1..] && b == [b[0]] + b[1..];
    }
    if a != "" {
      LessTotal(a[1..], a[1..]);
    }
  }

  lemma {:induction false} LessTransitive(a: Path, b: Path, c: Path)
    requires Less(a, b) && Less(b, c)
    ensures Less(a, c)
  {
    if a != "" && a[0] == b[0] && b[0] == c[0] {
      LessTransitive(a[1..], b[1..], c[1..]);
    }
  }

  // sort.Strings over distinct strings.
  predicate Sorted(paths: seq<Path>)
  {
    forall i, j | 0 <= i < j < |paths| :: Less(paths[i], paths[j])
  }

  // A set has one sorted listing, whatever order its elements were visited in.
  lemma {:induction false} SortedListingUnique(a: seq<Path>, b: seq<Path>)
    requires Sorted(a) && Sorted(b)
    requires forall p :: p in a <==> p in b
    ensures a == b
  {
    assert a != [] ==> a[0] in a;
    assert b != [] ==> b[0] in b;
    if a != [] {
      var i :| 0 <= i < |b| && b[i] == a[0];
      var j :| 0 <= j < |a| && a[j] == b[0];
      LessTotal(a[0], b[0]);
      assert a[0] == b[0];
      forall p ensures p in a[1..] <==> p in b[1..] {
        LessTotal(a[0], p);
        assert p in a <==> p == a[0] || p in a[1..];
        assert p in b <==> p == b[0] || p in b[1..];
      }
      SortedListingUnique(a[1..], b[1..]);
    }
  }

  lemma SortedTail(paths: seq<Path>)
    requires Sorted(paths) && paths != []
    ensures Sorted(paths[1..])
    ensures forall p | p in paths[1..] :: Less(paths[0], p)
  {
    var tail := paths[1..];
    forall i, j | 0 <= i < j < |tail| ensures Less(tail[i], tail[j]) {
      assert tail[i] == paths[i + 1] && tail[j] == paths[j + 1];
    }
  }

  function Insert(sorted: seq<Path>, path: Path): (r: seq<Path>)
    requires Sorted(sorted) && path !in sorted
    ensures Sorted(r) && |r| == |sorted| + 1
    ensures forall p :: p in r <==> p == path || p in sorted
  {
    if sorted == [] then [path]
    else if Less(path, sorted[0]) then
      assert forall i | 0 <= i < |sorted| :: Less(path, sorted[i]) by {
        forall i | 0 <= i < |sorted| ensures Less(path, sorted[i]) {
          if i > 0 { LessTransitive(path, sorted[0], sorted[i]); }
        }
      }
      [path] + sorted
    else
      LessTotal(path, sorted[0]);
      SortedTail(sorted);
      assert sorted == [sorted[0]] + sorted[1..];
      var rest := Insert(sorted[1..], path);
      assert forall i | 0 <= i < |rest| :: rest[i] in rest && Less(sorted[0], rest[i]);
      [sorted[0]] + rest
  }

  // Collect the keys of a Go map and sort them.
  method SortPaths(all: set<Path>) returns (paths: seq<Path>)
    ensures Sorted(paths)
    ensures forall p :: p in paths <==> p in all
    ensures |paths| == |all|
  {
    paths := [];
    var left := all;
    while left != {}
      invariant left <= all && Sorted(paths) && |paths| + |left| == |all|
      invariant forall p :: p in paths <==> p in all && p !in left
      decreases left
    {
      var path :| path in left;
      left := left - {path};
      paths := Insert(paths, path);
    }
  }
}
