/**
  Changed-file manifests: what the editor reports, what the validators accept, and what
  candidate preparation does with them.  A digest stands for the content it identifies.
*/
module Manifest {
  import opened Wrappers
  import opened Utf8
  import opened Paths
  import opened FileTree

  datatype Digest = Unset | AbsentDigest | Sha256(content: Bytes)

  datatype Action = Add | Modify | Delete

  datatype ChangedFile = ChangedFile(
    path: Path, action: Action, baseDigest: Digest, resultDigest: Digest, resultContent: Option<Bytes>)

  const MAX_CHANGED_FILE_BYTES := 262144
  const MAX_CHANGED_FILES := 128

  function PathsOf(files: seq<ChangedFile>): (paths: seq<Path>)
    ensures |paths| == |files|
    ensures forall i | 0 <= i < |files| :: paths[i] == files[i].path
  {
    seq(|files|, i requires 0 <= i < |files| => files[i].path)
  }

  function DigestOf(content: Option<Bytes>): Digest
  {
    if content.None? then AbsentDigest else Sha256(content.value)
  }

  // The entry for a path whose content goes from one to the other; none when nothing changes.
  function EntryFor(path: Path, before: Option<Bytes>, after: Option<Bytes>): Option<ChangedFile>
  {
    if before == after then None
    else if before.None? then Some(ChangedFile(path, Add, AbsentDigest, DigestOf(after), after))
    else if after.Some? then Some(ChangedFile(path, Modify, DigestOf(before), DigestOf(after), after))
    else Some(ChangedFile(path, Delete, DigestOf(before), Unset, None))
  }

  // validateChangedFiles, entry by entry.
  predicate ValidEntry(file: ChangedFile)
  {
    && RepositoryPath(file.path)
    && (if file.action == Add then file.baseDigest == AbsentDigest else file.baseDigest.Sha256?)
    && (if file.action == Delete then file.resultContent.None? && file.resultDigest == Unset
        else
          && file.resultContent.Some?
          && |file.resultContent.value| <= MAX_CHANGED_FILE_BYTES
          && Valid(file.resultContent.value) && 0 !in file.resultContent.value
          && file.resultDigest == Sha256(file.resultContent.value)
          && (file.action == Modify ==> file.resultDigest != file.baseDigest))
  }

  predicate ValidChangedFiles(files: seq<ChangedFile>)
  {
    && 1 <= |files| <= MAX_CHANGED_FILES
    && (forall f | f in files :: ValidEntry(f))
    && Sorted(PathsOf(files))
  }

  // TestChangeSet.Validate adds that every path is a test path.
  predicate ValidTestFiles(files: seq<ChangedFile>)
  {
    ValidChangedFiles(files) && forall f | f in files :: IsTestPath(f.path)
  }

  // One entry of applyChangedFiles on the worktree.
  function ApplyFile(tree: Tree, file: ChangedFile): (r: Outcome<Tree>)
    requires file.action != Delete ==> file.resultContent.Some?
  {
    match At(tree, file.path)
    case NotAFile => Refused
    case Absent => if file.action == Add then Put(tree, file.path, file.resultContent.value) else Refused
    case File(current) =>
      if file.action == Add || Sha256(current) != file.baseDigest then Refused
      else if file.action == Modify then Put(tree, file.path, file.resultContent.value)
      else Ok(Drop(tree, file.path))
  }

  predicate HasResults(files: seq<ChangedFile>)
  {
    forall f | f in files :: f.action != Delete ==> f.resultContent.Some?
  }

  function ApplyFiles(tree: Tree, files: seq<ChangedFile>): (r: Outcome<Tree>)
    requires HasResults(files)
    decreases |files|
  {
    if files == [] then Ok(tree)
    else
      match ApplyFile(tree, files[0])
      case Refused => Refused
      case Ok(next) => ApplyFiles(next, files[1..])
  }

  // What a manifest means, whatever the tree it is applied to holds.
  function Patch(files: map<Path, Bytes>, changes: seq<ChangedFile>): map<Path, Bytes>
    requires HasResults(changes)
    decreases |changes|
  {
    if changes == [] then files
    else
      var f := changes[0];
      Patch(if f.action == Delete then files - {f.path} else files[f.path := f.resultContent.value], changes[1..])
  }

  // Application either follows the patch exactly or is refused.
  lemma {:induction false} ApplyFollowsPatch(tree: Tree, files: seq<ChangedFile>)
    requires HasResults(files) && WellFormed(tree)
    ensures ApplyFiles(tree, files).Ok? ==>
      && WellFormed(ApplyFiles(tree, files).value)
      && ApplyFiles(tree, files).value.files == Patch(tree.files, files)
    decreases |files|
  {
    if files != [] && ApplyFile(tree, files[0]).Ok? {
      ApplyFollowsPatch(ApplyFile(tree, files[0]).value, files[1..]);
    }
  }

  ghost predicate DistinctPaths(files: seq<ChangedFile>)
  {
    forall i, j | 0 <= i < j < |files| :: files[i].path != files[j].path
  }

  // Nothing stale is applied: every entry met the content its base digest names, or nothing at all
  // where it adds a file.
  lemma {:induction false} AppliedMetItsBase(tree: Tree, files: seq<ChangedFile>, f: ChangedFile)
    requires HasResults(files) && DistinctPaths(files) && ApplyFiles(tree, files).Ok? && f in files
    ensures DigestOf(Get(tree.files, f.path)) == if f.action == Add then AbsentDigest else f.baseDigest
    decreases |files|
  {
    var first, rest := files[0], files[1..];
    assert first in files;
    if f != first {
      var i :| 0 <= i < |rest| && rest[i] == f;
      assert files[i + 1] == f && first.path != f.path;
      forall j, k | 0 <= j < k < |rest| ensures rest[j].path != rest[k].path {
        assert files[j + 1].path != files[k + 1].path;
      }
      AppliedMetItsBase(ApplyFile(tree, first).value, rest, f);
    }
  }

  // The manifest lists each path whose content differs, once, and nothing else.
  ghost predicate IsDiff(files: seq<ChangedFile>, before: map<Path, Bytes>, after: map<Path, Bytes>)
  {
    && DistinctPaths(files)
    && (forall f | f in files :: EntryFor(f.path, Get(before, f.path), Get(after, f.path)) == Some(f))
    && (forall p | Get(before, p) != Get(after, p) :: p in PathsOf(files))
  }

  // A set of directories under which both file sets can live.
  ghost predicate Room(dirs: set<Path>, tree: Tree, after: map<Path, Bytes>)
  {
    && tree.dirs <= dirs && dirs !! tree.files.Keys && dirs !! after.Keys
    && forall p | p in after :: Parents(p) <= dirs
  }

  // In any order, the entries of a diff apply without refusal and turn one file set into the other,
  // as long as no file of either is in the way of a directory of the other.
  lemma {:induction false} ApplyDiff(tree: Tree, files: seq<ChangedFile>, after: map<Path, Bytes>, dirs: set<Path>)
    requires WellFormed(tree) && Room(dirs, tree, after)
    requires IsDiff(files, tree.files, after)
    ensures HasResults(files) && ApplyFiles(tree, files).Ok?
    ensures ApplyFiles(tree, files).value.files == after
    ensures WellFormed(ApplyFiles(tree, files).value) && ApplyFiles(tree, files).value.dirs <= dirs
    decreases |files|
  {
    if files == [] {
      assert forall p :: Get(tree.files, p) == Get(after, p);
      SameGetSameFiles(tree.files, after);
    } else {
      var f := files[0];
      assert f in files;
      assert !BelowFile(tree, f.path) by {
        assert f.path in tree.files || f.path in after;
        assert Parents(f.path) <= dirs;
      }
      assert f.path !in tree.dirs;
      var next := ApplyFile(tree, f).value;
      assert Get(next.files, f.path) == Get(after, f.path);
      DiffTail(tree.files, next.files, files, after);
      ApplyDiff(next, files[1..], after, dirs);
    }
  }

  lemma SameGetSameFiles(a: map<Path, Bytes>, b: map<Path, Bytes>)
    requires forall p :: Get(a, p) == Get(b, p)
    ensures a == b
  {
    forall p ensures p in a <==> p in b {
      assert Get(a, p) == Get(b, p);
    }
    forall p | p in a ensures a[p] == b[p] {
      assert Get(a, p) == Get(b, p);
    }
  }

  lemma DiffTail(before: map<Path, Bytes>, next: map<Path, Bytes>, files: seq<ChangedFile>, after: map<Path, Bytes>)
    requires files != [] && IsDiff(files, before, after)
    requires Get(next, files[0].path) == Get(after, files[0].path)
    requires forall p | p != files[0].path :: Get(next, p) == Get(before, p)
    ensures IsDiff(files[1..], next, after)
  {
    var rest := files[1..];
    forall f | f in rest
      ensures f.path != files[0].path && EntryFor(f.path, Get(next, f.path), Get(after, f.path)) == Some(f)
    {
      var i :| 0 <= i < |rest| && rest[i] == f;
      assert files[i + 1] == f && f in files;
    }
    forall p | Get(next, p) != Get(after, p) ensures p in PathsOf(rest) {
      assert p != files[0].path && p in PathsOf(files);
      var i :| 0 <= i < |files| && files[i].path == p;
      assert PathsOf(rest)[i - 1] == p;
    }
  }

  lemma SortedAreDistinct(files: seq<ChangedFile>)
    requires Sorted(PathsOf(files))
    ensures DistinctPaths(files)
  {
    forall i, j | 0 <= i < j < |files| ensures files[i].path != files[j].path {
      assert Less(PathsOf(files)[i], PathsOf(files)[j]);
      LessTotal(files[i].path, files[j].path);
    }
  }
}
