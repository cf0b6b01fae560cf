/**
  candidate.prepare: apply an accepted change set and an accepted test change set to the source
  commit, once per idempotency key, and recover a workspace that an earlier candidate left behind.

  The repository is the HEAD commit, the branch, the index, the worktree and the recorded candidate
  markers.  An artifact digest is the artifact, a tree id is the file map written by write-tree.
  Every external effect spends one unit of a budget; at zero the call stops where it is, which
  stands for a crash as well as for a failing command.
*/
module CandidatePrepare {
  import opened Wrappers
  import opened Utf8
  import opened Paths
  import opened FileTree
  import opened Manifest

  type Commit = string
  type Files = map<Path, Bytes>

  datatype Revision = Revision(commit: Commit, url: string)

  datatype ChangeSet = ChangeSet(baseCommit: Commit, request: string, plan: string, files: seq<ChangedFile>)

  datatype Input = Input(key: string, branch: string, revision: Revision, tests: ChangeSet, change: ChangeSet)

  datatype Candidate = Candidate(
    revision: Revision, tests: ChangeSet, change: ChangeSet, branch: string, tree: Files, changedPaths: seq<Path>)

  datatype Result = Prepared(candidate: Candidate) | Rejected | Stopped

  // The inputs are well formed and share one source and plan lineage.
  predicate AcceptableInput(input: Input)
  {
    && ValidTestFiles(input.tests.files) && ValidChangedFiles(input.change.files)
    && input.tests.baseCommit == input.revision.commit && input.change.baseCommit == input.revision.commit
    && input.tests.request == input.change.request && input.tests.plan == input.change.plan
  }

  // An entry says what it finds and what it leaves: a text of limited size under its own digest.
  ghost predicate IsTelling(file: ChangedFile)
  {
    && RepositoryPath(file.path)
    && (file.action == Add <==> file.baseDigest == AbsentDigest) && file.baseDigest != Digest.Unset
    && if file.action == Delete then file.resultContent == None && file.resultDigest == Digest.Unset
       else
         && file.resultContent.Some? && file.resultDigest == Sha256(file.resultContent.value)
         && file.resultDigest != file.baseDigest
         && |file.resultContent.value| <= 262144 && Valid(file.resultContent.value) && 0 !in file.resultContent.value
  }

  // Two manifests of 1 to 128 such entries in the order of their paths, from one commit, request and
  // plan, one of them of test files only.
  ghost predicate WellMade(input: Input)
  {
    && input.tests.baseCommit == input.revision.commit && input.change.baseCommit == input.revision.commit
    && input.tests.request == input.change.request && input.tests.plan == input.change.plan
    && 1 <= |input.tests.files| <= 128 && 1 <= |input.change.files| <= 128
    && (forall f | f in input.tests.files :: IsTestPath(f.path) && IsTelling(f))
    && (forall f | f in input.change.files :: IsTelling(f))
    && (forall i, j | 0 <= i < j < |input.tests.files| :: Less(input.tests.files[i].path, input.tests.files[j].path))
    && (forall i, j | 0 <= i < j < |input.change.files| :: Less(input.change.files[i].path, input.change.files[j].path))
  }

  lemma ManifestIffTelling(files: seq<ChangedFile>)
    ensures ValidChangedFiles(files) <==>
      && 1 <= |files| <= 128 && (forall f | f in files :: IsTelling(f))
      && (forall i, j | 0 <= i < j < |files| :: Less(files[i].path, files[j].path))
  {
    forall f ensures ValidEntry(f) <==> IsTelling(f) {}
  }

  lemma AcceptableIffWellMade(input: Input)
    ensures AcceptableInput(input) <==> WellMade(input)
  {
    ManifestIffTelling(input.tests.files);
    ManifestIffTelling(input.change.files);
  }

  lemma AcceptableHasResults(files: seq<ChangedFile>)
    requires ValidChangedFiles(files)
    ensures HasResults(files) && DistinctPaths(files)
  {
    SortedAreDistinct(files);
    forall f | f in files ensures f.action != Delete ==> f.resultContent.Some? {
      assert ValidEntry(f);
    }
  }

  // The tree a preparation of these inputs is for: a function of the artifacts alone.
  function ExpectedTree(base: Files, change: ChangeSet, tests: ChangeSet): Files
    requires HasResults(change.files) && HasResults(tests.files)
  {
    Patch(Patch(base, change.files), tests.files)
  }

  ghost predicate DisjointPaths(left: seq<ChangedFile>, right: seq<ChangedFile>)
  {
    forall f, g | f in left && g in right :: f.path != g.path
  }

  // ensureDisjointChangedFiles
  method EnsureDisjoint(left: seq<ChangedFile>, right: seq<ChangedFile>) returns (disjoint: bool)
    ensures disjoint <==> DisjointPaths(left, right)
  {
    var paths: set<Path> := {};
    for i := 0 to |left|
      invariant forall p :: p in paths <==> exists j :: 0 <= j < i && left[j].path == p
    {
      paths := paths + {left[i].path};
    }
    for i := 0 to |right|
      invariant forall j | 0 <= j < i :: right[j].path !in paths
    {
      if right[i].path in paths {
        assert right[i] in right;
        return false;
      }
    }
    return true;
  }

  lemma {:induction false} PatchOutside(base: Files, files: seq<ChangedFile>, path: Path)
    requires HasResults(files) && forall f | f in files :: f.path != path
    ensures Get(Patch(base, files), path) == Get(base, path)
    decreases |files|
  {
    if files != [] {
      var f := files[0];
      assert f in files;
      PatchOutside(if f.action == Delete then base - {f.path} else base[f.path := f.resultContent.value],
                   files[1..], path);
    }
  }

  lemma {:induction false} PatchInside(base: Files, files: seq<ChangedFile>, file: ChangedFile)
    requires HasResults(files) && DistinctPaths(files) && file in files
    ensures Get(Patch(base, files), file.path) == if file.action == Delete then None else file.resultContent
    decreases |files|
  {
    var f := files[0];
    var next := if f.action == Delete then base - {f.path} else base[f.path := f.resultContent.value];
    if f == file {
      forall g | g in files[1..] ensures g.path != file.path {
        var i :| 0 <= i < |files[1..]| && files[1..][i] == g;
        assert files[i + 1] == g;
      }
      PatchOutside(next, files[1..], file.path);
    } else {
      forall i, j | 0 <= i < j < |files[1..]| ensures files[1..][i].path != files[1..][j].path {
        assert files[i + 1].path != files[j + 1].path;
      }
      PatchInside(next, files[1..], file);
    }
  }

  // Path by path: a listed path has the listed result, every other path is as in the base.
  lemma ExpectedTreeAt(base: Files, change: ChangeSet, tests: ChangeSet)
    requires HasResults(change.files) && DistinctPaths(change.files)
    requires HasResults(tests.files) && DistinctPaths(tests.files) && DisjointPaths(tests.files, change.files)
    ensures forall f | f in tests.files || f in change.files ::
      Get(ExpectedTree(base, change, tests), f.path) == if f.action == Delete then None else f.resultContent
    ensures forall p | (forall f | f in tests.files || f in change.files :: f.path != p) ::
      Get(ExpectedTree(base, change, tests), p) == Get(base, p)
  {
    var middle := Patch(base, change.files);
    forall f | f in tests.files || f in change.files
      ensures Get(ExpectedTree(base, change, tests), f.path) == if f.action == Delete then None else f.resultContent
    {
      if f in tests.files {
        PatchInside(middle, tests.files, f);
      } else {
        PatchInside(base, change.files, f);
        PatchOutside(middle, tests.files, f.path);
      }
    }
    forall p | (forall f | f in tests.files || f in change.files :: f.path != p)
      ensures Get(ExpectedTree(base, change, tests), p) == Get(base, p)
    {
      PatchOutside(base, change.files, p);
      PatchOutside(middle, tests.files, p);
    }
  }

  // Untracked files git reports but the preparation tolerates.
  predicate Tolerated(path: Path)
  {
    "attempts/" <= path || ".sovereign/" <= path
  }

  // No unstaged change to a tracked file and no unexpected untracked file.
  predicate Matches(worktree: Files, index: Files)
  {
    && (forall p | p in index :: Get(worktree, p) == Some(index[p]))
    && (forall p | p in worktree :: p !in index ==> Tolerated(p))
  }

  // The base has what this entry says it replaces; an untracked file git tolerates may stand in for it.
  ghost predicate MeetsBase(base: Files, f: ChangedFile)
  {
    DigestOf(Get(base, f.path)) == f.baseDigest || (f.action != Add && Tolerated(f.path) && f.path !in base)
  }

  ghost predicate AllMeetBase(base: Files, input: Input)
  {
    forall f | f in input.change.files || f in input.tests.files :: MeetsBase(base, f)
  }

  lemma AppliedMeetBase(tree: Tree, base: Files, input: Input, f: ChangedFile)
    requires AcceptableInput(input) && HasResults(input.change.files) && HasResults(input.tests.files)
    requires WellFormed(tree) && Matches(tree.files, base) && DisjointPaths(input.tests.files, input.change.files)
    requires Applies(tree, input.change, input.tests) && (f in input.change.files || f in input.tests.files)
    ensures MeetsBase(base, f)
  {
    AcceptableHasResults(input.tests.files);
    AcceptableHasResults(input.change.files);
    if f in input.change.files {
      AppliedMetItsBase(tree, input.change.files, f);
    } else {
      ApplyFollowsPatch(tree, input.change.files);
      PatchOutside(tree.files, input.change.files, f.path);
      AppliedMetItsBase(ApplyFiles(tree, input.change.files).value, input.tests.files, f);
    }
    assert ValidEntry(f);
    assert DigestOf(Get(tree.files, f.path)) == f.baseDigest;
  }

  // A marker records a tree that its own artifacts determine, and the paths that differ from the base,
  // of which there are at most as many as its validator allows.
  ghost predicate SoundMarker(commits: map<Commit, Files>, candidate: Candidate)
  {
    && candidate.revision.commit in commits
    && HasResults(candidate.change.files) && HasResults(candidate.tests.files)
    && candidate.tree == ExpectedTree(commits[candidate.revision.commit], candidate.change, candidate.tests)
    && |candidate.changedPaths| <= MAX_CHANGED_FILES
    && forall f | f in candidate.change.files || f in candidate.tests.files :: f.path in candidate.changedPaths
  }

  // What the two applications need: no refusal, one after the other.
  predicate Applies(tree: Tree, change: ChangeSet, tests: ChangeSet)
    requires HasResults(change.files) && HasResults(tests.files)
  {
    ApplyFiles(tree, change.files).Ok? && ApplyFiles(ApplyFiles(tree, change.files).value, tests.files).Ok?
  }

  function Count(input: Input): nat
  {
    |input.change.files| + |input.tests.files|
  }

  // ---- a manifest that applies changes every path it lists ----

  lemma {:induction false} AppliedDiffers(tree: Tree, files: seq<ChangedFile>, f: ChangedFile)
    requires HasResults(files) && DistinctPaths(files) && ApplyFiles(tree, files).Ok? && f in files && ValidEntry(f)
    ensures Get(tree.files, f.path) != if f.action == Delete then None else f.resultContent
    decreases |files|
  {
    var first, rest := files[0], files[1..];
    assert first in files;
    if f != first {
      assert f in rest;
      var i :| 0 <= i < |rest| && rest[i] == f;
      assert files[i + 1] == f && first.path != f.path;
      forall j, k | 0 <= j < k < |rest| ensures rest[j].path != rest[k].path {
        assert files[j + 1].path != files[k + 1].path;
      }
      AppliedDiffers(ApplyFile(tree, first).value, rest, f);
    }
  }

  // All the paths of the two manifests.
  function ListedPaths(input: Input): seq<Path>
  {
    PathsOf(input.tests.files) + PathsOf(input.change.files)
  }

  // On a worktree that is exactly the base, each listed path ends up different from the base.
  lemma ListedPathsDiffer(tree: Tree, input: Input, p: Path)
    requires AcceptableInput(input) && HasResults(input.change.files) && HasResults(input.tests.files)
    requires WellFormed(tree) && Applies(tree, input.change, input.tests)
    requires DisjointPaths(input.tests.files, input.change.files) && p in ListedPaths(input)
    ensures Get(ExpectedTree(tree.files, input.change, input.tests), p) != Get(tree.files, p)
  {
    AcceptableHasResults(input.tests.files);
    AcceptableHasResults(input.change.files);
    ExpectedTreeAt(tree.files, input.change, input.tests);
    if p in PathsOf(input.change.files) {
      var i :| 0 <= i < |input.change.files| && input.change.files[i].path == p;
      AppliedDiffers(tree, input.change.files, input.change.files[i]);
    } else {
      assert p in PathsOf(input.tests.files);
      var i :| 0 <= i < |input.tests.files| && input.tests.files[i].path == p;
      ApplyFollowsPatch(tree, input.change.files);
      PatchOutside(tree.files, input.change.files, p);
      AppliedDiffers(ApplyFiles(tree, input.change.files).value, input.tests.files, input.tests.files[i]);
    }
  }

  lemma ListedPathsDistinct(input: Input)
    requires AcceptableInput(input) && DisjointPaths(input.tests.files, input.change.files)
    ensures forall i, j | 0 <= i < j < |ListedPaths(input)| :: ListedPaths(input)[i] != ListedPaths(input)[j]
  {
    AcceptableHasResults(input.tests.files);
    AcceptableHasResults(input.change.files);
    var paths, n := ListedPaths(input), |input.tests.files|;
    forall i, j | 0 <= i < j < |paths| ensures paths[i] != paths[j] {
      if i < n && n <= j {
        assert input.tests.files[i] in input.tests.files && input.change.files[j - n] in input.change.files;
      }
    }
  }

  lemma {:induction false} DistinctFit(paths: seq<Path>, others: seq<Path>)
    requires forall i, j | 0 <= i < j < |paths| :: paths[i] != paths[j]
    requires forall p | p in paths :: p in others
    ensures |paths| <= |others|
    decreases |paths|
  {
    if paths != [] {
      var p, rest := paths[0], paths[1..];
      assert p in paths;
      var k :| 0 <= k < |others| && others[k] == p;
      var left := others[..k] + others[k + 1..];
      forall q | q in rest ensures q in left {
        var i :| 0 <= i < |rest| && rest[i] == q;
        assert paths[i + 1] == q && q != p && q in paths;
        var j :| 0 <= j < |others| && others[j] == q;
        assert q == left[if j < k then j else j - 1];
      }
      forall i, j | 0 <= i < j < |rest| ensures rest[i] != rest[j] {
        assert paths[i + 1] != paths[j + 1];
      }
      DistinctFit(rest, left);
    }
  }

  // No recorded candidate of this base can have the tree of inputs that list too many paths.
  lemma TooManyIsNoCandidate(commits: map<Commit, Files>, candidate: Candidate, tree: Tree, input: Input)
    requires SoundMarker(commits, candidate) && tree.files == commits[candidate.revision.commit] && WellFormed(tree)
    requires AcceptableInput(input) && HasResults(input.change.files) && HasResults(input.tests.files)
    requires Applies(tree, input.change, input.tests) && DisjointPaths(input.tests.files, input.change.files)
    requires Count(input) > MAX_CHANGED_FILES
    ensures candidate.tree != ExpectedTree(tree.files, input.change, input.tests)
  {
    if candidate.tree == ExpectedTree(tree.files, input.change, input.tests) {
      forall p | p in ListedPaths(input) ensures p in candidate.changedPaths {
        ListedPathsDiffer(tree, input, p);
        if p !in candidate.changedPaths {
          PatchOutside(tree.files, candidate.change.files, p);
          PatchOutside(Patch(tree.files, candidate.change.files), candidate.tests.files, p);
        }
      }
      ListedPathsDistinct(input);
      DistinctFit(ListedPaths(input), candidate.changedPaths);
    }
  }

  // git restore --source=base --staged --worktree
  function RestorePaths(files: Files, base: Files, paths: seq<Path>): (r: Files)
    ensures forall p :: Get(r, p) == if p in paths then Get(base, p) else Get(files, p)
  {
    map p | p in files.Keys + base.Keys && (if p in paths then p in base else p in files) ::
      if p in paths then base[p] else files[p]
  }

  // Restoring the changed paths of a recorded candidate takes its tree back to the base.
  lemma RestoreUndoesCandidate(commits: map<Commit, Files>, candidate: Candidate, worktree: Files)
    requires SoundMarker(commits, candidate) && Matches(worktree, candidate.tree)
    ensures var base := commits[candidate.revision.commit];
      && RestorePaths(candidate.tree, base, candidate.changedPaths) == base
      && Matches(RestorePaths(worktree, base, candidate.changedPaths), base)
  {
    var base := commits[candidate.revision.commit];
    forall p | p !in candidate.changedPaths ensures Get(candidate.tree, p) == Get(base, p) {
      PatchOutside(base, candidate.change.files, p);
      PatchOutside(Patch(base, candidate.change.files), candidate.tests.files, p);
    }
    SameGetSameFiles(RestorePaths(candidate.tree, base, candidate.changedPaths), base);
    var restored := RestorePaths(worktree, base, candidate.changedPaths);
    forall p | p in base ensures Get(restored, p) == Some(base[p]) {
      assert Get(candidate.tree, p) == Get(base, p) || p in candidate.changedPaths;
    }
    forall p | p in restored && p !in base ensures Tolerated(p) {
      assert Get(restored, p) == Get(worktree, p) && Get(candidate.tree, p) == Get(base, p);
    }
  }
}
