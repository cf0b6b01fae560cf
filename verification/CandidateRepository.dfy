/**
  The repository object candidate.prepare works on, and any sequence of preparations over it.
*/
module CandidateRepository {
  import opened Wrappers
  import opened Paths
  import opened FileTree
  import opened Manifest
  import opened CandidatePrepare

  class Repository {
    const commits: map<Commit, Files>
    var head: Commit
    var branch: string
    var index: Files
    var worktree: Tree
    var markers: map<string, Candidate>
    var budget: nat

    // The only thing that has to hold between calls: every recorded marker is sound.  HEAD, branch,
    // index and worktree may be anything.
    ghost predicate Sound()
      reads this
    {
      WellFormed(worktree) && forall k | k in markers :: SoundMarker(commits, markers[k])
    }

    constructor (commits: map<Commit, Files>, head: Commit, branch: string, index: Files, worktree: Tree)
      requires WellFormed(worktree)
      ensures Sound() && this.commits == commits && markers == map[]
    {
      this.commits := commits;
      this.head, this.branch, this.index, this.worktree := head, branch, index, worktree;
      this.markers := map[];
      this.budget := 0;
    }

    // One external effect; false when the call stops here.
    method Spend() returns (go: bool)
      modifies this`budget
      ensures go <==> old(budget) > 0
      ensures budget == if go then old(budget) - 1 else 0
    {
      if budget == 0 {
        return false;
      }
      budget := budget - 1;
      return true;
    }

    function CleanBase(base: Commit): bool
      reads this
    {
      base in commits && head == base && index == commits[base] && Matches(worktree.files, index)
    }

    // verifyPreparedWorkspace
    function StillPrepared(candidate: Candidate): bool
      reads this
    {
      branch == candidate.branch && index == candidate.tree && Matches(worktree.files, index)
    }

    // No preparation from this commit is possible any more: the checkout is neither clean nor what a
    // recorded candidate of the commit left.
    ghost predicate Stuck(base: Commit)
      reads this
    {
      && head == base && base in commits && !CleanBase(base)
      && forall k | k in markers && markers[k].revision.commit == base :: !StillPrepared(markers[k])
    }

    // applyChangedFiles: worktree, then index, file by file.
    method ApplyChangedFiles(files: seq<ChangedFile>) returns (done: bool)
      requires Sound() && HasResults(files)
      modifies this`worktree, this`index, this`budget
      ensures Sound()
      ensures done ==> ApplyFiles(old(worktree), files) == Ok(worktree)
      ensures done ==> index == Patch(old(index), files)
      ensures done <==> ApplyFiles(old(worktree), files).Ok? && 2 * |files| <= old(budget)
      ensures done ==> budget == old(budget) - 2 * |files|
      // a stale manifest is refused: each entry met the content that its base digest names
      ensures done && DistinctPaths(files) ==> forall f | f in files ::
        DigestOf(Get(old(worktree).files, f.path)) == if f.action == Add then AbsentDigest else f.baseDigest
    {
      for i := 0 to |files|
        invariant WellFormed(worktree)
        invariant ApplyFiles(worktree, files[i..]) == ApplyFiles(old(worktree), files)
        invariant Patch(index, files[i..]) == Patch(old(index), files)
        invariant budget == old(budget) - 2 * i
      {
        var file := files[i];
        assert file in files && files[i..][0] == file && files[i..][1..] == files[i + 1..];
        var go := ApplyChangedFile(file);
        if !go {
          return false;
        }
      }
      assert files[|files|..] == [];
      forall f | f in files && DistinctPaths(files)
        ensures DigestOf(Get(old(worktree).files, f.path)) == if f.action == Add then AbsentDigest else f.baseDigest
      {
        AppliedMetItsBase(old(worktree), files, f);
      }
      return true;
    }

    // One entry of it.
    method ApplyChangedFile(file: ChangedFile) returns (done: bool)
      requires Sound() && HasResults([file])
      modifies this`worktree, this`index, this`budget
      ensures Sound()
      ensures done <==> ApplyFile(old(worktree), file).Ok? && old(budget) >= 2
      ensures done ==> worktree == ApplyFile(old(worktree), file).value && budget == old(budget) - 2
      ensures done && file.action == Delete ==> index == old(index) - {file.path}
      ensures done && file.action != Delete ==> index == old(index)[file.path := file.resultContent.value]
    {
      assert file in [file];
      var applied := ApplyFile(worktree, file);
      if applied.Refused? {
        return false;
      }
      var go := Spend();
      if !go {
        return false;
      }
      worktree := applied.value;
      go := Spend();
      if !go {
        return false;
      }
      if file.path in worktree.files {
        index := index[file.path := worktree.files[file.path]];
      } else {
        index := index - {file.path};
      }
      return true;
    }

    // restoreCandidateBase: succeed only on a clean base, or by undoing one recorded candidate.
    method RestoreCandidateBase(base: Commit) returns (done: bool)
      requires Sound()
      modifies this`worktree, this`index, this`budget
      ensures Sound()
      ensures done ==> CleanBase(base)
      ensures done && !old(CleanBase(base)) ==>
        exists k | k in markers && markers[k].revision.commit == base :: old(StillPrepared(markers[k]))
      ensures old(CleanBase(base)) ==> done && budget == old(budget)
      ensures old(CleanBase(base)) || !done ==> worktree == old(worktree) && index == old(index)
      // a refusal has one of these reasons
      ensures !done ==>
        || old(head != base || base !in commits || budget == 0)
        || (exists k | k in markers && old(StillPrepared(markers[k])) :: !Restorable(old(worktree), markers[k]))
        || (forall k | k in markers && markers[k].revision.commit == base ::
              old(StillPrepared(markers[k])) ==> markers[k].changedPaths == [])
    {
      if CleanBase(base) {
        return true;
      }
      if head != base || base !in commits {
        return false;
      }
      var left := markers.Keys;
      while left != {}
        invariant left <= markers.Keys
        invariant worktree == old(worktree) && index == old(index) && budget == old(budget)
        invariant forall k | k in markers && k !in left && markers[k].revision.commit == base ::
          StillPrepared(markers[k]) ==> markers[k].changedPaths == []
        decreases left
      {
        var key :| key in left;
        left := left - {key};
        var previous := markers[key];
        if previous.revision.commit == base && StillPrepared(previous) && previous.changedPaths != [] {
          done := UndoCandidate(previous);
          return;
        }
      }
      return false;
    }

    // The restored files leave room for each other's directories.
    predicate Restorable(tree: Tree, candidate: Candidate)
      reads this
    {
      candidate.revision.commit in commits &&
      var files := RestorePaths(tree.files, commits[candidate.revision.commit], candidate.changedPaths);
      ParentsOfAll(files.Keys) !! files.Keys
    }

    // git restore of the recorded paths; when it goes through, the final check always passes.
    method UndoCandidate(candidate: Candidate) returns (done: bool)
      requires Sound() && SoundMarker(commits, candidate) && StillPrepared(candidate)
      requires head == candidate.revision.commit
      modifies this`worktree, this`index, this`budget
      ensures Sound()
      ensures done ==> CleanBase(candidate.revision.commit)
      ensures done <==> old(budget) > 0 && old(Restorable(worktree, candidate))
      ensures !done ==> worktree == old(worktree) && index == old(index)
    {
      var base := candidate.revision.commit;
      var files := RestorePaths(worktree.files, commits[base], candidate.changedPaths);
      var needed := ParentsOfAll(files.Keys);
      var go := Spend();
      if !go || needed * files.Keys != {} {
        return false;
      }
      // Emptied directories may or may not be removed with their last file.
      assert MayRemain({}, worktree, files);
      var kept :| MayRemain(kept, worktree, files);
      RestoreUndoesCandidate(commits, candidate, worktree.files);
      RestoredTree(worktree, files, kept, needed);
      index := RestorePaths(index, commits[base], candidate.changedPaths);
      worktree := Tree(files, kept + needed);
      return CleanBase(base);
    }

    method Run(input: Input) returns (result: Result)
      requires Sound()
      modifies this`head, this`branch, this`index, this`worktree, this`markers, this`budget
      ensures Sound()
      // a success reports the tree its artifacts determine, and the workspace holds it
      ensures result.Prepared? ==>
        && AcceptableInput(input) && input.revision.commit in commits
        && HasResults(input.change.files) && HasResults(input.tests.files)
        && result.candidate.tree == ExpectedTree(commits[input.revision.commit], input.change, input.tests)
        && index == result.candidate.tree && Matches(worktree.files, index) && branch == input.branch
      ensures result.Prepared? ==>
        && (forall p | p in index :: Get(worktree.files, p) == Some(index[p]))
        && (forall p | p in worktree.files && p !in index :: "attempts/" <= p || ".sovereign/" <= p)
        && (input.key !in old(markers) ==> head == input.revision.commit)
      // a success is recorded under its key; no other key is touched, and no key changes its candidate
      ensures result.Prepared? ==> input.key in markers && markers[input.key] == result.candidate
      ensures forall k | k in old(markers) :: k in markers && markers[k] == old(markers)[k]
      ensures markers.Keys <= old(markers).Keys + {input.key}
      ensures !result.Prepared? ==> markers == old(markers)
      // a first success also means the two manifests were disjoint and small enough together
      ensures result.Prepared? && input.key !in old(markers) ==>
        DisjointPaths(input.tests.files, input.change.files)
          && |input.tests.files| + |input.change.files| <= MAX_CHANGED_FILES
      // and nothing goes in that is not well made, or stale
      ensures result.Prepared? ==> WellMade(input)
      ensures result.Prepared? && input.key !in old(markers) ==> AllMeetBase(commits[input.revision.commit], input)
      // from a clean base, with no stop: exactly then it goes through
      ensures old(FirstTry(input)) ==> (result.Prepared? <==> GoesThrough(old(worktree), input))
      // a known key answers its candidate exactly when the inputs are its own and the workspace still holds it
      ensures AcceptableInput(input) && input.revision.commit in commits && input.key in old(markers) ==>
        (result.Prepared? <==>
           SameInputs(old(markers)[input.key], input) && old(StillPrepared(markers[input.key])))
      // too many paths together: refused with both manifests applied, and stuck from then on
      ensures old(FirstTry(input) && worktree.files == commits[input.revision.commit]) ==>
        TooMany(old(worktree), input) ==> result == Rejected && Stuck(input.revision.commit)
      ensures old(Stuck(input.revision.commit)) ==> !result.Prepared? && Stuck(input.revision.commit)
      // a key belongs to one set of inputs for good
      ensures input.key in old(markers) && !SameInputs(old(markers)[input.key], input) ==> result == Rejected
    {
      AcceptableIffWellMade(input);
      if !AcceptableInput(input) || input.revision.commit !in commits {
        return Rejected;
      }
      AcceptableHasResults(input.tests.files);
      AcceptableHasResults(input.change.files);
      if input.key in markers {
        var candidate := markers[input.key];
        if SameInputs(candidate, input) && StillPrepared(candidate) {
          return Prepared(candidate);
        }
        return Rejected;
      }
      result := PrepareFirst(input);
    }

    // A key without a marker: back to the clean base, the branch, then the candidate.
    method PrepareFirst(input: Input) returns (result: Result)
      requires Sound() && AcceptableInput(input) && input.revision.commit in commits && input.key !in markers
      requires HasResults(input.change.files) && HasResults(input.tests.files)
      modifies this`branch, this`index, this`worktree, this`markers, this`budget
      ensures Sound()
      ensures result.Prepared? ==>
        && result.candidate.tree == ExpectedTree(commits[input.revision.commit], input.change, input.tests)
        && SameInputs(result.candidate, input) && StillPrepared(result.candidate)
        && markers == old(markers)[input.key := result.candidate]
        && DisjointPaths(input.tests.files, input.change.files) && Count(input) <= MAX_CHANGED_FILES
        && AllMeetBase(commits[input.revision.commit], input) && head == input.revision.commit
      ensures !result.Prepared? ==> markers == old(markers)
      ensures old(FirstTry(input)) ==> (result.Prepared? <==> GoesThrough(old(worktree), input))
      ensures old(FirstTry(input) && worktree.files == commits[input.revision.commit]) ==>
        TooMany(old(worktree), input) ==> result == Rejected && Stuck(input.revision.commit)
      ensures old(Stuck(input.revision.commit)) ==> !result.Prepared? && Stuck(input.revision.commit)
    {
      ghost var tree := worktree;
      var restored := RestoreCandidateBase(input.revision.commit);
      if !restored {
        return Stopped;
      }
      var go := Spend();
      if !go {
        return Stopped;
      }
      branch := input.branch;
      result := BuildDisjoint(input);
      if old(FirstTry(input) && worktree.files == commits[input.revision.commit]) && TooMany(tree, input) {
        TooManyIsStuck(input, tree);
      }
    }

    method BuildDisjoint(input: Input) returns (result: Result)
      requires Sound() && AcceptableInput(input) && CleanBase(input.revision.commit)
      requires HasResults(input.change.files) && HasResults(input.tests.files)
      requires branch == input.branch && input.key !in markers
      modifies this`index, this`worktree, this`markers, this`budget
      ensures Sound()
      ensures result.Prepared? ==>
        && result.candidate.tree == ExpectedTree(commits[input.revision.commit], input.change, input.tests)
        && SameInputs(result.candidate, input) && StillPrepared(result.candidate)
        && markers == old(markers)[input.key := result.candidate]
        && DisjointPaths(input.tests.files, input.change.files) && Count(input) <= MAX_CHANGED_FILES
        && AllMeetBase(commits[input.revision.commit], input)
      ensures !result.Prepared? ==> markers == old(markers)
      ensures old(budget) > 2 * Count(input) ==> (result.Prepared? <==> GoesThrough(old(worktree), input))
      ensures old(budget) > 2 * Count(input) && TooMany(old(worktree), input) ==>
        result == Rejected && index == ExpectedTree(commits[input.revision.commit], input.change, input.tests)
    {
      var disjoint := EnsureDisjoint(input.tests.files, input.change.files);
      if !disjoint {
        return Rejected;
      }
      result := Build(input);
    }

    lemma TooManyIsStuck(input: Input, tree: Tree)
      requires Sound() && AcceptableInput(input) && WellFormed(tree) && TooMany(tree, input)
      requires head == input.revision.commit && head in commits && tree.files == commits[head]
      requires index == ExpectedTree(tree.files, input.change, input.tests)
      ensures Stuck(head)
    {
      var p := ListedPaths(input)[0];
      ListedPathsDiffer(tree, input, p);
      forall k | k in markers && markers[k].revision.commit == head ensures !StillPrepared(markers[k]) {
        TooManyIsNoCandidate(commits, markers[k], tree, input);
      }
    }

    // A first preparation on a clean base that no stop interrupts.
    ghost predicate FirstTry(input: Input)
      reads this
    {
      && AcceptableInput(input) && CleanBase(input.revision.commit) && input.key !in markers
      && budget >= 2 * Count(input) + 2
    }

    // From the clean base: both manifests, write-tree, marker.
    method Build(input: Input) returns (result: Result)
      requires Sound() && AcceptableInput(input) && CleanBase(input.revision.commit)
      requires HasResults(input.change.files) && HasResults(input.tests.files)
      requires branch == input.branch && input.key !in markers
      requires DisjointPaths(input.tests.files, input.change.files)
      modifies this`index, this`worktree, this`markers, this`budget
      ensures Sound()
      ensures result.Prepared? ==>
        && result.candidate.tree == ExpectedTree(commits[input.revision.commit], input.change, input.tests)
        && SameInputs(result.candidate, input) && StillPrepared(result.candidate)
        && markers == old(markers)[input.key := result.candidate] && Count(input) <= MAX_CHANGED_FILES
        && AllMeetBase(commits[input.revision.commit], input)
      ensures !result.Prepared? ==> markers == old(markers)
      ensures old(budget) > 2 * Count(input) ==> (result.Prepared? <==> GoesThrough(old(worktree), input))
      ensures old(budget) > 2 * Count(input) && TooMany(old(worktree), input) ==>
        result == Rejected && index == ExpectedTree(commits[input.revision.commit], input.change, input.tests)
    {
      ghost var tree, base := worktree, commits[input.revision.commit];
      var applied := ApplyBoth(input);
      if !applied {
        return Stopped;
      }
      forall f | f in input.change.files || f in input.tests.files ensures MeetsBase(base, f) {
        AppliedMeetBase(tree, base, input, f);
      }
      result := Record(input);
    }

    method ApplyBoth(input: Input) returns (done: bool)
      requires Sound() && CleanBase(input.revision.commit)
      requires HasResults(input.change.files) && HasResults(input.tests.files)
      modifies this`index, this`worktree, this`budget
      ensures Sound()
      ensures done <==> Applies(old(worktree), input.change, input.tests) && 2 * Count(input) <= old(budget)
      ensures done ==>
        && budget == old(budget) - 2 * Count(input)
        && index == ExpectedTree(commits[input.revision.commit], input.change, input.tests)
        && Matches(worktree.files, index)
    {
      ghost var base, tree0 := commits[input.revision.commit], worktree;
      done := ApplyChangedFiles(input.change.files);
      if !done {
        return;
      }
      ghost var tree1 := worktree;
      done := ApplyChangedFiles(input.tests.files);
      if done {
        MatchesAfterApply(tree0, base, input.change.files);
        MatchesAfterApply(tree1, Patch(base, input.change.files), input.tests.files);
      }
    }

    // The candidate is validated and recorded.
    method Record(input: Input) returns (result: Result)
      requires Sound() && AcceptableInput(input) && input.revision.commit in commits
      requires HasResults(input.change.files) && HasResults(input.tests.files)
      requires branch == input.branch && input.key !in markers
      requires index == ExpectedTree(commits[input.revision.commit], input.change, input.tests)
      requires Matches(worktree.files, index)
      modifies this`markers, this`budget
      ensures Sound()
      ensures result.Prepared? ==>
        && result.candidate.tree == index && SameInputs(result.candidate, input) && StillPrepared(result.candidate)
        && markers == old(markers)[input.key := result.candidate]
      ensures !result.Prepared? ==> markers == old(markers)
      ensures result.Prepared? <==> Count(input) <= MAX_CHANGED_FILES && old(budget) > 0
      ensures Count(input) > MAX_CHANGED_FILES ==> result == Rejected
    {
      var changedPaths := ListedPaths(input);
      if |changedPaths| > MAX_CHANGED_FILES {
        return Rejected;
      }
      var all := set p | p in changedPaths;
      SetOfFits(changedPaths);
      var sorted := SortPaths(all);
      var candidate := Candidate(input.revision, input.tests, input.change, branch, index, sorted);
      var go := Spend();
      if !go {
        return Stopped;
      }
      ListsEveryPath(input, sorted);
      markers := markers[input.key := candidate];
      return Prepared(candidate);
    }
  }

  lemma {:induction false} SetOfFits(paths: seq<Path>)
    ensures |set p | p in paths| <= |paths|
  {
    if paths != [] {
      SetOfFits(paths[1..]);
      assert (set p | p in paths) == (set p | p in paths[1..]) + {paths[0]};
    }
  }

  // Disjoint manifests that apply one after the other.
  ghost predicate FitsTogether(tree: Tree, input: Input)
  {
    && HasResults(input.change.files) && HasResults(input.tests.files)
    && DisjointPaths(input.tests.files, input.change.files) && Applies(tree, input.change, input.tests)
  }

  ghost predicate GoesThrough(tree: Tree, input: Input)
  {
    FitsTogether(tree, input) && Count(input) <= MAX_CHANGED_FILES
  }

  ghost predicate TooMany(tree: Tree, input: Input)
  {
    FitsTogether(tree, input) && Count(input) > MAX_CHANGED_FILES
  }

  predicate SameInputs(candidate: Candidate, input: Input)
  {
    && candidate.revision == input.revision && candidate.tests == input.tests && candidate.change == input.change
    && candidate.branch == input.branch
  }

  lemma ListsEveryPath(input: Input, paths: seq<Path>)
    requires forall p :: p in paths <==> p in PathsOf(input.tests.files) + PathsOf(input.change.files)
    ensures forall f | f in input.change.files || f in input.tests.files :: f.path in paths
  {
    forall f | f in input.change.files || f in input.tests.files ensures f.path in paths {
      if f in input.tests.files {
        var i :| 0 <= i < |input.tests.files| && input.tests.files[i] == f;
        assert PathsOf(input.tests.files)[i] == f.path;
      } else {
        var i :| 0 <= i < |input.change.files| && input.change.files[i] == f;
        assert PathsOf(input.change.files)[i] == f.path;
      }
    }
  }

  function ParentsOfAll(paths: set<Path>): (dirs: set<Path>)
    ensures forall p | p in paths :: Parents(p) <= dirs
    ensures forall d | d in dirs :: exists p :: p in paths && d in Parents(p)
  {
    set p, i | p in paths && 0 <= i < |p| && p[i] == '/' :: p[..i]
  }

  predicate MayRemain(kept: set<Path>, tree: Tree, files: Files)
  {
    kept <= tree.dirs && kept !! files.Keys && forall d | d in kept :: Parents(d) <= kept
  }

  lemma RestoredTree(tree: Tree, files: Files, kept: set<Path>, needed: set<Path>)
    requires needed == ParentsOfAll(files.Keys) && needed * files.Keys == {} && MayRemain(kept, tree, files)
    ensures WellFormed(Tree(files, kept + needed))
  {
    forall p | p in files ensures p !in needed && p !in kept {
      assert p !in needed * files.Keys;
    }
    forall p | p in files.Keys + kept ensures Parents(p) <= kept + needed {
      if p in kept {
        assert Parents(p) <= kept;
      }
    }
    forall d | d in needed ensures Parents(d) <= needed {
      var p :| p in files.Keys && d in Parents(p);
      ParentsOfParents(p);
    }
  }

  // Applying the same files to worktree and index keeps them in step.
  lemma {:induction false} MatchesAfterApply(tree: Tree, index: Files, files: seq<ChangedFile>)
    requires HasResults(files) && ApplyFiles(tree, files).Ok? && Matches(tree.files, index)
    ensures Matches(ApplyFiles(tree, files).value.files, Patch(index, files))
    decreases |files|
  {
    if files != [] {
      var f := files[0];
      assert f in files;
      var next := if f.action == Delete then index - {f.path} else index[f.path := f.resultContent.value];
      MatchesAfterApply(ApplyFile(tree, f).value, next, files[1..]);
    }
  }

  // A success reports the tree of its own artifacts on its own base.
  ghost predicate Reports(commits: map<Commit, Files>, input: Input, result: Result)
  {
    result.Prepared? ==>
      && input.revision.commit in commits && HasResults(input.change.files) && HasResults(input.tests.files)
      && result.candidate.tree == ExpectedTree(commits[input.revision.commit], input.change, input.tests)
  }

  method PrepareOne(repository: Repository, input: Input, budget: nat, between: (Commit, string, Files, Tree))
      returns (result: Result)
    requires repository.Sound() && WellFormed(between.3)
    modifies repository
    ensures repository.Sound() && Reports(repository.commits, input, result)
  {
    repository.head, repository.branch, repository.index, repository.worktree :=
      between.0, between.1, between.2, between.3;
    repository.budget := budget;
    result := repository.Run(input);
  }

  // Whatever happens to the checkout between preparations, and wherever each of them stops, every
  // success reports the tree of its own artifacts.
  method PrepareAll(repository: Repository, inputs: seq<Input>, budgets: seq<nat>,
                    between: seq<(Commit, string, Files, Tree)>)
      returns (results: seq<Result>)
    requires repository.Sound() && |inputs| == |budgets| == |between|
    requires forall b | b in between :: WellFormed(b.3)
    modifies repository
    ensures repository.Sound() && |results| == |inputs|
    ensures forall i | 0 <= i < |results| :: Reports(repository.commits, inputs[i], results[i])
  {
    results := [];
    for i := 0 to |inputs|
      invariant repository.Sound() && |results| == i
      invariant forall j | 0 <= j < i :: Reports(repository.commits, inputs[j], results[j])
    {
      assert between[i] in between;
      var result := PrepareOne(repository, inputs[i], budgets[i], between[i]);
      results := results + [result];
    }
  }
}
