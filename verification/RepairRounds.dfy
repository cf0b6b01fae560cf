/**
  Test repair in rounds: a tester works over the bare base, or in a workspace seeded from the
  manifest of an earlier round.  However many rounds there are, the testers add no file, so their
  manifest never stands in the way of the developer's.
*/
module RepairRounds {
  import opened Wrappers
  import opened Paths
  import opened FileTree
  import opened Manifest
  import opened MutationPolicy
  import LineEndings
  import opened Overlay
  import opened ToolSession
  import opened ToolRuns
  import opened LostWrites
  import opened CandidatePrepare
  import opened RefinementSeeding
  import opened Pipeline
  import R = CandidateRepository

  // One round: where the tester starts, what it calls, and the manifest it leaves.
  datatype Round = Round(start: Workspace, t: ToolState, calls: seq<Call>, files: seq<ChangedFile>)

  ghost predicate SeededFrom(base: Tree, prior: seq<ChangedFile>, start: Workspace)
  {
    && ValidTestFiles(prior) && HasResults(prior)
    && Seed(Fresh(base, start.maxFileBytes), prior) == Ok(start)
  }

  // Round k starts over the bare base or from an earlier round, and its manifest is that of its run.
  ghost predicate IsRound(base: Tree, rounds: seq<Round>, k: nat)
    requires k < |rounds|
  {
    && (rounds[k].start == Fresh(base, rounds[k].start.maxFileBytes)
        || exists j :: 0 <= j < k && SeededFrom(base, rounds[j].files, rounds[k].start))
    && IsManifestOf(rounds[k].files, Tested(rounds[k].start, rounds[k].t, rounds[k].calls))
  }

  ghost predicate AreRounds(base: Tree, rounds: seq<Round>)
  {
    forall k | 0 <= k < |rounds| :: IsRound(base, rounds, k)
  }

  predicate AddsNothing(files: seq<ChangedFile>)
  {
    forall f | f in files :: f.action != Action.Add
  }

  // A tester's start without new files: valid, over this base, and only test paths touched.
  ghost predicate PlainStart(base: Tree, start: Workspace)
  {
    && ValidWorkspace(start) && start.base == base && TouchesOnlyTests(start)
    && start.overlay.files.Keys <= base.files.Keys
  }

  // Seeding from a manifest without additions stores no new file: the digests it checks first prove
  // that the base has each of them.
  lemma SeedingAddsNothing(base: Tree, prior: seq<ChangedFile>, start: Workspace)
    requires WellFormed(base) && AddsNothing(prior) && SeededFrom(base, prior, start)
    ensures PlainStart(base, start)
  {
    SortedAreDistinct(prior);
    SeedPlacesAll(Fresh(base, start.maxFileBytes), prior);
    SeededTouchesOnlyTests(base, start.maxFileBytes, prior, start);
    forall p | p in start.overlay.files ensures p in base.files {
      assert p in Kept(prior);
      var f :| f in prior && f.action != Action.Delete && f.path == p;
      ListedFileIsInBase(base, start.maxFileBytes, f);
    }
  }

  lemma ListedFileIsInBase(base: Tree, maxFileBytes: int, f: ChangedFile)
    requires WellFormed(base) && ValidEntry(f) && f.action != Action.Add
    requires Expected(Read(Fresh(base, maxFileBytes), f.path, 0)) == f.baseDigest
    ensures f.path in base.files
  {
    assert Read(Fresh(base, maxFileBytes), f.path, 0).Found?;
    assert Normal(f.path);
    ReadRefines(Fresh(base, maxFileBytes), f.path, 0);
  }

  lemma RunAddsNothing(base: Tree, round: Round)
    requires WellFormed(base) && PlainStart(base, round.start)
    requires IsManifestOf(round.files, Tested(round.start, round.t, round.calls))
    ensures AddsNothing(round.files)
    ensures var w := Tested(round.start, round.t, round.calls);
      ValidWorkspace(w) && w.base == base && OwnPathsOnly(w, true) && w.overlay.files.Keys <= base.files.Keys
  {
    var s := Session(round.start, round.t);
    RunKeepsWorkspace(TestPolicy, s, round.calls);
    RunTouchesOnlyTests(s, round.calls);
    var w := Run(TestPolicy, s, round.calls).w;
    forall f | f in round.files ensures f.action != Action.Add {
      if f.action == Action.Add {
        AddedIsNew(w, round.files, f);
      }
    }
  }

  // In every round the tester starts without new files and its manifest adds none.
  lemma {:induction false} RoundsAddNothing(base: Tree, rounds: seq<Round>, k: nat)
    requires WellFormed(base) && AreRounds(base, rounds) && k < |rounds|
    ensures PlainStart(base, rounds[k].start) && AddsNothing(rounds[k].files)
    decreases k
  {
    assert IsRound(base, rounds, k);
    if rounds[k].start != Fresh(base, rounds[k].start.maxFileBytes) {
      var j :| 0 <= j < k && SeededFrom(base, rounds[j].files, rounds[k].start);
      RoundsAddNothing(base, rounds, j);
      SeedingAddsNothing(base, rounds[j].files, rounds[k].start);
    }
    RunAddsNothing(base, rounds[k]);
  }

  // For any plan, any run of the developer and any number of test rounds: on a clean checkout both
  // manifests apply, and the tree holds the tester's view on test paths and the developer's view on
  // the others, outside the directories no listing shows.
  lemma RoundsAlwaysApply(base: Tree, maxFileBytes: int, actions: map<Path, Action>, developerStart: ToolState,
                          developerCalls: seq<Call>, rounds: seq<Round>, k: nat, change: ChangeSet, tests: ChangeSet)
    requires WellFormed(base) && AreRounds(base, rounds) && k < |rounds| && tests.files == rounds[k].files
    requires IsManifestOf(change.files, Developed(base, maxFileBytes, actions, developerStart, developerCalls))
    ensures HasResults(change.files) && HasResults(tests.files) && !Clash(change, tests)
    ensures ApplyFiles(base, change.files).Ok?
    ensures ApplyFiles(ApplyFiles(base, change.files).value, tests.files).Ok?
    ensures var developer := Developed(base, maxFileBytes, actions, developerStart, developerCalls);
      var tester := Tested(rounds[k].start, rounds[k].t, rounds[k].calls);
      var tree := ApplyFiles(ApplyFiles(base, change.files).value, tests.files).value.files;
      forall p | !Excluded(p) ::
        Get(tree, p) == if IsTestPath(p) then Get(View(tester), p) else Get(View(developer), p)
  {
    var d0 := Session(Fresh(base, maxFileBytes), developerStart);
    var developer := Run(PlanPolicy(actions), d0, developerCalls).w;
    var tester := Tested(rounds[k].start, rounds[k].t, rounds[k].calls);
    RunKeepsWorkspace(PlanPolicy(actions), d0, developerCalls);
    RunOwnsPaths(actions, d0, developerCalls);
    RoundsAddNothing(base, rounds, k);
    assert IsRound(base, rounds, k);
    RunAddsNothing(base, rounds[k]);
    PreparationNeverRefused(developer, tester, change, tests);
    PreparationRefusedIff(developer, tester, change, tests);
    AppliedIsCombined(developer, tester, change, tests);
    RecordedIsView(developer);
    RecordedIsView(tester);
  }

  // So a first preparation that no stop interrupts, on a checkout that is exactly the base, goes
  // through if and only if the two manifests list at most 128 files together.
  method PrepareRounds(repository: R.Repository, input: Input, base: Tree, maxFileBytes: int,
                       actions: map<Path, Action>, developerStart: ToolState, developerCalls: seq<Call>,
                       rounds: seq<Round>, k: nat)
      returns (result: Result)
    requires repository.Sound() && repository.FirstTry(input) && repository.worktree == base
    requires repository.commits[input.revision.commit] == base.files
    requires AreRounds(base, rounds) && k < |rounds| && input.tests.files == rounds[k].files
    requires IsManifestOf(input.change.files, Developed(base, maxFileBytes, actions, developerStart, developerCalls))
    modifies repository
    ensures result.Prepared? <==> Count(input) <= MAX_CHANGED_FILES
    ensures !result.Prepared? ==> result == Rejected && repository.Stuck(input.revision.commit)
    ensures result.Prepared? ==>
      var developer := Developed(base, maxFileBytes, actions, developerStart, developerCalls);
      var tester := Tested(rounds[k].start, rounds[k].t, rounds[k].calls);
      forall p | !Excluded(p) ::
        Get(result.candidate.tree, p) == if IsTestPath(p) then Get(View(tester), p) else Get(View(developer), p)
  {
    RoundsAlwaysApply(base, maxFileBytes, actions, developerStart, developerCalls, rounds, k, input.change,
                      input.tests);
    RoundsAreDisjoint(base, maxFileBytes, actions, developerStart, developerCalls, rounds, k, input.change,
                      input.tests);
    var tree := ApplyFiles(ApplyFiles(base, input.change.files).value, input.tests.files).value;
    ApplyFollowsPatch(base, input.change.files);
    ApplyFollowsPatch(ApplyFiles(base, input.change.files).value, input.tests.files);
    assert tree.files == ExpectedTree(base.files, input.change, input.tests);
    result := repository.Run(input);
  }

  lemma RoundsAreDisjoint(base: Tree, maxFileBytes: int, actions: map<Path, Action>, developerStart: ToolState,
                          developerCalls: seq<Call>, rounds: seq<Round>, k: nat, change: ChangeSet, tests: ChangeSet)
    requires WellFormed(base) && AreRounds(base, rounds) && k < |rounds| && tests.files == rounds[k].files
    requires IsManifestOf(change.files, Developed(base, maxFileBytes, actions, developerStart, developerCalls))
    ensures HasResults(change.files) && HasResults(tests.files) && DisjointPaths(tests.files, change.files)
  {
    RoundsAddNothing(base, rounds, k);
    assert IsRound(base, rounds, k);
    EndToEnd(base, maxFileBytes, actions, rounds[k].start, developerStart, developerCalls, rounds[k].t, rounds[k].calls,
             change, tests);
  }

  // ---- a test manifest that no tester made ----

  const NOTHING: Tree := Tree(map[], {})

  // The manifest that adds one empty file.
  function AddsEmpty(path: Path): seq<ChangedFile>
  {
    [ChangedFile(path, Action.Add, AbsentDigest, Sha256([]), Some([]))]
  }

  // Such a manifest may put a test below a path where the developer puts a file, say a/test_a and a:
  // seeded from it, preparation is refused although every check of the two agents' work passes.
  lemma ForeignTestsCanClash(p: Path, g: Path, maxFileBytes: int) returns (start: Workspace, calls: seq<Call>)
    requires Normal(p) && !IsTestPath(p) && !Excluded(p)
    requires Normal(g) && IsTestPath(g) && !Excluded(g) && RepositoryPath(g) && p in Parents(g)
    ensures SeededFrom(NOTHING, AddsEmpty(g), start) && IsManifestOf(AddsEmpty(g), Tested(start, EMPTY, []))
    ensures IsManifestOf(AddsEmpty(p), Developed(NOTHING, maxFileBytes, map[p := Action.Add], EMPTY, calls))
    ensures HasResults(AddsEmpty(p)) && HasResults(AddsEmpty(g)) && ApplyFiles(NOTHING, AddsEmpty(p)).Ok?
    ensures ApplyFiles(ApplyFiles(NOTHING, AddsEmpty(p)).value, AddsEmpty(g)).Refused?
  {
    start := EmptyFileSeeded(g, maxFileBytes);
    calls := EmptyFileCreated(p, maxFileBytes);
    var developer := Developed(NOTHING, maxFileBytes, map[p := Action.Add], EMPTY, calls);
    OneEmptyFile(developer, p);
    OneEmptyFile(start, g);
    assert Tested(start, EMPTY, []) == start;
    var change := CandidatePrepare.ChangeSet.ChangeSet("", "", "", AddsEmpty(p));
    var tests := change.(files := AddsEmpty(g));
    assert AddsEmpty(p)[0] in change.files && AddsEmpty(g)[0] in tests.files;
    assert Clash(change, tests);
    PreparationRefusedIff(developer, start, change, tests);
  }

  // Over nothing, a workspace that holds one empty file.
  ghost predicate HoldsEmpty(w: Workspace, path: Path)
  {
    ValidWorkspace(w) && w.base == NOTHING && w.tombstones == {} && w.overlay.files == map[path := []]
  }

  lemma OneEmptyFile(w: Workspace, path: Path)
    requires HoldsEmpty(w, path) && !Excluded(path)
    ensures IsManifestOf(AddsEmpty(path), w) && OwnPathsOnly(w, IsTestPath(path))
  {
    assert Recorded(w) == map[path := []];
    assert PathsOf(AddsEmpty(path)) == [path];
  }

  lemma EmptyFileSeeded(path: Path, maxFileBytes: int) returns (start: Workspace)
    requires Normal(path) && IsTestPath(path) && RepositoryPath(path)
    ensures SeededFrom(NOTHING, AddsEmpty(path), start) && HoldsEmpty(start, path)
  {
    var w := Fresh(NOTHING, maxFileBytes);
    var prior := AddsEmpty(path);
    WritesEmpty(w, path);
    start := Write(w, path, [], AbsentDigest).value.workspace;
    ReadRefines(w, path, 0);
    assert SeedFile(w, prior[0]) == Ok(start);
    assert prior[1..] == [];
    assert Seed(start, prior[1..]) == Ok(start);
    assert PathsOf(prior) == [path];
  }

  lemma WritesEmpty(w: Workspace, path: Path)
    requires w == Fresh(NOTHING, w.maxFileBytes) && Normal(path)
    ensures Write(w, path, [], AbsentDigest).Ok? && HoldsEmpty(Write(w, path, [], AbsentDigest).value.workspace, path)
    ensures !Blocked(w, path)
  {
    SmallTextIsStored([], LineEndings.Lf);
    WriteRefines(w, path, [], AbsentDigest);
    WrittenParts(w, path, [], AbsentDigest);
  }

  lemma EmptyFileCreated(path: Path, maxFileBytes: int) returns (calls: seq<Call>)
    requires Normal(path) && !IsTestPath(path)
    ensures HoldsEmpty(Developed(NOTHING, maxFileBytes, map[path := Action.Add], EMPTY, calls), path)
  {
    var listed: Session;
    calls, listed := ListsThenCreates(PlanPolicy(map[path := Action.Add]), NOTHING, maxFileBytes, path, []);
    CreatesEmpty(PlanPolicy(map[path := Action.Add]), listed, path);
  }

  lemma CreatesEmpty(policy: Policy, s: Session, path: Path)
    requires s.w == Fresh(NOTHING, s.w.maxFileBytes) && Normal(path) && ValidateCreate(policy, path)
    requires s.t.treeObserved && path !in s.t.treePaths
    ensures HoldsEmpty(Step(policy, s, CreateCall(path, [])).w, path)
  {
    WritesEmpty(s.w, path);
    CreateGoesThrough(policy, s, path, []);
  }
}
