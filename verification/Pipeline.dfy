/**
  End to end: a developer works under a plan, a tester under the test contract, both over the same
  base, and candidate preparation puts their manifests together.
*/
module Pipeline {
  import opened Wrappers
  import opened Utf8
  import opened Paths
  import opened FileTree
  import opened Manifest
  import opened MutationPolicy
  import opened Overlay
  import opened ToolSession
  import opened ToolRuns
  import opened LostWrites
  import opened CandidatePrepare
  import opened RefinementSeeding
  import R = CandidateRepository

  // Each path as the agent responsible for it recorded it.
  function Combined(developer: Workspace, tester: Workspace): (files: map<Path, Bytes>)
    ensures forall p :: Get(files, p) == if IsTestPath(p) then Get(Recorded(tester), p) else Get(Recorded(developer), p)
  {
    var d, t := Recorded(developer), Recorded(tester);
    map p | p in d.Keys + t.Keys && (if IsTestPath(p) then p in t else p in d) :: if IsTestPath(p) then t[p] else d[p]
  }

  // A session's workspace in which only paths of its own kind were changed.
  ghost predicate OwnPathsOnly(w: Workspace, tests: bool)
  {
    forall p | p in w.overlay.files.Keys + w.tombstones :: IsTestPath(p) == tests
  }

  lemma UnownedIsBase(w: Workspace, tests: bool)
    requires ValidWorkspace(w) && OwnPathsOnly(w, tests)
    ensures forall p | IsTestPath(p) != tests :: Get(Recorded(w), p) == Get(w.base.files, p)
  {}

  lemma ManifestPaths(w: Workspace, tests: bool, files: seq<ChangedFile>)
    requires ValidWorkspace(w) && OwnPathsOnly(w, tests) && IsManifestOf(files, w)
    ensures HasResults(files) && DistinctPaths(files) && forall f | f in files :: IsTestPath(f.path) == tests
  {
    UnownedIsBase(w, tests);
    forall f | f in files ensures IsTestPath(f.path) == tests && (f.action != Delete ==> f.resultContent.Some?) {
      assert Get(w.base.files, f.path) != Get(Recorded(w), f.path);
    }
  }

  // A listed path's entry is its recorded content; an unlisted path is as in the base.
  lemma ListedAsRecorded(w: Workspace, files: seq<ChangedFile>, p: Path)
    requires IsManifestOf(files, w)
    ensures forall f | f in files && f.path == p ::
      Get(Recorded(w), p) == if f.action == Delete then None else f.resultContent
    ensures (forall f | f in files :: f.path != p) ==> Get(Recorded(w), p) == Get(w.base.files, p)
  {
    if Get(Recorded(w), p) != Get(w.base.files, p) {
      assert p in PathsOf(files);
      var i :| 0 <= i < |files| && PathsOf(files)[i] == p;
      assert files[i] in files;
    }
  }

  // The tree a successful preparation reports is, path by path, what the responsible agent recorded.
  lemma ManifestsCombine(developer: Workspace, tester: Workspace, change: ChangeSet, tests: ChangeSet)
    requires ValidWorkspace(developer) && ValidWorkspace(tester) && developer.base == tester.base
    requires OwnPathsOnly(developer, false) && OwnPathsOnly(tester, true)
    requires IsManifestOf(change.files, developer) && IsManifestOf(tests.files, tester)
    ensures HasResults(change.files) && HasResults(tests.files) && DisjointPaths(tests.files, change.files)
    ensures ExpectedTree(developer.base.files, change, tests) == Combined(developer, tester)
  {
    ManifestPaths(developer, false, change.files);
    ManifestPaths(tester, true, tests.files);
    var tree := ExpectedTree(developer.base.files, change, tests);
    forall p ensures Get(tree, p) == Get(Combined(developer, tester), p) {
      CombineAt(developer, tester, change, tests, p);
    }
    SameGetSameFiles(tree, Combined(developer, tester));
  }

  lemma CombineAt(developer: Workspace, tester: Workspace, change: ChangeSet, tests: ChangeSet, p: Path)
    requires HasResults(change.files) && DistinctPaths(change.files)
    requires HasResults(tests.files) && DistinctPaths(tests.files)
    requires forall f | f in change.files :: !IsTestPath(f.path)
    requires forall f | f in tests.files :: IsTestPath(f.path)
    requires IsManifestOf(change.files, developer) && IsManifestOf(tests.files, tester)
    requires developer.base == tester.base
    ensures Get(ExpectedTree(developer.base.files, change, tests), p) ==
      if IsTestPath(p) then Get(Recorded(tester), p) else Get(Recorded(developer), p)
  {
    ExpectedTreeAt(developer.base.files, change, tests);
    ListedAsRecorded(developer, change.files, p);
    ListedAsRecorded(tester, tests.files, p);
  }

  // The workspace after a run of the developer's tools on a fresh overlay, under a plan.
  ghost function Developed(base: Tree, maxFileBytes: int, actions: map<Path, Action>, t: ToolState,
                           calls: seq<Call>): Workspace
  {
    Run(PlanPolicy(actions), Session(Fresh(base, maxFileBytes), t), calls).w
  }

  // The workspace after a run of the tester's tools.
  ghost function Tested(start: Workspace, t: ToolState, calls: seq<Call>): Workspace
  {
    Run(TestPolicy, Session(start, t), calls).w
  }

  // Under any plan the developer's tools change no test path.
  lemma {:induction false} RunOwnsPaths(actions: map<Path, Action>, s: Session, calls: seq<Call>)
    requires ValidWorkspace(s.w) && OwnPathsOnly(s.w, false)
    ensures OwnPathsOnly(Run(PlanPolicy(actions), s, calls).w, false)
  {
    if calls != [] {
      var n := |calls| - 1;
      RunOwnsPaths(actions, s, calls[..n]);
      RunKeepsWorkspace(PlanPolicy(actions), s, calls[..n]);
      var effect := StepEffect(PlanPolicy(actions), Run(PlanPolicy(actions), s, calls[..n]), calls[n]);
    }
  }

  // For any run of the developer's tools under any plan and any run of the tester's tools,
  // also one that repairs earlier tests, with crashes between and inside their file operations: the
  // prepared tree holds the tester's view on every test path and the developer's view on every other
  // path, outside the directories no listing shows.
  lemma EndToEnd(base: Tree, maxFileBytes: int, actions: map<Path, Action>, start: Workspace,
                 developerStart: ToolState, developerCalls: seq<Call>, testerStart: ToolState, testerCalls: seq<Call>,
                 change: ChangeSet, tests: ChangeSet)
    requires WellFormed(base)
    requires ValidWorkspace(start) && start.base == base && TouchesOnlyTests(start)
    requires IsManifestOf(change.files, Developed(base, maxFileBytes, actions, developerStart, developerCalls))
    requires IsManifestOf(tests.files, Tested(start, testerStart, testerCalls))
    ensures HasResults(change.files) && HasResults(tests.files) && DisjointPaths(tests.files, change.files)
    ensures var developer := Developed(base, maxFileBytes, actions, developerStart, developerCalls);
      var tester := Tested(start, testerStart, testerCalls);
      var tree := ExpectedTree(base.files, change, tests);
      && tree == Combined(developer, tester)
      && forall p | !Excluded(p) ::
           Get(tree, p) == if IsTestPath(p) then Get(View(tester), p) else Get(View(developer), p)
  {
    var d0, t0 := Session(Fresh(base, maxFileBytes), developerStart), Session(start, testerStart);
    RunKeepsWorkspace(PlanPolicy(actions), d0, developerCalls);
    RunKeepsWorkspace(TestPolicy, t0, testerCalls);
    RunOwnsPaths(actions, d0, developerCalls);
    RunTouchesOnlyTests(t0, testerCalls);
    var developer := Run(PlanPolicy(actions), d0, developerCalls).w;
    var tester := Run(TestPolicy, t0, testerCalls).w;
    ManifestsCombine(developer, tester, change, tests);
    RecordedIsView(developer);
    RecordedIsView(tester);
  }

  // When neither the plan nor the test contract lets an agent write below a skipped directory, this
  // holds at every path.
  lemma EndToEndEverywhere(base: Tree, maxFileBytes: int, actions: map<Path, Action>, start: Workspace,
                           developerStart: ToolState, developerCalls: seq<Call>,
                           testerStart: ToolState, testerCalls: seq<Call>, change: ChangeSet, tests: ChangeSet)
    requires WellFormed(base)
    requires ValidWorkspace(start) && start.base == base && TouchesOnlyTests(start)
    requires forall p | p in start.overlay.files :: !Excluded(p)
    requires forall p :: !CanBeLost(PlanPolicy(actions), base, maxFileBytes, p)
    requires forall p :: !CanBeLost(TestPolicy, base, start.maxFileBytes, p)
    requires IsManifestOf(change.files, Developed(base, maxFileBytes, actions, developerStart, developerCalls))
    requires IsManifestOf(tests.files, Tested(start, testerStart, testerCalls))
    ensures HasResults(change.files) && HasResults(tests.files) && DisjointPaths(tests.files, change.files)
    ensures var developer := Developed(base, maxFileBytes, actions, developerStart, developerCalls);
      var tester := Tested(start, testerStart, testerCalls);
      forall p :: Get(ExpectedTree(base.files, change, tests), p) ==
        if IsTestPath(p) then Get(View(tester), p) else Get(View(developer), p)
  {
    EndToEnd(base, maxFileBytes, actions, start, developerStart, developerCalls, testerStart, testerCalls, change,
             tests);
    NothingIsLost(PlanPolicy(actions), Session(Fresh(base, maxFileBytes), developerStart), developerCalls);
    NothingIsLost(TestPolicy, Session(start, testerStart), testerCalls);
  }

  // The same for the preparation itself, whatever the checkout looks like and wherever it stops: a
  // success reports the tester's view on test paths and the developer's view on the others.
  method PrepareFromSessions(repository: R.Repository, input: Input, base: Tree, maxFileBytes: int,
                             actions: map<Path, Action>, developerStart: ToolState, developerCalls: seq<Call>,
                             start: Workspace, testerStart: ToolState, testerCalls: seq<Call>)
      returns (result: Result)
    requires repository.Sound() && WellFormed(base)
    requires input.revision.commit in repository.commits ==> repository.commits[input.revision.commit] == base.files
    requires ValidWorkspace(start) && start.base == base && TouchesOnlyTests(start)
    requires IsManifestOf(input.change.files, Developed(base, maxFileBytes, actions, developerStart, developerCalls))
    requires IsManifestOf(input.tests.files, Tested(start, testerStart, testerCalls))
    modifies repository
    ensures result.Prepared? ==>
      var developer := Developed(base, maxFileBytes, actions, developerStart, developerCalls);
      var tester := Tested(start, testerStart, testerCalls);
      forall p | !Excluded(p) ::
        Get(result.candidate.tree, p) == if IsTestPath(p) then Get(View(tester), p) else Get(View(developer), p)
  {
    EndToEnd(base, maxFileBytes, actions, start, developerStart, developerCalls, testerStart, testerCalls,
             input.change, input.tests);
    result := repository.Run(input);
  }

  // A repair workspace seeded from earlier tests is such a start.
  lemma SeededTouchesOnlyTests(base: Tree, maxFileBytes: int, prior: seq<ChangedFile>, whole: Workspace)
    requires WellFormed(base) && ValidTestFiles(prior) && HasResults(prior)
    requires Seed(Fresh(base, maxFileBytes), prior) == Ok(whole)
    ensures ValidWorkspace(whole) && whole.base == base && TouchesOnlyTests(whole)
  {
    SortedAreDistinct(prior);
    SeedPlacesAll(Fresh(base, maxFileBytes), prior);
    forall p | p in whole.overlay.files.Keys + whole.tombstones ensures IsTestPath(p) {
      assert p in Kept(prior) + Dropped(prior);
    }
  }

  // A file one agent adds where a file the other agent adds needs a directory.
  predicate Clash(change: ChangeSet, tests: ChangeSet)
  {
    exists f, g | f in change.files && g in tests.files :: f.action == Add && g.action == Add &&
      (f.path in Parents(g.path) || g.path in Parents(f.path))
  }

  // On a clean checkout the developer's manifest always applies, and the tester's after it unless
  // the two clash.
  lemma PreparationRefusedIff(developer: Workspace, tester: Workspace, change: ChangeSet, tests: ChangeSet)
    requires ValidWorkspace(developer) && ValidWorkspace(tester) && developer.base == tester.base
    requires OwnPathsOnly(developer, false) && OwnPathsOnly(tester, true)
    requires IsManifestOf(change.files, developer) && IsManifestOf(tests.files, tester)
    ensures HasResults(change.files) && ApplyFiles(developer.base, change.files).Ok?
    ensures HasResults(tests.files)
    ensures ApplyFiles(ApplyFiles(developer.base, change.files).value, tests.files).Refused? <==> Clash(change, tests)
  {
    var base := developer.base;
    ManifestPaths(developer, false, change.files);
    ManifestPaths(tester, true, tests.files);
    RecordedHasRoom(developer);
    ApplyDiff(base, change.files, Recorded(developer), Dirs(developer));
    var middle := ApplyFiles(base, change.files).value;
    if Clash(change, tests) {
      ClashIsRefused(developer, tester, change, tests);
    } else {
      var dirs := middle.dirs + AddedParents(tests.files);
      AppliedDirs(base, change.files);
      NoClashHasRoom(developer, tester, change, tests, middle);
      SecondIsDiff(developer, tester, tests.files, middle);
      ApplyDiff(middle, tests.files, Combined(developer, tester), dirs);
    }
  }

  function AddedParents(files: seq<ChangedFile>): set<Path>
  {
    set f, d | f in files && f.action == Add && d in Parents(f.path) :: d
  }

  // Applying a manifest makes only the directories of the files it adds.
  lemma {:induction false} AppliedDirs(tree: Tree, files: seq<ChangedFile>)
    requires HasResults(files) && WellFormed(tree) && ApplyFiles(tree, files).Ok?
    ensures ApplyFiles(tree, files).value.dirs <= tree.dirs + AddedParents(files)
    decreases |files|
  {
    if files != [] {
      var f := files[0];
      var next := ApplyFile(tree, f).value;
      AppliedDirs(next, files[1..]);
      assert f in files && AddedParents(files[1..]) <= AddedParents(files);
      assert next.dirs <= tree.dirs + AddedParents(files);
    }
  }

  lemma SecondIsDiff(developer: Workspace, tester: Workspace, tests: seq<ChangedFile>, middle: Tree)
    requires ValidWorkspace(developer) && ValidWorkspace(tester) && developer.base == tester.base
    requires OwnPathsOnly(developer, false) && OwnPathsOnly(tester, true) && IsManifestOf(tests, tester)
    requires middle.files == Recorded(developer)
    ensures IsDiff(tests, middle.files, Combined(developer, tester))
  {
    var target := Combined(developer, tester);
    ManifestPaths(tester, true, tests);
    UnownedIsBase(developer, false);
    UnownedIsBase(tester, true);
    forall f | f in tests ensures EntryFor(f.path, Get(middle.files, f.path), Get(target, f.path)) == Some(f) {
      assert Get(middle.files, f.path) == Get(developer.base.files, f.path);
    }
    forall p | Get(middle.files, p) != Get(target, p) ensures p in PathsOf(tests) {
      assert Get(developer.base.files, p) != Get(Recorded(tester), p);
    }
  }

  // What is recorded and not in the base has an added entry.
  lemma NewIsAdded(w: Workspace, files: seq<ChangedFile>, p: Path) returns (f: ChangedFile)
    requires IsManifestOf(files, w) && p in Recorded(w) && p !in w.base.files
    ensures f in files && f.path == p && f.action == Add
  {
    assert p in PathsOf(files);
    var i :| 0 <= i < |files| && PathsOf(files)[i] == p;
    f := files[i];
  }

  lemma AddedIsNew(w: Workspace, files: seq<ChangedFile>, f: ChangedFile)
    requires ValidWorkspace(w) && IsManifestOf(files, w) && f in files && f.action == Add
    ensures f.path in Recorded(w) && f.path !in w.base.files && f.path in w.overlay.files
  {}

  // A directory that a file added by the tester needs is no file after the developer's manifest.
  lemma AddedParentIsFree(developer: Workspace, tester: Workspace, change: ChangeSet, tests: ChangeSet, d: Path)
    requires ValidWorkspace(developer) && ValidWorkspace(tester) && developer.base == tester.base
    requires IsManifestOf(change.files, developer) && IsManifestOf(tests.files, tester) && !Clash(change, tests)
    requires d in AddedParents(tests.files)
    ensures d !in Recorded(developer) && d !in Recorded(tester) && d !in developer.base.files
  {
    var g :| g in tests.files && g.action == Add && d in Parents(g.path);
    AddedIsNew(tester, tests.files, g);
    assert d in tester.overlay.dirs;
    if d in Recorded(developer) {
      var f := NewIsAdded(developer, change.files, d);
      assert false;
    }
  }

  // A file the tester adds is no directory after the developer's manifest.
  lemma AddedFileIsFree(developer: Workspace, tester: Workspace, change: ChangeSet, tests: ChangeSet, p: Path)
    requires ValidWorkspace(developer) && ValidWorkspace(tester) && developer.base == tester.base
    requires IsManifestOf(change.files, developer) && IsManifestOf(tests.files, tester) && !Clash(change, tests)
    requires p in Recorded(tester) && p !in tester.base.files
    ensures p !in developer.base.dirs + AddedParents(change.files) && Parents(p) <= AddedParents(tests.files)
  {
    var g := NewIsAdded(tester, tests.files, p);
    AddedIsNew(tester, tests.files, g);
  }

  lemma NoClashHasRoom(developer: Workspace, tester: Workspace, change: ChangeSet, tests: ChangeSet, middle: Tree)
    requires ValidWorkspace(developer) && ValidWorkspace(tester) && developer.base == tester.base
    requires OwnPathsOnly(developer, false) && OwnPathsOnly(tester, true)
    requires IsManifestOf(change.files, developer) && IsManifestOf(tests.files, tester) && !Clash(change, tests)
    requires WellFormed(middle) && middle.files == Recorded(developer)
    requires middle.dirs <= developer.base.dirs + AddedParents(change.files)
    ensures Room(middle.dirs + AddedParents(tests.files), middle, Combined(developer, tester))
  {
    var dirs, target := middle.dirs + AddedParents(tests.files), Combined(developer, tester);
    forall d | d in AddedParents(tests.files) ensures d !in middle.files && d !in target {
      AddedParentIsFree(developer, tester, change, tests, d);
      assert Get(target, d).None?;
    }
    forall p | p in target ensures p !in middle.dirs && Parents(p) <= dirs {
      assert Get(target, p).Some?;
      if IsTestPath(p) && p !in developer.base.files {
        AddedFileIsFree(developer, tester, change, tests, p);
      } else {
        KeptIsInMiddle(developer, tester, p);
      }
    }
  }

  lemma KeptIsInMiddle(developer: Workspace, tester: Workspace, p: Path)
    requires ValidWorkspace(developer) && OwnPathsOnly(developer, false)
    requires p in Combined(developer, tester) && (IsTestPath(p) ==> p in developer.base.files)
    ensures p in Recorded(developer)
  {
    assert Get(Combined(developer, tester), p).Some?;
    if IsTestPath(p) {
      UnownedIsBase(developer, false);
      assert Get(Recorded(developer), p).Some?;
    }
  }

  lemma ClashIsRefused(developer: Workspace, tester: Workspace, change: ChangeSet, tests: ChangeSet)
    requires ValidWorkspace(developer) && ValidWorkspace(tester) && developer.base == tester.base
    requires OwnPathsOnly(developer, false) && OwnPathsOnly(tester, true)
    requires IsManifestOf(change.files, developer) && IsManifestOf(tests.files, tester) && Clash(change, tests)
    requires HasResults(change.files) && ApplyFiles(developer.base, change.files).Ok? && HasResults(tests.files)
    ensures ApplyFiles(ApplyFiles(developer.base, change.files).value, tests.files).Refused?
  {
    var f, g :| f in change.files && g in tests.files && f.action == Add && g.action == Add &&
      (f.path in Parents(g.path) || g.path in Parents(f.path));
    BothAreCombined(developer, tester, change, tests, f, g);
    if ApplyFiles(ApplyFiles(developer.base, change.files).value, tests.files).Ok? {
      AppliedIsCombined(developer, tester, change, tests);
      NoFileAboveFile(ApplyFiles(ApplyFiles(developer.base, change.files).value, tests.files).value, f.path, g.path);
    }
  }

  lemma AppliedIsCombined(developer: Workspace, tester: Workspace, change: ChangeSet, tests: ChangeSet)
    requires ValidWorkspace(developer) && ValidWorkspace(tester) && developer.base == tester.base
    requires OwnPathsOnly(developer, false) && OwnPathsOnly(tester, true)
    requires IsManifestOf(change.files, developer) && IsManifestOf(tests.files, tester)
    requires HasResults(change.files) && ApplyFiles(developer.base, change.files).Ok? && HasResults(tests.files)
    requires ApplyFiles(ApplyFiles(developer.base, change.files).value, tests.files).Ok?
    ensures var last := ApplyFiles(ApplyFiles(developer.base, change.files).value, tests.files).value;
      WellFormed(last) && last.files == Combined(developer, tester)
  {
    ManifestsCombine(developer, tester, change, tests);
    ApplyFollowsPatch(developer.base, change.files);
    ApplyFollowsPatch(ApplyFiles(developer.base, change.files).value, tests.files);
  }

  lemma NoFileAboveFile(tree: Tree, p: Path, q: Path)
    requires WellFormed(tree) && p in tree.files && q in tree.files
    ensures p !in Parents(q) && q !in Parents(p)
  {}

  lemma BothAreCombined(developer: Workspace, tester: Workspace, change: ChangeSet, tests: ChangeSet,
                        f: ChangedFile, g: ChangedFile)
    requires ValidWorkspace(developer) && ValidWorkspace(tester)
    requires OwnPathsOnly(developer, false) && OwnPathsOnly(tester, true)
    requires IsManifestOf(change.files, developer) && f in change.files && f.action == Add
    requires IsManifestOf(tests.files, tester) && g in tests.files && g.action == Add
    ensures f.path in Combined(developer, tester) && g.path in Combined(developer, tester)
  {
    AddedIsNew(developer, change.files, f);
    AddedIsNew(tester, tests.files, g);
    ManifestPaths(developer, false, change.files);
    ManifestPaths(tester, true, tests.files);
    assert Get(Combined(developer, tester), f.path).Some? && Get(Combined(developer, tester), g.path).Some?;
  }

  // A tester that starts without new files adds none: then preparation is never refused because of
  // what the two agents did.
  lemma PreparationNeverRefused(developer: Workspace, tester: Workspace, change: ChangeSet, tests: ChangeSet)
    requires ValidWorkspace(developer) && ValidWorkspace(tester) && developer.base == tester.base
    requires OwnPathsOnly(developer, false) && OwnPathsOnly(tester, true)
    requires tester.overlay.files.Keys <= tester.base.files.Keys
    requires IsManifestOf(change.files, developer) && IsManifestOf(tests.files, tester)
    ensures HasResults(change.files) && ApplyFiles(developer.base, change.files).Ok?
    ensures HasResults(tests.files) && ApplyFiles(ApplyFiles(developer.base, change.files).value, tests.files).Ok?
  {
    PreparationRefusedIff(developer, tester, change, tests);
    if Clash(change, tests) {
      var f, g :| f in change.files && g in tests.files && f.action == Add && g.action == Add &&
        (f.path in Parents(g.path) || g.path in Parents(f.path));
      AddedIsNew(tester, tests.files, g);
    }
  }
}
