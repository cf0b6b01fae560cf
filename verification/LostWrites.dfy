/**
  Which policies let an accepted edit get lost.  Walk skips some directories, so an edit below one
  of them shows in the view and is missing from the manifest.
*/
module LostWrites {
  import opened Wrappers
  import opened Utf8
  import opened Paths
  import opened FileTree
  import opened LineEndings
  import opened Manifest
  import opened MutationPolicy
  import opened Overlay
  import opened Editor
  import opened ToolSession
  import opened ToolRuns

  // A path below a skipped directory that the editor can write and the policy lets the agent write.
  ghost predicate CanBeLost(policy: Policy, base: Tree, maxFileBytes: int, path: Path)
  {
    && Excluded(path) && Normal(path)
    && path !in base.dirs && !BelowFile(base, path)
    && if path in base.files
       then Readable(base.files[path], Limit(maxFileBytes, 0)) && Detect(base.files[path]).Consistent?
            && ValidateUpdate(policy, path)
       else ValidateCreate(policy, path)
  }

  // The workspace an agent process leaves that starts over the bare base with no evidence.
  ghost function After(policy: Policy, base: Tree, maxFileBytes: int, calls: seq<Call>): Workspace
  {
    Run(policy, Session(Fresh(base, maxFileBytes), EMPTY), calls).w
  }

  ghost predicate RecordsAll(policy: Policy, base: Tree, maxFileBytes: int, calls: seq<Call>)
  {
    Recorded(After(policy, base, maxFileBytes, calls)) == View(After(policy, base, maxFileBytes, calls))
  }

  // Under a policy every run's manifest records the whole view, unless the policy allows an edit
  // below a skipped directory at a path that can be written: then some run loses that edit.
  lemma EveryRunIsRecordedIff(policy: Policy, base: Tree, maxFileBytes: int)
    requires WellFormed(base) && policy != NoPolicy
    ensures (forall calls :: RecordsAll(policy, base, maxFileBytes, calls)) <==>
      (forall path :: !CanBeLost(policy, base, maxFileBytes, path))
  {
    forall path | CanBeLost(policy, base, maxFileBytes, path)
      ensures exists calls :: !RecordsAll(policy, base, maxFileBytes, calls)
    {
      var calls := SomeRunLosesIt(policy, base, maxFileBytes, path);
      assert !RecordsAll(policy, base, maxFileBytes, calls);
    }
    if forall path :: !CanBeLost(policy, base, maxFileBytes, path) {
      forall calls ensures RecordsAll(policy, base, maxFileBytes, calls) {
        NothingIsLost(policy, Session(Fresh(base, maxFileBytes), EMPTY), calls);
      }
    }
  }

  // --- what a run keeps ---

  // A deletion cannot be taken back, and what is stored below a skipped directory could be lost.
  ghost predicate SkippedCanBeLost(policy: Policy, w: Workspace)
  {
    && (forall p | p in w.tombstones :: !ValidateCreate(policy, p))
    && (forall p | p in w.overlay.files && Excluded(p) :: CanBeLost(policy, w.base, w.maxFileBytes, p))
  }

  lemma StepKeepsSkipped(policy: Policy, s: Session, next: Session, effect: Effect)
    requires policy != NoPolicy && ValidWorkspace(s.w) && HasEffect(policy, s, next, effect)
    requires next.w.base == s.w.base && next.w.maxFileBytes == s.w.maxFileBytes
    requires SkippedCanBeLost(policy, s.w)
    ensures SkippedCanBeLost(policy, next.w)
  {
    if (effect.Wrote? || effect.HalfWrote?) && Excluded(effect.path) {
      WriteCanBeLost(policy, s, effect.path);
    }
  }

  lemma WriteCanBeLost(policy: Policy, s: Session, path: Path)
    requires ValidWorkspace(s.w) && MayWrite(policy, s, path) && Excluded(path)
    requires SkippedCanBeLost(policy, s.w)
    ensures CanBeLost(policy, s.w.base, s.w.maxFileBytes, path)
  {
    if path !in s.w.overlay.files && path in s.w.base.files {
      assert path !in s.w.tombstones;
      assert View(s.w)[path] == s.w.base.files[path];
    }
  }

  lemma {:induction false} RunKeepsSkipped(policy: Policy, s: Session, calls: seq<Call>)
    requires policy != NoPolicy && ValidWorkspace(s.w) && SkippedCanBeLost(policy, s.w)
    ensures SkippedCanBeLost(policy, Run(policy, s, calls).w)
  {
    if calls != [] {
      var n := |calls| - 1;
      RunKeepsSkipped(policy, s, calls[..n]);
      RunKeepsWorkspace(policy, s, calls[..n]);
      var before := Run(policy, s, calls[..n]);
      var effect := StepEffect(policy, before, calls[n]);
      StepKeepsSkipped(policy, before, Step(policy, before, calls[n]), effect);
    }
  }

  // Where nothing can be lost, the manifest of every run records the whole view.
  lemma NothingIsLost(policy: Policy, s: Session, calls: seq<Call>)
    requires policy != NoPolicy && ValidWorkspace(s.w) && SkippedCanBeLost(policy, s.w)
    requires forall path :: !CanBeLost(policy, s.w.base, s.w.maxFileBytes, path)
    ensures Recorded(Run(policy, s, calls).w) == View(Run(policy, s, calls).w)
  {
    RunKeepsWorkspace(policy, s, calls);
    RunKeepsSkipped(policy, s, calls);
    RecordedIsView(Run(policy, s, calls).w);
  }

  // --- a run that loses its edit ---

  lemma {:induction false} SortedExists(all: set<Path>) returns (paths: seq<Path>)
    ensures Sorted(paths) && forall p :: p in paths <==> p in all
  {
    paths := [];
    if all != {} {
      var p :| p in all;
      var rest := SortedExists(all - {p});
      paths := Insert(rest, p);
    }
  }

  lemma ListingExists(w: Workspace, prefix: Path, bound: nat) returns (listing: Listing)
    ensures IsListing(listing, w, prefix, bound)
  {
    var all := SortedExists(set p | p in Listed(w) && InSubtree(prefix, p));
    listing := Listing(if |all| > bound then all[..bound] else all, |all|, |all| > bound);
  }

  lemma SomeRunLosesIt(policy: Policy, base: Tree, maxFileBytes: int, path: Path) returns (calls: seq<Call>)
    requires WellFormed(base) && CanBeLost(policy, base, maxFileBytes, path)
    ensures Get(Recorded(After(policy, base, maxFileBytes, calls)), path) == Get(base.files, path)
    ensures Get(View(After(policy, base, maxFileBytes, calls)), path) != Get(base.files, path)
  {
    if path in base.files {
      calls := UpdateIsLost(policy, base, maxFileBytes, path);
    } else {
      calls := CreationIsLost(policy, base, maxFileBytes, path);
    }
  }

  lemma CreationIsLost(policy: Policy, base: Tree, maxFileBytes: int, path: Path) returns (calls: seq<Call>)
    requires WellFormed(base) && CanBeLost(policy, base, maxFileBytes, path) && path !in base.files
    ensures path !in Recorded(After(policy, base, maxFileBytes, calls))
    ensures path in View(After(policy, base, maxFileBytes, calls))
  {
    var listed: Session;
    calls, listed := ListsThenCreates(policy, base, maxFileBytes, path, []);
    CreateSkipped(policy, listed, path);
  }

  // A creation after a listing of the whole workspace.
  lemma ListsThenCreates(policy: Policy, base: Tree, maxFileBytes: int, path: Path, content: Bytes)
      returns (calls: seq<Call>, listed: Session)
    requires WellFormed(base) && path !in base.files
    ensures listed.w == Fresh(base, maxFileBytes) && listed.t.treeObserved && path !in listed.t.treePaths
    ensures After(policy, base, maxFileBytes, calls) == Step(policy, listed, CreateCall(path, content)).w
  {
    var start := Session(Fresh(base, maxFileBytes), EMPTY);
    var listing := ListingExists(start.w, "", EntryBound(0));
    CompleteListing(listing, start.w, "", EntryBound(0));
    var tree, create := TreeCall("", 0, listing), CreateCall(path, content);
    calls, listed := [tree, create], Step(policy, start, tree);
    RunOfTwo(policy, start, tree, create);
    assert path !in listing.entries;
  }

  lemma CreateSkipped(policy: Policy, s: Session, path: Path)
    requires WellFormed(s.w.base) && s.w == Fresh(s.w.base, s.w.maxFileBytes) && path !in s.w.base.files
    requires CanBeLost(policy, s.w.base, s.w.maxFileBytes, path) && s.t.treeObserved && path !in s.t.treePaths
    ensures var w := Step(policy, s, CreateCall(path, [])).w; path !in Recorded(w) && path in View(w)
  {
    SmallTextIsStored([], Lf);
    assert !Blocked(s.w, path);
    WriteRefines(s.w, path, [], AbsentDigest);
    CreateGoesThrough(policy, s, path, []);
    ExcludedWriteIsLost(s.w, path, [], AbsentDigest);
  }

  lemma CreateGoesThrough(policy: Policy, s: Session, path: Path, content: Bytes)
    requires ValidWorkspace(s.w) && Normal(path) && path !in View(s.w) && !Blocked(s.w, path)
    requires s.t.treeObserved && path !in s.t.treePaths && ValidateCreate(policy, path)
    requires Write(s.w, path, content, AbsentDigest).Ok?
    ensures Step(policy, s, CreateCall(path, content)) ==
      Session(Write(s.w, path, content, AbsentDigest).value.workspace, RecordRead(s.t, path))
  {
    ReadRefines(s.w, path, 0);
    assert Step(policy, s, CreateCall(path, content)) == CreateStep(policy, s, path, content);
  }

  lemma UpdateIsLost(policy: Policy, base: Tree, maxFileBytes: int, path: Path) returns (calls: seq<Call>)
    requires WellFormed(base) && CanBeLost(policy, base, maxFileBytes, path) && path in base.files
    ensures Get(Recorded(After(policy, base, maxFileBytes, calls)), path) == Some(base.files[path])
    ensures Get(View(After(policy, base, maxFileBytes, calls)), path) != Some(base.files[path])
  {
    var start := Session(Fresh(base, maxFileBytes), EMPTY);
    var content: Bytes := if base.files[path] == [] then [97] else [];
    var read, write := ReadCall(path, 0), WriteCall(path, content);
    calls := [read, write];
    RunOfTwo(policy, start, read, write);
    ReadRefines(start.w, path, 0);
    UpdateSkipped(policy, Step(policy, start, read), path, content);
  }

  lemma UpdateSkipped(policy: Policy, s: Session, path: Path, content: Bytes)
    requires WellFormed(s.w.base) && s.w == Fresh(s.w.base, s.w.maxFileBytes) && path in s.w.base.files
    requires CanBeLost(policy, s.w.base, s.w.maxFileBytes, path) && path in s.t.readPaths
    requires content == if s.w.base.files[path] == [] then [97] else []
    ensures var w := Step(policy, s, WriteCall(path, content)).w;
      Get(Recorded(w), path) == Some(s.w.base.files[path]) && Get(View(w), path) == Some(content)
  {
    var current := Sha256(View(s.w)[path]);
    assert View(s.w) == s.w.base.files && !Blocked(s.w, path) by { NotBelowWhenFile(s.w, path); }
    SmallTextIsStored(content, EndingAt(s.w, path).ending);
    WriteRefines(s.w, path, content, current);
    ExcludedWriteIsLost(s.w, path, content, current);
    WriteGoesThrough(policy, s, path, content);
  }

  lemma WriteGoesThrough(policy: Policy, s: Session, path: Path, content: Bytes)
    requires ValidWorkspace(s.w) && Normal(path) && path in View(s.w)
    requires path in s.t.readPaths && ValidateUpdate(policy, path)
    requires Readable(View(s.w)[path], Limit(s.w.maxFileBytes, 0))
    requires Write(s.w, path, content, Sha256(View(s.w)[path])).Ok?
    ensures Step(policy, s, WriteCall(path, content)).w ==
      Write(s.w, path, content, Sha256(View(s.w)[path])).value.workspace
  {
    ReadRefines(s.w, path, 0);
    ResolvesToItself(policy, s.t, path);
    assert Read(s.w, path, 0).Found? && Read(s.w, path, 0).content == View(s.w)[path];
    assert WriteStep(policy, s, path, content) ==
      Update(policy, s, path, Write(s.w, path, content, Sha256(View(s.w)[path])));
  }

  lemma ResolvesToItself(policy: Policy, t: ToolState, path: Path)
    requires Normal(path)
    ensures ResolvePath(policy, t, path) == Ok(path)
  {}

  lemma SmallTextIsStored(content: Bytes, ending: Ending)
    requires content == [] || content == [97]
    ensures Stored(content, ending) == content && Detect(content).Consistent? && Valid(content)
  {
    if content != [] {
      NoMatchInOneByte(97, CRLF, [LF]);
      NoMatchInOneByte(97, CRLF, []);
      NoMatchInOneByte(97, [CR], [LF]);
      NoMatchInOneByte(97, [LF], CRLF);
      assert content[Width(content)..] == [];
    }
  }

  lemma NoMatchInOneByte(b: byte, pattern: Bytes, with: Bytes)
    requires |pattern| > 0 && pattern[0] != b
    ensures ReplaceAll([b], pattern, with) == [b] && Count([b], pattern) == 0
  {
    assert [b][1..] == [];
    assert [b][..1] == [b];
  }

  lemma RunOfTwo(policy: Policy, s: Session, first: Call, second: Call)
    ensures Run(policy, s, [first, second]) == Step(policy, Step(policy, s, first), second)
  {
    assert [first, second][..1] == [first];
    assert [first][..0] == [];
    assert Run(policy, s, []) == s;
    assert Run(policy, s, [first]) == Step(policy, s, first);
  }

  // --- the two agents ---

  // An accepted plan that names no path below a skipped directory loses nothing.
  lemma PlanOutsideSkippedIsRecorded(actions: map<Path, Action>, base: Tree, maxFileBytes: int, calls: seq<Call>)
    requires WellFormed(base) && forall p | p in actions :: !Excluded(p)
    ensures RecordsAll(PlanPolicy(actions), base, maxFileBytes, calls)
  {
    NothingIsLost(PlanPolicy(actions), Session(Fresh(base, maxFileBytes), EMPTY), calls);
  }

  lemma {:induction false} OneSegment(name: string)
    requires '/' !in name
    ensures Segments(name) == [name]
  {
    if name != "" {
      OneSegment(name[1..]);
      assert name == [name[0]] + name[1..];
    }
  }

  lemma {:induction false} SegmentsBelow(directory: string, rest: Path)
    requires '/' !in directory
    ensures Segments(directory + "/" + rest) == [directory] + Segments(rest)
  {
    var path := directory + "/" + rest;
    if directory == "" {
      assert path[1..] == rest;
    } else {
      SegmentsBelow(directory[1..], rest);
      assert path[1..] == directory[1..] + "/" + rest;
      assert directory == [directory[0]] + directory[1..];
    }
  }

  // Any file of a plain name directly below vendor.
  lemma BelowVendor(name: string)
    requires '/' !in name && '\0' !in name && name !in {"", ".", "..", ".git", ".sovereign", "attempts"}
    ensures Segments("vendor/" + name) == ["vendor", name]
    ensures Excluded("vendor/" + name) && Normal("vendor/" + name)
  {
    var directory, path := "vendor", "vendor/" + name;
    OneSegment(name);
    SegmentsBelow(directory, name);
    assert path == directory + "/" + name;
    assert Directories(path) == [directory];
    InOneDirectory(directory, name);
  }

  lemma InOneDirectory(directory: string, name: string)
    requires ExcludedName(directory) && directory !in {"", ".", "..", ".git", ".sovereign", "attempts"}
    requires name !in {"", ".", "..", ".git", ".sovereign", "attempts"}
    requires Segments(directory + "/" + name) == [directory, name]
    requires directory[0] !in " \t\n\r" && '\0' !in directory && '\0' !in name
    ensures Excluded(directory + "/" + name) && Normal(directory + "/" + name)
  {
    var path := directory + "/" + name;
    NoNul(directory, name);
    assert path[0] == directory[0] && path[0] in path;
    assert Directories(path) == [directory] && directory in Directories(path);
  }

  lemma NoNul(directory: string, name: string)
    requires '\0' !in directory && '\0' !in name
    ensures '\0' !in directory + "/" + name
  {
    assert "/"[0] != '\0';
  }

  lemma PlainVendorFile(path: Path)
    requires Segments(path) == ["vendor", "a"]
    ensures !IsTestPath(path)
  {
    assert Directories(path) == ["vendor"];
    NoTestDirectory("vendor");
    NoTestName("a");
    assert LastDot("a") <= 0 && Lower("") == "";
  }

  lemma NoTestDirectory(name: string)
    requires |name| == 6 && name[0] == 'v' && forall i | 0 <= i < |name| :: !('A' <= name[i] <= 'Z')
    ensures Lower(name) !in {"test", "tests", "testdata", "test_data", "__tests__"} && !EndsWith(Lower(name), ".tests")
  {
    LowerIs(name);
    assert ".tests"[0] == '.';
  }

  lemma NoTestName(name: string)
    requires |name| == 1 && !('A' <= name[0] <= 'Z')
    ensures !("test_" <= Lower(name)) && Lower(name) != "conftest.py"
  {
    LowerIs(name);
  }

  lemma VendoredTestFile(path: Path)
    requires Segments(path) == ["vendor", "test_a"]
    ensures IsTestPath(path)
  {
    LowerIs("test_a");
    assert "test_" <= "test_a";
  }

  lemma {:induction false} LowerIs(s: string)
    requires forall i | 0 <= i < |s| :: !('A' <= s[i] <= 'Z')
    ensures Lower(s) == s
  {
    if s != "" {
      LowerIs(s[1..]);
      assert s == [s[0]] + s[1..];
    }
  }

  // A plan may add such a file; it is accepted over the empty base, and a developer's run loses the file.
  lemma PlannedFileIsLost(path: Path, maxFileBytes: int) returns (calls: seq<Call>)
    requires Excluded(path) && Normal(path) && !IsTestPath(path)
    ensures AcceptedPlan(map[path := Add], Tree(map[], {}))
    ensures !RecordsAll(PlanPolicy(map[path := Add]), Tree(map[], {}), maxFileBytes, calls)
  {
    var base := Tree(map[], {});
    assert !BelowFile(base, path);
    assert CanBeLost(PlanPolicy(map[path := Add]), base, maxFileBytes, path);
    calls := SomeRunLosesIt(PlanPolicy(map[path := Add]), base, maxFileBytes, path);
  }

  // A tester has no plan: a test file of the base is enough.
  lemma TestEditIsLost(path: Path, maxFileBytes: int) returns (base: Tree, calls: seq<Call>)
    requires Excluded(path) && Normal(path) && IsTestPath(path)
    ensures WellFormed(base) && base.files == map[path := []] && !RecordsAll(TestPolicy, base, maxFileBytes, calls)
  {
    base := Tree(map[path := []], Parents(path));
    ParentsOfParents(path);
    SmallTextIsStored([], Lf);
    calls := SomeRunLosesIt(TestPolicy, base, maxFileBytes, path);
  }

  // Both kinds of path exist: vendor/a and vendor/test_a.
  lemma SuchPathsExist() returns (plain: Path, test: Path)
    ensures Excluded(plain) && Normal(plain) && !IsTestPath(plain)
    ensures Excluded(test) && Normal(test) && IsTestPath(test)
  {
    plain, test := "vendor/" + "a", "vendor/" + "test_a";
    BelowVendor("a");
    BelowVendor("test_a");
    PlainVendorFile(plain);
    VendoredTestFile(test);
  }
}
