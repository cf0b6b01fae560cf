/**
  What a policy permits can also be done.  Any list of permitted changes that the two trees have a
  place for is made by some run of tool calls, and the manifest then records these changes and no
  other: the other half of the conformance of every run.
*/
module PlanCompletion {
  import opened Wrappers
  import opened Utf8
  import opened Paths
  import opened FileTree
  import opened LineEndings
  import opened Manifest
  import opened MutationPolicy
  import opened Overlay
  import opened Editor
  import opened ToolSession
  import opened ToolRuns
  import opened LostWrites

  // A change of one file, with the text it shall have (without use for a deletion).
  datatype Change = Change(path: Path, action: Action, content: Bytes)

  // The tester may modify and delete test files; the developer may do what the plan says, elsewhere.
  predicate Permits(policy: Policy, c: Change)
  {
    && (policy.TestPolicy? ==> IsTestPath(c.path) && c.action != Add)
    && (policy.PlanPolicy? ==>
          !IsTestPath(c.path) && c.path in policy.actions && policy.actions[c.path] == c.action)
  }

  // The base has a place for the change, and the text can stand there as it is.
  ghost predicate HasPlace(base: Tree, maxFileBytes: int, c: Change)
  {
    var limit := Limit(maxFileBytes, 0);
    && Normal(c.path) && !Excluded(c.path)
    && (c.action == Add ==>
          && c.path !in base.files && c.path !in base.dirs && !BelowFile(base, c.path)
          && Storable(c.content, limit) && Stored(c.content, Lf) == c.content)
    && (c.action == Delete ==> c.path in base.files && Readable(base.files[c.path], limit))
    && (c.action == Modify ==>
          && c.path in base.files && Readable(base.files[c.path], limit)
          && Detect(base.files[c.path]).Consistent?
          && Storable(c.content, limit) && Stored(c.content, Detect(base.files[c.path]).ending) == c.content)
  }

  // One change for each path, and no added file in the way of another.
  ghost predicate Together(changes: seq<Change>)
  {
    && (forall i, j | 0 <= i < j < |changes| :: changes[i].path != changes[j].path)
    && (forall c, d | c in changes && d in changes && c.action == Add && d.action == Add :: c.path !in Parents(d.path))
  }

  ghost predicate Doable(policy: Policy, base: Tree, maxFileBytes: int, changes: seq<Change>)
  {
    && WellFormed(base) && Together(changes)
    && forall c | c in changes :: Permits(policy, c) && HasPlace(base, maxFileBytes, c)
  }

  function Result(c: Change): Option<Bytes>
  {
    if c.action == Delete then None else Some(c.content)
  }

  // These files are the base's with these changes and no other.
  ghost predicate Carried(base: map<Path, Bytes>, changes: seq<Change>, files: map<Path, Bytes>)
  {
    && (forall c | c in changes :: Get(files, c.path) == Result(c))
    && (forall p | (forall c | c in changes :: c.path != p) :: Get(files, p) == Get(base, p))
  }

  // The overlay stores no more than the additions and modifications made so far need.
  ghost predicate StoresOnly(changes: seq<Change>, overlay: Tree)
  {
    && (forall p | p in overlay.files :: exists c :: c in changes && c.action != Delete && c.path == p)
    && (forall d | d in overlay.dirs :: exists c :: c in changes && c.action != Delete && d in Parents(c.path))
  }

  ghost predicate Progress(base: Tree, maxFileBytes: int, changes: seq<Change>, s: Session)
  {
    && ValidWorkspace(s.w) && s.w.base == base && s.w.maxFileBytes == maxFileBytes
    && s.t.treeObserved && s.t.treePaths <= base.files.Keys
    && Carried(base.files, changes, View(s.w)) && StoresOnly(changes, s.w.overlay)
  }

  // Whatever the policy permits and the trees have a place for is done by some run.
  lemma PermittedChangesCanBeMade(policy: Policy, base: Tree, maxFileBytes: int, changes: seq<Change>)
      returns (calls: seq<Call>)
    requires Doable(policy, base, maxFileBytes, changes)
    ensures Carried(base.files, changes, Recorded(After(policy, base, maxFileBytes, calls)))
  {
    var start := Session(Fresh(base, maxFileBytes), EMPTY);
    var listing := ListingExists(start.w, "", EntryBound(0));
    CompleteListing(listing, start.w, "", EntryBound(0));
    var s: Session;
    calls, s := Extend(policy, start, [], start, TreeCall("", 0, listing));
    assert s.w == start.w && Progress(base, maxFileBytes, [], s);
    calls, s := MakesChanges(policy, base, maxFileBytes, changes, start, calls, s);
    assert Run(policy, start, calls) == s;
    NothingSkipped(policy, base, maxFileBytes, changes, s);
  }

  // A change can be made, by some run and as the only one, if and only if the policy permits it.
  lemma PossibleIffPermitted(policy: Policy, base: Tree, maxFileBytes: int, c: Change)
    requires WellFormed(base) && HasPlace(base, maxFileBytes, c) && Result(c) != Get(base.files, c.path)
    requires policy.PlanPolicy? ==> AcceptedPlan(policy.actions, base)
    ensures (exists calls :: Carried(base.files, [c], Recorded(After(policy, base, maxFileBytes, calls)))) <==>
      Permits(policy, c)
  {
    if Permits(policy, c) {
      var calls := PermittedChangesCanBeMade(policy, base, maxFileBytes, [c]);
      assert Carried(base.files, [c], Recorded(After(policy, base, maxFileBytes, calls)));
    }
    forall calls | Carried(base.files, [c], Recorded(After(policy, base, maxFileBytes, calls)))
      ensures Permits(policy, c)
    {
      OnlyPermittedChanges(policy, base, maxFileBytes, c, calls);
    }
  }

  lemma OnlyPermittedChanges(policy: Policy, base: Tree, maxFileBytes: int, c: Change, calls: seq<Call>)
    requires WellFormed(base) && HasPlace(base, maxFileBytes, c) && Result(c) != Get(base.files, c.path)
    requires policy.PlanPolicy? ==> AcceptedPlan(policy.actions, base)
    requires Carried(base.files, [c], Recorded(After(policy, base, maxFileBytes, calls)))
    ensures Permits(policy, c)
  {
    var start := Session(Fresh(base, maxFileBytes), EMPTY);
    var w := After(policy, base, maxFileBytes, calls);
    RunKeepsWorkspace(policy, start, calls);
    assert c in [c] && Get(Recorded(w), c.path) == Result(c);
    assert c.path in w.overlay.files.Keys + w.tombstones;
    if policy.TestPolicy? {
      RunTouchesOnlyTests(start, calls);
    } else if policy.PlanPolicy? {
      RunConforms(policy.actions, start, calls);
    }
  }

  lemma NothingSkipped(policy: Policy, base: Tree, maxFileBytes: int, changes: seq<Change>, s: Session)
    requires Doable(policy, base, maxFileBytes, changes) && Progress(base, maxFileBytes, changes, s)
    ensures Recorded(s.w) == View(s.w)
  {
    RecordedIsView(s.w);
    forall p | p in s.w.overlay.files ensures !Excluded(p) {
      var c :| c in changes && c.action != Delete && c.path == p;
      assert HasPlace(base, maxFileBytes, c);
    }
  }

  // A run of the session from a start.  (The quantifier keeps the run out of sight.)
  ghost predicate Leads(policy: Policy, start: Session, calls: seq<Call>, s: Session)
  {
    forall from | from == start :: Run(policy, from, calls) == s
  }

  lemma Extend(policy: Policy, start: Session, calls: seq<Call>, s: Session, call: Call)
      returns (more: seq<Call>, next: Session)
    requires Leads(policy, start, calls, s)
    ensures Leads(policy, start, more, next) && next == Step(policy, s, call)
  {
    more, next := calls + [call], Step(policy, s, call);
    assert more[..|more| - 1] == calls;
    assert Run(policy, start, calls) == s;
  }

  lemma {:induction false} MakesChanges(policy: Policy, base: Tree, maxFileBytes: int, changes: seq<Change>,
                                        start: Session, calls: seq<Call>, s: Session)
      returns (more: seq<Call>, next: Session)
    requires Doable(policy, base, maxFileBytes, changes)
    requires Leads(policy, start, calls, s) && Progress(base, maxFileBytes, [], s)
    ensures Leads(policy, start, more, next) && Progress(base, maxFileBytes, changes, next)
    decreases |changes|
  {
    if changes == [] {
      more, next := calls, s;
    } else {
      var done, c := changes[..|changes| - 1], changes[|changes| - 1];
      assert changes == done + [c];
      more, next := MakesChanges(policy, base, maxFileBytes, done, start, calls, s);
      more, next := MakesChange(policy, base, maxFileBytes, done, c, start, more, next);
    }
  }

  // One more change: a new file at once, an existing one after it was read.
  lemma MakesChange(policy: Policy, base: Tree, maxFileBytes: int, done: seq<Change>, c: Change, start: Session,
                    calls: seq<Call>, s: Session)
      returns (more: seq<Call>, next: Session)
    requires Doable(policy, base, maxFileBytes, done + [c])
    requires Leads(policy, start, calls, s) && Progress(base, maxFileBytes, done, s)
    ensures Leads(policy, start, more, next) && Progress(base, maxFileBytes, done + [c], next)
  {
    IsNext(policy, base, maxFileBytes, done, c, s);
    if c.action == Add {
      more, next := Extend(policy, start, calls, s, CreateCall(c.path, c.content));
      AddMakes(policy, base, maxFileBytes, done, c, s);
    } else {
      var read: Session;
      more, read := Extend(policy, start, calls, s, ReadCall(c.path, 0));
      ReadShows(policy, base, maxFileBytes, done, c, s);
      if c.action == Modify {
        more, next := Extend(policy, start, more, read, WriteCall(c.path, c.content));
        ModifyMakes(policy, base, maxFileBytes, done, c, read);
      } else {
        more, next := Extend(policy, start, more, read, DeleteCall(c.path));
        DeleteMakes(policy, base, maxFileBytes, done, c, read);
      }
    }
  }

  // What the next change finds: its path is as in the base, and nothing is in its way.
  ghost predicate Next(policy: Policy, base: Tree, maxFileBytes: int, done: seq<Change>, c: Change, s: Session)
  {
    && Permits(policy, c) && HasPlace(base, maxFileBytes, c) && Progress(base, maxFileBytes, done, s)
    && (forall d | d in done :: d.path != c.path)
    && Get(View(s.w), c.path) == Get(base.files, c.path) && !Blocked(s.w, c.path)
  }

  lemma IsNext(policy: Policy, base: Tree, maxFileBytes: int, done: seq<Change>, c: Change, s: Session)
    requires Doable(policy, base, maxFileBytes, done + [c]) && Progress(base, maxFileBytes, done, s)
    ensures Next(policy, base, maxFileBytes, done, c, s)
  {
    var all := done + [c];
    assert c in all && Permits(policy, c) && HasPlace(base, maxFileBytes, c);
    forall d | d in done ensures d.path != c.path && d in all {
      var i :| 0 <= i < |done| && done[i] == d;
      assert all[i] == d && all[|done|] == c;
    }
    if c.path in base.files {
      NotBelowWhenFile(s.w, c.path);
    } else {
      assert c.action == Add;
      forall d | d in done && d.action != Delete ensures c.path !in Parents(d.path) && d.path !in Parents(c.path) {
        if d.action == Modify {
          assert HasPlace(base, maxFileBytes, d);
          assert Parents(d.path) <= base.dirs;
        }
      }
    }
  }

  lemma CarriesOneMore(base: map<Path, Bytes>, done: seq<Change>, c: Change, files: map<Path, Bytes>,
                       next: map<Path, Bytes>)
    requires Carried(base, done, files) && forall d | d in done :: d.path != c.path
    requires next == if c.action == Delete then files - {c.path} else files[c.path := c.content]
    ensures Carried(base, done + [c], next)
  {
    forall p | (forall d | d in done + [c] :: d.path != p) ensures Get(next, p) == Get(base, p) {
      assert c in done + [c];
      forall d | d in done ensures d.path != p {
        assert d in done + [c];
      }
    }
  }

  lemma StoresOneMore(done: seq<Change>, c: Change, overlay: Tree, next: Tree)
    requires StoresOnly(done, overlay)
    requires if c.action == Delete then next.files.Keys <= overlay.files.Keys && next.dirs == overlay.dirs
             else next.files.Keys == overlay.files.Keys + {c.path} && next.dirs == overlay.dirs + Parents(c.path)
    ensures StoresOnly(done + [c], next)
  {
    var all := done + [c];
    assert c in all && forall d | d in done :: d in all;
    forall p | p in next.files ensures exists d :: d in all && d.action != Delete && d.path == p {
      if p in overlay.files {
        var d :| d in done && d.action != Delete && d.path == p;
        assert d in all;
      }
    }
    forall p | p in next.dirs ensures exists d :: d in all && d.action != Delete && p in Parents(d.path) {
      if p in overlay.dirs {
        var d :| d in done && d.action != Delete && p in Parents(d.path);
        assert d in all;
      }
    }
  }

  lemma WriteAdvances(base: Tree, maxFileBytes: int, done: seq<Change>, c: Change, s: Session, expected: Digest)
    requires Progress(base, maxFileBytes, done, s) && c.action != Delete && forall d | d in done :: d.path != c.path
    requires CanWrite(s.w, c.path, c.content, expected) && Stored(c.content, EndingAt(s.w, c.path).ending) == c.content
    ensures var r := Write(s.w, c.path, c.content, expected);
      r.Ok? && Progress(base, maxFileBytes, done + [c], Session(r.value.workspace, RecordRead(s.t, c.path)))
  {
    WriteRefines(s.w, c.path, c.content, expected);
    var next := Write(s.w, c.path, c.content, expected).value.workspace;
    CarriesOneMore(base.files, done, c, View(s.w), View(next));
    assert next.overlay == Put(s.w.overlay, c.path, c.content).value;
    StoresOneMore(done, c, s.w.overlay, next.overlay);
  }

  lemma AddMakes(policy: Policy, base: Tree, maxFileBytes: int, done: seq<Change>, c: Change, s: Session)
    requires Next(policy, base, maxFileBytes, done, c, s) && c.action == Add
    ensures Progress(base, maxFileBytes, done + [c], Step(policy, s, CreateCall(c.path, c.content)))
  {
    WriteAdvances(base, maxFileBytes, done, c, s, AbsentDigest);
    CreateGoesThrough(policy, s, c.path, c.content);
  }

  // A read only counts the path as read.
  lemma ReadShows(policy: Policy, base: Tree, maxFileBytes: int, done: seq<Change>, c: Change, s: Session)
    requires Next(policy, base, maxFileBytes, done, c, s) && c.action != Add
    ensures var read := Step(policy, s, ReadCall(c.path, 0));
      Next(policy, base, maxFileBytes, done, c, read) && c.path in read.t.readPaths
  {
    ReadRefines(s.w, c.path, 0);
    assert Step(policy, s, ReadCall(c.path, 0)) == s.(t := RecordRead(s.t, c.path));
  }

  lemma ModifyMakes(policy: Policy, base: Tree, maxFileBytes: int, done: seq<Change>, c: Change, s: Session)
    requires Next(policy, base, maxFileBytes, done, c, s) && c.action == Modify && c.path in s.t.readPaths
    ensures Progress(base, maxFileBytes, done + [c], Step(policy, s, WriteCall(c.path, c.content)))
  {
    var current := Sha256(View(s.w)[c.path]);
    ReadRefines(s.w, c.path, 0);
    WriteAdvances(base, maxFileBytes, done, c, s, current);
    ResolvesToItself(policy, s.t, c.path);
    assert Step(policy, s, WriteCall(c.path, c.content)) == WriteInspectedStep(policy, s, c.path, c.content);
  }

  lemma DeleteMakes(policy: Policy, base: Tree, maxFileBytes: int, done: seq<Change>, c: Change, s: Session)
    requires Next(policy, base, maxFileBytes, done, c, s) && c.action == Delete && c.path in s.t.readPaths
    ensures Progress(base, maxFileBytes, done + [c], Step(policy, s, DeleteCall(c.path)))
  {
    DeleteGoesThrough(policy, s, c.path);
    RemovedRefines(s.w, c.path);
    RemovalAdvances(base, maxFileBytes, done, c, s, Removed(s.w, c.path));
  }

  lemma DeleteGoesThrough(policy: Policy, s: Session, path: Path)
    requires ValidWorkspace(s.w) && Normal(path) && path in View(s.w)
    requires Readable(View(s.w)[path], Limit(s.w.maxFileBytes, 0))
    requires path in s.t.readPaths && ValidateDelete(policy, path)
    ensures Step(policy, s, DeleteCall(path)) == s.(w := Removed(s.w, path))
    ensures Touchable(s.w.base, path, Limit(s.w.maxFileBytes, 0))
  {
    ReadRefines(s.w, path, 0);
    DeleteRefines(s.w, path, Sha256(View(s.w)[path]));
    assert Step(policy, s, DeleteCall(path)) == DeleteStep(policy, s, path);
  }

  lemma RemovalAdvances(base: Tree, maxFileBytes: int, done: seq<Change>, c: Change, s: Session, next: Workspace)
    requires Progress(base, maxFileBytes, done, s) && c.action == Delete && forall d | d in done :: d.path != c.path
    requires next == Removed(s.w, c.path) && ValidWorkspace(next) && View(next) == View(s.w) - {c.path}
    ensures Progress(base, maxFileBytes, done + [c], s.(w := next))
  {
    CarriesOneMore(base.files, done, c, View(s.w), View(next));
    StoresOneMore(done, c, s.w.overlay, next.overlay);
  }
}
