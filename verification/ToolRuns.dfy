/**
  What every run of workspace tool calls keeps: conformance to the plan, test-only changes, and
  read evidence for each change.
*/
module ToolRuns {
  import opened Paths
  import opened FileTree
  import opened Manifest
  import opened MutationPolicy
  import opened Overlay
  import opened Editor
  import opened ToolSession

  lemma {:induction false} RunKeepsWorkspace(policy: Policy, s: Session, calls: seq<Call>)
    requires ValidWorkspace(s.w)
    ensures var last := Run(policy, s, calls);
      ValidWorkspace(last.w) && last.w.base == s.w.base && last.w.maxFileBytes == s.w.maxFileBytes
  {
    if calls != [] {
      var n := |calls| - 1;
      RunKeepsWorkspace(policy, s, calls[..n]);
      var effect := StepEffect(policy, Run(policy, s, calls[..n]), calls[n]);
    }
  }

  // --- the planner: what a complete listing tells it ---

  predicate OnlyLooks(call: Call)
  {
    call.TreeCall? || call.ReadCall?
  }

  lemma {:induction false} ListingEvidence(s: Session, calls: seq<Call>)
    requires ValidWorkspace(s.w) && s.t == EMPTY
    requires forall c | c in calls :: OnlyLooks(c)
    ensures var last := Run(NoPolicy, s, calls);
      && last.w == s.w
      && last.t.treePaths <= Listed(s.w)
      && (last.t.treeComplete ==> last.t.treeObserved && last.t.treePaths == Listed(s.w))
  {
    if calls != [] {
      var n := |calls| - 1;
      ListingEvidence(s, calls[..n]);
      var before, call := Run(NoPolicy, s, calls[..n]), calls[n];
      assert call in calls;
      if call.TreeCall? && ListingPrefix(call.root).Ok?
        && IsListing(call.listing, s.w, ListingPrefix(call.root).value, EntryBound(call.maxEntries)) {
        CompleteListing(call.listing, s.w, ListingPrefix(call.root).value, EntryBound(call.maxEntries));
      }
    }
  }

  // The plan's actions agree with the base tree, outside the directories a listing leaves out.
  ghost predicate AcceptedPlan(actions: map<Path, Action>, base: Tree)
  {
    forall p | p in actions :: (p in base.files && !Excluded(p)) <==> actions[p] != Add
  }

  // A plan the planner could submit is judged against exactly the base tree.
  lemma AcceptanceIsAgainstBase(base: Tree, maxFileBytes: int, calls: seq<Call>, affected: seq<AffectedPath>)
    requires WellFormed(base) && forall c | c in calls :: OnlyLooks(c)
    requires var t := Run(NoPolicy, Session(Fresh(base, maxFileBytes), EMPTY), calls).t;
      t.treeComplete && forall item | item in affected :: AcceptedItem(item, t.treePaths)
    ensures AcceptedPlan(ActionsOf(affected), base)
  {
    var s := Session(Fresh(base, maxFileBytes), EMPTY);
    ListingEvidence(s, calls);
    ActionsMatchListing(affected, Run(NoPolicy, s, calls).t.treePaths);
  }

  // --- the developer: plan conformance ---

  ghost predicate Conforms(w: Workspace, actions: map<Path, Action>)
  {
    && (forall p | p in w.overlay.files ::
          && p in actions && !IsTestPath(p)
          && (if p in w.base.files then Excluded(p) || actions[p] == Modify else actions[p] == Add))
    && (forall p | p in w.tombstones :: p in actions && !IsTestPath(p) && actions[p] == Delete)
  }

  lemma EffectConforms(actions: map<Path, Action>, s: Session, next: Session, effect: Effect)
    requires ValidWorkspace(s.w) && next.w.base == s.w.base
    requires HasEffect(PlanPolicy(actions), s, next, effect)
    requires AcceptedPlan(actions, s.w.base) && Conforms(s.w, actions)
    ensures Conforms(next.w, actions)
  {}

  lemma {:induction false} RunConforms(actions: map<Path, Action>, s: Session, calls: seq<Call>)
    requires ValidWorkspace(s.w) && AcceptedPlan(actions, s.w.base) && Conforms(s.w, actions)
    ensures Conforms(Run(PlanPolicy(actions), s, calls).w, actions)
  {
    if calls != [] {
      var n := |calls| - 1;
      RunConforms(actions, s, calls[..n]);
      RunKeepsWorkspace(PlanPolicy(actions), s, calls[..n]);
      var before := Run(PlanPolicy(actions), s, calls[..n]);
      var effect := StepEffect(PlanPolicy(actions), before, calls[n]);
      EffectConforms(actions, before, Step(PlanPolicy(actions), before, calls[n]), effect);
    }
  }

  // Every change the developer's manifest reports is a planned one, with the planned action, and
  // never at a test path.
  lemma PlanConformance(actions: map<Path, Action>, base: Tree, maxFileBytes: int, t: ToolState, calls: seq<Call>,
                        files: seq<ChangedFile>)
    requires WellFormed(base) && AcceptedPlan(actions, base)
    requires IsManifestOf(files, Run(PlanPolicy(actions), Session(Fresh(base, maxFileBytes), t), calls).w)
    ensures forall f | f in files :: !IsTestPath(f.path) && f.path in actions && f.action == actions[f.path]
  {
    var s := Session(Fresh(base, maxFileBytes), t);
    RunConforms(actions, s, calls);
    RunKeepsWorkspace(PlanPolicy(actions), s, calls);
    var w := Run(PlanPolicy(actions), s, calls).w;
    forall f | f in files ensures !IsTestPath(f.path) && f.path in actions && f.action == actions[f.path] {
      assert Get(w.base.files, f.path) != Get(Recorded(w), f.path);
      assert f.path in Reported(w) || f.path in w.tombstones;
    }
  }

  // --- the tester: only test paths ---

  ghost predicate TouchesOnlyTests(w: Workspace)
  {
    forall p | p in w.overlay.files.Keys + w.tombstones :: IsTestPath(p)
  }

  lemma {:induction false} RunTouchesOnlyTests(s: Session, calls: seq<Call>)
    requires ValidWorkspace(s.w) && TouchesOnlyTests(s.w)
    ensures TouchesOnlyTests(Run(TestPolicy, s, calls).w)
    ensures s.w.overlay.files.Keys <= s.w.base.files.Keys ==>
      Run(TestPolicy, s, calls).w.overlay.files.Keys <= s.w.base.files.Keys
  {
    if calls != [] {
      var n := |calls| - 1;
      RunTouchesOnlyTests(s, calls[..n]);
      RunKeepsWorkspace(TestPolicy, s, calls[..n]);
      var before := Run(TestPolicy, s, calls[..n]);
      var effect := StepEffect(TestPolicy, before, calls[n]);
    }
  }

  // The tester's manifest only modifies or deletes test files of the base.
  lemma TestConformance(base: Tree, maxFileBytes: int, t: ToolState, calls: seq<Call>, files: seq<ChangedFile>)
    requires WellFormed(base)
    requires IsManifestOf(files, Run(TestPolicy, Session(Fresh(base, maxFileBytes), t), calls).w)
    ensures forall f | f in files :: IsTestPath(f.path) && f.path in base.files && f.action != Add
  {
    var s := Session(Fresh(base, maxFileBytes), t);
    RunTouchesOnlyTests(s, calls);
    RunKeepsWorkspace(TestPolicy, s, calls);
    var w := Run(TestPolicy, s, calls).w;
    forall f | f in files ensures IsTestPath(f.path) && f.path in base.files && f.action != Add {
      assert Get(w.base.files, f.path) != Get(Recorded(w), f.path);
    }
  }

  // --- read evidence ---

  lemma EvidenceOfStep(policy: Policy, s: Session, call: Call, path: Path, effect: Effect)
    requires HasEffect(policy, s, Step(policy, s, call), effect)
    requires Get(View(Step(policy, s, call).w), path) != Get(View(s.w), path)
    ensures path in View(s.w) ==> path in s.t.readPaths
    ensures path !in View(s.w) ==> s.t.treeObserved
    ensures effect.HalfWrote? || path in Step(policy, s, call).t.readPaths || path in s.t.readPaths
  {}

  // Within one server process nothing that existed is changed unread, and nothing is created
  // before the workspace was listed.
  lemma {:induction false} NoChangeWithoutEvidence(policy: Policy, s: Session, calls: seq<Call>, path: Path)
    requires ValidWorkspace(s.w) && s.t == EMPTY && Restart !in calls
    requires Get(View(Run(policy, s, calls).w), path) != Get(View(s.w), path)
    ensures path in View(s.w) || (forall c | c in calls :: !c.Torn?) ==> path in Run(policy, s, calls).t.readPaths
    ensures path !in View(s.w) ==> Run(policy, s, calls).t.treeObserved
  {
    if calls != [] {
      var n := |calls| - 1;
      RunKeepsWorkspace(policy, s, calls[..n]);
      var before := Run(policy, s, calls[..n]);
      assert calls[n] in calls;
      var effect := StepEffect(policy, before, calls[n]);
      forall c | c in calls[..n] ensures c in calls {}
      if Get(View(before.w), path) != Get(View(s.w), path) {
        NoChangeWithoutEvidence(policy, s, calls[..n], path);
      } else {
        EvidenceOfStep(policy, before, calls[n], path, effect);
      }
    }
  }
}
