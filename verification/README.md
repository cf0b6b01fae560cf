# Verified model of the SovereignAI orchestrator core

This project models the parts of the orchestrator whose correctness rests on a protocol or an
algorithm, in Dafny 4.11, and proves what they promise. `dafny verify dfyconfig.toml` checks it all.

Four cores, each with the state machine it runs and the theorems over all its runs:

- **Workspace overlay, manifest, candidate pipeline.** The editor is a copy-on-write overlay with
  tombstones over an immutable base (`Overlay` as functions, `Editor` as the class that changes in
  place). The workspace tools gate each change by read evidence and a plan (`ToolSession`, `ToolRuns`,
  `ToolServer`, `MutationPolicy`); a call may also stop between its two file operations, by a crash or
  a file error. `LostWrites` says which policies let an edit get lost, and `PlanCompletion` that all a
  policy permits can be done. Candidate preparation applies
  two manifests to the base with idempotency markers and recovery (`CandidatePrepare`,
  `CandidateRepository`); a repair overlay is seeded from earlier tests (`RefinementSeeding`).
  `Pipeline` puts the pieces together end to end, and `RepairRounds` does so over any number of test
  repairs.
- **Workspace writer lease.** A lease with a monotone epoch, and the session controller as its client
  (`WriterLease`, `WriterProtocol`, `WriterSafety`, `WriterDepartures` for sessions that end, and
  `WriterPasses` for what one reconcile achieves). Every API call is one step; steps of different
  sessions, crashes, pod changes and deletions interleave in any order. `WriterController` is the
  controller's own code with its retry loops, and is proved to do nothing but runs of the protocol.
- **Inference admission and KV reservations.** The eviction scheduler (`Admission`), the reservation
  accounting as a protocol (`KvAccounting`, `KvSafety`) and as controller code (`KvController`), what one
  reconcile achieves (`KvPasses`), where the two agree (`KvAgreement`) and what goes wrong exactly when
  (`KvFindings`, `KvListings`).
- **Approval gate, evidence and text machines.** One decision per request between API, controller and
  operations (`Approval`, `ApprovalSafety`, `ApprovalResults`, `ApprovalController`, and `ApprovalPasses`
  for what one reconcile or submission achieves), the binding of an
  operation to its gate (`ApprovalBinding`), the event store (`AuditMemory`), lineage stories
  (`Lineage`, `LineageBuilder`, `Projection`, `Coherence` for when a story ends linked, `ApprovalStory`
  for the story of a human decision, `ApprovalEvidence` for what must be logged for it and `StoryLinks`
  for what it tells), JSON repair, line endings, UTF-8 cutting.

How things are represented: a digest is the content it stands for, so it is injective; a file tree is a
map from cleaned paths to bytes together with its directories; an object of the cluster is a value and
a write takes effect only if the stored value still equals the copy it was computed from. `ObjectStore`
proves that a resource-version check gives at least that. Reads are linearizable. One reconcile per
object name is in flight at a time, which is what the controller runtime guarantees. A crash drops
everything a process has in memory. Clocks, policy answers, failing calls and the scheduler's choice
inside the reservation protocol are unconstrained inputs.

In the controller classes the method `Interfere` stands for everybody else's turn. Its body does
nothing, but its contract allows any run of the protocol without the caller's own steps, and callers
see only the contract. What a call is told, and whether it fails, is fixed for every moment by the
constant `answers` of the object, and a controller records exactly that: it cannot invent a failure. When
nothing interferes, a controller method achieves what the pass theorems of its protocol say, which are
stated in the stored objects before and after.

## What was found

- An edit below `vendor` or another skipped directory shows in the view, and the manifest loses it. A
  plan may name such a path and is accepted; a tester, who has no plan, can do it to any test file of
  the base there (`LostWrites.SuchPathsExist` names `vendor/a` and `vendor/test_a`).
  `LostWrites.EveryRunIsRecordedIff` says for every policy and base exactly when some run loses an
  edit, and `LostWrites.PlannedFileIsLost` and `LostWrites.TestEditIsLost` give runs. Where no edit can
  be lost, `Pipeline.EndToEndEverywhere` holds at every path.
- A term whose epoch its session never recorded is not released when the session ends, neither when the
  object is deleted (`WriterDepartures.GoneStillHolding`) nor when it expires and stays
  (`WriterDepartures.CancelledStillHolding`). `WriterDepartures.DepartedKeepsLeaseIff` and
  `WriterDepartures.CancelledKeepsLeaseIff` say that the lease is then held in every later run if and only
  if the session was granted a term and its recorded epoch is still 0.
- The scheduler may interrupt leases although a later endpoint has room; `Admission.EvictsDespiteRoom`
  says exactly when, and `Admission.EvictionDespiteRoomHappens` gives two snapshots.
- A crash while a victim is being interrupted leaves it running but unlisted, so the scheduler counts
  on memory that is free already (`KvFindings.RunningUnlistedIsReachable`). `KvListings.BecomesUnlistedIff`
  names the steps that do it, and `KvAgreement.EvictFitsIff` says which eviction decisions the binder
  accepts.
- Interrupting a lease does not look at its phase: from the empty cluster a run reaches a lease that
  succeeded and is then reported as interrupted (`KvFindings.OverwriteIsReachable`).
  `KvFindings.FinishedChangesIff` says that a finished lease changes by exactly these writes.
- Once the decision of a request is deleted for good, another submission can take its slot: two submissions
  with opposite verdicts both succeed (`ApprovalResults.EmptiedSlotIsReused`). From any moment on there is
  one decision at most if and only if every decision made so far under the request's name is the one in its
  slot (`ApprovalResults.OneDecisionIff`); and the request object consumes at most one in any case
  (`ApprovalResults.OneDecisionConsumed`).
- The manifests of developer and tester always apply together, over any number of repairs
  (`RepairRounds.RoundsAlwaysApply`). Only a prior test manifest that no tester made can clash: one that adds
  a test below a path where the developer puts a file (`RepairRounds.ForeignTestsCanClash`).
- When the two manifests list more than 128 files together, preparation refuses only after both are applied
  and before anything is recorded. Its own recovery then refuses this checkout, so every later preparation
  from that commit fails there (`CandidateRepository.Repository.Run` and its predicate `Stuck`).
- Whether a gate with repeated retry numbers is ambiguous depends on the order of the list
  (`ApprovalBinding.OrderDecidesAmbiguity`); `ApprovalBinding.LatestGate` has the exact condition.
- Where the comment in `internal/controllers/approval_binding.go` says that only the latest gate attempt
  authorizes, the code agrees whenever it resolves at all; it can still refuse an unambiguous latest
  attempt because of two earlier ones with equal numbers.

## Model

| member | source | states |
|---|---|---|
| Overlay.ReadRefines | internal/workspaceeditor/editor.go:81-102 | reading looks a path up in the one map the overlay stands for |
| Overlay.WriteRefines | internal/workspaceeditor/editor.go:104-131 | a write goes through exactly when the digest is current and nothing is in the way, and changes only its own path of the map |
| Overlay.WriteKeepsText | internal/workspaceeditor/editor.go:104-131 | what is stored is consistent text with the same LF form as what was written |
| Overlay.WriteBackIsIdentity | internal/workspaceeditor/editor.go:371-389 | writing back what was read changes neither view nor digest, for every consistent text, and is refused for mixed endings |
| Overlay.ReplaceIsWrite | internal/workspaceeditor/editor.go:133-154 | a replace is a write of the LF form with every occurrence rewritten |
| Overlay.ReplaceRefines | internal/workspaceeditor/editor.go:133-154 | when a replace goes through, and that only its own path changes |
| Overlay.DeleteRefines | internal/workspaceeditor/editor.go:156-180 | delete is removal from the map, with the exact condition under which it goes through |
| Overlay.RemovedRefines | internal/workspaceeditor/editor.go:172-179 | the two file operations of a deletion together keep the overlay's invariant |
| Overlay.RecordedIsView | internal/workspaceeditor/editor.go:255-333 | the manifest records exactly the view outside skipped directories, and all of it iff what is stored inside them equals the base |
| Overlay.ExcludedWriteIsLost | internal/workspaceeditor/editor.go:470-477 | a write inside a skipped directory shows in the view and not in the manifest |
| Overlay.ManifestRoundTrip | internal/workspaceeditor/editor.go:284-333 | applying the manifest to the base, in any order, never fails and yields what it records |
| Overlay.ManifestValidates | internal/artifactcontract/validate.go:168-216 | a manifest of 1 to 128 files passes the validator iff no path is too long or has a backslash |
| Editor.Editor.Write | internal/workspaceeditor/editor.go:104-131 | the method leaves exactly the workspace the function says, and refuses without a change otherwise |
| Editor.Editor.Replace | internal/workspaceeditor/editor.go:133-154 | the method does the specified replace |
| Editor.Editor.Delete | internal/workspaceeditor/editor.go:156-180 | the method does the specified delete |
| Editor.Editor.TreeListing | internal/workspaceeditor/editor.go:187-223 | the listing is sorted, complete below its root and cut at the bound |
| Editor.CompleteListing | internal/workspaceeditor/editor.go:206-222 | a listing that is not truncated shows exactly the visible paths below its root |
| Editor.Editor.Changes | internal/workspaceeditor/editor.go:255-333 | in a state the editor produced the manifest never fails and is the sorted diff of base and recorded view |
| Editor.CollectedIsDiff | internal/workspaceeditor/editor.go:284-323 | comparing base and overlay path by path yields each changed path once with its action and digests |
| Manifest.ApplyFollowsPatch | internal/utility/candidate.go:162-221 | applying a manifest either follows its meaning as a patch exactly or is refused |
| Manifest.ApplyDiff | internal/utility/candidate.go:162-221 | the entries of a diff apply in any order and turn one file set into the other when no file is in the way of a directory |
| Manifest.AppliedMetItsBase | internal/utility/candidate.go:173-179 | nothing stale is applied: every entry met the content that its base digest names, or nothing where it adds a file |
| Paths.SortedListingUnique | internal/artifactcontract/validate.go:584-591 | a set of paths has one sorted listing |
| MutationPolicy.NewWorkspaceMutationPolicy | internal/artifactcontract/workspacepolicy.go:14-35 | the policy of each contract |
| MutationPolicy.ActionsOfIsLast | internal/artifactcontract/workspacepolicy.go:14-35 | a plan's policy has the action a path is listed with last, and no path that is not listed |
| MutationPolicy.ValidateAffectedWorkspacePaths | internal/artifactcontract/workspacepolicy.go:112-137 | a plan is accepted iff nothing was listed, or the listing is complete and every item fits it |
| MutationPolicy.ActionsMatchListing | internal/artifactcontract/workspacepolicy.go:112-137 | in an accepted plan add means absent and modify or delete means present |
| ToolSession.StepEffect | cmd/mcp-server/main.go:346-491 | every tool call keeps the workspace valid over the same base and is nothing, one permitted write, one permitted removal, or the first file operation of either |
| ToolSession.TornIsFirstHalf | internal/workspaceeditor/editor.go:124-129 | a call that stops halfway leaves exactly what the first of its two file operations does |
| ToolRuns.RunKeepsWorkspace | cmd/mcp-server/main.go:346-491 | every run of tool calls, with restarts between them and with stops and crashes inside them, keeps the workspace valid over the same base |
| ToolRuns.AcceptanceIsAgainstBase | cmd/mcp-server/main.go:135-156 | a plan a read-only planner can submit agrees with the base tree itself |
| ToolRuns.PlanConformance | internal/artifactcontract/workspacepolicy.go:37-110 | after any run under an accepted plan, also with calls that stop halfway, every manifest entry is a non-test path with exactly the planned action |
| ToolRuns.TestConformance | internal/artifactcontract/workspacepolicy.go:37-62 | after any run under the test contract, also with calls that stop halfway, every manifest entry modifies or deletes a test file of the base |
| ToolRuns.NoChangeWithoutEvidence | cmd/mcp-server/main.go:158-188 | within one server process nothing that existed is changed unread and nothing is created before a listing, also where a call stops halfway |
| LostWrites.EveryRunIsRecordedIff | internal/workspaceeditor/editor.go:470-477 | under a policy every run's manifest records the whole view iff the policy allows no edit at a writable path below a skipped directory |
| LostWrites.SomeRunLosesIt | internal/workspaceeditor/editor.go:470-477 | such a path gives a run whose edit shows in the view while the record keeps the base |
| LostWrites.PlanOutsideSkippedIsRecorded | internal/artifactcontract/workspacepolicy.go:112-137 | under a plan that names no path below a skipped directory every run is recorded in full |
| LostWrites.PlannedFileIsLost | internal/artifactcontract/workspacepolicy.go:112-137 | an accepted plan and a run under it that loses the planned file |
| LostWrites.TestEditIsLost | internal/artifactcontract/workspacepolicy.go:37-62 | a base and a tester's run that loses the edit of a test file |
| PlanCompletion.PermittedChangesCanBeMade | internal/artifactcontract/workspacepolicy.go:37-110 | any list of changes that the policy permits and the trees have a place for is made by some run of tool calls, and the manifest then records these changes and no other |
| PlanCompletion.PossibleIffPermitted | internal/artifactcontract/workspacepolicy.go:37-110 | a change for which there is a place is the only recorded one of some run iff the policy permits it: test files modified or deleted, or the planned action elsewhere |
| ToolServer.ToolServer.WorkspaceTree | cmd/mcp-server/main.go:347-355 | the handler makes the specified step: answers the bounded listing for every root that is a path, and counts its entries, and a listing of the top, as evidence |
| ToolServer.ToolServer.WorkspaceRead | cmd/mcp-server/main.go:356-366 | the handler shows the visible content iff it is readable text within the limits, and then counts the path as read |
| ToolServer.ToolServer.WorkspaceWrite | cmd/mcp-server/main.go:373-413 | goes through iff the file was read, may be updated and can be written, and changes; then the file holds the content in its own line ending and nothing else changes |
| ToolServer.ToolServer.WorkspaceReplace | cmd/mcp-server/main.go:436-472 | goes through iff the file was read, may be updated, holds the old text as often as expected, and changes; then every occurrence is the new text and nothing else changes |
| ToolServer.ToolServer.WorkspaceCreate | cmd/mcp-server/main.go:414-435 | goes through iff the workspace was listed, the path is neither listed nor there, may be created and can be written; then it holds the content with LF and nothing else changes |
| ToolServer.ToolServer.WorkspaceDelete | cmd/mcp-server/main.go:473-491 | goes through iff the file was read, may be deleted and is readable; then it is gone and nothing else changes |
| ToolServer.ToolServer.ResolveWritePath | cmd/mcp-server/main.go:509-522 | a blank path stands for the one inspected path that may be updated, iff there is exactly one |
| CandidatePrepare.EnsureDisjoint | internal/utility/candidate.go:149-160 | the check passes iff no path is in both manifests |
| CandidatePrepare.ExpectedTreeAt | internal/utility/candidate.go:106-121 | path by path, what the tree of two disjoint manifests holds |
| CandidatePrepare.RestoreUndoesCandidate | internal/utility/candidate_recovery.go:57-80 | restoring the changed paths of a recorded candidate takes its tree back to the clean base |
| CandidatePrepare.AcceptableIffWellMade | internal/artifactcontract/validate.go:168-216 | the inputs pass validation iff they are two sorted manifests of 1 to 128 entries from one commit, request and plan, one of test files only, each entry a path with its base and a text under its own digest |
| CandidatePrepare.AppliedMeetBase | internal/utility/candidate.go:173-179 | when both manifests apply, every entry of both has the base commit's digest at its path |
| CandidateRepository.Repository.Run | internal/utility/candidate.go:39-147 | from any checkout and with a stop at any external effect: success reports the tree of its artifacts, is recorded under its key only, and a key belongs to one set of inputs; a first success means well-made manifests with nothing stale in them; a first try without a stop on a clean base succeeds iff the manifests are disjoint, apply and list at most 128 files; with more, the checkout is stuck |
| CandidateRepository.Repository.RestoreCandidateBase | internal/utility/candidate_recovery.go:42-83 | recovery succeeds only on the clean base, or by undoing one recorded unchanged candidate, and refuses only for the listed reasons |
| CandidateRepository.Repository.UndoCandidate | internal/utility/candidate_recovery.go:66-80 | the restore goes through iff it can run and the restored files fit, and then the checkout is the clean base |
| CandidatePrepare.TooManyIsNoCandidate | internal/artifactcontract/validate.go:218-238 | no recorded candidate can have the tree of inputs that list more paths than a candidate may |
| CandidateRepository.Repository.ApplyChangedFiles | internal/utility/candidate.go:162-221 | worktree and index change in step, file by file; it goes through iff nothing stops it and every entry applies, and then each entry met the content its base digest names |
| CandidateRepository.MatchesAfterApply | internal/utility/candidate.go:216-218 | after a manifest is applied to both, index and worktree agree |
| CandidateRepository.PrepareAll | internal/utility/candidate.go:82-147 | over any sequence of preparations with crashes, other keys and other checkouts in between, every success reports base, change set and tests combined |
| RefinementSeeding.SeedingConverges | cmd/mcp-server/retry_workspace.go:59-97 | however often seeding is interrupted, the run that completes ends in the same workspace as an uninterrupted one |
| RefinementSeeding.SeededView | cmd/mcp-server/retry_workspace.go:63-92 | the seeded view is the base with the prior manifest applied, each result in the line ending of the base file |
| RefinementSeeding.StoredUnchanged | internal/workspaceeditor/editor.go:371-389 | a prior result is stored byte for byte iff it is consistent and has that ending |
| RefinementSeeding.PrepareRefinementWorkspace | cmd/mcp-server/retry_workspace.go:49-97 | the method seeds once, or does nothing when the marker is there |
| Pipeline.EndToEnd | internal/utility/candidate.go:39-147 | for any plan, any run of the developer's tools under it and any run of the tester's, the prepared tree is the tester's view on test paths and the developer's elsewhere, outside skipped directories |
| Pipeline.EndToEndEverywhere | internal/utility/candidate.go:39-147 | when neither policy lets an edit get lost, the prepared tree is the two views at every path |
| Pipeline.PrepareFromSessions | internal/utility/candidate.go:39-147 | a preparation of the two runs' manifests that succeeds, from any checkout, reports exactly those two views |
| Pipeline.ManifestsCombine | internal/utility/candidate.go:106-121 | the two manifests are disjoint and their tree is, path by path, what the responsible agent recorded |
| Pipeline.SeededTouchesOnlyTests | cmd/mcp-server/retry_workspace.go:49-97 | a seeded repair workspace is a valid start of the tester's run |
| Pipeline.PreparationRefusedIff | internal/utility/candidate.go:109-117 | on a clean checkout the second manifest is refused iff a file one agent adds stands where a file the other adds needs a directory |
| RepairRounds.RoundsAddNothing | cmd/mcp-server/retry_workspace.go:49-97 | in every round, over the bare base or seeded from an earlier round's manifest, the tester adds no file |
| RepairRounds.RoundsAlwaysApply | internal/utility/candidate.go:109-117 | for any plan, developer run and number of test rounds both manifests apply on a clean checkout and give the two views |
| RepairRounds.PrepareRounds | internal/utility/candidate.go:39-147 | an uninterrupted first preparation of them succeeds iff they list at most 128 files together |
| RepairRounds.ForeignTestsCanClash | cmd/mcp-server/retry_workspace.go:49-97 | a hand-made prior test manifest that passes validation and makes preparation refuse |
| ObjectStore.AcceptedUpdateFindsTheCopy | internal/controllers/workspace_writer.go:53-55 | an update accepted by resource version finds exactly the value that was read |
| WriterLease.IdentityTextIsInjective | internal/controllers/workspace_writer.go:161-166 | different writers have different holder identities, as long as no name has a slash |
| WriterLease.AcquireKeepsLease | internal/controllers/workspace_writer.go:103-118 | a grant takes an empty lease to the next epoch and revives no earlier term |
| WriterLease.ReleaseKeepsLease | internal/controllers/workspace_writer.go:149-157 | a release ends exactly its own term and keeps the epoch |
| WriterSafety.RunKeepsInv | internal/controllers/humansession_controller.go:48-310 | the protocol's invariant holds after every interleaving |
| WriterSafety.MutualExclusion | internal/controllers/humansession_controller.go:121-158 | at most one session has a live pod, and the term in it is the lease's |
| WriterSafety.TermChanges | internal/controllers/workspace_writer.go:149-157 | the lease's term changes only by a grant to an empty lease or by its holder's own reconcile, and then no pod is live |
| WriterSafety.EpochsGrow | internal/controllers/workspace_writer.go:105-113 | the epoch counts the grants, never decreases and stays an int32 |
| WriterSafety.OneHolderPerEpoch | internal/controllers/workspace_writer.go:53-59 | pods with the same epoch, at any two moments, belong to the same session object |
| WriterSafety.LostIsFinal | internal/controllers/workspace_writer.go:85-93 | a term answered Lost is never Granted again |
| WriterDepartures.OneTermEach | internal/controllers/workspace_writer.go:103-118 | every session object is granted at most one term, ever |
| WriterDepartures.HeldIffUnrecorded | internal/controllers/humansession_controller.go:236-239 | a session with nothing to release still holds the lease iff it was granted a term and its recorded epoch is 0 |
| WriterDepartures.EndedHasNothingToRelease | internal/controllers/humansession_controller.go:71-89 | an expired session, and one about to lose its finalizer, has nothing to release |
| WriterDepartures.DepartureHoldsIff | internal/controllers/humansession_controller.go:291-310 | a step that removes a session object leaves the lease held by it iff it was granted a term it never recorded |
| WriterDepartures.StuckForEver | internal/controllers/humansession_controller.go:236-239 | once an ended or gone session holds the lease, no run frees it again |
| WriterDepartures.DepartedKeepsLeaseIff | internal/controllers/humansession_controller.go:291-310 | a removed session object keeps the lease in every later run iff it was granted a term it never recorded |
| WriterDepartures.CancelledKeepsLeaseIff | internal/controllers/humansession_controller.go:71-89 | a cancelled session at rest keeps the lease in every later run iff it was granted a term it never recorded |
| WriterDepartures.GoneStillHolding | internal/controllers/humansession_controller.go:291-310 | a run in which a session crashes after its grant, is deleted and finalized, and leaves the lease held |
| WriterDepartures.CancelledStillHolding | internal/controllers/humansession_controller.go:71-89 | a run in which it expires instead, stays as cancelled, and holds the lease |
| WriterPasses.PassStartsPod | internal/controllers/humansession_controller.go:121-158 | an undisturbed reconcile of a session that waits for an empty lease ends with the lease at the next epoch in its name, a pod under exactly this term, and the session recording both |
| WriterPasses.PassUnderTerm | internal/controllers/humansession_controller.go:121-191 | under its term a reconcile leaves a pod, its own or the one that was there, and reports Running iff that pod runs and is ready |
| WriterPasses.PassAfterLoss | internal/controllers/humansession_controller.go:121-147 | a session whose recorded term the lease no longer shows is interrupted and its pod deleted |
| WriterPasses.PassBlocked | internal/controllers/humansession_controller.go:121-147 | while somebody else holds the lease a session without a pod waits unchanged, and one with a pod is interrupted |
| WriterPasses.PassPrepares | internal/controllers/humansession_controller.go:56-112 | a new session gets its finalizer and is prepared |
| WriterPasses.PassExpires | internal/controllers/humansession_controller.go:71-89 | an expired session whose pod is gone is cancelled and its recorded term released; while the pod lives it stays |
| WriterPasses.PassFinalizes | internal/controllers/humansession_controller.go:291-310 | a deleted session goes once its pod is gone, and its recorded term with it |
| WriterPasses.PassReleases | internal/controllers/humansession_controller.go:256-275 | an ended session releases its recorded term once its pod is gone |
| WriterPasses.ConflictIsRetried | internal/controllers/workspace_writer.go:60-121 | a conflicting lease write changes nothing and is tried again, five times in all |
| WriterPasses.LivePodIsReachable | internal/controllers/humansession_controller.go:48-191 | a run from the empty cluster to a live, running pod under the first epoch |
| WriterController.Cluster.AcquireWorkspaceWriter | internal/controllers/workspace_writer.go:60-121 | Granted means held at return whatever happened meanwhile, Lost means over for good, and the five tries are steps of the protocol |
| WriterController.Cluster.ReleaseWorkspaceWriter | internal/controllers/workspace_writer.go:126-159 | success means the term is over unless the lease is being deleted |
| WriterController.Cluster.PodWriterQuiescent | internal/controllers/workspace_writer.go:184-196 | a quiescent answer means that the pod is not live |
| WriterController.Cluster.Reconcile | internal/controllers/humansession_controller.go:48-191 | one reconcile is one uninterrupted pass of the protocol, from start to idle, on the answers its calls are given; with nothing in between it achieves what the pass theorems say |
| WriterController.Cluster.FinalizeWorkspaceWriter | internal/controllers/humansession_controller.go:291-310 | finalization is the protocol's, in its order |
| Admission.EvictionCandidates | internal/inference/admission.go:85-99 | exactly the evictable running leases of lower priority, each as often as listed, by priority and then age |
| Admission.Select | internal/inference/admission.go:31-54 | the first endpoint that has room or can make it, with the shortest sufficient prefix of candidates; the endpoint serves the model and scope of the request, and each victim is an evictable, running lease of lower priority there |
| Admission.CreateIff | internal/inference/admission.go:50-53 | creation or waiting is chosen iff no compatible endpoint has room or a collection of its evictable, running leases of lower priority that would make it |
| Admission.VictimsAreMinimax | internal/inference/admission.go:42-47 | every other set that helps has a lease of at least the last victim's priority |
| Admission.HopelessIff | internal/inference/admission.go:39-48 | an endpoint is passed over iff no choice of eligible victims makes room there |
| Admission.EvictsDespiteRoom | internal/inference/admission.go:32-48 | with room somewhere, Reuse is chosen iff no earlier endpoint could make room by eviction |
| Admission.EvictionDespiteRoomHappens | internal/inference/admission.go:31-54 | two snapshots on which every decision interrupts a lease although the second endpoint has room |
| KvSafety.AllocationIsExact | internal/controllers/inference_lease_controller.go:288-367 | in every run allocation is the sum over a duplicate-free list, the count its length, and allocation plus headroom fits |
| KvSafety.FloorNeverBites | internal/controllers/inference_lease_controller.go:435-437 | no removal ever reaches the floor at zero |
| KvSafety.RemovedAccount | internal/controllers/inference_lease_controller.go:431-438 | removal takes off exactly one listed lease and its estimate |
| KvSafety.LookupStepOk | internal/controllers/inference_lease_controller.go:333-367 | the prune loop keeps a part of the list and its exact sum, whatever the lookups answer |
| KvPasses.PassStarts | internal/controllers/inference_lease_controller.go:64-87 | an undisturbed reconcile of a new lease adds its finalizer and makes it pending |
| KvPasses.PassRejects | internal/controllers/inference_lease_controller.go:152-191 | a pending lease that the policy rejects is rejected, and no endpoint changes |
| KvPasses.PassReleases | internal/controllers/inference_lease_controller.go:407-440 | a lease whose release was asked for ends as succeeded, and its endpoint lists all but it, with the count and sum less by it |
| KvPasses.PassFinalizes | internal/controllers/inference_lease_controller.go:55-63 | a deleted lease goes away and its reservation with it |
| KvPasses.PassBinds | internal/controllers/inference_lease_controller.go:288-367 | a pending lease with a place is listed next to exactly those leases that are there, not going away, not over and not bound elsewhere, in their order and with their sum, and runs; without room nothing changes |
| KvPasses.PassEvicts | internal/controllers/inference_lease_controller.go:107-123 | an evicting reconcile interrupts exactly its victims, takes them off the endpoint, and binds the lease there iff it has a place next to what is left |
| KvPasses.PassDoesNothing | internal/controllers/inference_lease_controller.go:70-79 | a lease that runs, has ended or has to wait stays as it is |
| KvPasses.ConflictIsRetried | internal/controllers/inference_lease_controller.go:288-328 | a conflicting update of an endpoint changes nothing and is tried again, five times in all |
| KvPasses.RunsThenEnds | internal/controllers/inference_lease_controller.go:48-123 | a run from the empty cluster in which a lease fills an endpoint, runs, is released, and leaves the endpoint empty |
| KvAgreement.ReuseFits | internal/controllers/inference_lease_controller.go:299-306 | the scheduler sees room iff the binder accepts the same state, however it prunes |
| KvAgreement.EvictFitsIff | internal/controllers/inference_lease_controller.go:107-123 | after the victims are interrupted the binder accepts iff the listed victims alone suffice |
| KvAgreement.EvictFits | internal/controllers/inference_lease_controller.go:107-123 | with every running lease listed, an eviction decision is one the binder accepts |
| KvAgreement.InterruptsAll | internal/controllers/inference_lease_controller.go:107-123 | an undisturbed reconcile that evicts leaves the endpoint without its victims, the victims interrupted, and nothing else changed |
| KvAgreement.EvictionIsAccepted | internal/controllers/inference_lease_controller.go:107-123 | with every running lease listed it then arrives at the binding, and the binder accepts |
| KvFindings.FinishedChangesIff | internal/controllers/inference_lease_controller.go:390-405 | a finished lease changes phase iff a victim write succeeds whose lookup had found it finished, and then it becomes interrupted |
| KvFindings.OverwriteIsReachable | internal/controllers/inference_lease_controller.go:390-405 | from the empty cluster a run reaches a lease that succeeded and whose next step reports it as interrupted |
| KvFindings.RunningUnlistedIsReachable | internal/controllers/inference_lease_controller.go:390-405 | a run that ends with a running lease its endpoint does not list |
| KvListings.BecomesUnlistedIff | internal/controllers/inference_lease_controller.go:390-440 | exactly which steps leave a running lease unlisted; for a report of a running lease, exactly when some step took it off since the read or write it rests on |
| KvListings.TakenOffIff | internal/controllers/inference_lease_controller.go:288-328 | a lease about to be reported as running is unlisted iff it was taken off after its binding |
| KvController.Cluster.PruneEndpointReservations | internal/controllers/inference_lease_controller.go:333-367 | the loop ends with a duplicate-free part of the list and its sum |
| KvController.Cluster.Bind | internal/controllers/inference_lease_controller.go:288-328 | reserve, then report, as runs of the protocol with five attempts |
| KvController.Cluster.RemoveEndpointReservation | internal/controllers/inference_lease_controller.go:420-440 | five attempts at the removal, as runs of the protocol |
| KvController.Cluster.Reconcile | internal/controllers/inference_lease_controller.go:48-123 | one reconcile is one uninterrupted pass of the protocol on the answers its calls are given; with nothing in between it achieves what the pass theorems say |
| ApprovalResults.SucceededMeansApproved | internal/controllers/approvalrequest_controller.go:158-218 | a succeeded request is bound to an approving decision for this object by a member of a required group, already logged |
| ApprovalResults.OutcomeIsFinal | internal/controllers/approvalrequest_controller.go:141-156 | the outcome of a terminal request never changes |
| ApprovalResults.AdmissionHasSubmission | internal/audit/approval.go:75-109 | an admission in the log has its submission with the same evidence, and a completed request behind it |
| ApprovalResults.LogOnlyGrows | internal/audit/memory.go:20-34 | events in the log stay as they are |
| ApprovalResults.OneDecisionPerRequest | internal/api/v1/approve.go:75-99 | unless that very decision is deleted for good, at most one is ever made under the name of a request |
| ApprovalResults.OneDecisionIff | internal/api/v1/approve.go:75-99 | from any moment on, with the slot kept, there is one decision at most iff every decision made so far under the request's name is the one stored there |
| ApprovalResults.SuccessfulSubmissionsAgree | internal/api/v1/approve.go:125-135 | unless its decision is deleted for good, two successful submissions for one request have the same subject and verdict |
| ApprovalResults.EmptiedSlotIsReused | internal/api/v1/approve.go:75-99 | a run with that deletion in which two submissions with opposite verdicts both succeed |
| ApprovalResults.OneDecisionConsumed | internal/controllers/approvalrequest_controller.go:141-156 | whatever is deleted, a request object consumes at most one decision, and always the same |
| ApprovalResults.ResolutionIsConsumed | internal/controllers/approval_binding.go:53-72 | what an operation resolves is the decision the request consumed, read at any two moments |
| ApprovalPasses.PassOnGoodDecision | internal/controllers/approvalrequest_controller.go:158-218 | an undisturbed reconcile of a waiting request whose slot holds a decision made for it by a named subject in a required group, with its authority given, ends it as succeeded or denied as the decision says, bound to exactly it, with both events logged |
| ApprovalPasses.PassOnBadDecision | internal/controllers/approvalrequest_controller.go:158-218 | with any other decision in the slot, or its authority refused, the request fails for another reason |
| ApprovalPasses.PassOnEmptySlot | internal/controllers/approvalrequest_controller.go:158-166 | with an empty slot it stays as it is |
| ApprovalPasses.PassOnNewRequest | internal/controllers/approvalrequest_controller.go:38-140 | a new request starts to wait or fails, as its inputs and policy say |
| ApprovalPasses.PassOnEnded | internal/controllers/approvalrequest_controller.go:221-232 | a request that ended under a decision which is still there gets both events logged |
| ApprovalPasses.PassSubmits | internal/api/v1/approve.go:25-99 | a submission by a member of a required group puts exactly the decision asked for into the empty slot of a waiting request, logs it and is answered with success |
| ApprovalPasses.PassSubmitsAgain | internal/api/v1/approve.go:125-135 | with a filled slot it is answered with success iff the decision there says the same, and the slot stays |
| ApprovalPasses.PassRefuses | internal/api/v1/approve.go:101-123 | whoever may not decide, or decides what nobody waits for, changes nothing |
| ApprovalPasses.ConflictIsRetried | internal/controllers/approvalrequest_controller.go:141-156 | a conflicting status write changes nothing and is tried again, five times in all |
| ApprovalPasses.SuccessIsReachable | internal/controllers/approvalrequest_controller.go:158-218 | a run from the empty cluster to a succeeded request with its admission logged |
| ApprovalSafety.AppendKeeps | internal/audit/approval.go:62-73 | events have deterministic content: a replayed one equals what is stored |
| ApprovalController.Cluster.SubmitApproval | internal/api/v1/approve.go:25-99 | success means that a decision of exactly this subject and verdict exists for the request and is logged, and is what the protocol counts; with nothing in between the submission achieves what the pass theorems say |
| ApprovalController.Cluster.ValidateApprovalDecision | internal/controllers/approvalrequest_controller.go:256-280 | the check passes iff the decision is bound, supported, authored and by a member of a required group |
| ApprovalController.Cluster.UpdateApprovalStatus | internal/controllers/approvalrequest_controller.go:141-156 | five attempts on fresh reads, as runs of the protocol |
| ApprovalController.Cluster.ReconcileRequest | internal/controllers/approvalrequest_controller.go:38-93 | one reconcile is one uninterrupted pass of the protocol on the answers its calls are given; with nothing in between it achieves what the pass theorems say |
| ApprovalBinding.LatestGate | internal/controllers/approval_binding.go:33-45 | the only attempt with the highest number, ambiguous iff two equal ones come before any later one |
| ApprovalBinding.OrderDecidesAmbiguity | internal/controllers/approval_binding.go:39-44 | 3, 3, 5 is ambiguous and 3, 5, 3 is not |
| ApprovalBinding.DistinctRetriesAreClear | internal/controllers/approval_binding.go:39-44 | with distinct numbers the scan is never ambiguous |
| ApprovalBinding.PinnedSubject | internal/controllers/approval_binding.go:104-118 | the only input of that name, iff it is an exact pin |
| ApprovalBinding.Resolve | internal/controllers/approval_binding.go:18-102 | resolves iff the steps are sound and the latest attempt at the gate succeeded under its own request, by an approving decision made for it, on the one pinned artifact that the operation names too; all in the fields of these objects |
| ApprovalBinding.ValidateOperationApproval | internal/controllers/approval_binding.go:122-157 | an operation may run iff nothing asks for approval, or it carries the one binding that resolves now |
| ApprovalBinding.ValidateApprovalRequirements | internal/api/v1alpha1/approval_binding.go:21-46 | accepted iff every requirement names an earlier human gate sharing one subject input |
| AuditMemory.MemoryRecorder.Append | internal/audit/memory.go:20-34 | the first event with an id stays |
| AuditMemory.MemoryRecorder.ListWorkflow | internal/audit/memory.go:36-56 | exactly the events of the workflow, by time and then id |
| AuditMemory.ListingUnique | internal/audit/memory.go:48-54 | the list is determined by what is stored |
| AuditMemory.ReplayRecordsTheSame | internal/audit/memory.go:20-34 | replaying events in any order, any number of times, records the same facts |
| Lineage.StoryIsSound | internal/audit/projection.go:113-222 | after any builder run ids are unique, links are unique with both ends present, and the status is the worst issue |
| Lineage.StoryOnlyGrows | internal/audit/projection.go:113-196 | nothing recorded is lost later in a run and the status never gets better |
| LineageBuilder.StoryBuilder.Issue | internal/audit/projection.go:113-123 | the method records the issue once and keeps the worst status |
| LineageBuilder.StoryBuilder.Node | internal/audit/projection.go:159-178 | a known id only gains sources, a conflicting resource becomes an issue |
| LineageBuilder.StoryBuilder.Link | internal/audit/projection.go:185-196 | a link between known nodes is recorded once |
| LineageBuilder.StoryBuilder.Pin | internal/audit/projection.go:205-222 | a pin that disagrees with what is known becomes an issue |
| Projection.BuildProjection | internal/audit/projection.go:63-112 | the result is the projection of the events in order of their ids, refused iff two different events share an id or the selected one is not told; each story is what the plan for its event gives |
| Projection.OrderDoesNotMatter | internal/audit/projection.go:66-73 | the result does not depend on the order of the input events |
| Projection.RefusedIff | internal/audit/projection.go:63-112 | a projection is refused iff two different events share an id or the selected one is not there to start a story of the workflow |
| Projection.EveryChosenIsTold | internal/audit/projection.go:75-107 | every root event of the workflow gets its story |
| Projection.NoStoryTwice | internal/audit/projection.go:74-79 | no event is told twice |
| ApprovalStory.ApprovalOps | internal/audit/projection.go:353-472 | the operations for an admitted decision report no issue iff the log backs it: same submission, exactly the reviewed inputs, every citing operation bound and authorized on the reviewed subject, and one such for an approval |
| ApprovalStory.ReviewOps | internal/audit/projection.go:473-498 | the reviewed inputs raise no issue iff every pin is among them, valid, and with its validation backed |
| ApprovalStory.ValidationOps | internal/audit/projection.go:511-554 | a validated artifact raises no issue iff some evaluation of its producer is logged and each has its authority and inputs |
| ApprovalStory.LinkedIffBacked | internal/audit/projection.go:353-472 | an approval story ends linked iff the log backs the decision and everything the story names is coherent |
| ApprovalEvidence.BackedIffSupported | internal/audit/projection.go:353-554 | field by field, what the log must hold to back a decision: its submission, the reviewed inputs and their validations, each operation bound to it and authorized on the reviewed artifact, and one such for an approval |
| ApprovalEvidence.LinkedIffSupported | internal/audit/projection.go:353-554 | an approval story ends linked iff the log holds this evidence and what the story names is coherent |
| StoryLinks.LinksAreTheEvidence | internal/audit/projection.go:353-554 | the links of a linked approval story are exactly those of the evidence: request, decision and submission, reviewed artifacts and their validations, operations, authorizations, their inputs and authority |
| Coherence.LinkedIff | internal/audit/projection.go:113-222 | a run of the builder ends linked iff no issue is reported, every identity and pin is whole, one kind and UID has one name, and one artifact has one digest and contract |
| ApprovalStory.PlanIsGood | internal/audit/projection.go:98-103 | with approval stories in it, a plan still makes only operations of the builder |
| ApprovalStory.ToldApprovalsAreBacked | internal/audit/projection.go:63-112 | an approval story of a projection is linked iff the projected events back the decision and what it names is coherent |
| ApprovalStory.DenialIsBacked | internal/audit/projection.go:353-472 | three events that back a denial |
| ApprovalStory.ApprovalIsBacked | internal/audit/projection.go:353-472 | seven events that back an approval of one artifact and the operation it led to |
| JsonRepair.NormalizeCandidateJson | internal/artifactcontract/materialize.go:291-341 | the copy-on-first-repair loop equals the recursive rewriter |
| JsonRepair.RepairPreservesMeaning | internal/artifactcontract/materialize.go:291-341 | the repaired text decodes to the same structure and string characters |
| JsonRepair.UnchangedIffClean | internal/artifactcontract/materialize.go:315-341 | the data is left alone iff no raw control byte stands in a string |
| JsonRepair.RepairedIsClean | internal/artifactcontract/materialize.go:291-341 | no raw control byte is left, so the repair is idempotent |
| JsonRepair.RepairKeepsMode | internal/artifactcontract/materialize.go:291-341 | behind the repaired text the scan is in the same string state as behind the input |
| LineEndings.StoredRoundTrip | internal/workspaceeditor/editor.go:539-556 | normalising a consistent text and rendering it with its own ending restores every byte |
| LineEndings.StoredIsConsistent | internal/workspaceeditor/editor.go:113-120 | what is stored is consistent and has the requested ending as soon as it has a line break |
| LineEndings.ReplaceAllIsSplitJoin | internal/workspaceeditor/editor.go:149-153 | replacing rewrites every occurrence and nothing else |
| LineEndings.SplitLeavesNone | internal/workspaceeditor/editor.go:149-153 | no piece between the replaced occurrences holds another one |
| LineEndings.ReplaceCounted | internal/workspaceeditor/editor.go:150-153 | replacing as many occurrences as there are replaces them all |
| LineEndings.ReplaceLength | internal/workspaceeditor/editor.go:149-153 | the length moves by the difference of the lengths once per occurrence |
| LineEndings.NormalizeIsLfForm | internal/workspaceeditor/editor.go:539-542 | the two replacements equal one pass over the text |
| Diagnostics.BuildStreamEvidence | internal/utility/testRun.go:184-195 | for every byte input the evidence passes its own validation and its excerpt is the longest well-formed prefix in the limit |
| Diagnostics.SanitizeRetryFeedbackMessage | internal/agentcontract/v1.go:240-257 | the message is the longest well-formed prefix, within 1024 bytes, of the text with controls and white space collapsed, and is empty or accepted |
| Diagnostics.CutIsTight | internal/agentcontract/v1.go:250-255 | the cut loses at most three bytes below the limit and nothing when the text fits |
| Diagnostics.CutIsUnique | internal/agentcontract/v1.go:250-255 | there is only one longest well-formed prefix within the limit |
| Diagnostics.PrefixOfNormalizedIsAccepted | internal/agentcontract/v1.go:259-272 | any non-empty prefix of the normalised text within the limit that ends between characters passes the field check |
| Diagnostics.NormalizedKeepsVisible | internal/agentcontract/v1.go:240-250 | the normalised text has the visible characters of the message in their order, with single spaces between words and none around them |
| Diagnostics.NormalIsKept | internal/agentcontract/v1.go:240-250 | a text that is already so stays as it is |
| Utf8.RepairBetween | internal/agentcontract/v1.go:240-250 | a run of stray bytes between two well-formed texts becomes one mark, and the texts are kept |

## Left out

- Symbolic links, permissions, raw path cleaning and non-regular files: paths are cleaned ones and files are regular.
- Temporary files a hard crash in an atomic write leaves beside the overlay, which would show as changes.
- `Search`, `.gitignore` and the evidence digest of a manifest.
- Two tool calls running at the same time inside one server process: handlers are taken one after the other.
- The remote check, the source snapshot worktree, push, merge and pull requests: Git is HEAD, branch, index and worktree.
- Recreation of a writer lease under the same name, and a pod object removed while its containers still run.
- The agent and utility controllers as lease clients: they are not part of this model and are taken to follow the session controller; the quiescence test for Jobs goes with them.
- Services, service accounts and audit appends of a session: they do not touch the lease or the pod.
- int64 overflow of KV sums, and changes of an endpoint's limits or a lease's estimate after creation.
- Endpoint creation details, the policy engine, and the other writers of an endpoint's status.
- The `show` action of a submission, and finding the active request of a workflow.
- Which attempt, workflow and input states allow an approval: their answer is an input of each step.
- Changes of a decision's owner reference after creation: its owner is taken to be as immutable as its spec.
- Projection.BuildProjection: which nodes and links a recovery story contains is left open; it is any run of the builder's operations chosen from the ordered events. Approval stories are those of `ApprovalStory`.
- The approval, URL and provider fields of story nodes; a payload that JSON would read leniently as another kind counts as malformed.
- Order of equal-keyed links in a story's final sort.
- JSON and schema decoding beyond string literals, Unicode case folding in test-path names, SHA-256 itself.
- Liveness beyond one undisturbed pass: that a lease is eventually released or a workflow ends is not claimed, and the first is false.
