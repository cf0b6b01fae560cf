/**
  One human decision per approval request: the API that submits it, the controller that consumes it,
  the operations that rely on it, and the audit log all three write to.

  Every API call of a submission, a reconcile or an operation is one step; any number of them, object
  creation and deletion by others, forged decisions and crashes interleave in any order.  A status
  write takes effect only if the stored request still equals the copy it was computed from.  The
  specs of requests and decisions never change.
*/
module Approval {
  import opened Wrappers

  datatype UidRef = UidRef(name: string, uid: nat)

  // An artifact reference as a user writes it: any part of it may be missing.
  datatype ArtifactRef = ArtifactRef(name: string, uid: string)

  datatype Pin = Pin(name: string, digest: string, artifact: Option<ArtifactRef>, producer: string)

  datatype RequestSpec = RequestSpec(
    workflow: UidRef, attempt: UidRef, step: string, retry: int, groups: seq<string>, anyOfFail: bool, inputs: seq<Pin>)

  datatype Phase = Unset | Awaiting | Succeeded | Failed

  datatype Reason = NoReason | DeniedReason | OtherReason

  // ApprovalDecisionName gives each request UID one name of its own.
  datatype DecisionName = ForRequest(uid: nat) | OtherName(text: string)

  datatype Request = Request(
    uid: nat, deleting: bool, spec: RequestSpec, phase: Phase, reason: Reason,
    decisionRef: Option<DecisionName>, decisionUid: Option<nat>, completedAt: Option<nat>)

  datatype Verdict = Approved | Denied | OtherVerdict

  // The owner is the controlling ApprovalRequest, if there is one.
  datatype Decision = Decision(
    name: DecisionName, owner: Option<UidRef>, workflow: UidRef, attempt: UidRef, request: UidRef,
    verdict: Verdict, subject: string, groups: seq<string>, authoredAt: Option<nat>)

  datatype Stored = Stored(uid: nat, deleting: bool, decision: Decision)

  datatype Identity = Identity(subject: string, groups: seq<string>)

  // Deterministic event ids, and what the events say.
  datatype EventId = Submitted(requestUid: nat, decisionUid: nat) | Admitted(requestUid: nat, decisionUid: nat)

  datatype Evidence = Evidence(spec: RequestSpec, decisionUid: nat, decision: Decision, admittedAt: Option<nat>)

  type Log = map<EventId, Evidence>

  // MemoryRecorder.Append: the first event with an id stays.
  function Append(log: Log, id: EventId, evidence: Evidence): Log
  {
    if id in log then log else log[id := evidence]
  }

  predicate Blank(text: string)
  {
    forall c | c in text :: c in " \t\n\r"
  }

  predicate InRequiredGroup(spec: RequestSpec, groups: seq<string>)
  {
    exists group | group in spec.groups :: group != "" && group in groups
  }

  // validateApprovalDecision, for a decision not being deleted.
  predicate ValidDecision(name: string, uid: nat, spec: RequestSpec, d: Decision)
  {
    && d.owner == Some(UidRef(name, uid)) && d.request == UidRef(name, uid)
    && d.attempt == spec.attempt && d.workflow == spec.workflow
    && spec.anyOfFail
    && (d.verdict == Approved || d.verdict == Denied)
    && !Blank(d.subject) && d.authoredAt.Some?
    && InRequiredGroup(spec, d.groups)
  }

  // The decision speaks for this request object: made for it, by a named subject in a required group.
  predicate Counts(name: string, r: Request, d: Decision)
  {
    && d.owner.Some? && d.owner.value.name == name && d.owner.value.uid == r.uid
    && d.request.name == name && d.request.uid == r.uid
    && d.attempt == r.spec.attempt && d.workflow == r.spec.workflow
    && r.spec.anyOfFail
    && d.verdict != OtherVerdict && d.authoredAt.Some?
    && (exists c | c in d.subject :: c !in " \t\n\r")
    && (exists group | group in r.spec.groups :: group != "" && group in d.groups)
  }

  lemma CountsIff(name: string, r: Request, d: Decision)
    ensures Counts(name, r, d) <==> ValidDecision(name, r.uid, r.spec, d)
  {}

  predicate TerminalPhase(phase: Phase)
  {
    phase == Succeeded || phase == Failed
  }

  // buildApprovalDecision
  function Built(name: string, r: Request, who: Identity, approve: bool, now: nat): Decision
  {
    Decision(ForRequest(r.uid), Some(UidRef(name, r.uid)), r.spec.workflow, r.spec.attempt, UidRef(name, r.uid),
             if approve then Approved else Denied, who.subject, who.groups, Some(now))
  }

  // approvalSubmissionResult: the existing decision says the same.
  predicate SameSubmission(existing: Stored, requested: Decision)
  {
    var d := existing.decision;
    && !existing.deleting && d.workflow == requested.workflow && d.attempt == requested.attempt
    && d.request == requested.request && d.subject == requested.subject && d.verdict == requested.verdict
  }

  datatype Proc = Client(id: nat) | Controller(name: string) | Operation(id: nat)

  datatype Goal = Fail | Await | Resolve

  datatype Control =
    | Idle
    // the API
    | ReadDecision(r: Request, d: Decision)
    | CreateDecision(r: Request, d: Decision)
    | ReadExisting(r: Request, d: Decision)
    | RecordSubmission(r: Request, s: Stored, d: Decision)
    // the controller
    | GetLatest(uid: nat, goal: Goal, tries: nat)
    | GetDecision(r: Request, tries: nat)
    | CheckAuthority(r: Request, s: Stored, tries: nat)
    | RecordResolved(r: Request, s: Stored, tries: nat)
    | PutStatus(r: Request, updated: Request, goal: Goal, tries: nat)
    | GetCompleted
    // admission, by the controller or an operation
    | GetAdmitted(r: Request)
    | AppendSubmission(r: Request, s: Stored)
    | AppendAdmission(r: Request, s: Stored)

  // What is never taken back: the audit log, and, to state what happened, every request and decision
  // ever created, every request completed, and every submission answered with success.
  datatype Ledger = Ledger(
    log: Log,
    created: map<nat, (string, RequestSpec)>,
    minted: map<nat, Decision>,
    completed: map<nat, Request>,
    answers: set<(nat, nat, Decision)>,
    successes: map<Proc, nat>)

  datatype World = World(
    requests: map<string, Request>,
    decisions: map<DecisionName, Stored>,
    control: map<Proc, Control>,
    nextUid: nat,
    ledger: Ledger)

  // What a step does not decide itself: failing calls, the authority and input checks, time.
  datatype Choice = Choice(fails: bool, authorized: bool, now: nat)

  datatype Event =
    | Submit(client: nat, name: string, uid: nat, who: Identity, approve: bool, now: nat)
    | Reconcile(name: string, goal: Option<Goal>)
    | Operate(operation: nat, name: string)
    | Continue(proc: Proc, name: string, choice: Choice)
    | Crash(proc: Proc)
    | CreateRequest(name: string, spec: RequestSpec)
    | DeleteRequest(name: string, gone: bool)
    | ForgeDecision(decision: Decision)
    | DeleteDecision(slot: DecisionName, gone: bool)

  function At(w: World, proc: Proc): Control
  {
    if proc in w.control then w.control[proc] else Idle
  }

  function GoTo(w: World, proc: Proc, next: Control): World
  {
    w.(control := w.control[proc := next])
  }

  // Create: refused when the name is taken.
  function Mint(w: World, d: Decision): World
    requires d.name !in w.decisions
  {
    w.(decisions := w.decisions[d.name := Stored(w.nextUid, false, d)], nextUid := w.nextUid + 1,
       ledger := w.ledger.(minted := w.ledger.minted[w.nextUid := d]))
  }

  // SubmitApproval up to its first access to decisions.
  function SubmitStep(w: World, client: nat, name: string, uid: nat, who: Identity, approve: bool, now: nat): World
  {
    if At(w, Client(client)) != Idle || Blank(who.subject) || name !in w.requests then w
    else
      var r := w.requests[name];
      if r.deleting || r.uid != uid || !InRequiredGroup(r.spec, who.groups) || !r.spec.anyOfFail then w
      else GoTo(w, Client(client), ReadDecision(r, Built(name, r, who, approve, now)))
  }

  function Existing(r: Request, s: Stored, d: Decision): Control
  {
    if SameSubmission(s, d) then RecordSubmission(r, s, d) else Idle
  }

  function SubmittedIn(ledger: Ledger, r: Request, s: Stored): Ledger
  {
    ledger.(log := Append(ledger.log, Submitted(r.uid, s.uid), Evidence(r.spec, s.uid, s.decision, None)))
  }

  function AdmittedIn(ledger: Ledger, r: Request, s: Stored): Ledger
  {
    ledger.(log := Append(ledger.log, Admitted(r.uid, s.uid), Evidence(r.spec, s.uid, s.decision, r.completedAt)))
  }

  // RecordApprovalAdmission refuses anything but the persisted completion.
  predicate Completes(r: Request, s: Stored)
  {
    && r.decisionRef == Some(s.decision.name) && r.decisionUid == Some(s.uid) && r.completedAt.Some?
    && (r.phase == Succeeded || r.reason == DeniedReason) && s.decision.authoredAt.Some?
  }

  function ReconcileStep(w: World, name: string, goal: Option<Goal>): World
  {
    var proc := Controller(name);
    if At(w, proc) != Idle || name !in w.requests || w.requests[name].deleting || goal.None? then w
    else
      var r := w.requests[name];
      if TerminalPhase(r.phase) then GoTo(w, proc, GetAdmitted(r))
      else if r.phase == Awaiting then GoTo(w, proc, GetLatest(r.uid, Resolve, 0))
      else if goal.value == Resolve then w
      else GoTo(w, proc, GetLatest(r.uid, goal.value, 0))
  }

  // finishApproval
  function Finished(r: Request, phase: Phase, reason: Reason, ref: Option<DecisionName>, now: nat): Request
  {
    r.(phase := phase, decisionRef := ref, reason := reason,
       completedAt := if r.completedAt.None? then Some(now) else r.completedAt)
  }

  // Resolution goes on to admission; the other goals are done.
  function AfterUpdate(goal: Goal): Control
  {
    if goal == Resolve then GetCompleted else Idle
  }

  // updateApprovalStatus on a fresh read: never a replacement, deleted or terminal request.
  function Latest(w: World, name: string, uid: nat, goal: Goal, tries: nat, now: nat): Control
  {
    if name !in w.requests then AfterUpdate(goal)
    else
      var r := w.requests[name];
      if r.uid != uid || r.deleting || TerminalPhase(r.phase) then AfterUpdate(goal)
      else
        match goal
        case Fail => PutStatus(r, Finished(r, Failed, OtherReason, None, now), goal, tries)
        case Await => if r.phase == Awaiting then Idle else PutStatus(r, r.(phase := Awaiting), goal, tries)
        case Resolve => if r.phase != Awaiting then GetCompleted else GetDecision(r, tries)
  }

  function Decides(name: string, r: Request, w: World, tries: nat, now: nat): Control
  {
    if ForRequest(r.uid) !in w.decisions then GetCompleted
    else
      var s := w.decisions[ForRequest(r.uid)];
      if s.deleting || !ValidDecision(name, r.uid, r.spec, s.decision)
      then PutStatus(r, Finished(r, Failed, OtherReason, None, now), Resolve, tries)
      else CheckAuthority(r, s, tries)
  }

  function Resolved(r: Request, s: Stored, now: nat): Request
  {
    if s.decision.verdict == Denied
    then Finished(r.(decisionUid := Some(s.uid)), Failed, DeniedReason, Some(s.decision.name), now)
    else Finished(r.(decisionUid := Some(s.uid)), Succeeded, NoReason, Some(s.decision.name), now)
  }

  // A write that meets a conflict is tried again on a fresh read, five times in all.
  const TRIES: nat := 5

  function PutStep(w: World, proc: Proc, name: string, r: Request, updated: Request, goal: Goal, tries: nat): World
  {
    if name !in w.requests || w.requests[name] != r then
      GoTo(w, proc, if tries + 1 < TRIES then GetLatest(r.uid, goal, tries + 1) else Idle)
    else
      var ledger := if TerminalPhase(updated.phase)
        then w.ledger.(completed := w.ledger.completed[updated.uid := updated]) else w.ledger;
      GoTo(w.(requests := w.requests[name := updated], ledger := ledger), proc, AfterUpdate(goal))
  }

  function CreateStep(w: World, proc: Proc, r: Request, d: Decision): World
  {
    if d.name in w.decisions then GoTo(w, proc, ReadExisting(r, d))
    else
      var next := Mint(w, d);
      GoTo(next, proc, RecordSubmission(r, next.decisions[d.name], d))
  }

  function Admissible(w: World, r: Request): Control
  {
    if r.decisionRef.None? || r.decisionUid.None? || r.decisionRef.value !in w.decisions then Idle
    else
      var s := w.decisions[r.decisionRef.value];
      if Completes(r, s) then AppendSubmission(r, s) else Idle
  }

  // How many submissions of this client were answered with success.
  function Successes(l: Ledger, proc: Proc): nat
  {
    if proc in l.successes then l.successes[proc] else 0
  }

  // The submission is logged, and answered with success.
  function AnsweredIn(l: Ledger, proc: Proc, r: Request, s: Stored, d: Decision): Ledger
  {
    SubmittedIn(l, r, s).(answers := l.answers + {(r.uid, s.uid, d)},
                          successes := l.successes[proc := Successes(l, proc) + 1])
  }

  // One API call of a submission, of the reconcile of a request, or of an operation.
  function ContinueStep(w: World, proc: Proc, name: string, choice: Choice): World
  {
    if choice.fails then GoTo(w, proc, Idle)
    else
      match At(w, proc)
      case Idle => w
      case ReadDecision(r, d) =>
        GoTo(w, proc,
             if d.name in w.decisions then Existing(r, w.decisions[d.name], d)
             else if r.phase != Awaiting then Idle else CreateDecision(r, d))
      case CreateDecision(r, d) => CreateStep(w, proc, r, d)
      case ReadExisting(r, d) =>
        GoTo(w, proc, if d.name in w.decisions then Existing(r, w.decisions[d.name], d) else Idle)
      case RecordSubmission(r, s, d) =>
        if s.decision.authoredAt.None? then GoTo(w, proc, Idle)
        else
          GoTo(w.(ledger := AnsweredIn(w.ledger, proc, r, s, d)), proc, Idle)
      case GetLatest(uid, goal, tries) => GoTo(w, proc, Latest(w, name, uid, goal, tries, choice.now))
      case GetDecision(r, tries) => GoTo(w, proc, Decides(name, r, w, tries, choice.now))
      case CheckAuthority(r, s, tries) =>
        GoTo(w, proc, if choice.authorized then RecordResolved(r, s, tries)
                      else PutStatus(r, Finished(r, Failed, OtherReason, None, choice.now), Resolve, tries))
      case RecordResolved(r, s, tries) =>
        GoTo(w.(ledger := SubmittedIn(w.ledger, r, s)), proc, PutStatus(r, Resolved(r, s, choice.now), Resolve, tries))
      case PutStatus(r, updated, goal, tries) => PutStep(w, proc, name, r, updated, goal, tries)
      case GetCompleted => GoTo(w, proc, if name in w.requests then GetAdmitted(w.requests[name]) else Idle)
      case GetAdmitted(r) => GoTo(w, proc, Admissible(w, r))
      case AppendSubmission(r, s) => GoTo(w.(ledger := SubmittedIn(w.ledger, r, s)), proc, AppendAdmission(r, s))
      case AppendAdmission(r, s) =>
        GoTo(w.(ledger := AdmittedIn(w.ledger, r, s)), proc, Idle)
  }

  // The name a process works under.
  predicate Named(proc: Proc, name: string)
  {
    proc.Controller? ==> proc.name == name
  }

  function Step(w: World, event: Event): World
  {
    match event
    case Submit(client, name, uid, who, approve, now) => SubmitStep(w, client, name, uid, who, approve, now)
    case Reconcile(name, goal) => ReconcileStep(w, name, goal)
    case Operate(operation, name) =>
      if At(w, Operation(operation)) != Idle || name !in w.requests || w.requests[name].phase != Succeeded then w
      else GoTo(w, Operation(operation), GetAdmitted(w.requests[name]))
    case Continue(proc, name, choice) => if Named(proc, name) then ContinueStep(w, proc, name, choice) else w
    case Crash(proc) => GoTo(w, proc, Idle)
    case CreateRequest(name, spec) =>
      if name in w.requests then w
      else
        w.(requests := w.requests[name := Request(w.nextUid, false, spec, Unset, NoReason, None, None, None)],
           nextUid := w.nextUid + 1, ledger := w.ledger.(created := w.ledger.created[w.nextUid := (name, spec)]))
    case DeleteRequest(name, gone) =>
      if name !in w.requests then w
      else if gone then w.(requests := w.requests - {name})
      else w.(requests := w.requests[name := w.requests[name].(deleting := true)])
    case ForgeDecision(decision) => if decision.name in w.decisions then w else Mint(w, decision)
    case DeleteDecision(slot, gone) =>
      if slot !in w.decisions then w
      else if gone then w.(decisions := w.decisions - {slot})
      else w.(decisions := w.decisions[slot := w.decisions[slot].(deleting := true)])
  }

  const START: World := World(map[], map[], map[], 0, Ledger(map[], map[], map[], map[], {}, map[]))

  function Run(events: seq<Event>): World
    decreases |events|
  {
    if events == [] then START else Step(Run(events[..|events| - 1]), events[|events| - 1])
  }
}
