/** What every run of submissions, reconciles and operations keeps. */
module ApprovalSafety {
  import opened Wrappers
  import opened Approval

  // The decision a stored one stands for.
  ghost predicate StoredOk(l: Ledger, s: Stored)
  {
    s.uid in l.minted && l.minted[s.uid] == s.decision
  }

  ghost predicate CopyOk(l: Ledger, r: Request)
  {
    r.uid in l.created && l.created[r.uid].1 == r.spec
  }

  // A status that reports a decision is bound to a valid one of that verdict; any other names none.
  ghost predicate StatusOk(l: Ledger, r: Request)
  {
    && CopyOk(l, r)
    && (TerminalPhase(r.phase) ==> r.completedAt.Some?)
    && (r.reason == DeniedReason ==> r.phase == Failed)
    && if r.phase == Succeeded || r.reason == DeniedReason then BoundOk(l, r)
       else r.decisionUid.None? && r.decisionRef.None?
  }

  ghost predicate BoundOk(l: Ledger, r: Request)
    requires CopyOk(l, r)
  {
    && r.decisionUid.Some? && r.decisionUid.value in l.minted
    && var d := l.minted[r.decisionUid.value];
    && ValidDecision(l.created[r.uid].0, r.uid, r.spec, d)
    && r.decisionRef == Some(d.name) && d.name == ForRequest(r.uid)
    && d.verdict == (if r.phase == Succeeded then Approved else Denied)
  }

  // A completed request that was read is the one completed.
  ghost predicate ReadOk(l: Ledger, r: Request)
  {
    && StatusOk(l, r)
    && (TerminalPhase(r.phase) ==> r.uid in l.completed && l.completed[r.uid] == r.(deleting := false))
  }

  ghost predicate Open(l: Ledger, r: Request)
  {
    StatusOk(l, r) && !r.deleting && !TerminalPhase(r.phase) && r.reason != DeniedReason
  }

  ghost predicate PutOk(l: Ledger, r: Request, updated: Request)
  {
    && Open(l, r) && StatusOk(l, updated)
    && updated.uid == r.uid && updated.spec == r.spec && !updated.deleting
    && (updated.decisionUid.Some? ==> Submitted(r.uid, updated.decisionUid.value) in l.log)
  }

  ghost predicate AdmitOk(l: Ledger, r: Request, s: Stored)
  {
    ReadOk(l, r) && StoredOk(l, s) && Completes(r, s)
  }

  ghost predicate ControlOk(l: Ledger, proc: Proc, k: Control)
  {
    match k
    case Idle => true
    case ReadDecision(r, d) => CopyOk(l, r) && d.name == ForRequest(r.uid) && d.authoredAt.Some?
    case CreateDecision(r, d) => CopyOk(l, r) && d.name == ForRequest(r.uid) && d.authoredAt.Some?
    case ReadExisting(r, d) => CopyOk(l, r) && d.name == ForRequest(r.uid) && d.authoredAt.Some?
    case RecordSubmission(r, s, d) =>
      && CopyOk(l, r) && StoredOk(l, s) && s.decision.name == ForRequest(r.uid)
      && s.decision.subject == d.subject && s.decision.verdict == d.verdict
    case GetLatest(_, _, _) => proc.Controller?
    case GetDecision(r, _) => Open(l, r) && proc == Controller(l.created[r.uid].0)
    case CheckAuthority(r, s, _) =>
      proc.Controller? && Open(l, r) && StoredOk(l, s) && ValidDecision(l.created[r.uid].0, r.uid, r.spec, s.decision)
      && s.decision.name == ForRequest(r.uid)
    case RecordResolved(r, s, _) =>
      proc.Controller? && Open(l, r) && StoredOk(l, s) && ValidDecision(l.created[r.uid].0, r.uid, r.spec, s.decision)
      && s.decision.name == ForRequest(r.uid)
    case PutStatus(r, updated, _, _) => PutOk(l, r, updated) && proc.Controller?
    case GetCompleted => true
    case GetAdmitted(r) => ReadOk(l, r)
    case AppendSubmission(r, s) => AdmitOk(l, r, s)
    case AppendAdmission(r, s) => AdmitOk(l, r, s) && Submitted(r.uid, s.uid) in l.log
  }

  // Every event says what the immutable objects say; an admission has its submission and a
  // completed request behind it.
  ghost predicate EventOk(l: Ledger, id: EventId)
    requires id in l.log
  {
    && id.requestUid in l.created && id.decisionUid in l.minted
    && match id
       case Submitted(r, d) => l.log[id] == Evidence(l.created[r].1, d, l.minted[d], None)
       case Admitted(r, d) =>
         && Submitted(r, d) in l.log && r in l.completed && l.completed[r].decisionUid == Some(d)
         && (l.completed[r].phase == Succeeded || l.completed[r].reason == DeniedReason)
         && l.log[id] == Evidence(l.created[r].1, d, l.minted[d], l.completed[r].completedAt)
  }

  ghost predicate AnswerOk(l: Ledger, a: (nat, nat, Decision))
  {
    && Submitted(a.0, a.1) in l.log && a.1 in l.minted && l.minted[a.1].name == ForRequest(a.0)
    && l.minted[a.1].subject == a.2.subject && l.minted[a.1].verdict == a.2.verdict
  }

  ghost predicate LedgerOk(l: Ledger)
  {
    && (forall id | id in l.log :: EventOk(l, id))
    && (forall a | a in l.answers :: AnswerOk(l, a))
    && (forall uid | uid in l.completed ::
          l.completed[uid].uid == uid && TerminalPhase(l.completed[uid].phase) && StatusOk(l, l.completed[uid]))
  }

  ghost predicate RequestOk(l: Ledger, name: string, r: Request)
  {
    && ReadOk(l, r) && l.created[r.uid].0 == name
    && (!TerminalPhase(r.phase) ==> r.uid !in l.completed && r.reason != DeniedReason)
  }

  ghost predicate RequestsOk(l: Ledger, requests: map<string, Request>)
  {
    forall name | name in requests :: RequestOk(l, name, requests[name])
  }

  ghost predicate DecisionsOk(l: Ledger, decisions: map<DecisionName, Stored>)
  {
    forall name | name in decisions :: StoredOk(l, decisions[name]) && decisions[name].decision.name == name
  }

  ghost predicate Inv(w: World)
  {
    && LedgerOk(w.ledger)
    && RequestsOk(w.ledger, w.requests)
    && DecisionsOk(w.ledger, w.decisions)
    && (forall proc | proc in w.control :: ControlOk(w.ledger, proc, w.control[proc]))
    && (forall uid | uid in w.ledger.created || uid in w.ledger.minted :: uid < w.nextUid)
  }

  // Nothing in the ledger is taken back.
  ghost predicate Grows(l: Ledger, m: Ledger)
  {
    && (forall id | id in l.log :: id in m.log && m.log[id] == l.log[id])
    && (forall uid | uid in l.created :: uid in m.created && m.created[uid] == l.created[uid])
    && (forall uid | uid in l.minted :: uid in m.minted && m.minted[uid] == l.minted[uid])
    && (forall uid | uid in l.completed :: uid in m.completed && m.completed[uid] == l.completed[uid])
    && l.answers <= m.answers
  }

  lemma ControlGrows(l: Ledger, m: Ledger, proc: Proc, k: Control)
    requires Grows(l, m) && ControlOk(l, proc, k)
    ensures ControlOk(m, proc, k)
  {}

  lemma ControlsGrow(w: World, m: Ledger)
    requires Inv(w) && Grows(w.ledger, m)
    ensures forall proc | proc in w.control :: ControlOk(m, proc, w.control[proc])
  {
    forall proc | proc in w.control ensures ControlOk(m, proc, w.control[proc]) {
      ControlGrows(w.ledger, m, proc, w.control[proc]);
    }
  }

  lemma RequestGrows(l: Ledger, m: Ledger, name: string, r: Request)
    requires RequestOk(l, name, r) && Grows(l, m) && (r.uid in m.completed ==> r.uid in l.completed)
    ensures RequestOk(m, name, r)
  {}

  lemma RequestsGrow(w: World, m: Ledger)
    requires Inv(w) && Grows(w.ledger, m) && m.completed == w.ledger.completed
    ensures RequestsOk(m, w.requests) && DecisionsOk(m, w.decisions)
  {
    forall name | name in w.requests ensures RequestOk(m, name, w.requests[name]) {
      RequestGrows(w.ledger, m, name, w.requests[name]);
    }
  }

  // New objects do not touch what was logged, answered and completed.
  lemma ObjectsGrow(l: Ledger, m: Ledger)
    requires LedgerOk(l) && Grows(l, m) && m.log == l.log && m.answers == l.answers && m.completed == l.completed
    ensures LedgerOk(m)
  {
    forall id | id in m.log ensures EventOk(m, id) {
      assert EventOk(l, id);
    }
    forall a | a in m.answers ensures AnswerOk(m, a) {
      assert AnswerOk(l, a);
    }
    forall uid | uid in m.completed ensures StatusOk(m, m.completed[uid]) {
      assert StatusOk(l, l.completed[uid]);
    }
  }

  // Everybody's copies stay right when the ledger grows; what is new is checked by itself.
  lemma LedgerStep(w: World, ledger: Ledger)
    requires Inv(w) && Grows(w.ledger, ledger) && LedgerOk(ledger)
    requires ledger.created == w.ledger.created && ledger.minted == w.ledger.minted
      && ledger.completed == w.ledger.completed
    ensures Inv(w.(ledger := ledger))
  {
    ControlsGrow(w, ledger);
    RequestsGrow(w, ledger);
  }

  lemma GoToKeeps(w: World, proc: Proc, next: Control)
    requires Inv(w) && ControlOk(w.ledger, proc, next)
    ensures Inv(GoTo(w, proc, next))
  {}

  // Appending a right event, or finding it there already.
  lemma AppendKeeps(w: World, id: EventId, evidence: Evidence)
    requires Inv(w)
    requires EventOk(w.ledger.(log := w.ledger.log[id := evidence]), id)
    ensures var ledger := w.ledger.(log := Append(w.ledger.log, id, evidence));
      Inv(w.(ledger := ledger)) && Grows(w.ledger, ledger) && id in ledger.log && ledger.log[id] == evidence
  {
    if id in w.ledger.log {
      assert EventOk(w.ledger, id);
      assert w.(ledger := w.ledger.(log := Append(w.ledger.log, id, evidence))) == w;
    } else {
      var ledger := w.ledger.(log := w.ledger.log[id := evidence]);
      AppendedLedger(w.ledger, id, evidence);
      LedgerStep(w, ledger);
    }
  }

  lemma AppendedLedger(l: Ledger, id: EventId, evidence: Evidence)
    requires LedgerOk(l) && id !in l.log && EventOk(l.(log := l.log[id := evidence]), id)
    ensures LedgerOk(l.(log := l.log[id := evidence])) && Grows(l, l.(log := l.log[id := evidence]))
  {
    var m := l.(log := l.log[id := evidence]);
    forall i | i in m.log ensures EventOk(m, i) {
      assert i in l.log ==> EventOk(l, i);
    }
    forall a | a in m.answers ensures AnswerOk(m, a) {
      assert AnswerOk(l, a);
    }
    forall uid | uid in m.completed ensures StatusOk(m, m.completed[uid]) {
      assert StatusOk(l, l.completed[uid]);
    }
  }

  // A submission event is the same whoever appends it, so it does not matter who was first.
  lemma SubmittedKeeps(w: World, r: Request, s: Stored)
    requires Inv(w) && CopyOk(w.ledger, r) && StoredOk(w.ledger, s)
    ensures var ledger := SubmittedIn(w.ledger, r, s);
      && Inv(w.(ledger := ledger)) && Grows(w.ledger, ledger) && Submitted(r.uid, s.uid) in ledger.log
  {
    AppendKeeps(w, Submitted(r.uid, s.uid), Evidence(r.spec, s.uid, s.decision, None));
  }

  lemma AdmittedKeeps(w: World, r: Request, s: Stored)
    requires Inv(w) && AdmitOk(w.ledger, r, s) && Submitted(r.uid, s.uid) in w.ledger.log
    ensures var ledger := AdmittedIn(w.ledger, r, s); Inv(w.(ledger := ledger)) && Grows(w.ledger, ledger)
  {
    AppendKeeps(w, Admitted(r.uid, s.uid), Evidence(r.spec, s.uid, s.decision, r.completedAt));
  }

  lemma MintKeeps(w: World, d: Decision)
    requires Inv(w) && d.name !in w.decisions
    ensures Inv(Mint(w, d)) && Grows(w.ledger, Mint(w, d).ledger)
  {
    var next := Mint(w, d);
    assert Grows(w.ledger, next.ledger);
    ObjectsGrow(w.ledger, next.ledger);
    ControlsGrow(w, next.ledger);
    RequestsGrow(w, next.ledger);
  }

  lemma PutStatusKeeps(w: World, proc: Proc, name: string, r: Request, updated: Request, goal: Goal, tries: nat)
    requires Inv(w) && PutOk(w.ledger, r, updated) && proc.Controller?
    ensures Inv(PutStep(w, proc, name, r, updated, goal, tries))
    ensures Grows(w.ledger, PutStep(w, proc, name, r, updated, goal, tries).ledger)
  {
    var result := PutStep(w, proc, name, r, updated, goal, tries);
    if name !in w.requests || w.requests[name] != r {
      var k := if tries + 1 < TRIES then GetLatest(r.uid, goal, tries + 1) else Idle;
      assert result == GoTo(w, proc, k);
      GoToKeeps(w, proc, k);
    } else if TerminalPhase(updated.phase) {
      var ledger := w.ledger.(completed := w.ledger.completed[updated.uid := updated]);
      var stored := w.(requests := w.requests[name := updated], ledger := ledger);
      assert result == GoTo(stored, proc, AfterUpdate(goal));
      CompleteKeeps(w, name, updated);
      GoToKeeps(stored, proc, AfterUpdate(goal));
    } else {
      var stored := w.(requests := w.requests[name := updated]);
      assert result == GoTo(stored, proc, AfterUpdate(goal));
      AwaitKeeps(w, name, updated);
      GoToKeeps(stored, proc, AfterUpdate(goal));
    }
  }

  lemma AwaitKeeps(w: World, name: string, updated: Request)
    requires Inv(w) && name in w.requests && PutOk(w.ledger, w.requests[name], updated) && !TerminalPhase(updated.phase)
    ensures Inv(w.(requests := w.requests[name := updated]))
  {
    assert RequestOk(w.ledger, name, w.requests[name]);
  }

  lemma CompleteKeeps(w: World, name: string, updated: Request)
    requires Inv(w) && name in w.requests && PutOk(w.ledger, w.requests[name], updated) && TerminalPhase(updated.phase)
    ensures var ledger := w.ledger.(completed := w.ledger.completed[updated.uid := updated]);
      Inv(w.(requests := w.requests[name := updated], ledger := ledger)) && Grows(w.ledger, ledger)
  {
    var ledger := w.ledger.(completed := w.ledger.completed[updated.uid := updated]);
    var next := w.(requests := w.requests[name := updated], ledger := ledger);
    assert RequestOk(w.ledger, name, w.requests[name]);
    assert Grows(w.ledger, ledger);
    CompletedLedger(w.ledger, updated);
    ControlsGrow(w, ledger);
    assert ReadOk(ledger, updated);
    forall n | n in next.requests && n != name ensures RequestOk(ledger, n, next.requests[n]) {
      assert RequestOk(w.ledger, n, w.requests[n]);
      RequestGrows(w.ledger, ledger, n, w.requests[n]);
    }
  }

  lemma CompletedLedger(l: Ledger, updated: Request)
    requires LedgerOk(l) && StatusOk(l, updated) && TerminalPhase(updated.phase) && updated.uid !in l.completed
    ensures LedgerOk(l.(completed := l.completed[updated.uid := updated]))
  {
    var m := l.(completed := l.completed[updated.uid := updated]);
    forall id | id in m.log ensures EventOk(m, id) {
      assert EventOk(l, id);
    }
    forall a | a in m.answers ensures AnswerOk(m, a) {
      assert AnswerOk(l, a);
    }
    forall uid | uid in m.completed ensures StatusOk(m, m.completed[uid]) {
      assert uid in l.completed ==> StatusOk(l, l.completed[uid]);
    }
  }

  lemma LatestOk(w: World, name: string, uid: nat, goal: Goal, tries: nat, now: nat)
    requires Inv(w)
    ensures ControlOk(w.ledger, Controller(name), Latest(w, name, uid, goal, tries, now))
  {
    assert name in w.requests ==> RequestOk(w.ledger, name, w.requests[name]);
  }

  lemma DecidesOk(w: World, name: string, r: Request, tries: nat, now: nat)
    requires Inv(w) && Open(w.ledger, r) && w.ledger.created[r.uid].0 == name
    ensures ControlOk(w.ledger, Controller(name), Decides(name, r, w, tries, now))
  {}

  lemma ResolvedOk(l: Ledger, r: Request, s: Stored, now: nat)
    requires Open(l, r) && StoredOk(l, s) && ValidDecision(l.created[r.uid].0, r.uid, r.spec, s.decision)
    requires Submitted(r.uid, s.uid) in l.log && s.decision.name == ForRequest(r.uid)
    ensures PutOk(l, r, Resolved(r, s, now))
  {}

  lemma CreateStepKeeps(w: World, proc: Proc, r: Request, d: Decision)
    requires Inv(w) && ControlOk(w.ledger, proc, CreateDecision(r, d))
    ensures Inv(CreateStep(w, proc, r, d)) && Grows(w.ledger, CreateStep(w, proc, r, d).ledger)
  {
    if d.name in w.decisions {
      GoToKeeps(w, proc, ReadExisting(r, d));
    } else {
      MintKeeps(w, d);
      GoToKeeps(Mint(w, d), proc, RecordSubmission(r, Mint(w, d).decisions[d.name], d));
    }
  }

  // A submission answered with success has its event in the log.
  lemma AnswerKeeps(w: World, proc: Proc, r: Request, s: Stored, d: Decision)
    requires Inv(w) && ControlOk(w.ledger, proc, RecordSubmission(r, s, d))
    ensures var ledger := AnsweredIn(w.ledger, proc, r, s, d);
      Inv(w.(ledger := ledger)) && Grows(w.ledger, ledger)
  {
    SubmittedKeeps(w, r, s);
    var first := w.(ledger := SubmittedIn(w.ledger, r, s));
    var ledger := AnsweredIn(w.ledger, proc, r, s, d);
    forall id | id in ledger.log ensures EventOk(ledger, id) {
      assert EventOk(first.ledger, id);
    }
    forall a | a in ledger.answers ensures AnswerOk(ledger, a) {
      assert a in first.ledger.answers ==> AnswerOk(first.ledger, a);
    }
    forall uid | uid in ledger.completed ensures StatusOk(ledger, ledger.completed[uid]) {
      assert StatusOk(first.ledger, first.ledger.completed[uid]);
    }
    LedgerStep(first, ledger);
    assert w.(ledger := ledger) == first.(ledger := ledger);
  }

  // A step that keeps the invariant and takes nothing back.
  ghost predicate Safe(w: World, next: World)
  {
    Inv(next) && Grows(w.ledger, next.ledger)
  }

  lemma GoToIsSafe(w: World, proc: Proc, next: Control)
    requires Inv(w) && ControlOk(w.ledger, proc, next)
    ensures Safe(w, GoTo(w, proc, next))
  {
    GoToKeeps(w, proc, next);
  }

  lemma SubmissionIsSafe(w: World, proc: Proc, r: Request, s: Stored, d: Decision)
    requires Inv(w) && ControlOk(w.ledger, proc, RecordSubmission(r, s, d)) && s.decision.authoredAt.Some?
    ensures var ledger := AnsweredIn(w.ledger, proc, r, s, d);
      Safe(w, GoTo(w.(ledger := ledger), proc, Idle))
  {
    AnswerKeeps(w, proc, r, s, d);
    var ledger := AnsweredIn(w.ledger, proc, r, s, d);
    GoToKeeps(w.(ledger := ledger), proc, Idle);
  }

  lemma ResolutionIsSafe(w: World, proc: Proc, r: Request, s: Stored, tries: nat, now: nat)
    requires Inv(w) && ControlOk(w.ledger, proc, RecordResolved(r, s, tries))
    ensures Safe(w,
                 GoTo(w.(ledger := SubmittedIn(w.ledger, r, s)), proc,
                      PutStatus(r, Resolved(r, s, now), Resolve, tries)))
  {
    SubmittedKeeps(w, r, s);
    var next := w.(ledger := SubmittedIn(w.ledger, r, s));
    ResolvedOk(next.ledger, r, s, now);
    GoToKeeps(next, proc, PutStatus(r, Resolved(r, s, now), Resolve, tries));
  }

  lemma AppendSubmissionIsSafe(w: World, proc: Proc, r: Request, s: Stored)
    requires Inv(w) && ControlOk(w.ledger, proc, AppendSubmission(r, s))
    ensures Safe(w, GoTo(w.(ledger := SubmittedIn(w.ledger, r, s)), proc, AppendAdmission(r, s)))
  {
    SubmittedKeeps(w, r, s);
    ControlGrows(w.ledger, SubmittedIn(w.ledger, r, s), proc, AppendSubmission(r, s));
    GoToKeeps(w.(ledger := SubmittedIn(w.ledger, r, s)), proc, AppendAdmission(r, s));
  }

  lemma AppendAdmissionIsSafe(w: World, proc: Proc, r: Request, s: Stored)
    requires Inv(w) && ControlOk(w.ledger, proc, AppendAdmission(r, s))
    ensures Safe(w, GoTo(w.(ledger := AdmittedIn(w.ledger, r, s)), proc, Idle))
  {
    AdmittedKeeps(w, r, s);
    GoToKeeps(w.(ledger := AdmittedIn(w.ledger, r, s)), proc, Idle);
  }

  lemma CreateIsSafe(w: World, proc: Proc, r: Request, d: Decision)
    requires Inv(w) && ControlOk(w.ledger, proc, CreateDecision(r, d))
    ensures Safe(w, CreateStep(w, proc, r, d))
  {
    CreateStepKeeps(w, proc, r, d);
  }

  lemma PutIsSafe(w: World, proc: Proc, name: string, r: Request, updated: Request, goal: Goal, tries: nat)
    requires Inv(w) && ControlOk(w.ledger, proc, PutStatus(r, updated, goal, tries))
    ensures Safe(w, PutStep(w, proc, name, r, updated, goal, tries))
  {
    PutStatusKeeps(w, proc, name, r, updated, goal, tries);
  }

  lemma ContinueIsSafe(w: World, proc: Proc, name: string, choice: Choice)
    requires Inv(w) && Named(proc, name) && proc in w.control
    requires !choice.fails
    requires ControlOk(w.ledger, proc, w.control[proc]) && !Looks(w.control[proc])
    ensures Safe(w, ContinueStep(w, proc, name, choice))
  {
    match w.control[proc]
    case Idle =>
    case CreateDecision(r, d) => CreateIsSafe(w, proc, r, d);
    case RecordSubmission(r, s, d) =>
      if s.decision.authoredAt.None? { GoToIsSafe(w, proc, Idle); } else { SubmissionIsSafe(w, proc, r, s, d); }
    case RecordResolved(r, s, tries) => ResolutionIsSafe(w, proc, r, s, tries, choice.now);
    case PutStatus(r, updated, goal, tries) => PutIsSafe(w, proc, name, r, updated, goal, tries);
    case AppendSubmission(r, s) => AppendSubmissionIsSafe(w, proc, r, s);
    case AppendAdmission(r, s) => AppendAdmissionIsSafe(w, proc, r, s);
  }

  predicate Looks(k: Control)
  {
    || k.ReadDecision? || k.ReadExisting? || k.GetLatest? || k.GetDecision? || k.CheckAuthority? || k.GetCompleted?
    || k.GetAdmitted?
  }

  // Where a call that only reads leads.
  function Looked(w: World, name: string, k: Control, choice: Choice): Control
    requires Looks(k)
  {
    match k
    case ReadDecision(r, d) =>
      if d.name in w.decisions then Existing(r, w.decisions[d.name], d)
      else if r.phase != Awaiting then Idle else CreateDecision(r, d)
    case ReadExisting(r, d) => if d.name in w.decisions then Existing(r, w.decisions[d.name], d) else Idle
    case GetLatest(uid, goal, tries) => Latest(w, name, uid, goal, tries, choice.now)
    case GetDecision(r, tries) => Decides(name, r, w, tries, choice.now)
    case CheckAuthority(r, s, tries) =>
      if choice.authorized then RecordResolved(r, s, tries)
      else PutStatus(r, Finished(r, Failed, OtherReason, None, choice.now), Resolve, tries)
    case GetCompleted => if name in w.requests then GetAdmitted(w.requests[name]) else Idle
    case GetAdmitted(r) => Admissible(w, r)
  }

  lemma LookedOk(w: World, proc: Proc, name: string, k: Control, choice: Choice)
    requires Inv(w) && Named(proc, name) && Looks(k) && ControlOk(w.ledger, proc, k)
    ensures ControlOk(w.ledger, proc, Looked(w, name, k, choice))
  {
    match k
    case GetLatest(uid, goal, tries) => LatestOk(w, name, uid, goal, tries, choice.now);
    case GetDecision(r, tries) => DecidesOk(w, name, r, tries, choice.now);
    case GetCompleted => assert name in w.requests ==> RequestOk(w.ledger, name, w.requests[name]);
    case CheckAuthority(r, s, _) =>
    case GetAdmitted(r) =>
    case ReadDecision(r, d) =>
    case ReadExisting(r, d) =>
  }

  lemma LookIsSafe(w: World, proc: Proc, name: string, choice: Choice)
    requires Inv(w) && Named(proc, name) && !choice.fails && proc in w.control && Looks(w.control[proc])
    requires ControlOk(w.ledger, proc, w.control[proc])
    ensures Safe(w, ContinueStep(w, proc, name, choice))
  {
    var next := Looked(w, name, w.control[proc], choice);
    assert ContinueStep(w, proc, name, choice) == GoTo(w, proc, next);
    LookedOk(w, proc, name, w.control[proc], choice);
    GoToIsSafe(w, proc, next);
  }

  lemma ContinueKeeps(w: World, proc: Proc, name: string, choice: Choice)
    requires Inv(w) && Named(proc, name)
    ensures Safe(w, ContinueStep(w, proc, name, choice))
  {
    if proc !in w.control {
      if choice.fails {
        GoToIsSafe(w, proc, Idle);
      }
    } else if choice.fails {
      GoToIsSafe(w, proc, Idle);
    } else {
      assert ControlOk(w.ledger, proc, w.control[proc]);
      if Looks(w.control[proc]) {
        LookIsSafe(w, proc, name, choice);
      } else {
        ContinueIsSafe(w, proc, name, choice);
      }
    }
  }

  lemma StepKeepsInv(w: World, event: Event)
    requires Inv(w)
    ensures Safe(w, Step(w, event))
  {
    match event
    case Continue(proc, name, choice) => if Named(proc, name) { ContinueKeeps(w, proc, name, choice); }
    case Submit(_, _, _, _, _, _) => SubmitKeeps(w, event);
    case Reconcile(_, _) => ReconcileKeeps(w, event);
    case Operate(_, _) => OperateKeeps(w, event);
    case Crash(proc) => GoToIsSafe(w, proc, Idle);
    case ForgeDecision(decision) => if decision.name !in w.decisions { MintKeeps(w, decision); }
    case DeleteDecision(_, _) => DeleteDecisionKeeps(w, event);
    case CreateRequest(name, spec) => if name !in w.requests { CreateRequestKeeps(w, name, spec); }
    case DeleteRequest(_, _) => DeleteRequestKeeps(w, event);
  }

  lemma SubmitKeeps(w: World, event: Event)
    requires Inv(w) && event.Submit?
    ensures Safe(w, Step(w, event))
  {
    if event.name in w.requests && Step(w, event) != w {
      var r := w.requests[event.name];
      assert RequestOk(w.ledger, event.name, r);
      GoToIsSafe(w, Client(event.client), ReadDecision(r, Built(event.name, r, event.who, event.approve, event.now)));
    }
  }

  lemma ReconcileKeeps(w: World, event: Event)
    requires Inv(w) && event.Reconcile?
    ensures Safe(w, Step(w, event))
  {
    var proc := Controller(event.name);
    if event.name in w.requests && Step(w, event) != w {
      var r := w.requests[event.name];
      assert RequestOk(w.ledger, event.name, r);
      if TerminalPhase(r.phase) {
        GoToIsSafe(w, proc, GetAdmitted(r));
      } else {
        GoToIsSafe(w, proc, GetLatest(r.uid, if r.phase == Awaiting then Resolve else event.goal.value, 0));
      }
    }
  }

  lemma OperateKeeps(w: World, event: Event)
    requires Inv(w) && event.Operate?
    ensures Safe(w, Step(w, event))
  {
    if event.name in w.requests && Step(w, event) != w {
      assert RequestOk(w.ledger, event.name, w.requests[event.name]);
      GoToIsSafe(w, Operation(event.operation), GetAdmitted(w.requests[event.name]));
    }
  }

  lemma DeleteDecisionKeeps(w: World, event: Event)
    requires Inv(w) && event.DeleteDecision?
    ensures Safe(w, Step(w, event))
  {}

  lemma DeleteRequestKeeps(w: World, event: Event)
    requires Inv(w) && event.DeleteRequest?
    ensures Safe(w, Step(w, event))
  {
    var next := Step(w, event);
    assert next == w.(requests := next.requests);
    assert RequestsOk(w.ledger, next.requests) by {
      if event.name in w.requests {
        assert RequestOk(w.ledger, event.name, w.requests[event.name]);
      }
    }
  }

  lemma CreateRequestKeeps(w: World, name: string, spec: RequestSpec)
    requires Inv(w) && name !in w.requests
    ensures Safe(w, Step(w, CreateRequest(name, spec)))
  {
    var next := Step(w, CreateRequest(name, spec));
    var created := w.ledger.(created := w.ledger.created[w.nextUid := (name, spec)]);
    assert next.ledger == created && next.control == w.control && next.decisions == w.decisions;
    CreatedLedger(w, name, spec);
    NewRequestOk(created, name, next.requests[name]);
  }

  lemma CreatedLedger(w: World, name: string, spec: RequestSpec)
    requires Inv(w)
    ensures var m := w.ledger.(created := w.ledger.created[w.nextUid := (name, spec)]);
      && Grows(w.ledger, m) && LedgerOk(m) && RequestsOk(m, w.requests) && DecisionsOk(m, w.decisions)
      && w.nextUid !in m.completed && forall proc | proc in w.control :: ControlOk(m, proc, w.control[proc])
  {
    var m := w.ledger.(created := w.ledger.created[w.nextUid := (name, spec)]);
    assert w.nextUid in w.ledger.completed ==> StatusOk(w.ledger, w.ledger.completed[w.nextUid]);
    ObjectsGrow(w.ledger, m);
    ControlsGrow(w, m);
    RequestsGrow(w, m);
  }

  lemma NewRequestOk(l: Ledger, name: string, r: Request)
    requires r.uid in l.created && l.created[r.uid] == (name, r.spec) && r.uid !in l.completed
    requires r.phase == Unset && r.reason == NoReason && r.decisionRef.None? && r.decisionUid.None?
    ensures RequestOk(l, name, r)
  {}

  lemma {:induction false} RunKeepsInv(events: seq<Event>)
    ensures Inv(Run(events))
    decreases |events|
  {
    if events != [] {
      RunKeepsInv(events[..|events| - 1]);
      StepKeepsInv(Run(events[..|events| - 1]), events[|events| - 1]);
    }
  }

  lemma LastStepGrows(events: seq<Event>)
    requires events != []
    ensures Grows(Run(events[..|events| - 1]).ledger, Run(events).ledger)
  {
    RunKeepsInv(events[..|events| - 1]);
    StepKeepsInv(Run(events[..|events| - 1]), events[|events| - 1]);
  }

  lemma {:induction false} LedgerGrows(events: seq<Event>, more: seq<Event>)
    ensures Grows(Run(events).ledger, Run(events + more).ledger)
    decreases |more|
  {
    var all := events + more;
    if more == [] {
      assert all == events;
    } else {
      assert all[..|all| - 1] == events + more[..|more| - 1];
      LedgerGrows(events, more[..|more| - 1]);
      LastStepGrows(all);
    }
  }
}
