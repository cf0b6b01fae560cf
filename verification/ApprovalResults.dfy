/** The promises of the approval gate, over all runs. */
module ApprovalResults {
  import opened Wrappers
  import opened Approval
  import opened ApprovalSafety
  import B = ApprovalBinding

  // A request that succeeded is bound to a decision that approves it: made for exactly this request
  // object, attempt and workflow, by a named subject in a required group.
  lemma SucceededMeansApproved(events: seq<Event>, name: string)
    requires name in Run(events).requests && Run(events).requests[name].phase == Succeeded
    ensures var r, l := Run(events).requests[name], Run(events).ledger;
      && r.decisionUid.Some? && r.decisionUid.value in l.minted
      && var d := l.minted[r.decisionUid.value];
         && d.verdict == Approved && r.decisionRef == Some(d.name) && d.name == ForRequest(r.uid)
         && d.request == UidRef(name, r.uid) && d.attempt == r.spec.attempt && d.workflow == r.spec.workflow
         && !Blank(d.subject) && (exists group :: group in r.spec.groups && group != "" && group in d.groups)
         && Submitted(r.uid, r.decisionUid.value) in l.log
  {
    RunKeepsInv(events);
    var w := Run(events);
    assert RequestOk(w.ledger, name, w.requests[name]);
    SubmissionsOfCompleted(events);
  }

  // No completion is stored before the submission it rests on is in the log.
  ghost predicate CompletedLogged(l: Ledger)
  {
    forall uid | uid in l.completed && l.completed[uid].decisionUid.Some? ::
      Submitted(uid, l.completed[uid].decisionUid.value) in l.log
  }

  lemma {:induction false} SubmissionsOfCompleted(events: seq<Event>)
    ensures CompletedLogged(Run(events).ledger)
    decreases |events|
  {
    if events != [] {
      var init := events[..|events| - 1];
      SubmissionsOfCompleted(init);
      LastStepGrows(events);
      CompletedStep(init, events[|events| - 1]);
    }
  }

  lemma CompletedStep(init: seq<Event>, event: Event)
    requires CompletedLogged(Run(init).ledger) && Grows(Run(init).ledger, Step(Run(init), event).ledger)
    ensures CompletedLogged(Step(Run(init), event).ledger)
  {
    var w, next := Run(init), Step(Run(init), event);
    if event.Continue? && Named(event.proc, event.name) && At(w, event.proc).PutStatus? {
      RunKeepsInv(init);
      assert ControlOk(w.ledger, event.proc, w.control[event.proc]);
    } else {
      CompletedOnlyByPut(w, event);
    }
  }

  lemma CompletedOnlyByPut(w: World, event: Event)
    requires !(event.Continue? && Named(event.proc, event.name) && At(w, event.proc).PutStatus?)
    ensures Step(w, event).ledger.completed == w.ledger.completed
  {
    if event.Continue? {
      if Looks(At(w, event.proc)) {
        LooksOnly(w, event.proc, event.name, event.choice);
      } else {
        match At(w, event.proc)
        case Idle =>
        case CreateDecision(_, _) =>
        case RecordSubmission(_, _, _) =>
        case RecordResolved(_, _, _) =>
        case PutStatus(_, _, _, _) =>
        case AppendSubmission(_, _) =>
        case AppendAdmission(_, _) =>
      }
    }
  }

  lemma LooksOnly(w: World, proc: Proc, name: string, choice: Choice)
    requires Looks(At(w, proc))
    ensures var next := ContinueStep(w, proc, name, choice); next == w.(control := next.control)
  {
    var k := if choice.fails then Idle else Looked(w, name, At(w, proc), choice);
    assert ContinueStep(w, proc, name, choice) == GoTo(w, proc, k);
  }

  // Once a request object is terminal its outcome never changes again.
  lemma OutcomeIsFinal(events: seq<Event>, more: seq<Event>, name: string)
    requires name in Run(events).requests && name in Run(events + more).requests
    requires Run(events + more).requests[name].uid == Run(events).requests[name].uid
    requires TerminalPhase(Run(events).requests[name].phase)
    ensures Run(events + more).requests[name].(deleting := false) == Run(events).requests[name].(deleting := false)
  {
    RunKeepsInv(events);
    RunKeepsInv(events + more);
    LedgerGrows(events, more);
    FinalOutcome(Run(events), Run(events + more), name);
  }

  lemma FinalOutcome(w: World, later: World, name: string)
    requires name in w.requests && RequestOk(w.ledger, name, w.requests[name])
    requires name in later.requests && RequestOk(later.ledger, name, later.requests[name])
    requires Grows(w.ledger, later.ledger)
    requires later.requests[name].uid == w.requests[name].uid && TerminalPhase(w.requests[name].phase)
    ensures later.requests[name].(deleting := false) == w.requests[name].(deleting := false)
  {}

  // An admission in the log has its submission there too, with the same evidence, and a completed
  // request behind it that names that decision.
  lemma AdmissionHasSubmission(events: seq<Event>, r: nat, d: nat)
    requires Admitted(r, d) in Run(events).ledger.log
    ensures var l := Run(events).ledger;
      && Submitted(r, d) in l.log
      && l.log[Submitted(r, d)] == l.log[Admitted(r, d)].(admittedAt := None)
      && r in l.completed && l.completed[r].decisionUid == Some(d)
      && l.log[Admitted(r, d)].admittedAt == l.completed[r].completedAt
  {
    RunKeepsInv(events);
    var l := Run(events).ledger;
    assert EventOk(l, Admitted(r, d));
    assert EventOk(l, Submitted(r, d));
  }

  // Events once in the log stay as they are; appending one again changes nothing.
  lemma LogOnlyGrows(events: seq<Event>, more: seq<Event>, id: EventId)
    requires id in Run(events).ledger.log
    ensures id in Run(events + more).ledger.log && Run(events + more).ledger.log[id] == Run(events).ledger.log[id]
  {
    LedgerGrows(events, more);
  }

  // ---- one decision per request ----

  // Whatever is deleted: a request object consumes one decision at most, and always the same.
  lemma OneDecisionConsumed(events: seq<Event>, more: seq<Event>, name: string, later: string)
    requires name in Run(events).requests && later in Run(events + more).requests
    requires Run(events).requests[name].uid == Run(events + more).requests[later].uid
    requires Run(events).requests[name].decisionUid.Some?
    ensures name == later
    ensures Run(events + more).requests[later].decisionUid == Run(events).requests[name].decisionUid
  {
    RunKeepsInv(events);
    RunKeepsInv(events + more);
    LedgerGrows(events, more);
    ConsumedOnce(Run(events), Run(events + more), name, later);
  }

  lemma ConsumedOnce(w: World, next: World, name: string, later: string)
    requires name in w.requests && RequestOk(w.ledger, name, w.requests[name])
    requires later in next.requests && RequestOk(next.ledger, later, next.requests[later])
    requires Grows(w.ledger, next.ledger)
    requires next.requests[later].uid == w.requests[name].uid && w.requests[name].decisionUid.Some?
    ensures name == later && next.requests[later].decisionUid == w.requests[name].decisionUid
  {}

  // The one deletion that matters: the decision in the request's own slot goes away for good.
  ghost predicate KeepsSlot(events: seq<Event>, request: nat)
  {
    forall i | 0 <= i < |events| :: events[i] != DeleteDecision(ForRequest(request), true)
  }

  ghost predicate SlotStored(w: World, request: nat)
  {
    forall uid | uid in w.ledger.minted && w.ledger.minted[uid].name == ForRequest(request) ::
      ForRequest(request) in w.decisions && w.decisions[ForRequest(request)].uid == uid
  }

  lemma {:induction false} SlotStaysStored(events: seq<Event>, more: seq<Event>, request: nat)
    requires SlotStored(Run(events), request) && KeepsSlot(more, request)
    ensures SlotStored(Run(events + more), request)
    decreases |more|
  {
    var all := events + more;
    if more == [] {
      assert all == events;
    } else {
      assert all[..|all| - 1] == events + more[..|more| - 1] && all[|all| - 1] == more[|more| - 1];
      SlotStaysStored(events, more[..|more| - 1], request);
      StoredStep(Run(all[..|all| - 1]), all[|all| - 1], request);
    }
  }

  lemma SlotStoredFromStart(events: seq<Event>, request: nat)
    requires KeepsSlot(events, request)
    ensures SlotStored(Run(events), request)
  {
    assert [] + events == events;
    SlotStaysStored([], events, request);
  }

  // No two decisions under the name of this request.
  ghost predicate AtMostOne(w: World, request: nat)
  {
    forall left, right | left in w.ledger.minted && right in w.ledger.minted ::
      w.ledger.minted[left].name == ForRequest(request) && w.ledger.minted[right].name == ForRequest(request) ==>
        left == right
  }

  // From any moment on there is one decision at most for a request, as long as its slot is not
  // emptied, if and only if every decision ever made under its name is the one in the slot now.
  lemma OneDecisionIff(events: seq<Event>, request: nat)
    ensures SlotStored(Run(events), request) <==>
      forall more | KeepsSlot(more, request) :: AtMostOne(Run(events + more), request)
  {
    if SlotStored(Run(events), request) {
      forall more | KeepsSlot(more, request) ensures AtMostOne(Run(events + more), request) {
        SlotStaysStored(events, more, request);
      }
    } else {
      var more := SomeoneDecidesAgain(events, request);
      assert KeepsSlot(more, request) && !AtMostOne(Run(events + more), request);
    }
  }

  lemma SomeoneDecidesAgain(events: seq<Event>, request: nat) returns (more: seq<Event>)
    requires !SlotStored(Run(events), request)
    ensures KeepsSlot(more, request) && !AtMostOne(Run(events + more), request)
  {
    RunKeepsInv(events);
    var w, slot := Run(events), ForRequest(request);
    var uid :| uid in w.ledger.minted && w.ledger.minted[uid].name == slot
      && !(slot in w.decisions && w.decisions[slot].uid == uid);
    if slot in w.decisions {
      more := [];
      assert events + more == events;
      assert StoredOk(w.ledger, w.decisions[slot]) && w.decisions[slot].decision.name == slot;
    } else {
      var forgery := ForgeDecision(w.ledger.minted[uid]);
      more := [forgery];
      var all := events + more;
      assert all[..|all| - 1] == events && all[|all| - 1] == forgery;
      assert Run(all) == Mint(w, w.ledger.minted[uid]);
      assert w.nextUid in Run(all).ledger.minted && uid in Run(all).ledger.minted && uid != w.nextUid;
    }
  }

  lemma StoredStep(w: World, event: Event, request: nat)
    requires SlotStored(w, request) && event != DeleteDecision(ForRequest(request), true)
    ensures SlotStored(Step(w, event), request)
  {
    if event.Continue? {
      if Looks(At(w, event.proc)) {
        LooksOnly(w, event.proc, event.name, event.choice);
      } else {
        StoredContinue(w, event.proc, event.name, event.choice, request);
      }
    }
  }

  lemma StoredContinue(w: World, proc: Proc, name: string, choice: Choice, request: nat)
    requires SlotStored(w, request) && !Looks(At(w, proc))
    ensures SlotStored(ContinueStep(w, proc, name, choice), request)
  {
    match At(w, proc)
    case Idle =>
    case CreateDecision(_, _) =>
    case RecordSubmission(_, _, _) =>
    case RecordResolved(_, _, _) =>
    case PutStatus(_, _, _, _) =>
    case AppendSubmission(_, _) =>
    case AppendAdmission(_, _) =>
  }

  // However many submissions race, with whatever forgeries and whatever else is deleted: one decision
  // at most is ever made under the name of a request whose slot is kept, and all submissions for it
  // that are answered with success are that decision.
  lemma OneDecisionPerRequest(events: seq<Event>, request: nat, left: nat, right: nat)
    requires KeepsSlot(events, request)
    requires left in Run(events).ledger.minted && Run(events).ledger.minted[left].name == ForRequest(request)
    requires right in Run(events).ledger.minted && Run(events).ledger.minted[right].name == ForRequest(request)
    ensures left == right
  {
    SlotStoredFromStart(events, request);
  }

  lemma SuccessfulSubmissionsAgree(events: seq<Event>, left: (nat, nat, Decision), right: (nat, nat, Decision))
    requires left in Run(events).ledger.answers && right in Run(events).ledger.answers && left.0 == right.0
    requires KeepsSlot(events, left.0)
    ensures left.1 == right.1 && left.2.subject == right.2.subject && left.2.verdict == right.2.verdict
    ensures Submitted(left.0, left.1) in Run(events).ledger.log
  {
    RunKeepsInv(events);
    SlotStoredFromStart(events, left.0);
    AnswersAgree(Run(events), left, right);
  }

  lemma AnswersAgree(w: World, left: (nat, nat, Decision), right: (nat, nat, Decision))
    requires AnswerOk(w.ledger, left) && AnswerOk(w.ledger, right) && left.0 == right.0 && SlotStored(w, left.0)
    ensures left.1 == right.1 && left.2.subject == right.2.subject && left.2.verdict == right.2.verdict
    ensures Submitted(left.0, left.1) in w.ledger.log
  {}

  // A run that gets there.  (The quantifier keeps Run out of sight.)
  ghost predicate Reaches(events: seq<Event>, w: World)
  {
    forall more: seq<Event> | more == events :: Run(more) == w
  }

  lemma Then(events: seq<Event>, w: World, event: Event) returns (more: seq<Event>, next: World)
    requires Reaches(events, w)
    ensures Reaches(more, next) && next == Step(w, event)
  {
    more := events + [event];
    assert more[..|more| - 1] == events;
    assert Run(events) == w;
    next := Step(w, event);
    assert Run(more) == next;
  }

  lemma ThenContinue(events: seq<Event>, w: World, proc: Proc, name: string) returns (more: seq<Event>, next: World)
    requires Reaches(events, w) && Named(proc, name)
    ensures Reaches(more, next) && next == ContinueStep(w, proc, name, Choice(false, true, 0))
  {
    more, next := Then(events, w, Continue(proc, name, Choice(false, true, 0)));
  }

  // A new request waits for its decision.
  lemma AwaitsDecision(name: string, spec: RequestSpec) returns (events: seq<Event>, w: World)
    ensures Reaches(events, w)
      && w.requests == map[name := Request(0, false, spec, Awaiting, NoReason, None, None, None)]
    ensures w.decisions == map[] && w.ledger.answers == {} && w.ledger.minted == map[]
    ensures forall client :: At(w, Client(client)) == Idle
    ensures At(w, Controller(name)) == Idle
  {
    var r := Request(0, false, spec, Unset, NoReason, None, None, None);
    events, w := Then([], START, CreateRequest(name, spec));
    assert w.requests == map[name := r];
    events, w := Then(events, w, Reconcile(name, Some(Await)));
    assert At(w, Controller(name)) == GetLatest(0, Await, 0);
    events, w := ThenContinue(events, w, Controller(name), name);
    assert At(w, Controller(name)) == PutStatus(r, r.(phase := Awaiting), Await, 0);
    events, w := ThenContinue(events, w, Controller(name), name);
    assert w.requests == map[name := r.(phase := Awaiting)];
  }

  // A submission into the empty slot is answered with success.
  lemma Submits(events: seq<Event>, w: World, name: string, client: nat, who: Identity, approve: bool)
      returns (more: seq<Event>, next: World)
    requires Reaches(events, w) && name in w.requests && At(w, Client(client)) == Idle
    requires var r := w.requests[name];
      r.phase == Awaiting && !r.deleting && r.spec.anyOfFail && InRequiredGroup(r.spec, who.groups)
    requires !Blank(who.subject) && ForRequest(w.requests[name].uid) !in w.decisions
    ensures Reaches(more, next) && next.requests == w.requests && next.nextUid == w.nextUid + 1
    ensures var r := w.requests[name]; var d := Built(name, r, who, approve, 0);
      && next.decisions == w.decisions[d.name := Stored(w.nextUid, false, d)]
      && next.ledger.minted == w.ledger.minted[w.nextUid := d]
      && next.ledger.answers == w.ledger.answers + {(r.uid, w.nextUid, d)}
    ensures forall other :: other != Client(client) ==> At(next, other) == At(w, other)
  {
    var r := w.requests[name];
    var d, s := Built(name, r, who, approve, 0), Stored(w.nextUid, false, Built(name, r, who, approve, 0));
    more, next := Then(events, w, Submit(client, name, r.uid, who, approve, 0));
    assert next == GoTo(w, Client(client), ReadDecision(r, d));
    more, next := ThenContinue(more, next, Client(client), name);
    assert At(next, Client(client)) == CreateDecision(r, d);
    more, next := ThenContinue(more, next, Client(client), name);
    assert At(next, Client(client)) == RecordSubmission(r, s, d);
    more, next := ThenContinue(more, next, Client(client), name);
  }

  // If the slot is emptied in between, two submissions with opposite verdicts both succeed.
  lemma EmptiedSlotIsReused(name: string, spec: RequestSpec, first: Identity, second: Identity)
    requires spec.anyOfFail && InRequiredGroup(spec, first.groups) && InRequiredGroup(spec, second.groups)
    requires !Blank(first.subject) && !Blank(second.subject)
    ensures exists events, left, right :: var l := Run(events).ledger;
      && (0, left,
          Built(name, Request(0, false, spec, Awaiting, NoReason, None, None, None), first, true, 0)) in l.answers
      && (0, right,
          Built(name, Request(0, false, spec, Awaiting, NoReason, None, None, None), second, false, 0)) in l.answers
      && left != right && left in l.minted && right in l.minted
      && l.minted[left].name == ForRequest(0) && l.minted[right].name == ForRequest(0)
      && l.minted[left].verdict == Approved && l.minted[right].verdict == Denied
  {
    var events, w := AwaitsDecision(name, spec);
    var left := w.nextUid;
    events, w := Submits(events, w, name, 1, first, true);
    events, w := Then(events, w, DeleteDecision(ForRequest(0), true));
    var right := w.nextUid;
    events, w := Submits(events, w, name, 2, second, false);
    assert Run(events) == w;
  }

  // An operation resolved from a request and a decision read at any two moments of a run rests on the
  // decision that request consumed: unchanged, approving, and logged.
  lemma ResolutionIsConsumed(events: seq<Event>, more: seq<Event>, read: B.ReadRequest, s: Stored)
    requires read.name in Run(events).requests && Run(events).requests[read.name] == read.request
    requires s.decision.name in Run(events + more).decisions && Run(events + more).decisions[s.decision.name] == s
    requires read.request.phase == Succeeded && B.ApprovesIt(read, s)
    ensures read.request.decisionUid.Some? && read.request.decisionUid.value in Run(events).ledger.minted
    ensures Run(events).ledger.minted[read.request.decisionUid.value] == s.decision
    ensures s.decision.name == ForRequest(read.request.uid)
    ensures Submitted(read.request.uid, s.uid) in Run(events).ledger.log
  {
    SucceededMeansApproved(events, read.name);
    LedgerGrows(events, more);
    RunKeepsInv(events + more);
  }
}
