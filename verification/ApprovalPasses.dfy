/**
  What one undisturbed reconcile of a request, one undisturbed submission and one undisturbed
  operation achieve: no call of it fails and nothing happens in between.  The outcomes are stated in
  the stored objects before and after.
*/
module ApprovalPasses {
  import opened Wrappers
  import opened Approval
  import opened ApprovalSafety
  import opened ApprovalResults

  // The next n calls of the process.
  function Calls(w: World, proc: Proc, name: string, choice: Choice, n: nat): World
    decreases n
  {
    if n == 0 then w else Calls(ContinueStep(w, proc, name, choice), proc, name, choice, n - 1)
  }

  // More calls than any of them makes.
  const ENOUGH: nat := 12

  // One undisturbed pass that begins with this event leads from w to next.  (The quantifier keeps the
  // calls out of sight.)
  ghost predicate IsPass(w: World, begin: Event, proc: Proc, name: string, choice: Choice, next: World)
  {
    forall m | m == ENOUGH :: Calls(Step(w, begin), proc, name, choice, m) == next
  }

  ghost predicate EndsIn(w: World, proc: Proc, name: string, choice: Choice, n: nat, end: World)
  {
    forall m | m == n :: Calls(w, proc, name, choice, m) == end
  }

  lemma PassBegins(w: World, begin: Event, proc: Proc, name: string, choice: Choice, end: World) returns (v: World)
    requires IsPass(w, begin, proc, name, choice, end)
    ensures v == Step(w, begin) && EndsIn(v, proc, name, choice, 12, end)
  {
    v := Step(w, begin);
    assert Calls(v, proc, name, choice, ENOUGH) == end;
  }

  lemma Call(w: World, proc: Proc, name: string, choice: Choice, n: nat, end: World) returns (next: World)
    requires n > 0 && EndsIn(w, proc, name, choice, n, end)
    ensures next == ContinueStep(w, proc, name, choice) && EndsIn(next, proc, name, choice, n - 1, end)
  {
    next := ContinueStep(w, proc, name, choice);
    assert Calls(w, proc, name, choice, n) == end;
  }

  lemma {:induction false} Rests(w: World, proc: Proc, name: string, choice: Choice, n: nat, end: World)
    requires At(w, proc) == Idle && !choice.fails && EndsIn(w, proc, name, choice, n, end)
    ensures end == w
    decreases n
  {
    assert Calls(w, proc, name, choice, n) == end;
    if n > 0 {
      var next := Call(w, proc, name, choice, n, end);
      Rests(next, proc, name, choice, n - 1, end);
    }
  }

  lemma OneCallMore(w: World, proc: Proc, name: string, choice: Choice, n: nat, end: World)
    requires n > 0 && EndsIn(ContinueStep(w, proc, name, choice), proc, name, choice, n - 1, end)
    ensures EndsIn(w, proc, name, choice, n, end)
  {
    assert Calls(ContinueStep(w, proc, name, choice), proc, name, choice, n - 1) == end;
  }

  lemma {:induction false} CallsThenCalls(w: World, proc: Proc, name: string, choice: Choice, n: nat, m: nat)
    ensures Calls(w, proc, name, choice, n + m) == Calls(Calls(w, proc, name, choice, n), proc, name, choice, m)
    decreases n
  {
    if n > 0 {
      CallsThenCalls(ContinueStep(w, proc, name, choice), proc, name, choice, n - 1, m);
    }
  }

  // More calls than are left to make, when nothing disturbs them.
  function Left(k: Control): nat
  {
    match k
    case Idle => 0
    case ReadDecision(_, _) => 4
    case CreateDecision(_, _) => 3
    case ReadExisting(_, _) => 2
    case RecordSubmission(_, _, _) => 1
    case GetLatest(_, _, _) => 9
    case GetDecision(_, _) => 8
    case CheckAuthority(_, _, _) => 7
    case RecordResolved(_, _, _) => 6
    case PutStatus(_, _, _, _) => 5
    case GetCompleted => 4
    case GetAdmitted(_) => 3
    case AppendSubmission(_, _) => 2
    case AppendAdmission(_, _) => 1
  }

  // What the next status is computed from is what is stored.
  predicate ReadIsFresh(w: World, proc: Proc, name: string)
  {
    var k := At(w, proc);
    k.GetDecision? || k.CheckAuthority? || k.RecordResolved? || k.PutStatus? ==>
      name in w.requests && w.requests[name] == k.r
  }

  lemma CallGetsOn(w: World, proc: Proc, name: string, choice: Choice)
    requires ReadIsFresh(w, proc, name) && At(w, proc) != Idle && !choice.fails
    ensures var next := ContinueStep(w, proc, name, choice);
      ReadIsFresh(next, proc, name) && Left(At(next, proc)) < Left(At(w, proc))
  {}

  lemma {:induction false} CallsEnd(w: World, proc: Proc, name: string, choice: Choice, n: nat)
    requires ReadIsFresh(w, proc, name) && Left(At(w, proc)) <= n && !choice.fails
    ensures At(Calls(w, proc, name, choice, n), proc) == Idle
    decreases n
  {
    if n > 0 {
      if At(w, proc) != Idle {
        CallGetsOn(w, proc, name, choice);
      }
      CallsEnd(ContinueStep(w, proc, name, choice), proc, name, choice, n - 1);
    }
  }

  // However many calls were made when it is over, it is this pass.
  lemma OverIsPass(w: World, begin: Event, proc: Proc, name: string, choice: Choice, n: nat, next: World)
    requires EndsIn(Step(w, begin), proc, name, choice, n, next) && At(next, proc) == Idle && !choice.fails
    requires ReadIsFresh(Step(w, begin), proc, name)
    ensures IsPass(w, begin, proc, name, choice, next)
  {
    var v := Step(w, begin);
    if n <= ENOUGH {
      EarlyIsPass(v, proc, name, choice, n, next);
    } else {
      LateIsPass(v, proc, name, choice, n, next);
    }
  }

  lemma EarlyIsPass(v: World, proc: Proc, name: string, choice: Choice, n: nat, next: World)
    requires EndsIn(v, proc, name, choice, n, next) && At(next, proc) == Idle && !choice.fails && n <= ENOUGH
    ensures Calls(v, proc, name, choice, ENOUGH) == next
  {
    assert Calls(v, proc, name, choice, n) == next;
    CallsThenCalls(v, proc, name, choice, n, ENOUGH - n);
    Rests(next, proc, name, choice, ENOUGH - n, Calls(next, proc, name, choice, ENOUGH - n));
  }

  lemma LateIsPass(v: World, proc: Proc, name: string, choice: Choice, n: nat, next: World)
    requires EndsIn(v, proc, name, choice, n, next) && !choice.fails && n > ENOUGH && ReadIsFresh(v, proc, name)
    ensures Calls(v, proc, name, choice, ENOUGH) == next
  {
    assert Calls(v, proc, name, choice, n) == next;
    CallsThenCalls(v, proc, name, choice, ENOUGH, n - ENOUGH);
    CallsEnd(v, proc, name, choice, ENOUGH);
    Rests(Calls(v, proc, name, choice, ENOUGH), proc, name, choice, n - ENOUGH, next);
  }

  // A conflicting status write changes nothing and is tried again on a fresh read; the fifth one is
  // the last.
  lemma ConflictIsRetried(w: World, proc: Proc, name: string, choice: Choice)
    requires At(w, proc).PutStatus? && !ReadIsFresh(w, proc, name) && !choice.fails
    ensures var k, next := At(w, proc), ContinueStep(w, proc, name, choice);
      && next.requests == w.requests && next.decisions == w.decisions && next.ledger == w.ledger
      && At(next, proc) == if k.tries >= 4 then Idle else GetLatest(k.r.uid, k.goal, k.tries + 1)
  {}

  // A pass of a run is a run.
  lemma {:induction false} CallsReach(events: seq<Event>, w: World, proc: Proc, name: string, choice: Choice, n: nat)
      returns (more: seq<Event>, next: World)
    requires Reaches(events, w) && Named(proc, name)
    ensures Reaches(more, next) && EndsIn(w, proc, name, choice, n, next)
    decreases n
  {
    if n == 0 {
      more, next := events, w;
    } else {
      var one, v := Then(events, w, Continue(proc, name, choice));
      more, next := CallsReach(one, v, proc, name, choice, n - 1);
      assert Calls(v, proc, name, choice, n - 1) == next;
      assert Calls(w, proc, name, choice, n) == Calls(v, proc, name, choice, n - 1);
    }
  }

  lemma ThenPass(events: seq<Event>, w: World, begin: Event, proc: Proc, name: string, choice: Choice)
      returns (more: seq<Event>, next: World)
    requires Reaches(events, w) && Named(proc, name)
    ensures Reaches(more, next) && IsPass(w, begin, proc, name, choice, next)
  {
    var one, v := Then(events, w, begin);
    more, next := CallsReach(one, v, proc, name, choice, ENOUGH);
  }

  // ---- the reconcile of a request that waits ----

  // The request as it is stored when it ends.
  function Ended(r: Request, phase: Phase, reason: Reason, s: Option<Stored>, now: nat): Request
  {
    Request(r.uid, r.deleting, r.spec, phase, reason,
            if s.Some? then Some(s.value.decision.name) else None,
            if s.Some? then Some(s.value.uid) else r.decisionUid,
            if r.completedAt.Some? then r.completedAt else Some(now))
  }

  // The log has both events of this decision; what was there stays.
  ghost predicate Logged(w: World, next: World, r: Request, s: Stored)
  {
    && Submitted(r.uid, s.uid) in next.ledger.log && Admitted(r.uid, s.uid) in next.ledger.log
    && (Submitted(r.uid, s.uid) !in w.ledger.log ==>
          next.ledger.log[Submitted(r.uid, s.uid)] == Evidence(r.spec, s.uid, s.decision, None))
    && (Admitted(r.uid, s.uid) !in w.ledger.log ==>
          next.ledger.log[Admitted(r.uid, s.uid)] == Evidence(r.spec, s.uid, s.decision, r.completedAt))
    && forall id | id in w.ledger.log :: id in next.ledger.log && next.ledger.log[id] == w.ledger.log[id]
  }

  // A request that waits for its decision, with no reconcile of it going on.
  predicate Waits(w: World, name: string)
  {
    At(w, Controller(name)) == Idle && name in w.requests && w.requests[name].phase == Awaiting
      && !w.requests[name].deleting
  }

  // In every state of a run such a request names no decision.
  lemma WaitingNamesNone(w: World, name: string)
    requires Inv(w) && Waits(w, name)
    ensures w.requests[name].decisionRef.None?
  {
    assert RequestOk(w.ledger, name, w.requests[name]);
  }

  lemma ReadsSlot(w: World, name: string, goal: Goal, choice: Choice, next: World) returns (v: World)
    requires IsPass(w, Reconcile(name, Some(goal)), Controller(name), name, choice, next)
    requires Waits(w, name) && !choice.fails
    ensures At(v, Controller(name)) == GetDecision(w.requests[name], 0) && v == w.(control := v.control)
    ensures EndsIn(v, Controller(name), name, choice, 11, next)
  {
    v := PassBegins(w, Reconcile(name, Some(goal)), Controller(name), name, choice, next);
    v := Call(v, Controller(name), name, choice, 12, next);
  }

  // It stays as it is while the slot of the request is empty.
  lemma PassOnEmptySlot(w: World, name: string, goal: Goal, choice: Choice, next: World)
    requires IsPass(w, Reconcile(name, Some(goal)), Controller(name), name, choice, next)
    requires Inv(w) && Waits(w, name) && !choice.fails && ForRequest(w.requests[name].uid) !in w.decisions
    ensures At(next, Controller(name)) == Idle
    ensures next.requests == w.requests && next.decisions == w.decisions && next.ledger == w.ledger
  {
    var proc, r := Controller(name), w.requests[name];
    WaitingNamesNone(w, name);
    var v := ReadsSlot(w, name, goal, choice, next);
    v := Call(v, proc, name, choice, 11, next);
    NamesNoneEnds(v, proc, name, choice, r, 10, next);
  }

  // The end of a pass over a request that names no decision.
  lemma NamesNoneEnds(v: World, proc: Proc, name: string, choice: Choice, r: Request, n: nat, end: World)
    requires At(v, proc) == GetCompleted && n >= 2 && !choice.fails && EndsIn(v, proc, name, choice, n, end)
    requires name in v.requests && v.requests[name] == r && r.decisionRef.None?
    ensures end == v.(control := end.control) && At(end, proc) == Idle
  {
    var u := Call(v, proc, name, choice, n, end);
    assert At(u, proc) == GetAdmitted(r);
    u := Call(u, proc, name, choice, n - 1, end);
    Rests(u, proc, name, choice, n - 2, end);
  }

  // The end of a pass over a request that is completed under the decision in its slot: both events
  // are in the log.
  lemma CompletedEnds(v: World, proc: Proc, name: string, choice: Choice, r: Request, s: Stored, n: nat, end: World)
    requires At(v, proc) == GetAdmitted(r) && n >= 3 && !choice.fails && EndsIn(v, proc, name, choice, n, end)
    requires s.decision.name in v.decisions && v.decisions[s.decision.name] == s
    requires r.decisionRef == Some(s.decision.name) && r.decisionUid == Some(s.uid) && r.completedAt.Some?
    requires (r.phase == Succeeded || r.reason == DeniedReason) && s.decision.authoredAt.Some?
    ensures At(end, proc) == Idle && end.requests == v.requests && end.decisions == v.decisions
    ensures Logged(v, end, r, s)
  {
    var u := Call(v, proc, name, choice, n, end);
    assert At(u, proc) == AppendSubmission(r, s);
    u := Call(u, proc, name, choice, n - 1, end);
    assert At(u, proc) == AppendAdmission(r, s);
    u := Call(u, proc, name, choice, n - 2, end);
    Rests(u, proc, name, choice, n - 3, end);
  }

  // A decision is in the slot: the request fails if it does not count or its author's authority is
  // not given.
  lemma PassOnBadDecision(w: World, name: string, goal: Goal, choice: Choice, next: World)
    requires IsPass(w, Reconcile(name, Some(goal)), Controller(name), name, choice, next)
    requires Inv(w) && Waits(w, name) && !choice.fails && ForRequest(w.requests[name].uid) in w.decisions
    requires var r := w.requests[name]; var s := w.decisions[ForRequest(r.uid)];
      s.deleting || !Counts(name, r, s.decision) || !choice.authorized
    ensures At(next, Controller(name)) == Idle && next.decisions == w.decisions && next.ledger.log == w.ledger.log
    ensures next.requests == w.requests[name := Ended(w.requests[name], Failed, OtherReason, None, choice.now)]
  {
    var proc, r := Controller(name), w.requests[name];
    var s, failed := w.decisions[ForRequest(r.uid)], Ended(r, Failed, OtherReason, None, choice.now);
    WaitingNamesNone(w, name);
    var v := ReadsSlot(w, name, goal, choice, next);
    CountsIff(name, r, s.decision);
    v := Call(v, proc, name, choice, 11, next);
    if s.deleting || !Counts(name, r, s.decision) {
      FailedEnds(v, w, proc, name, choice, r, failed, 10, next);
    } else {
      assert At(v, proc) == CheckAuthority(r, s, 0);
      v := Call(v, proc, name, choice, 10, next);
      FailedEnds(v, w, proc, name, choice, r, failed, 9, next);
    }
  }

  lemma FailedEnds(v: World, w: World, proc: Proc, name: string, choice: Choice, r: Request, failed: Request, n: nat,
                   end: World)
    requires At(v, proc) == PutStatus(r, failed, Resolve, 0) && n >= 3 && !choice.fails
    requires EndsIn(v, proc, name, choice, n, end) && v == w.(control := v.control)
    requires name in w.requests && w.requests[name] == r && failed.phase == Failed && failed.decisionRef.None?
    ensures At(end, proc) == Idle && end.decisions == w.decisions && end.ledger.log == w.ledger.log
    ensures end.requests == w.requests[name := failed]
  {
    var u := Call(v, proc, name, choice, n, end);
    assert At(u, proc) == GetCompleted;
    NamesNoneEnds(u, proc, name, choice, failed, n - 1, end);
  }

  // A decision that counts is in the slot and its author's authority is given: the request succeeds
  // or is denied as the decision says, bound to exactly that decision, and the log has both events.
  lemma PassOnGoodDecision(w: World, name: string, goal: Goal, choice: Choice, next: World)
    requires IsPass(w, Reconcile(name, Some(goal)), Controller(name), name, choice, next)
    requires Inv(w) && Waits(w, name) && !choice.fails && choice.authorized
    requires ForRequest(w.requests[name].uid) in w.decisions
    requires var r := w.requests[name]; var s := w.decisions[ForRequest(r.uid)];
      !s.deleting && Counts(name, r, s.decision)
    ensures At(next, Controller(name)) == Idle && next.decisions == w.decisions
    ensures var r := w.requests[name]; var s := w.decisions[ForRequest(r.uid)];
      var ended := if s.decision.verdict == Approved then Ended(r, Succeeded, NoReason, Some(s), choice.now)
                   else Ended(r, Failed, DeniedReason, Some(s), choice.now);
      next.requests == w.requests[name := ended] && Logged(w, next, ended, s)
  {
    var proc, r := Controller(name), w.requests[name];
    var s := w.decisions[ForRequest(r.uid)];
    var v := ReadsSlot(w, name, goal, choice, next);
    CountsIff(name, r, s.decision);
    v := Call(v, proc, name, choice, 11, next);
    assert At(v, proc) == CheckAuthority(r, s, 0);
    v := Call(v, proc, name, choice, 10, next);
    assert At(v, proc) == RecordResolved(r, s, 0);
    ResolvedEnds(v, w, proc, name, choice, r, s, 9, next);
  }

  lemma ResolvedEnds(v: World, w: World, proc: Proc, name: string, choice: Choice, r: Request, s: Stored, n: nat,
                     end: World)
    requires At(v, proc) == RecordResolved(r, s, 0) && n >= 6 && !choice.fails && Inv(w)
    requires EndsIn(v, proc, name, choice, n, end) && v == w.(control := v.control)
    requires name in w.requests && w.requests[name] == r && !TerminalPhase(r.phase)
    requires ForRequest(r.uid) in w.decisions && w.decisions[ForRequest(r.uid)] == s
    requires s.decision.verdict != OtherVerdict && s.decision.authoredAt.Some?
    ensures At(end, proc) == Idle && end.decisions == w.decisions
    ensures var ended := if s.decision.verdict == Approved then Ended(r, Succeeded, NoReason, Some(s), choice.now)
                         else Ended(r, Failed, DeniedReason, Some(s), choice.now);
      end.requests == w.requests[name := ended] && Logged(w, end, ended, s)
  {
    var ended := if s.decision.verdict == Approved then Ended(r, Succeeded, NoReason, Some(s), choice.now)
                 else Ended(r, Failed, DeniedReason, Some(s), choice.now);
    var u := Call(v, proc, name, choice, n, end);
    assert At(u, proc) == PutStatus(r, ended, Resolve, 0);
    StoredEnds(u, proc, name, choice, r, ended, s, n - 1, end);
  }

  // Storing the outcome, and logging it.
  lemma StoredEnds(v: World, proc: Proc, name: string, choice: Choice, r: Request, ended: Request, s: Stored, n: nat,
                   end: World)
    requires At(v, proc) == PutStatus(r, ended, Resolve, 0) && n >= 5 && !choice.fails
    requires EndsIn(v, proc, name, choice, n, end) && name in v.requests && v.requests[name] == r
    requires s.decision.name in v.decisions && v.decisions[s.decision.name] == s
    requires ended.decisionRef == Some(s.decision.name) && ended.decisionUid == Some(s.uid) && ended.completedAt.Some?
    requires (ended.phase == Succeeded || ended.reason == DeniedReason) && s.decision.authoredAt.Some?
    ensures At(end, proc) == Idle && end.decisions == v.decisions && end.requests == v.requests[name := ended]
    ensures Logged(v, end, ended, s)
  {
    var u := Call(v, proc, name, choice, n, end);
    assert At(u, proc) == GetCompleted;
    u := Call(u, proc, name, choice, n - 1, end);
    assert At(u, proc) == GetAdmitted(ended);
    CompletedEnds(u, proc, name, choice, ended, s, n - 2, end);
  }

  // ---- the other reconciles of a request ----

  // A new request starts to wait, or fails, as its inputs and its policy say.
  lemma PassOnNewRequest(w: World, name: string, goal: Goal, choice: Choice, next: World)
    requires IsPass(w, Reconcile(name, Some(goal)), Controller(name), name, choice, next)
    requires At(w, Controller(name)) == Idle && name in w.requests && !w.requests[name].deleting && !choice.fails
    requires w.requests[name].phase == Phase.Unset && goal != Resolve
    ensures At(next, Controller(name)) == Idle && next.decisions == w.decisions && next.ledger.log == w.ledger.log
    ensures var r := w.requests[name];
      next.requests == w.requests[name :=
        if goal == Await then r.(phase := Awaiting) else Ended(r, Failed, OtherReason, None, choice.now)]
  {
    var proc, r := Controller(name), w.requests[name];
    var updated := if goal == Await then r.(phase := Awaiting) else Ended(r, Failed, OtherReason, None, choice.now);
    var v := PassBegins(w, Reconcile(name, Some(goal)), proc, name, choice, next);
    assert At(v, proc) == GetLatest(r.uid, goal, 0);
    v := Call(v, proc, name, choice, 12, next);
    assert At(v, proc) == PutStatus(r, updated, goal, 0);
    v := Call(v, proc, name, choice, 11, next);
    Rests(v, proc, name, choice, 10, next);
  }

  // A request that ended under a decision which is still there gets both events logged, by its
  // controller as well as by an operation that relies on it.
  lemma PassOnEnded(w: World, name: string, begin: Event, proc: Proc, choice: Choice, s: Stored, next: World)
    requires IsPass(w, begin, proc, name, choice, next) && At(w, proc) == Idle && !choice.fails && Inv(w)
    requires name in w.requests && w.requests[name].decisionRef == Some(s.decision.name)
    requires w.requests[name].decisionUid == Some(s.uid)
    requires s.decision.name in w.decisions && w.decisions[s.decision.name] == s
    requires || (exists goal :: begin == Reconcile(name, Some(goal)) && proc == Controller(name)
                   && TerminalPhase(w.requests[name].phase) && !w.requests[name].deleting)
             || (exists o :: begin == Operate(o, name) && proc == Operation(o) && w.requests[name].phase == Succeeded)
    ensures At(next, proc) == Idle && next.requests == w.requests && next.decisions == w.decisions
    ensures Logged(w, next, w.requests[name], s)
  {
    var r := w.requests[name];
    assert RequestOk(w.ledger, name, r);
    assert StoredOk(w.ledger, s);
    var v := PassBegins(w, begin, proc, name, choice, next);
    assert At(v, proc) == GetAdmitted(r);
    CompletedEnds(v, proc, name, choice, r, s, 12, next);
  }

  // ---- a submission ----

  // Who may decide this request.
  predicate MayDecide(r: Request, uid: nat, who: Identity)
  {
    && !r.deleting && r.uid == uid && r.spec.anyOfFail
    && (exists c | c in who.subject :: c !in " \t\n\r")
    && (exists group | group in r.spec.groups :: group != "" && group in who.groups)
  }

  // The decision a submission asks for.
  function Asked(name: string, r: Request, who: Identity, approve: bool, now: nat): Decision
  {
    Decision(ForRequest(r.uid), Some(UidRef(name, r.uid)), r.spec.workflow, r.spec.attempt, UidRef(name, r.uid),
             if approve then Approved else Denied, who.subject, who.groups, Some(now))
  }

  // The stored decision is by the same subject and with the same verdict, for the same request.
  predicate SaysTheSame(s: Stored, d: Decision)
  {
    && !s.deleting && s.decision.subject == d.subject && s.decision.verdict == d.verdict
    && s.decision.request == d.request && s.decision.attempt == d.attempt && s.decision.workflow == d.workflow
  }

  // A submission with success: answered for this stored decision, which the log shows as submitted.
  ghost predicate Answered(w: World, next: World, proc: Proc, r: Request, s: Stored, d: Decision)
  {
    && next.ledger.answers == w.ledger.answers + {(r.uid, s.uid, d)}
    && Successes(next.ledger, proc) == Successes(w.ledger, proc) + 1
    && Submitted(r.uid, s.uid) in next.ledger.log
    && (Submitted(r.uid, s.uid) !in w.ledger.log ==>
          next.ledger.log[Submitted(r.uid, s.uid)] == Evidence(r.spec, s.uid, s.decision, None))
    && forall id | id in w.ledger.log :: id in next.ledger.log && next.ledger.log[id] == w.ledger.log[id]
  }

  // Into an empty slot goes exactly the decision asked for, while the request waits.
  lemma PassSubmits(w: World, name: string, client: nat, uid: nat, who: Identity, approve: bool, now: nat,
                    choice: Choice, next: World)
    requires IsPass(w, Submit(client, name, uid, who, approve, now), Client(client), name, choice, next)
    requires At(w, Client(client)) == Idle && !choice.fails && name in w.requests
    requires MayDecide(w.requests[name], uid, who) && w.requests[name].phase == Awaiting
    requires ForRequest(uid) !in w.decisions
    ensures next.requests == w.requests && forall p :: At(next, p) == At(w, p)
    ensures var r, d := w.requests[name], Asked(name, w.requests[name], who, approve, now);
      var s := Stored(w.nextUid, false, d);
      next.decisions == w.decisions[ForRequest(uid) := s] && Answered(w, next, Client(client), r, s, d)
  {
    var proc, r, d := Client(client), w.requests[name], Asked(name, w.requests[name], who, approve, now);
    var s := Stored(w.nextUid, false, d);
    var v := PassBegins(w, Submit(client, name, uid, who, approve, now), proc, name, choice, next);
    assert At(v, proc) == ReadDecision(r, d);
    v := Call(v, proc, name, choice, 12, next);
    assert At(v, proc) == CreateDecision(r, d);
    v := Call(v, proc, name, choice, 11, next);
    assert At(v, proc) == RecordSubmission(r, s, d);
    v := Call(v, proc, name, choice, 10, next);
    Rests(v, proc, name, choice, 9, next);
  }

  // A filled slot stays as it is; the submission is answered with success if the decision there says
  // the same, and changes nothing otherwise.
  lemma PassSubmitsAgain(w: World, name: string, client: nat, uid: nat, who: Identity, approve: bool, now: nat,
                         choice: Choice, next: World)
    requires IsPass(w, Submit(client, name, uid, who, approve, now), Client(client), name, choice, next)
    requires At(w, Client(client)) == Idle && !choice.fails && name in w.requests
    requires MayDecide(w.requests[name], uid, who) && ForRequest(uid) in w.decisions
    ensures next.requests == w.requests && next.decisions == w.decisions && forall p :: At(next, p) == At(w, p)
    ensures var r, d, s :=
      w.requests[name], Asked(name, w.requests[name], who, approve, now), w.decisions[ForRequest(uid)];
      if SaysTheSame(s, d) && s.decision.authoredAt.Some? then Answered(w, next, Client(client), r, s, d)
        else next.ledger == w.ledger
  {
    var proc, r, d := Client(client), w.requests[name], Asked(name, w.requests[name], who, approve, now);
    var s := w.decisions[ForRequest(uid)];
    var v := SubmitReads(w, name, client, uid, who, approve, now, choice, next);
    if SaysTheSame(s, d) {
      v := Call(v, proc, name, choice, 11, next);
      Rests(v, proc, name, choice, 10, next);
    } else {
      Rests(v, proc, name, choice, 11, next);
    }
  }

  // The decision that is there is read, and compared with the one asked for.
  lemma SubmitReads(w: World, name: string, client: nat, uid: nat, who: Identity, approve: bool, now: nat,
                    choice: Choice, next: World) returns (v: World)
    requires IsPass(w, Submit(client, name, uid, who, approve, now), Client(client), name, choice, next)
    requires At(w, Client(client)) == Idle && !choice.fails && name in w.requests
    requires MayDecide(w.requests[name], uid, who) && ForRequest(uid) in w.decisions
    ensures EndsIn(v, Client(client), name, choice, 11, next)
    ensures var r, d, s :=
      w.requests[name], Asked(name, w.requests[name], who, approve, now), w.decisions[ForRequest(uid)];
      v == GoTo(w, Client(client), if SaysTheSame(s, d) then RecordSubmission(r, s, d) else Idle)
  {
    var proc, r, d := Client(client), w.requests[name], Asked(name, w.requests[name], who, approve, now);
    v := PassBegins(w, Submit(client, name, uid, who, approve, now), proc, name, choice, next);
    assert At(v, proc) == ReadDecision(r, d);
    v := Call(v, proc, name, choice, 12, next);
  }

  // Whoever may not decide changes nothing, and neither does a decision nobody waits for.
  lemma PassRefuses(w: World, name: string, client: nat, uid: nat, who: Identity, approve: bool, now: nat,
                    choice: Choice, next: World)
    requires IsPass(w, Submit(client, name, uid, who, approve, now), Client(client), name, choice, next)
    requires At(w, Client(client)) == Idle && !choice.fails
    requires name !in w.requests || !MayDecide(w.requests[name], uid, who)
      || (w.requests[name].phase != Awaiting && ForRequest(uid) !in w.decisions)
    ensures next.requests == w.requests && next.decisions == w.decisions && next.ledger == w.ledger
  {
    var proc := Client(client);
    var v := PassBegins(w, Submit(client, name, uid, who, approve, now), proc, name, choice, next);
    if At(v, proc) == Idle {
      Rests(v, proc, name, choice, 12, next);
    } else {
      v := Call(v, proc, name, choice, 12, next);
      Rests(v, proc, name, choice, 11, next);
    }
  }

  // ---- success is reached ----

  const CALM: Choice := Choice(false, true, 0)

  // From the empty cluster: a request is made, waits, is approved by a member of a required group, and
  // succeeds with its admission logged.
  lemma SuccessIsReachable(name: string, spec: RequestSpec, who: Identity)
    requires MayDecide(Request(0, false, spec, Awaiting, NoReason, None, None, None), 0, who)
    ensures exists events, s :: var w := Run(events);
      && name in w.requests && w.requests[name].phase == Succeeded && w.requests[name].decisionUid == Some(s)
      && Submitted(0, s) in w.ledger.log && Admitted(0, s) in w.ledger.log
  {
    var first, v := AwaitsDecision(name, spec);
    var second, u := ThenPass(first, v, Submit(1, name, 0, who, true, 0), Client(1), name, CALM);
    PassSubmits(v, name, 1, 0, who, true, 0, CALM, u);
    assert Run(second) == u;
    RunKeepsInv(second);
    var events, w := ThenPass(second, u, Reconcile(name, Some(Resolve)), Controller(name), name, CALM);
    PassOnGoodDecision(u, name, Resolve, CALM, w);
    assert Run(events) == w;
    assert w.requests[name].decisionUid == Some(v.nextUid);
  }
}
