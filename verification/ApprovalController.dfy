/**
  The code of the approval API and of the approval controller over the stored objects, call by call,
  with everything else happening in between.  Each method is tied to the approval protocol: whatever
  it does is a run of it.
*/
module ApprovalController {
  import opened Wrappers
  import opened Approval
  import opened ApprovalSafety
  import opened ApprovalPasses

  // The event with which a submission, a reconcile or an operation starts.
  predicate Starts(event: Event, proc: Proc)
  {
    match event
    case Submit(client, _, _, _, _, _) => proc == Client(client)
    case Reconcile(name, _) => proc == Controller(name)
    case Operate(operation, _) => proc == Operation(operation)
    case _ => false
  }

  predicate Own(event: Event, proc: Proc)
  {
    Starts(event, proc) || event == Crash(proc) || (event.Continue? && event.proc == proc)
  }

  // The world a run ends in.  (The quantifier keeps Run out of sight where only the name matters.)
  ghost predicate Reached(w: World, events: seq<Event>)
  {
    forall more: seq<Event> | more == events :: Run(more) == w
  }

  lemma ReachedStep(w: World, events: seq<Event>, event: Event)
    requires Reached(w, events)
    ensures Reached(Step(w, event), events + [event])
  {
    var all := events + [event];
    assert all[..|all| - 1] == events && all[|all| - 1] == event;
    assert Run(events) == w;
    assert Run(all) == Step(w, event);
  }

  class Cluster {
    var requests: map<string, Request>
    var decisions: map<DecisionName, Stored>
    var log: Log
    var nextUid: nat
    ghost var control: map<Proc, Control>
    ghost var ledger: Ledger
    ghost var events: seq<Event>
    // how many events there were, and what a call made at that moment is told
    var moment: nat
    const answers: nat -> Choice

    ghost function State(): World
      reads this
    {
      World(requests, decisions, control, nextUid, ledger)
    }

    // Everything that has happened is a run of the protocol.
    ghost predicate Valid()
      reads this
    {
      Reached(State(), events) && ledger.log == log && moment == |events|
    }

    // Between the two moments this process neither started nor crashed; it may have made calls, and
    // each was told what there was to be told.
    ghost predicate Continued(before: seq<Event>, after: seq<Event>, proc: Proc)
    {
      && before <= after
      && forall i | |before| <= i < |after| ::
           && !Starts(after[i], proc) && after[i] != Crash(proc)
           && (Own(after[i], proc) ==> after[i] == Continue(proc, after[i].name, answers(i)))
    }

    // It started once, with this event, made no call before, and did not crash.
    ghost predicate RanOnce(before: seq<Event>, after: seq<Event>, proc: Proc, begin: Event)
    {
      exists i :: |before| <= i < |after| && after[i] == begin && Started(before, after, i, proc)
    }

    ghost predicate Started(before: seq<Event>, after: seq<Event>, i: nat, proc: Proc)
      requires |before| <= i < |after|
    {
      && before <= after && (forall j | |before| <= j < i :: !Own(after[j], proc))
      && Continued(after[..i + 1], after, proc)
    }

    lemma RanOnceContinued(before: seq<Event>, middle: seq<Event>, after: seq<Event>, proc: Proc, begin: Event)
      requires RanOnce(before, middle, proc, begin) && Continued(middle, after, proc)
      ensures RanOnce(before, after, proc, begin)
    {
      var i :| |before| <= i < |middle| && middle[i] == begin && Started(before, middle, i, proc);
      assert after[..i + 1] == middle[..i + 1];
      assert Started(before, after, i, proc);
    }

    // Nothing else happened, and every call was told the same.
    ghost predicate Alone(before: seq<Event>, after: seq<Event>, proc: Proc, name: string, choice: Choice)
    {
      && before <= after
      && forall i | |before| <= i < |after| ::
           Own(after[i], proc) && answers(i) == choice && (after[i].Continue? ==> after[i].name == name)
    }

    lemma {:induction false} CallsAlone(w: World, before: seq<Event>, next: World, after: seq<Event>, proc: Proc,
                                        name: string, choice: Choice)
      requires Reached(w, before) && Reached(next, after) && Continued(before, after, proc) && Named(proc, name)
      requires Alone(before, after, proc, name, choice)
      ensures EndsIn(w, proc, name, choice, |after| - |before|, next)
      decreases |after| - |before|
    {
      if |after| == |before| {
        assert after == before;
        assert Run(before) == w;
        assert Run(after) == next;
      } else {
        var one := after[..|before| + 1];
        assert one == before + [Continue(proc, name, choice)];
        var v := ContinueStep(w, proc, name, choice);
        ReachedStep(w, before, Continue(proc, name, choice));
        CallsAlone(v, one, next, after, proc, name, choice);
        OneCallMore(w, proc, name, choice, |after| - |before|, next);
      }
    }

    // What nothing disturbs is a pass.
    lemma AloneIsPass(w: World, before: seq<Event>, next: World, after: seq<Event>, proc: Proc, begin: Event,
                      name: string, choice: Choice)
      requires Reached(w, before) && Reached(next, after) && RanOnce(before, after, proc, begin) && Named(proc, name)
      requires Alone(before, after, proc, name, choice) && At(w, proc) == Idle && At(next, proc) == Idle
      requires Starts(begin, proc) && !choice.fails
      ensures IsPass(w, begin, proc, name, choice, next)
    {
      var i :| |before| <= i < |after| && after[i] == begin && Started(before, after, i, proc);
      assert Own(after[|before|], proc);
      var begun := after[..i + 1];
      assert begun == before + [begin];
      ReachedStep(w, before, begin);
      CallsAlone(Step(w, begin), begun, next, after, proc, name, choice);
      OverIsPass(w, begin, proc, name, choice, |after| - |begun|, next);
    }

    ghost predicate In(proc: Proc, k: Control)
      reads this
    {
      Valid() && At(State(), proc) == k
    }

    constructor (answers: nat -> Choice)
      ensures Valid() && events == [] && this.answers == answers
    {
      this.answers, moment := answers, 0;
      requests, decisions, log, nextUid := map[], map[], map[], 0;
      control, ledger, events := START.control, START.ledger, [];
    }

    // Records the event whose effect on the stored objects has just been carried out.
    method Record(ghost before: World, ghost event: Event)
      requires Reached(before, events) && moment == |events|
      requires var next := Step(before, event);
        requests == next.requests && decisions == next.decisions && nextUid == next.nextUid && log == next.ledger.log
      modifies `control, `ledger, `events, `moment
      ensures Valid() && State() == Step(before, event) && events == old(events) + [event]
    {
      ghost var next := Step(before, event);
      ReachedStep(before, events, event);
      control, ledger, events := next.control, next.ledger, events + [event];
      moment := moment + 1;
    }

    // Other submissions, reconciles and clients get their turns here: callers may rely only on the
    // contract, which allows any run without this process's own steps.
    method Interfere(proc: Proc)
      requires Valid()
      modifies this
      ensures Valid() && At(State(), proc) == old(At(State(), proc))
      ensures Continued(old(events), events, proc)
      ensures forall i | |old(events)| <= i < |events| :: !Own(events[i], proc)
      ensures Successes(ledger, proc) == old(Successes(ledger, proc))
    {
    }

    // What the call that is made now is told.
    method Ask() returns (told: Choice)
      ensures told == answers(moment)
    {
      return answers(moment);
    }

    // MemoryRecorder.Append
    method AppendEvent(id: EventId, evidence: Evidence)
      modifies `log
      ensures log == Append(old(log), id, evidence)
    {
      if id !in log {
        log := log[id := evidence];
      }
    }

    // SubmitApproval for an authenticated identity and a non-empty, known action.
    method SubmitApproval(client: nat, name: string, uid: nat, who: Identity, approve: bool, now: nat)
        returns (success: bool)
      requires In(Client(client), Idle)
      modifies this
      ensures In(Client(client), Idle)
      ensures RanOnce(old(events), events, Client(client), Submit(client, name, uid, who, approve, now))
      // with nothing else happening in between, what it achieves is what a pass achieves
      ensures forall choice | Alone(old(events), events, Client(client), name, choice) && !choice.fails ::
        IsPass(old(State()), Submit(client, name, uid, who, approve, now), Client(client), name, choice, State())
      ensures success ==> DecidedAndLogged(ledger, uid, who.subject, if approve then Approved else Denied)
      ensures Successes(ledger, Client(client)) == old(Successes(ledger, Client(client))) + if success then 1 else 0
    {
      var started := StartSubmission(client, name, uid, who, approve, now);
      ghost var begun, begin := events, Submit(client, name, uid, who, approve, now);
      success := false;
      if started.Some? {
        success := Decide(client, name, started.value.0, started.value.1);
      }
      RanOnceContinued(old(events), begun, events, Client(client), begin);
      forall choice | Alone(old(events), events, Client(client), name, choice) && !choice.fails
        ensures IsPass(old(State()), begin, Client(client), name, choice, State())
      {
        AloneIsPass(old(State()), old(events), State(), events, Client(client), begin, name, choice);
      }
    }

    method StartSubmission(client: nat, name: string, uid: nat, who: Identity, approve: bool, now: nat)
        returns (started: Option<(Request, Decision)>)
      requires In(Client(client), Idle)
      modifies this
      ensures RanOnce(old(events), events, Client(client), Submit(client, name, uid, who, approve, now))
      ensures In(Client(client), if started.None? then Idle else ReadDecision(started.value.0, started.value.1))
      ensures started.Some? ==> started.value.0.uid == uid
      ensures Successes(ledger, Client(client)) == old(Successes(ledger, Client(client)))
      ensures started.Some? ==> started.value.1 == Built(name, started.value.0, who, approve, now)
    {
      Interfere(Client(client));
      ghost var before := events;
      started := None;
      if !Blank(who.subject) && name in requests {
        var r := requests[name];
        var member := IsAuthorized(who, r);
        if !r.deleting && r.uid == uid && member && r.spec.anyOfFail {
          started := Some((r, Built(name, r, who, approve, now)));
        }
      }
      Record(State(), Submit(client, name, uid, who, approve, now));
      assert Started(old(events), events, |before|, Client(client));
    }

    method IsAuthorized(who: Identity, r: Request) returns (member: bool)
      ensures member <==> InRequiredGroup(r.spec, who.groups)
    {
      for i := 0 to |r.spec.groups|
        invariant forall k | 0 <= k < i :: !(r.spec.groups[k] != "" && r.spec.groups[k] in who.groups)
      {
        if r.spec.groups[i] != "" && r.spec.groups[i] in who.groups {
          assert r.spec.groups[i] in r.spec.groups;
          return true;
        }
      }
      return false;
    }

    // An existing decision is compared; a new one is created, unless somebody else is faster.
    method Decide(client: nat, name: string, r: Request, d: Decision) returns (success: bool)
      requires In(Client(client), ReadDecision(r, d)) && d.authoredAt.Some?
      modifies this
      ensures In(Client(client), Idle) && Continued(old(events), events, Client(client))
      ensures success ==> DecidedAndLogged(ledger, r.uid, d.subject, d.verdict)
      ensures Successes(ledger, Client(client)) == old(Successes(ledger, Client(client))) + if success then 1 else 0
    {
      var existing := GetDecisionNamed(client, name, r, d, false);
      if existing.Refused? {
        return false;
      }
      var stored := existing.value;
      if stored.None? {
        if r.phase != Awaiting {
          return false;
        }
        stored := CreateOrRead(client, name, r, d);
        if stored.None? {
          return false;
        }
      } else if !SameSubmission(stored.value, d) {
        return false;
      }
      success := RecordSubmissionOf(client, name, r, stored.value, d);
    }

    // The decision of the request, before or after an attempt to create it.
    method GetDecisionNamed(client: nat, name: string, r: Request, d: Decision, again: bool)
        returns (found: Outcome<Option<Stored>>)
      requires In(Client(client), if again then ReadExisting(r, d) else ReadDecision(r, d))
      modifies this
      ensures Successes(ledger, Client(client)) == old(Successes(ledger, Client(client)))
      ensures Continued(old(events), events, Client(client))
      ensures In(Client(client), match found
        case Refused => Idle
        case Ok(None) => if again || r.phase != Awaiting then Idle else CreateDecision(r, d)
        case Ok(Some(s)) => Existing(r, s, d))
    {
      Interfere(Client(client));
      ghost var before := State();
      var told := Ask();
      found := if told.fails then Refused else Ok(if d.name in decisions then Some(decisions[d.name]) else None);
      Record(before, Continue(Client(client), name, told));
    }

    method CreateOrRead(client: nat, name: string, r: Request, d: Decision) returns (stored: Option<Stored>)
      requires In(Client(client), CreateDecision(r, d))
      modifies this
      ensures Successes(ledger, Client(client)) == old(Successes(ledger, Client(client)))
      ensures Continued(old(events), events, Client(client))
      ensures In(Client(client), if stored.None? then Idle else RecordSubmission(r, stored.value, d))
    {
      var created := Create(client, name, r, d);
      if created.Refused? {
        return None;
      }
      if created.value.Some? {
        return created.value;
      }
      var existing := GetDecisionNamed(client, name, r, d, true);
      if existing.Ok? && existing.value.Some? && SameSubmission(existing.value.value, d) {
        return existing.value;
      }
      return None;
    }

    method Create(client: nat, name: string, r: Request, d: Decision) returns (created: Outcome<Option<Stored>>)
      requires In(Client(client), CreateDecision(r, d))
      modifies this
      ensures Successes(ledger, Client(client)) == old(Successes(ledger, Client(client)))
      ensures Continued(old(events), events, Client(client))
      ensures In(Client(client), match created
        case Refused => Idle
        case Ok(None) => ReadExisting(r, d)
        case Ok(Some(s)) => RecordSubmission(r, s, d))
    {
      Interfere(Client(client));
      ghost var before := State();
      var told := Ask();
      if told.fails {
        created := Refused;
      } else if d.name in decisions {
        created := Ok(None);
      } else {
        var s := Stored(nextUid, false, d);
        decisions, nextUid := decisions[d.name := s], nextUid + 1;
        created := Ok(Some(s));
      }
      Record(before, Continue(Client(client), name, told));
    }

    method RecordSubmissionOf(client: nat, name: string, r: Request, s: Stored, d: Decision) returns (success: bool)
      requires In(Client(client), RecordSubmission(r, s, d))
      modifies this
      ensures In(Client(client), Idle) && Continued(old(events), events, Client(client))
      ensures success ==> DecidedAndLogged(ledger, r.uid, d.subject, d.verdict)
      ensures Successes(ledger, Client(client)) == old(Successes(ledger, Client(client))) + if success then 1 else 0
    {
      success := AppendSubmitted(client, name, r, s, d);
      if success {
        AnswerIsLogged(r.uid, s.uid, d);
      }
    }

    method AppendSubmitted(client: nat, name: string, r: Request, s: Stored, d: Decision) returns (success: bool)
      requires In(Client(client), RecordSubmission(r, s, d))
      modifies this
      ensures In(Client(client), Idle) && Continued(old(events), events, Client(client))
      ensures success ==> (r.uid, s.uid, d) in ledger.answers
      ensures Successes(ledger, Client(client)) == old(Successes(ledger, Client(client))) + if success then 1 else 0
    {
      Interfere(Client(client));
      ghost var before := State();
      var told := Ask();
      success := !told.fails && s.decision.authoredAt.Some?;
      if success {
        AppendEvent(Submitted(r.uid, s.uid), Evidence(r.spec, s.uid, s.decision, None));
      }
      Record(before, Continue(Client(client), name, told));
    }

    lemma AnswerIsLogged(r: nat, s: nat, d: Decision)
      requires Valid() && (r, s, d) in ledger.answers
      ensures DecidedAndLogged(ledger, r, d.subject, d.verdict)
    {
      RunKeepsInv(events);
      assert AnswerOk(ledger, (r, s, d));
    }

    // validateApprovalDecision
    method ValidateApprovalDecision(name: string, r: Request, s: Stored) returns (valid: bool)
      ensures valid <==> !s.deleting && ValidDecision(name, r.uid, r.spec, s.decision)
    {
      var d := s.decision;
      if s.deleting || d.owner != Some(UidRef(name, r.uid)) || d.request != UidRef(name, r.uid)
        || d.attempt != r.spec.attempt || d.workflow != r.spec.workflow {
        return false;
      }
      if !r.spec.anyOfFail || (d.verdict != Approved && d.verdict != Denied) || Blank(d.subject) || d.authoredAt.None? {
        return false;
      }
      valid := IsAuthorized(Identity(d.subject, d.groups), r);
    }

    // One reconcile, from start to idle.  The goal of a request that is not yet awaiting a decision
    // depends on its attempt and inputs.
    method ReconcileRequest(name: string, goal: Option<Goal>)
      requires In(Controller(name), Idle)
      modifies this
      ensures In(Controller(name), Idle) && RanOnce(old(events), events, Controller(name), Reconcile(name, goal))
      // with nothing else happening in between, what it achieves is what a pass achieves
      ensures forall choice | Alone(old(events), events, Controller(name), name, choice) && !choice.fails ::
        IsPass(old(State()), Reconcile(name, goal), Controller(name), name, choice, State())
    {
      var found := GetRequest(name, goal);
      ghost var begun := events;
      if found.Some? {
        var r := found.value;
        if TerminalPhase(r.phase) {
          RecordAdmittedDecision(name, r);
        } else if r.phase == Awaiting {
          UpdateApprovalStatus(name, r.uid, Resolve);
        } else if goal != Some(Resolve) {
          UpdateApprovalStatus(name, r.uid, goal.value);
        }
      }
      RanOnceContinued(old(events), begun, events, Controller(name), Reconcile(name, goal));
      forall choice | Alone(old(events), events, Controller(name), name, choice) && !choice.fails
        ensures IsPass(old(State()), Reconcile(name, goal), Controller(name), name, choice, State())
      {
        AloneIsPass(old(State()), old(events), State(), events, Controller(name), Reconcile(name, goal), name, choice);
      }
    }

    method GetRequest(name: string, goal: Option<Goal>) returns (found: Option<Request>)
      requires In(Controller(name), Idle)
      modifies this
      ensures RanOnce(old(events), events, Controller(name), Reconcile(name, goal)) && (found.Some? ==> goal.Some?)
      ensures In(Controller(name), match found
        case None => Idle
        case Some(r) =>
          if TerminalPhase(r.phase) then GetAdmitted(r)
          else if r.phase == Awaiting then GetLatest(r.uid, Resolve, 0)
          else if goal.value == Resolve then Idle else GetLatest(r.uid, goal.value, 0))
    {
      Interfere(Controller(name));
      ghost var before := events;
      found := if goal.None? || name !in requests || requests[name].deleting then None else Some(requests[name]);
      Record(State(), Reconcile(name, goal));
      assert Started(old(events), events, |before|, Controller(name));
    }

    // updateApprovalStatus: five attempts on a fresh read, then, for a resolution, the admission.
    method UpdateApprovalStatus(name: string, uid: nat, goal: Goal)
      requires In(Controller(name), GetLatest(uid, goal, 0))
      modifies this
      ensures In(Controller(name), Idle) && Continued(old(events), events, Controller(name))
    {
      var attempt: nat := 0;
      while attempt < 5
        invariant In(Controller(name), if attempt < 5 then GetLatest(uid, goal, attempt) else Idle)
        invariant Continued(old(events), events, Controller(name))
      {
        var done := TryToUpdate(name, uid, goal, attempt);
        if done == Some(true) {
          if goal == Resolve {
            AdmitCompleted(name);
          }
          return;
        } else if done == None {
          return;
        }
        attempt := attempt + 1;
      }
    }

    // One attempt; Some(false) is a conflict.
    method TryToUpdate(name: string, uid: nat, goal: Goal, ghost tries: nat) returns (done: Option<bool>)
      requires In(Controller(name), GetLatest(uid, goal, tries))
      modifies this
      ensures Continued(old(events), events, Controller(name))
      ensures In(Controller(name), match done
        case Some(true) => AfterUpdate(goal)
        case Some(false) => if tries < 4 then GetLatest(uid, goal, tries + 1) else Idle
        case None => Idle)
    {
      var mutated := Mutate(name, uid, goal, tries);
      match mutated
      case Refused => return None;
      case Ok(None) => return Some(true);
      case Ok(Some(write)) => done := PutRequest(name, write.0, write.1, goal, tries);
    }

    // The change to make to the request, if there is one to make.
    method Mutate(name: string, uid: nat, goal: Goal, ghost tries: nat)
        returns (mutated: Outcome<Option<(Request, Request)>>)
      requires In(Controller(name), GetLatest(uid, goal, tries))
      modifies this
      ensures Continued(old(events), events, Controller(name))
      ensures In(Controller(name), match mutated
        case Refused => Idle
        case Ok(None) => AfterUpdate(goal)
        case Ok(Some(write)) => PutStatus(write.0, write.1, goal, tries))
      ensures mutated.Ok? && mutated.value.Some? ==> mutated.value.value.0.uid == uid
    {
      var latest, now := ReadLatest(name, uid, goal, tries);
      if latest.Refused? {
        return Refused;
      }
      if latest.value.None? {
        return Ok(None);
      }
      var r := latest.value.value;
      match goal
      case Fail => return Ok(Some((r, Finished(r, Failed, OtherReason, None, now))));
      case Await => return Ok(Some((r, r.(phase := Awaiting))));
      case Resolve =>
        mutated := ResolveDecision(name, r, tries);
    }

    method ReadLatest(name: string, uid: nat, goal: Goal, ghost tries: nat)
        returns (latest: Outcome<Option<Request>>, now: nat)
      requires In(Controller(name), GetLatest(uid, goal, tries))
      modifies this
      ensures Continued(old(events), events, Controller(name))
      ensures In(Controller(name), match latest
        case Refused => Idle
        case Ok(None) => AfterUpdate(goal)
        case Ok(Some(r)) =>
          (match goal
           case Fail => PutStatus(r, Finished(r, Failed, OtherReason, None, now), goal, tries)
           case Await => PutStatus(r, r.(phase := Awaiting), goal, tries)
           case Resolve => GetDecision(r, tries)))
      ensures latest.Ok? && latest.value.Some? ==> latest.value.value.uid == uid
    {
      Interfere(Controller(name));
      ghost var before := State();
      var told := Ask();
      now := told.now;
      if told.fails {
        latest := Refused;
      } else if name !in requests {
        latest := Ok(None);
      } else {
        var r := requests[name];
        if r.uid != uid || r.deleting || TerminalPhase(r.phase) {
          latest := Ok(None);
        } else if (goal == Await && r.phase == Awaiting) || (goal == Resolve && r.phase != Awaiting) {
          latest := Ok(None);
        } else {
          latest := Ok(Some(r));
        }
      }
      Record(before, Continue(Controller(name), name, told));
    }

    // resolveDecision on an awaiting request.
    method ResolveDecision(name: string, r: Request, ghost tries: nat)
        returns (mutated: Outcome<Option<(Request, Request)>>)
      requires In(Controller(name), GetDecision(r, tries))
      modifies this
      ensures Continued(old(events), events, Controller(name))
      ensures In(Controller(name), match mutated
        case Refused => Idle
        case Ok(None) => GetCompleted
        case Ok(Some(write)) => PutStatus(write.0, write.1, Resolve, tries))
      ensures mutated.Ok? && mutated.value.Some? ==> mutated.value.value.0 == r
    {
      var read, now := ReadSlot(name, r, tries);
      if read.Refused? {
        return Refused;
      }
      if read.value.None? {
        return Ok(None);
      }
      var (s, valid) := read.value.value;
      if !valid {
        return Ok(Some((r, Finished(r, Failed, OtherReason, None, now))));
      }
      var authorized;
      authorized, now := Recheck(name, r, s, tries);
      if authorized.None? {
        return Refused;
      }
      if !authorized.value {
        return Ok(Some((r, Finished(r, Failed, OtherReason, None, now))));
      }
      var ok;
      ok, now := RecordResolution(name, r, s, tries);
      if !ok {
        return Refused;
      }
      var updated := r.(decisionUid := Some(s.uid));
      if s.decision.verdict == Denied {
        updated := Finished(updated, Failed, DeniedReason, Some(s.decision.name), now);
      } else {
        updated := Finished(updated, Succeeded, NoReason, Some(s.decision.name), now);
      }
      return Ok(Some((r, updated)));
    }

    method ReadSlot(name: string, r: Request, ghost tries: nat)
        returns (read: Outcome<Option<(Stored, bool)>>, now: nat)
      requires In(Controller(name), GetDecision(r, tries))
      modifies this
      ensures Continued(old(events), events, Controller(name))
      ensures In(Controller(name), match read
        case Refused => Idle
        case Ok(None) => GetCompleted
        case Ok(Some(found)) =>
          if found.1 then CheckAuthority(r, found.0, tries)
            else PutStatus(r, Finished(r, Failed, OtherReason, None, now), Resolve, tries))
    {
      Interfere(Controller(name));
      ghost var before := State();
      var told := Ask();
      now := told.now;
      if told.fails {
        read := Refused;
      } else if ForRequest(r.uid) !in decisions {
        read := Ok(None);
      } else {
        var s := decisions[ForRequest(r.uid)];
        var valid := ValidateApprovalDecision(name, r, s);
        read := Ok(Some((s, valid)));
      }
      Record(before, Continue(Controller(name), name, told));
    }

    // The attempt, the workflow and the inputs still allow the decision: none if one cannot be read.
    method Recheck(name: string, r: Request, s: Stored, ghost tries: nat)
        returns (authorized: Option<bool>, now: nat)
      requires In(Controller(name), CheckAuthority(r, s, tries))
      modifies this
      ensures Continued(old(events), events, Controller(name))
      ensures In(Controller(name), match authorized
        case None => Idle
        case Some(true) => RecordResolved(r, s, tries)
        case Some(false) => PutStatus(r, Finished(r, Failed, OtherReason, None, now), Resolve, tries))
    {
      Interfere(Controller(name));
      ghost var before := State();
      var told := Ask();
      authorized, now := if told.fails then None else Some(told.authorized), told.now;
      Record(before, Continue(Controller(name), name, told));
    }

    method RecordResolution(name: string, r: Request, s: Stored, ghost tries: nat) returns (ok: bool, now: nat)
      requires In(Controller(name), RecordResolved(r, s, tries))
      modifies this
      ensures Continued(old(events), events, Controller(name))
      ensures In(Controller(name), if ok then PutStatus(r, Resolved(r, s, now), Resolve, tries) else Idle)
    {
      Interfere(Controller(name));
      ghost var before := State();
      var told := Ask();
      ok, now := !told.fails, told.now;
      if ok {
        AppendEvent(Submitted(r.uid, s.uid), Evidence(r.spec, s.uid, s.decision, None));
      }
      Record(before, Continue(Controller(name), name, told));
    }

    method PutRequest(name: string, r: Request, updated: Request, goal: Goal, ghost tries: nat)
        returns (done: Option<bool>)
      requires In(Controller(name), PutStatus(r, updated, goal, tries))
      modifies this
      ensures Continued(old(events), events, Controller(name))
      ensures In(Controller(name), match done
        case Some(true) => AfterUpdate(goal)
        case Some(false) => if tries < 4 then GetLatest(r.uid, goal, tries + 1) else Idle
        case None => Idle)
    {
      Interfere(Controller(name));
      ghost var before := State();
      var told := Ask();
      if told.fails {
        done := None;
      } else if name !in requests || requests[name] != r {
        done := Some(false);
      } else {
        requests := requests[name := updated];
        done := Some(true);
      }
      Record(before, Continue(Controller(name), name, told));
    }

    method AdmitCompleted(name: string)
      requires In(Controller(name), GetCompleted)
      modifies this
      ensures In(Controller(name), Idle) && Continued(old(events), events, Controller(name))
    {
      Interfere(Controller(name));
      ghost var before := State();
      var told := Ask();
      var found := if told.fails || name !in requests then None else Some(requests[name]);
      Record(before, Continue(Controller(name), name, told));
      if found.Some? {
        RecordAdmittedDecision(name, found.value);
      }
    }

    // recordAdmittedDecision: the submission first, then the admission that rests on it.
    method RecordAdmittedDecision(name: string, r: Request)
      requires In(Controller(name), GetAdmitted(r))
      modifies this
      ensures In(Controller(name), Idle) && Continued(old(events), events, Controller(name))
    {
      var s := ReadAdmitted(name, r);
      if s.None? {
        return;
      }
      var ok := AppendSubmissionOf(name, r, s.value);
      if ok {
        AppendAdmissionOf(name, r, s.value);
      }
    }

    method AppendSubmissionOf(name: string, r: Request, s: Stored) returns (ok: bool)
      requires In(Controller(name), AppendSubmission(r, s))
      modifies this
      ensures In(Controller(name), if ok then AppendAdmission(r, s) else Idle)
      ensures Continued(old(events), events, Controller(name))
    {
      Interfere(Controller(name));
      ghost var before := State();
      var told := Ask();
      ok := !told.fails;
      if ok {
        AppendEvent(Submitted(r.uid, s.uid), Evidence(r.spec, s.uid, s.decision, None));
      }
      Record(before, Continue(Controller(name), name, told));
    }

    method ReadAdmitted(name: string, r: Request) returns (s: Option<Stored>)
      requires In(Controller(name), GetAdmitted(r))
      modifies this
      ensures Continued(old(events), events, Controller(name))
      ensures In(Controller(name), if s.None? then Idle else AppendSubmission(r, s.value))
    {
      Interfere(Controller(name));
      ghost var before := State();
      var told := Ask();
      s := None;
      if !told.fails && r.decisionRef.Some? && r.decisionUid.Some? && r.decisionRef.value in decisions {
        var found := decisions[r.decisionRef.value];
        if Completes(r, found) {
          s := Some(found);
        }
      }
      Record(before, Continue(Controller(name), name, told));
    }

    method AppendAdmissionOf(name: string, r: Request, s: Stored)
      requires In(Controller(name), AppendAdmission(r, s))
      modifies this
      ensures In(Controller(name), Idle) && Continued(old(events), events, Controller(name))
    {
      Interfere(Controller(name));
      ghost var before := State();
      var told := Ask();
      if !told.fails {
        AppendEvent(Admitted(r.uid, s.uid), Evidence(r.spec, s.uid, s.decision, r.completedAt));
      }
      Record(before, Continue(Controller(name), name, told));
    }
  }

  // A decision of this subject and verdict was made for the request, and its submission is logged.
  ghost predicate DecidedAndLogged(l: Ledger, request: nat, subject: string, verdict: Verdict)
  {
    exists uid :: uid in l.minted && l.minted[uid].name == ForRequest(request)
      && l.minted[uid].subject == subject && l.minted[uid].verdict == verdict && Submitted(request, uid) in l.log
  }
}
