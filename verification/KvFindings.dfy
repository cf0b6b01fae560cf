/** What the reservation protocol does not keep, and exactly when it does not. */
module KvFindings {
  import opened Wrappers
  import opened Admission
  import opened KvAccounting
  import opened KvSafety

  // A lease being scheduled or released is not in a terminal phase; a victim may be.
  predicate Unfinished(k: Control)
  {
    match k
    case PutPending(c) => !TerminalPhase(c.phase)
    case PutRejected(c) => !TerminalPhase(c.phase)
    case NextVictim(c, _, _) => !TerminalPhase(c.phase)
    case BindGet(c, _, _) => !TerminalPhase(c.phase)
    case Lookup(c, _, _, _, _, _, _) => !TerminalPhase(c.phase)
    case BindPut(c, _, _, _, _) => !TerminalPhase(c.phase)
    case PutRunning(c, _) => !TerminalPhase(c.phase)
    case RemoveGet(_, copy, after, _) => AfterOk(copy, after)
    case RemovePut(_, copy, after, _, _) => AfterOk(copy, after)
    case PutEnded(_, copy, after) => after != Drop && AfterOk(copy, after)
    case _ => true
  }

  predicate AfterOk(copy: Claim, after: After)
  {
    match after
    case Release => !TerminalPhase(copy.phase)
    case Drop => true
    case Evicting(c, _, _) => !TerminalPhase(c.phase)
  }

  lemma ContinueStaysUnfinished(kv: Estimates, w: World, ref: Ref, choice: Choice)
    requires Unfinished(At(w, ref))
    ensures Unfinished(At(ContinueStep(kv, w, ref, choice), ref))
  {
    match At(w, ref)
    case Proceed(_) =>
    case NextVictim(_, _, _) =>
    case RemoveGet(_, _, _, _) =>
    case RemovePut(_, _, _, _, _) =>
    case PutEnded(_, _, _) =>
    case Lookup(_, _, _, _, _, _, _) =>
    case BindPut(_, _, _, _, _) =>
    case _ =>
  }

  lemma ContinueLeavesOthers(kv: Estimates, w: World, ref: Ref, choice: Choice, other: Ref)
    requires other != ref
    ensures At(ContinueStep(kv, w, ref, choice), other) == At(w, other)
  {
    match At(w, ref)
    case RemovePut(target, copy, after, read, tries) =>
      if copy.endpoint.Some? {
        PutPoolLeavesOthers(w, ref, copy.endpoint.value, read, Removed(kv, read, target), choice.fails,
                            RemoveAgain(target, copy, after, tries), AfterRemoving(target, copy, after), other);
      }
    case BindPut(c, e, read, updated, tries) =>
      PutPoolLeavesOthers(w, ref, e, read, updated, choice.fails, BindAgain(c, e, tries), PutRunning(c, e), other);
    case _ => OtherCallsLeaveOthers(kv, w, ref, choice, other);
  }

  lemma PutPoolLeavesOthers(w: World, ref: Ref, e: Ref, read: Pool, updated: Pool, fails: bool, conflict: Control,
                            next: Control, other: Ref)
    requires other != ref
    ensures At(PutPool(w, ref, e, read, updated, fails, conflict, next), other) == At(w, other)
  {}

  lemma OtherCallsLeaveOthers(kv: Estimates, w: World, ref: Ref, choice: Choice, other: Ref)
    requires other != ref && !At(w, ref).RemovePut? && !At(w, ref).BindPut?
    ensures At(ContinueStep(kv, w, ref, choice), other) == At(w, other)
  {}

  lemma {:induction false} RunStaysUnfinished(kv: Estimates, events: seq<Event>, ref: Ref)
    ensures Unfinished(At(Run(kv, events), ref))
    decreases |events|
  {
    if events != [] {
      var before, event := Run(kv, events[..|events| - 1]), events[|events| - 1];
      RunStaysUnfinished(kv, events[..|events| - 1], ref);
      if event.Continue? {
        if event.ref == ref {
          ContinueStaysUnfinished(kv, before, ref, event.choice);
        } else {
          ContinueLeavesOthers(kv, before, event.ref, event.choice, ref);
        }
      }
    }
  }

  // The write that ends an eviction, of a victim whose lookup had found it finished already and that
  // is stored as it was found.
  predicate Overwrites(w: World, event: Event, ref: Ref)
  {
    && event.Continue? && !event.choice.fails && At(w, event.ref).PutEnded?
    && var k := At(w, event.ref);
    && k.after.Evicting? && k.target == ref && ref in w.claims && w.claims[ref] == k.copy
    && (k.copy.phase == Succeeded || k.copy.phase == Rejected)
  }

  // A finished lease changes its phase by exactly these writes, and then it becomes interrupted.
  lemma FinishedChangesIff(kv: Estimates, events: seq<Event>, event: Event, ref: Ref)
    requires var w := Run(kv, events); ref in w.claims && TerminalPhase(w.claims[ref].phase)
    requires ref in Step(kv, Run(kv, events), event).claims
    ensures var w, next := Run(kv, events), Step(kv, Run(kv, events), event);
      && (next.claims[ref].phase != w.claims[ref].phase <==> Overwrites(w, event, ref))
      && (Overwrites(w, event, ref) ==> next.claims[ref].phase == Interrupted)
  {
    if event.Continue? {
      RunStaysUnfinished(kv, events, event.ref);
      FinishedStep(kv, Run(kv, events), event.ref, event.choice, ref);
    }
  }

  lemma FinishedStep(kv: Estimates, w: World, at: Ref, choice: Choice, ref: Ref)
    requires Unfinished(At(w, at)) && ref in w.claims && TerminalPhase(w.claims[ref].phase)
    requires ref in ContinueStep(kv, w, at, choice).claims
    ensures var next := ContinueStep(kv, w, at, choice);
      && (next.claims[ref].phase != w.claims[ref].phase <==> Overwrites(w, Continue(at, choice), ref))
      && (Overwrites(w, Continue(at, choice), ref) ==> next.claims[ref].phase == Interrupted)
  {
    match At(w, at)
    case PutEnded(_, _, _) =>
    case PutFinalizer(_) =>
    case PutPending(_) =>
    case PutRejected(_) =>
    case PutRunning(_, _) =>
    case DropFinalizer(_) =>
    case RemovePut(_, _, _, _, _) =>
    case BindPut(_, _, _, _, _) =>
    case _ =>
  }

  // An eviction that goes on after its victim succeeded makes that write three calls later.
  lemma SucceededIsOverwritten(kv: Estimates, w: World, ref: Ref, c: Claim, v: Ref, rest: seq<Ref>, e: Ref,
                               choice: Choice)
    requires At(w, ref) == NextVictim(c, [v] + rest, e) && !choice.fails
    requires v in w.claims && w.claims[v].phase == Succeeded && w.claims[v].endpoint == Some(e)
    requires e in w.pools && v !in w.pools[e].active
    ensures var next := ContinueStep(kv, ContinueStep(kv, ContinueStep(kv, w, ref, choice), ref, choice), ref, choice);
      v in next.claims && next.claims[v].phase == Interrupted
  {
    var copy, after := w.claims[v], Evicting(c, rest, e);
    assert ([v] + rest)[1..] == rest;
    var first := ContinueStep(kv, w, ref, choice);
    assert first == GoTo(w, ref, RemoveGet(v, copy, after, 0));
    var second := ContinueStep(kv, first, ref, choice);
    assert second == GoTo(first, ref, PutEnded(v, copy, after));
  }

  // A new lease becomes pending.
  lemma BecomesPending(kv: Estimates, events: seq<Event>, w: World, ref: Ref) returns (more: seq<Event>, next: World)
    requires Reaches(kv, events, w) && ref !in w.claims && At(w, ref) == Idle
    ensures Reaches(kv, more, next) && next.pools == w.pools && At(next, ref) == Idle
    ensures next.claims == w.claims[ref := Claim(Pending, true, false, false, None)]
    ensures forall other | other != ref :: At(next, other) == At(w, other)
  {
    more, next := Then(kv, events, w, CreateClaim(ref));
    more, next := Then(kv, more, next, Begin(ref));
    more, next := ThenContinue(kv, more, next, ref, Later);
    more, next := ThenContinue(kv, more, next, ref, Later);
    more, next := ThenContinue(kv, more, next, ref, Later);
  }

  // A pending lease is bound to an endpoint without reservations.
  lemma BecomesRunning(kv: Estimates, events: seq<Event>, w: World, ref: Ref, e: Ref)
      returns (more: seq<Event>, next: World)
    requires Reaches(kv, events, w) && At(w, ref) == Idle
    requires ref in w.claims && w.claims[ref] == Claim(Pending, true, false, false, None)
    requires e in w.pools && w.pools[e] == Pool(kv(ref), 0, [], 0, 0)
    ensures Reaches(kv, more, next) && At(next, ref) == Idle
    ensures next.claims == w.claims[ref := Claim(Running, true, false, false, Some(e))]
    ensures next.pools == w.pools[e := Pool(kv(ref), 0, [ref], 1, kv(ref))]
    ensures forall other | other != ref :: At(next, other) == At(w, other)
  {
    var c := w.claims[ref];
    more, next := Then(kv, events, w, Begin(ref));
    more, next := ThenContinue(kv, more, next, ref, BindTo(e));
    assert At(next, ref) == BindGet(c, e, 0);
    more, next := ThenContinue(kv, more, next, ref, BindTo(e));
    assert At(next, ref) == Lookup(c, e, w.pools[e], 0, [], 0, 0);
    more, next := ThenContinue(kv, more, next, ref, BindTo(e));
    assert At(next, ref) == BindPut(c, e, w.pools[e], Pool(kv(ref), 0, [ref], 1, kv(ref)), 0);
    more, next := ThenContinue(kv, more, next, ref, BindTo(e));
    assert At(next, ref) == PutRunning(c, e);
    more, next := ThenContinue(kv, more, next, ref, BindTo(e));
  }

  // From the empty cluster: a lease that is running although its endpoint does not list it.
  lemma RunningUnlistedIsReachable(kv: Estimates, e: Ref, victim: Ref, ref: Ref)
    requires victim != ref
    ensures exists events :: var w := Run(kv, events);
      && victim in w.claims && w.claims[victim] == Claim(Running, true, false, false, Some(e))
      && At(w, victim) == Idle && At(w, ref) == Idle && e in w.pools && victim !in w.pools[e].active
  {
    var events, w := Then(kv, [], World(map[], map[], map[]), CreatePool(e, kv(victim), 0));
    events, w := BecomesPending(kv, events, w, victim);
    events, w := BecomesRunning(kv, events, w, victim, e);
    events, w := BecomesPending(kv, events, w, ref);
    events, w := RemovesVictim(kv, events, w, ref, victim, e);
    assert Run(kv, events) == w;
  }

  lemma RemovesVictim(kv: Estimates, events: seq<Event>, w: World, ref: Ref, victim: Ref, e: Ref)
      returns (more: seq<Event>, next: World)
    requires Reaches(kv, events, w) && victim != ref && At(w, ref) == Idle && At(w, victim) == Idle
    requires ref in w.claims && w.claims[ref] == Claim(Pending, true, false, false, None)
    requires victim in w.claims && w.claims[victim] == Claim(Running, true, false, false, Some(e))
    requires e in w.pools && w.pools[e] == Pool(kv(victim), 0, [victim], 1, kv(victim))
    ensures Reaches(kv, more, next) && At(next, ref) == Idle && At(next, victim) == Idle
    ensures next.claims == w.claims && e in next.pools && victim !in next.pools[e].active
  {
    var c, copy, verdict := w.claims[ref], w.claims[victim], EvictFor(e, [victim]);
    more, next := Then(kv, events, w, Begin(ref));
    more, next := ThenContinue(kv, more, next, ref, verdict);
    assert At(next, ref) == NextVictim(c, [victim], e);
    more, next := ThenContinue(kv, more, next, ref, verdict);
    assert [victim][1..] == [];
    var after := Evicting(c, [], e);
    assert At(next, ref) == RemoveGet(victim, copy, after, 0);
    more, next := ThenContinue(kv, more, next, ref, verdict);
    assert At(next, ref) == RemovePut(victim, copy, after, w.pools[e], 0);
    more, next := ThenContinue(kv, more, next, ref, verdict);
    assert Without([victim], victim) == [];
    assert At(next, ref) == PutEnded(victim, copy, after);
    more, next := Then(kv, more, next, Crash(ref));
  }

  // A running lease is asked to release, and succeeds while another lease is about to evict it.
  lemma SucceedsMeanwhile(kv: Estimates, events: seq<Event>, w: World, ref: Ref, victim: Ref, e: Ref)
      returns (more: seq<Event>, next: World)
    requires Reaches(kv, events, w) && victim != ref && At(w, victim) == Idle
    requires victim in w.claims && w.claims[victim] == Claim(Running, true, false, false, Some(e))
    requires e in w.pools && w.pools[e] == Pool(kv(victim), 0, [victim], 1, kv(victim))
    ensures Reaches(kv, more, next) && At(next, ref) == At(w, ref)
    ensures next.claims == w.claims[victim := Claim(Succeeded, true, false, true, Some(e))]
    ensures e in next.pools && victim !in next.pools[e].active
  {
    more, next := Then(kv, events, w, AskRelease(victim));
    var c := Claim(Running, true, false, true, Some(e));
    assert next.claims == w.claims[victim := c];
    more, next := Then(kv, more, next, Begin(victim));
    more, next := ThenContinue(kv, more, next, victim, Later);
    assert At(next, victim) == RemoveGet(victim, c, Release, 0);
    more, next := ThenContinue(kv, more, next, victim, Later);
    assert At(next, victim) == RemovePut(victim, c, Release, w.pools[e], 0);
    more, next := ThenContinue(kv, more, next, victim, Later);
    assert Without([victim], victim) == [];
    assert At(next, victim) == PutEnded(victim, c, Release);
    more, next := ThenContinue(kv, more, next, victim, Later);
  }

  lemma AboutToEvict(kv: Estimates, e: Ref, victim: Ref, ref: Ref) returns (events: seq<Event>, w: World)
    requires victim != ref
    ensures Reaches(kv, events, w) && At(w, victim) == Idle
    ensures At(w, ref) == NextVictim(Claim(Pending, true, false, false, None), [victim], e)
    ensures victim in w.claims && w.claims[victim] == Claim(Running, true, false, false, Some(e))
    ensures e in w.pools && w.pools[e] == Pool(kv(victim), 0, [victim], 1, kv(victim))
  {
    events, w := Then(kv, [], World(map[], map[], map[]), CreatePool(e, kv(victim), 0));
    events, w := BecomesPending(kv, events, w, victim);
    events, w := BecomesRunning(kv, events, w, victim, e);
    events, w := BecomesPending(kv, events, w, ref);
    events, w := Then(kv, events, w, Begin(ref));
    events, w := ThenContinue(kv, events, w, ref, EvictFor(e, [victim]));
  }

  // From the empty cluster: a lease that is stored as succeeded, and by the next call as interrupted.
  lemma OverwriteIsReachable(kv: Estimates, e: Ref, victim: Ref, ref: Ref)
    requires victim != ref
    ensures exists events, event :: var w := Run(kv, events);
      && victim in w.claims && w.claims[victim].phase == Succeeded
      && victim in Step(kv, w, event).claims && Step(kv, w, event).claims[victim].phase == Interrupted
  {
    var events, w := AboutToEvict(kv, e, victim, ref);
    var c := At(w, ref).c;
    events, w := SucceedsMeanwhile(kv, events, w, ref, victim, e);
    var before := w;
    events, w := ThenContinue(kv, events, w, ref, Later);
    events, w := ThenContinue(kv, events, w, ref, Later);
    SucceededIsOverwritten(kv, before, ref, c, victim, [], e, Choice(false, Later));
    assert Run(kv, events) == w && w.claims == before.claims;
    assert Step(kv, w, Continue(ref, Choice(false, Later))).claims[victim].phase == Interrupted;
  }
}
