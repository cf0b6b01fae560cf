/**
  The inference lease controller's own code over the stored objects, call by call, with everything
  else happening in between.  Each method is tied to the reservation protocol: whatever it does is a
  run of it.
*/
module KvController {
  import opened Wrappers
  import opened Admission
  import opened KvAccounting
  import opened KvSafety
  import opened KvPasses

  predicate Own(event: Event, ref: Ref)
  {
    (event.Begin? || event.Continue? || event.Crash?) && event.ref == ref
  }

  lemma ReachesStep(kv: Estimates, events: seq<Event>, w: World, event: Event)
    requires Reaches(kv, events, w)
    ensures Reaches(kv, events + [event], Step(kv, w, event))
  {
    var more, next := Then(kv, events, w, event);
    assert (events + [event])[..|events|] == events;
    assert Run(kv, events) == w;
    assert Run(kv, events + [event]) == Step(kv, w, event);
  }

  // The write of a lease a reconcile is about to make.
  ghost predicate PutsThis(k: Control, ref: Ref, target: Ref, copy: Claim, updated: Claim, next: Control)
  {
    match k
    case PutFinalizer(c) => target == ref && copy == c && updated == c.(finalizer := true) && next == Proceed(updated)
    case PutPending(c) => target == ref && copy == c && updated == c.(phase := Pending) && next == Idle
    case PutRejected(c) => target == ref && copy == c && updated == c.(phase := Rejected) && next == Idle
    case PutRunning(c, e) =>
      target == ref && copy == c && updated == c.(phase := Running, endpoint := Some(e)) && next == Idle
    case PutEnded(t, c, after) =>
      target == t && copy == c && updated == c.(phase := EndedPhase(after)) && next == WhenEnded(after)
    case _ => false
  }

  lemma PutStep(kv: Estimates, w: World, ref: Ref, choice: Choice, target: Ref, copy: Claim, updated: Claim,
                next: Control)
    requires PutsThis(At(w, ref), ref, target, copy, updated, next)
    ensures ContinueStep(kv, w, ref, choice) == PutClaim(w, ref, target, copy, choice.fails, updated, next)
  {}

  class Cluster {
    const kv: Estimates
    var pools: map<Ref, Pool>
    var claims: map<Ref, Claim>
    ghost var control: map<Ref, Control>
    ghost var events: seq<Event>
    // how many events there were, and what a call made at that moment is told
    var moment: nat
    const answers: nat -> Choice

    ghost function State(): World
      reads this
    {
      World(pools, claims, control)
    }

    // Everything that has happened is a run of the protocol.
    ghost predicate Valid()
      reads this
    {
      Reaches(kv, events, State()) && moment == |events|
    }

    // Between the two moments this reconcile neither started nor crashed; it may have made calls, and
    // each was told what there was to be told.
    ghost predicate Continued(before: seq<Event>, after: seq<Event>, ref: Ref)
    {
      && before <= after
      && forall i | |before| <= i < |after| ::
           && after[i] != Begin(ref) && after[i] != Crash(ref)
           && (Own(after[i], ref) ==> after[i] == Continue(ref, answers(i)))
    }

    // It started once, made no call before, and did not crash.
    ghost predicate RanOnce(before: seq<Event>, after: seq<Event>, ref: Ref)
    {
      exists i :: |before| <= i < |after| && after[i] == Begin(ref) && Started(before, after, i, ref)
    }

    ghost predicate Started(before: seq<Event>, after: seq<Event>, i: nat, ref: Ref)
      requires |before| <= i < |after|
    {
      && before <= after && (forall j | |before| <= j < i :: !Own(after[j], ref))
      && Continued(after[..i + 1], after, ref)
    }

    lemma RanOnceContinued(before: seq<Event>, middle: seq<Event>, after: seq<Event>, ref: Ref)
      requires RanOnce(before, middle, ref) && Continued(middle, after, ref)
      ensures RanOnce(before, after, ref)
    {
      var i :| |before| <= i < |middle| && middle[i] == Begin(ref) && Started(before, middle, i, ref);
      assert after[..i + 1] == middle[..i + 1];
      assert Started(before, after, i, ref);
    }

    // Nothing else happened, and every call was told the same.
    ghost predicate Alone(before: seq<Event>, after: seq<Event>, ref: Ref, choice: Choice)
    {
      before <= after && forall i | |before| <= i < |after| :: Own(after[i], ref) && answers(i) == choice
    }

    lemma {:induction false} CallsAlone(w: World, before: seq<Event>, next: World, after: seq<Event>, ref: Ref,
                                        choice: Choice)
      requires Reaches(kv, before, w) && Reaches(kv, after, next) && Continued(before, after, ref)
      requires Alone(before, after, ref, choice)
      ensures EndsIn(kv, w, ref, choice, |after| - |before|, next)
      decreases |after| - |before|
    {
      if |after| == |before| {
        assert after == before;
        assert Run(kv, before) == w;
        assert Run(kv, after) == next;
      } else {
        var one := after[..|before| + 1];
        assert one == before + [Continue(ref, choice)];
        var v := ContinueStep(kv, w, ref, choice);
        ReachesStep(kv, before, w, Continue(ref, choice));
        CallsAlone(v, one, next, after, ref, choice);
        OneCallMore(kv, w, ref, choice, |after| - |before|, next);
      }
    }

    // A reconcile that nothing disturbs is a pass.
    lemma AloneIsPass(w: World, before: seq<Event>, next: World, after: seq<Event>, ref: Ref, choice: Choice, n: nat)
      requires Reaches(kv, before, w) && Reaches(kv, after, next) && RanOnce(before, after, ref)
      requires Alone(before, after, ref, choice) && At(w, ref) == Idle && At(next, ref) == Idle
      requires n >= |after| - |before|
      ensures IsPass(kv, w, ref, choice, n, next)
    {
      var i :| |before| <= i < |after| && after[i] == Begin(ref) && Started(before, after, i, ref);
      assert Own(after[|before|], ref);
      var begun := after[..i + 1];
      assert begun == before + [Begin(ref)];
      ReachesStep(kv, before, w, Begin(ref));
      CallsAlone(Step(kv, w, Begin(ref)), begun, next, after, ref, choice);
      StaysOver(kv, Step(kv, w, Begin(ref)), ref, choice, |after| - |begun|, n, next);
    }

    ghost predicate In(ref: Ref, k: Control)
      reads this
    {
      Valid() && At(State(), ref) == k
    }

    constructor (kv: Estimates, answers: nat -> Choice)
      ensures Valid() && events == [] && this.kv == kv && this.answers == answers
    {
      this.kv, this.answers, moment := kv, answers, 0;
      pools, claims, control, events := map[], map[], map[], [];
    }

    // Records the event whose effect on the stored objects has just been carried out.
    method Record(ghost before: World, ghost event: Event)
      requires Reaches(kv, events, before) && moment == |events|
      requires pools == Step(kv, before, event).pools && claims == Step(kv, before, event).claims
      modifies `control, `events, `moment
      ensures Valid() && State() == Step(kv, before, event) && events == old(events) + [event]
    {
      ReachesStep(kv, events, before, event);
      control, events := Step(kv, before, event).control, events + [event];
      moment := moment + 1;
    }

    // Other reconciles, clients and the endpoint controller get their turns here: callers may rely
    // only on the contract, which allows any run without this reconcile's own steps.
    method Interfere(ref: Ref)
      requires Valid()
      modifies this
      ensures Valid() && At(State(), ref) == old(At(State(), ref))
      ensures Continued(old(events), events, ref)
      ensures forall i | |old(events)| <= i < |events| :: !Own(events[i], ref)
    {
    }

    // What the call that is made now is told.
    method Ask() returns (told: Choice)
      ensures told == answers(moment)
    {
      return answers(moment);
    }

    method UpdateClaim(ref: Ref, target: Ref, copy: Claim, updated: Claim, ghost next: Control) returns (ok: bool)
      requires Valid() && PutsThis(At(State(), ref), ref, target, copy, updated, next)
      modifies this
      ensures In(ref, if ok then next else Idle) && Continued(old(events), events, ref)
    {
      Interfere(ref);
      ghost var before := State();
      var told := Ask();
      ok := !told.fails && target in claims && claims[target] == copy;
      if ok {
        claims := claims[target := updated];
      }
      RecordPut(before, ref, told, target, copy, updated, next);
    }

    method RecordPut(ghost before: World, ref: Ref, told: Choice, target: Ref, copy: Claim, updated: Claim,
                     ghost next: Control)
      requires Reaches(kv, events, before) && PutsThis(At(before, ref), ref, target, copy, updated, next)
      requires moment == |events| && told == answers(moment)
      requires pools == before.pools
      requires claims == if told.fails || target !in before.claims || before.claims[target] != copy then before.claims
                         else before.claims[target := updated]
      modifies `control, `events, `moment
      ensures In(ref, if told.fails || target !in before.claims || before.claims[target] != copy then Idle else next)
      ensures Continued(old(events), events, ref)
    {
      PutStep(kv, before, ref, told, target, copy, updated, next);
      Record(before, Continue(ref, told));
    }

    // removeEndpointReservation: five attempts at taking the lease off its endpoint's list.
    method RemoveEndpointReservation(ref: Ref, target: Ref, copy: Claim, after: After) returns (ok: bool)
      requires In(ref, StartRemoving(target, copy, after))
      modifies this
      ensures In(ref, if ok then AfterRemoving(target, copy, after) else Idle) && Continued(old(events), events, ref)
    {
      if copy.endpoint.None? {
        return true;
      }
      var attempt: nat := 0;
      while attempt < 5
        invariant In(ref, if attempt < 5 then RemoveGet(target, copy, after, attempt) else Idle)
        invariant Continued(old(events), events, ref)
      {
        var removed := TryToRemove(ref, target, copy, after, attempt);
        if removed == Some(true) {
          return true;
        } else if removed == None {
          return false;
        }
        attempt := attempt + 1;
      }
      return false;
    }

    // One attempt; Some(false) is a conflict.
    method TryToRemove(ref: Ref, target: Ref, copy: Claim, after: After, ghost tries: nat)
        returns (removed: Option<bool>)
      requires In(ref, RemoveGet(target, copy, after, tries)) && copy.endpoint.Some?
      modifies this
      ensures Continued(old(events), events, ref)
      ensures In(ref, match removed
                      case Some(true) => AfterRemoving(target, copy, after)
                      case Some(false) => RemoveAgain(target, copy, after, tries)
                      case None => Idle)
    {
      var read := ReadToRemove(ref, target, copy, after, tries);
      if read.Refused? {
        return None;
      }
      if read.value.None? {
        return Some(true);
      }
      removed := UpdateToRemove(ref, target, copy, after, read.value.value, tries);
    }

    // The endpoint, if there is one that lists the lease.
    method ReadToRemove(ref: Ref, target: Ref, copy: Claim, after: After, ghost tries: nat)
        returns (read: Outcome<Option<Pool>>)
      requires In(ref, RemoveGet(target, copy, after, tries)) && copy.endpoint.Some?
      modifies this
      ensures In(ref, match read
                      case Refused => Idle
                      case Ok(None) => AfterRemoving(target, copy, after)
                      case Ok(Some(p)) => RemovePut(target, copy, after, p, tries))
      ensures Continued(old(events), events, ref)
      ensures read.Ok? && read.value.Some? ==> Accounted(kv, read.value.value) && target in read.value.value.active
    {
      Interfere(ref);
      ghost var before := State();
      var e := copy.endpoint.value;
      var told := Ask();
      if told.fails {
        read := Refused;
      } else if e !in pools || target !in pools[e].active {
        read := Ok(None);
      } else {
        read := Ok(Some(pools[e]));
      }
      PoolsAccounted();
      Record(before, Continue(ref, told));
    }

    lemma PoolsAccounted()
      requires Valid()
      ensures forall e | e in pools :: Accounted(kv, pools[e])
    {
      RunKeepsInv(kv, events);
    }

    // The write of one attempt: the list without the lease, its length, and the sum without its
    // estimate.  None is an error other than a conflict.
    method UpdateToRemove(ref: Ref, target: Ref, copy: Claim, after: After, read: Pool, ghost tries: nat)
        returns (written: Option<bool>)
      requires In(ref, RemovePut(target, copy, after, read, tries)) && copy.endpoint.Some?
      requires Accounted(kv, read) && target in read.active
      modifies this
      ensures In(ref, match written
                      case Some(true) => AfterRemoving(target, copy, after)
                      case Some(false) => RemoveAgain(target, copy, after, tries)
                      case None => Idle)
      ensures Continued(old(events), events, ref)
      ensures written == Some(true) ==>
        copy.endpoint.value in pools && pools[copy.endpoint.value].reserved == read.reserved - kv(target)
    {
      Interfere(ref);
      ghost var before := State();
      var e := copy.endpoint.value;
      var told := Ask();
      RemovedAccount(kv, read, target);
      if told.fails {
        written := None;
      } else if e !in pools || pools[e] != read {
        written := Some(false);
      } else {
        var updated := Unreserved(read, target);
        pools := pools[e := updated];
        written := Some(true);
      }
      Record(before, Continue(ref, told));
    }

    method Unreserved(read: Pool, target: Ref) returns (updated: Pool)
      requires target in read.active
      ensures updated == Removed(kv, read, target)
    {
      var i := IndexOf(read.active, target);
      var active := read.active[..i] + read.active[i + 1..];
      var left := read.reserved - kv(target);
      return read.(active := active, count := |active|, reserved := if left > 0 then left else 0);
    }

    // pruneEndpointReservations: the entries that still count, and their sum.
    method PruneEndpointReservations(ref: Ref, c: Claim, e: Ref, read: Pool, ghost tries: nat)
        returns (pruned: Option<(seq<Ref>, int)>)
      requires In(ref, Lookup(c, e, read, 0, [], 0, tries)) && Accounted(kv, read)
      modifies this
      ensures In(ref, if pruned.None? then Idle
                      else Lookup(c, e, read, |read.active|, pruned.value.0, pruned.value.1, tries))
      ensures Continued(old(events), events, ref)
      ensures pruned.Some? ==> LookupOk(kv, read, |read.active|, pruned.value.0, pruned.value.1)
    {
      var active, seen, reserved := [], {}, 0;
      for i := 0 to |read.active|
        invariant In(ref, Lookup(c, e, read, i, active, reserved, tries)) && Continued(old(events), events, ref)
        invariant LookupOk(kv, read, i, active, reserved)
        invariant forall r :: r in seen <==> r in read.active[..i]
      {
        var entry := read.active[i];
        SeenOneMore(seen, read.active, i);
        var next := PruneEntry(ref, c, e, read, i, active, reserved, entry in seen, tries);
        if next.None? {
          return None;
        }
        seen := seen + {entry};
        active, reserved := next.value.0, next.value.1;
      }
      return Some((active, reserved));
    }

    static lemma SeenOneMore(seen: set<Ref>, refs: seq<Ref>, i: nat)
      requires i < |refs| && forall r :: r in seen <==> r in refs[..i]
      ensures forall r :: r in seen + {refs[i]} <==> r in refs[..i + 1]
    {
      assert refs[..i + 1] == refs[..i] + [refs[i]];
    }

    method PruneEntry(ref: Ref, c: Claim, e: Ref, read: Pool, i: nat, active: seq<Ref>, reserved: int, duplicate: bool,
        ghost tries: nat)
        returns (next: Option<(seq<Ref>, int)>)
      requires In(ref, Lookup(c, e, read, i, active, reserved, tries)) && i < |read.active|
      requires LookupOk(kv, read, i, active, reserved)
      requires duplicate <==> read.active[i] in read.active[..i]
      modifies this
      ensures Continued(old(events), events, ref)
      ensures In(ref, if next.None? then Idle else Lookup(c, e, read, i + 1, next.value.0, next.value.1, tries))
      ensures next.Some? ==> LookupOk(kv, read, i + 1, next.value.0, next.value.1)
    {
      LookupSkips(kv, read, i, active, reserved);
      LookupKeeps(kv, read, i, active, reserved);
      var kept := LookUp(ref, c, e, read, i, active, reserved, duplicate, tries);
      if kept.None? {
        return None;
      }
      if kept.value {
        return Some((active + [read.active[i]], reserved + kv(read.active[i])));
      }
      return Some((active, reserved));
    }

    // One entry; an entry seen before is skipped without a call.
    method LookUp(ref: Ref, c: Claim, e: Ref, read: Pool, i: nat, active: seq<Ref>, reserved: int, duplicate: bool,
        ghost tries: nat)
        returns (kept: Option<bool>)
      requires In(ref, Lookup(c, e, read, i, active, reserved, tries)) && i < |read.active|
      requires duplicate <==> read.active[i] in read.active[..i]
      modifies this
      ensures Continued(old(events), events, ref)
      ensures In(ref, match kept
                      case None => Idle
                      case Some(false) => Lookup(c, e, read, i + 1, active, reserved, tries)
                      case Some(true) =>
                        Lookup(c, e, read, i + 1, active + [read.active[i]], reserved + kv(read.active[i]), tries))
    {
      Interfere(ref);
      ghost var before := State();
      var entry := read.active[i];
      var told := Ask();
      if told.fails {
        kept := None;
      } else if duplicate || entry !in claims {
        kept := Some(false);
      } else {
        var found := claims[entry];
        if found.deleting || TerminalPhase(found.phase) {
          kept := Some(false);
        } else {
          kept := Some(found.endpoint.None? || found.endpoint.value == e);
        }
      }
      Record(before, Continue(ref, told));
    }

    // bind: reserve, then report the lease as running.
    method Bind(ref: Ref, c: Claim, e: Ref)
      requires In(ref, BindGet(c, e, 0))
      modifies this
      ensures In(ref, Idle) && Continued(old(events), events, ref)
    {
      var attempt: nat := 0;
      while attempt < 5
        invariant In(ref, if attempt < 5 then BindGet(c, e, attempt) else Idle) && Continued(old(events), events, ref)
      {
        var bound := TryToBind(ref, c, e, attempt);
        if bound == Some(true) {
          var ok := UpdateClaim(ref, ref, c, c.(phase := Running, endpoint := Some(e)), Idle);
          return;
        } else if bound == None {
          return;
        }
        attempt := attempt + 1;
      }
    }

    // One attempt; Some(false) is a conflict.
    method TryToBind(ref: Ref, c: Claim, e: Ref, ghost tries: nat) returns (bound: Option<bool>)
      requires In(ref, BindGet(c, e, tries))
      modifies this
      ensures Continued(old(events), events, ref)
      ensures In(ref, match bound
                      case Some(true) => PutRunning(c, e)
                      case Some(false) => BindAgain(c, e, tries)
                      case None => Idle)
    {
      var proposal := Propose(ref, c, e, tries);
      if proposal.None? {
        return None;
      }
      var (read, updated) := proposal.value;
      if updated == read {
        return Some(true);
      }
      bound := UpdateToBind(ref, c, e, read, updated, tries);
    }

    // The endpoint as read, and as it should become.
    method Propose(ref: Ref, c: Claim, e: Ref, ghost tries: nat) returns (proposal: Option<(Pool, Pool)>)
      requires In(ref, BindGet(c, e, tries))
      modifies this
      ensures Continued(old(events), events, ref)
      ensures In(ref, if proposal.None? then Idle
                      else if proposal.value.1 == proposal.value.0 then PutRunning(c, e)
                      else BindPut(c, e, proposal.value.0, proposal.value.1, tries))
      ensures proposal.Some? ==> Accounted(kv, proposal.value.1) && ref in proposal.value.1.active
    {
      var read := ReadToBind(ref, c, e, tries);
      if read.None? {
        return None;
      }
      var pruned := PruneEndpointReservations(ref, c, e, read.value, tries);
      if pruned.None? {
        return None;
      }
      var updated := Reserve(ref, c, e, read.value, pruned.value.0, pruned.value.1, tries);
      return if updated.None? then None else Some((read.value, updated.value));
    }

    method ReadToBind(ref: Ref, c: Claim, e: Ref, ghost tries: nat) returns (read: Option<Pool>)
      requires In(ref, BindGet(c, e, tries))
      modifies this
      ensures In(ref, if read.None? then Idle else Lookup(c, e, read.value, 0, [], 0, tries))
      ensures Continued(old(events), events, ref) && (read.Some? ==> Accounted(kv, read.value))
    {
      Interfere(ref);
      ghost var before := State();
      var told := Ask();
      read := if told.fails || e !in pools then None else Some(pools[e]);
      PoolsAccounted();
      Record(before, Continue(ref, told));
    }

    // The capacity test and the new reservations; nothing is written yet.
    method Reserve(ref: Ref, c: Claim, e: Ref, read: Pool, kept: seq<Ref>, sum: int, ghost tries: nat)
        returns (updated: Option<Pool>)
      requires In(ref, Lookup(c, e, read, |read.active|, kept, sum, tries))
        && LookupOk(kv, read, |read.active|, kept, sum)
      modifies this
      ensures In(ref, match updated
                      case None => Idle
                      case Some(p) => if p == read then PutRunning(c, e) else BindPut(c, e, read, p, tries))
      ensures Continued(old(events), events, ref)
      ensures updated.Some? ==> Accounted(kv, updated.value) && ref in updated.value.active
    {
      updated := Reserved(ref, read, kept, sum);
      var told := Ask();
      Record(State(), Continue(ref, told));
    }

    method Reserved(ref: Ref, read: Pool, kept: seq<Ref>, sum: int) returns (updated: Option<Pool>)
      requires LookupOk(kv, read, |read.active|, kept, sum)
      ensures updated == if Fits(kv, read, ref, kept, sum) then Some(Bound(kv, read, ref, kept, sum)) else None
      ensures updated.Some? ==> Accounted(kv, updated.value) && ref in updated.value.active
    {
      if ref !in kept && sum + kv(ref) + read.headroom > read.maximum {
        return None;
      }
      var p := read.(active := kept, count := |kept|, reserved := sum);
      if ref !in kept {
        p := p.(active := kept + [ref], count := |kept + [ref]|, reserved := sum + kv(ref));
      }
      assert read.active[..|read.active|] == read.active;
      BoundAccount(kv, read, ref, kept, sum);
      return Some(p);
    }

    method UpdateToBind(ref: Ref, c: Claim, e: Ref, read: Pool, updated: Pool, ghost tries: nat)
        returns (written: Option<bool>)
      requires In(ref, BindPut(c, e, read, updated, tries))
      modifies this
      ensures In(ref, match written
                      case Some(true) => PutRunning(c, e)
                      case Some(false) => BindAgain(c, e, tries)
                      case None => Idle)
      ensures Continued(old(events), events, ref)
      ensures written == Some(true) ==> e in pools && pools[e] == updated
    {
      Interfere(ref);
      ghost var before := State();
      var told := Ask();
      if told.fails {
        written := None;
      } else if e !in pools || pools[e] != read {
        written := Some(false);
      } else {
        pools := pools[e := updated];
        written := Some(true);
      }
      Record(before, Continue(ref, told));
    }

    // interruptLease for each victim in turn, then the binding.
    method EvictAndBind(ref: Ref, c: Claim, e: Ref, victims: seq<Ref>)
      requires In(ref, NextVictim(c, victims, e))
      modifies this
      ensures In(ref, Idle) && Continued(old(events), events, ref)
    {
      var left := victims;
      while left != []
        invariant In(ref, NextVictim(c, left, e)) && Continued(old(events), events, ref)
        decreases |left|
      {
        var ok := InterruptLease(ref, c, left, e);
        if !ok {
          return;
        }
        left := left[1..];
      }
      GoOnToBind(ref, c, e);
      Bind(ref, c, e);
    }

    // No call: the binding follows the last victim.
    method GoOnToBind(ref: Ref, c: Claim, e: Ref)
      requires In(ref, NextVictim(c, [], e))
      modifies this
      ensures In(ref, BindGet(c, e, 0)) && Continued(old(events), events, ref)
    {
      Interfere(ref);
      var told := Ask();
      Record(State(), Continue(ref, told));
    }

    method InterruptLease(ref: Ref, c: Claim, victims: seq<Ref>, e: Ref) returns (ok: bool)
      requires In(ref, NextVictim(c, victims, e)) && victims != []
      modifies this
      ensures In(ref, if ok then NextVictim(c, victims[1..], e) else Idle) && Continued(old(events), events, ref)
    {
      var victim := victims[0];
      var found := GetVictim(ref, c, victims, e);
      if found.Refused? || found.value.None? {
        return found.Ok?;
      }
      ok := EndVictim(ref, victim, found.value.value, c, victims[1..], e);
    }

    // Its reservation goes, then it is reported as interrupted.
    method EndVictim(ref: Ref, victim: Ref, copy: Claim, c: Claim, rest: seq<Ref>, e: Ref) returns (ok: bool)
      requires In(ref, StartRemoving(victim, copy, Evicting(c, rest, e)))
      modifies this
      ensures In(ref, if ok then NextVictim(c, rest, e) else Idle) && Continued(old(events), events, ref)
    {
      ok := RemoveEndpointReservation(ref, victim, copy, Evicting(c, rest, e));
      if ok {
        ok := UpdateClaim(ref, victim, copy, copy.(phase := Interrupted), NextVictim(c, rest, e));
      }
    }

    method GetVictim(ref: Ref, c: Claim, victims: seq<Ref>, e: Ref) returns (found: Outcome<Option<Claim>>)
      requires In(ref, NextVictim(c, victims, e)) && victims != []
      modifies this
      ensures In(ref, match found
                      case Refused => Idle
                      case Ok(None) => NextVictim(c, victims[1..], e)
                      case Ok(Some(copy)) => StartRemoving(victims[0], copy, Evicting(c, victims[1..], e)))
      ensures Continued(old(events), events, ref)
    {
      Interfere(ref);
      ghost var before := State();
      var told := Ask();
      found := if told.fails then Refused else Ok(if victims[0] in claims then Some(claims[victims[0]]) else None);
      Record(before, Continue(ref, told));
    }

    method ReleaseLease(ref: Ref, c: Claim)
      requires In(ref, StartRemoving(ref, c, Release))
      modifies this
      ensures In(ref, Idle) && Continued(old(events), events, ref)
    {
      var ok := RemoveEndpointReservation(ref, ref, c, Release);
      if ok {
        ok := UpdateClaim(ref, ref, c, c.(phase := Succeeded), Idle);
      }
    }

    // The reservation goes, then the last finalizer, and the object with it.
    method FinalizeLease(ref: Ref, c: Claim)
      requires In(ref, StartRemoving(ref, c, Drop))
      modifies this
      ensures In(ref, Idle) && Continued(old(events), events, ref)
    {
      var ok := RemoveEndpointReservation(ref, ref, c, Drop);
      if ok {
        Interfere(ref);
        ghost var before := State();
        var told := Ask();
        if !told.fails && ref in claims && claims[ref] == c {
          claims := claims - {ref};
        }
        Record(before, Continue(ref, told));
      }
    }

    method GetClaim(ref: Ref) returns (found: Option<Claim>)
      requires In(ref, Idle)
      modifies this
      ensures Valid() && RanOnce(old(events), events, ref)
      ensures At(State(), ref) == if found.None? then Idle else FirstCall(ref, found.value)
    {
      Interfere(ref);
      ghost var before := events;
      found := if ref in claims then Some(claims[ref]) else None;
      Record(State(), Begin(ref));
      assert Started(old(events), events, |before|, ref);
    }

    // One reconcile is one uninterrupted pass of the protocol, from start to idle, whatever happens
    // between its calls and whatever the scheduler and the policy answer.
    method Reconcile(ref: Ref)
      requires In(ref, Idle)
      modifies this
      ensures In(ref, Idle) && RanOnce(old(events), events, ref)
      // with nothing else happening in between, what it achieves is what a pass achieves
      ensures forall choice, n: nat :: Alone(old(events), events, ref, choice) && n >= |events| - |old(events)| ==>
        IsPass(kv, old(State()), ref, choice, n, State())
    {
      var found := GetClaim(ref);
      if found.Some? {
        ghost var begun := events;
        Handle(ref, found.value);
        RanOnceContinued(old(events), begun, events, ref);
      }
      forall choice, n: nat | Alone(old(events), events, ref, choice) && n >= |events| - |old(events)|
        ensures IsPass(kv, old(State()), ref, choice, n, State())
      {
        AloneIsPass(old(State()), old(events), State(), events, ref, choice, n);
      }
    }

    method Handle(ref: Ref, stored: Claim)
      requires In(ref, FirstCall(ref, stored))
      modifies this
      ensures In(ref, Idle) && Continued(old(events), events, ref)
    {
      var c := stored;
      if c.deleting {
        if c.finalizer {
          FinalizeLease(ref, c);
        }
        return;
      }
      if !c.finalizer {
        var updated := c.(finalizer := true);
        var ok := UpdateClaim(ref, ref, c, updated, Proceed(updated));
        if !ok {
          return;
        }
        c := updated;
      }
      Decide(ref, c);
    }

    // The admission policy answers, or the question fails.
    method Decide(ref: Ref, c: Claim)
      requires In(ref, Proceed(c))
      modifies this
      ensures In(ref, Idle) && Continued(old(events), events, ref)
    {
      Interfere(ref);
      ghost var before := State();
      var told := Ask();
      Record(before, Continue(ref, told));
      if !told.fails {
        Admit(ref, c, told.verdict);
      }
    }

    method Admit(ref: Ref, c: Claim, verdict: Verdict)
      requires In(ref, Proceeds(ref, c, verdict))
      modifies this
      ensures In(ref, Idle) && Continued(old(events), events, ref)
    {
      if c.releaseAsked && !TerminalPhase(c.phase) {
        ReleaseLease(ref, c);
      } else if c.phase == Running || TerminalPhase(c.phase) {
        return;
      } else if c.phase == Unset {
        var ok := UpdateClaim(ref, ref, c, c.(phase := Pending), Idle);
      } else {
        match verdict
        case BindTo(e) => Bind(ref, c, e);
        case EvictFor(e, victims) => EvictAndBind(ref, c, e, victims);
        case Later =>
        case RejectIt => var ok := UpdateClaim(ref, ref, c, c.(phase := Rejected), Idle);
      }
    }
  }

  function FirstCall(ref: Ref, c: Claim): Control
  {
    if c.deleting then (if c.finalizer then StartRemoving(ref, c, Drop) else Idle)
    else if c.finalizer then Proceed(c) else PutFinalizer(c)
  }
}
