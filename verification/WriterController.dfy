/**
  The controller's own code over the stored objects, call by call, with everything else happening
  in between.  Each method is tied to the writer protocol: whatever it does is a run of it.
*/
module WriterController {
  import opened Wrappers
  import opened WriterLease
  import opened WriterProtocol
  import opened WriterSafety
  import opened WriterPasses

  // Events of this reconcile itself, as opposed to everybody else's.
  predicate Own(event: Event, name: string)
  {
    (event.Begin? || event.Continue? || event.Crash?) && event.name == name
  }

  // The world a run ends in.  (The quantifier keeps Run out of sight where only the name matters.)
  ghost predicate Reached(w: World, events: seq<Event>)
  {
    forall start | start == START :: Run(start, events) == w
  }

  lemma ReachedStep(w: World, events: seq<Event>, event: Event)
    requires Reached(w, events)
    ensures Reached(Step(w, event), events + [event])
  {
    var all := events + [event];
    assert all[..|all| - 1] == events && all[|all| - 1] == event;
    assert Run(START, events) == w;
    assert Run(START, all) == Step(w, event);
  }

  lemma ReachedInv(w: World, events: seq<Event>)
    requires Reached(w, events)
    ensures Inv(w)
  {
    RunKeepsInv(events);
  }

  // What the lease shows once a recorded term was answered for, or a release went through.
  lemma GrantIsHeld(w: World, events: seq<Event>, name: string, c: Session, epoch: nat)
    requires Reached(w, events) && At(w, name) == PutGrant(c, epoch)
    ensures Holds(w.lease, Identity(name, c.uid), epoch)
  {
    ReachedInv(w, events);
    assert ControlOk(w, name, w.control[name]);
  }

  lemma LostIsOver(w: World, events: seq<Event>, name: string, c: Session, tries: nat)
    requires Reached(w, events) && At(w, name) == AcquireGet(c, tries)
    requires AcquireAnswer(w.lease, Identity(name, c.uid), c.epoch) == Lost
    ensures Over(w.lease, w.grants, Identity(name, c.uid), c.epoch)
  {
    ReachedInv(w, events);
    assert ControlOk(w, name, w.control[name]);
  }

  lemma ReleasedIsOver(w: World, events: seq<Event>, name: string, c: Session, purpose: Purpose)
    requires Reached(w, events) && At(w, name) == PutReleased(c, purpose)
    ensures w.lease.state == Present && c.epoch > 0 ==> Over(w.lease, w.grants, Identity(name, c.uid), c.epoch)
  {
    ReachedInv(w, events);
    assert ControlOk(w, name, w.control[name]);
  }

  function After(name: string, c: Session, tries: nat, read: Lease): Control
  {
    match AcquireAnswer(read, Identity(name, c.uid), c.epoch)
    case Failed => Idle
    case Granted(e) => PutGrant(c, e)
    case Lost => DeleteToInterrupt(c)
    case Blocked => WhenBlocked(c)
    case Take => AcquirePut(c, read, tries)
  }

  function Answered(c: Session, answer: Answer): Control
  {
    match answer
    case Granted(epoch) => PutGrant(c, epoch)
    case Lost => DeleteToInterrupt(c)
    case Blocked => WhenBlocked(c)
    case _ => Idle
  }

  function FirstCall(c: Session): Control
  {
    if c.deleting then (if c.finalizer then DeletePod(c, Deletion) else Idle)
    else if c.finalizer then Decide(c) else PutFinalizer(c)
  }

  // The write a reconcile is about to make.
  ghost predicate PutsThis(k: Control, c: Session, updated: Session, next: Control)
  {
    match k
    case PutFinalizer(copy) => copy == c && updated == c.(finalizer := true) && next == Decide(updated)
    case PutPreparing(copy) => copy == c && updated == c.(phase := Preparing) && next == Idle
    case PutGrant(copy, granted) =>
      copy == c && updated == c.(epoch := granted, released := false) && next == CreatePod(updated)
    case PutObserved(copy, observed) => copy == c && updated == c.(phase := observed, podRef := true) && next == Idle
    case PutInterrupted(copy) => copy == c && updated == c.(phase := Interrupted) && next == Idle
    case PutReleased(copy, purpose) =>
      copy == c && updated == c.(released := true) && next == WhenReleased(updated, purpose)
    case PutCancelled(copy) => copy == c && updated == c.(phase := Cancelled) && next == Idle
    case _ => false
  }

  lemma PutStep(w: World, name: string, choice: Choice, c: Session, updated: Session, next: Control)
    requires PutsThis(At(w, name), c, updated, next)
    ensures ContinueStep(w, name, choice) == Put(w, name, c, choice.fails, updated, next)
  {}

  class Cluster {
    var lease: Lease
    var sessions: map<string, Session>
    var pods: map<string, Pod>
    ghost var control: map<string, Control>
    ghost var nextUid: nat
    ghost var grants: seq<Identity>
    ghost var events: seq<Event>
    // how many events there were, and what a call made at that moment is told
    var moment: nat
    const answers: nat -> Choice

    ghost function State(): World
      reads this
    {
      World(lease, sessions, pods, control, nextUid, grants)
    }

    // Everything that has happened is a run of the protocol.
    ghost predicate Valid()
      reads this
    {
      Reached(State(), events) && moment == |events|
    }

    // Between the two moments this reconcile neither started nor crashed; it may have made calls, and
    // each was told what there was to be told.
    ghost predicate Continued(before: seq<Event>, after: seq<Event>, name: string)
    {
      && before <= after
      && forall i | |before| <= i < |after| ::
           && after[i] != Begin(name) && after[i] != Crash(name)
           && (Own(after[i], name) ==> after[i] == Continue(name, answers(i)))
    }

    // It started once, made no call before, and did not crash.
    ghost predicate RanOnce(before: seq<Event>, after: seq<Event>, name: string)
    {
      exists i :: |before| <= i < |after| && after[i] == Begin(name) && Started(before, after, i, name)
    }

    ghost predicate Started(before: seq<Event>, after: seq<Event>, i: nat, name: string)
      requires |before| <= i < |after|
    {
      && before <= after && (forall j | |before| <= j < i :: !Own(after[j], name))
      && Continued(after[..i + 1], after, name)
    }

    lemma RanOnceContinued(before: seq<Event>, middle: seq<Event>, after: seq<Event>, name: string)
      requires RanOnce(before, middle, name) && Continued(middle, after, name)
      ensures RanOnce(before, after, name)
    {
      var i :| |before| <= i < |middle| && middle[i] == Begin(name) && Started(before, middle, i, name);
      assert after[..i + 1] == middle[..i + 1];
      assert Started(before, after, i, name);
    }

    // Nothing else happened, and every call was told the same.
    ghost predicate Alone(before: seq<Event>, after: seq<Event>, name: string, choice: Choice)
    {
      before <= after && forall i | |before| <= i < |after| :: Own(after[i], name) && answers(i) == choice
    }

    lemma {:induction false} CallsAlone(w: World, before: seq<Event>, next: World, after: seq<Event>, name: string,
                                        choice: Choice)
      requires Reached(w, before) && Reached(next, after) && Continued(before, after, name)
      requires Alone(before, after, name, choice)
      ensures EndsIn(w, name, choice, |after| - |before|, next)
      decreases |after| - |before|
    {
      if |after| == |before| {
        assert after == before;
        assert Run(START, before) == w;
        assert Run(START, after) == next;
      } else {
        var one := after[..|before| + 1];
        assert one == before + [Continue(name, choice)];
        var v := ContinueStep(w, name, choice);
        ReachedStep(w, before, Continue(name, choice));
        CallsAlone(v, one, next, after, name, choice);
        OneCallMore(w, name, choice, |after| - |before|, next);
      }
    }

    // A reconcile that nothing disturbs is a pass.
    lemma AloneIsPass(w: World, before: seq<Event>, next: World, after: seq<Event>, name: string, choice: Choice)
      requires Reached(w, before) && Reached(next, after) && RanOnce(before, after, name)
      requires Alone(before, after, name, choice) && At(w, name) == Idle && At(next, name) == Idle
      ensures IsPass(w, name, choice, next)
    {
      var i :| |before| <= i < |after| && after[i] == Begin(name) && Started(before, after, i, name);
      assert Own(after[|before|], name);
      var begun := after[..i + 1];
      assert begun == before + [Begin(name)];
      ReachedStep(w, before, Begin(name));
      CallsAlone(Step(w, Begin(name)), begun, next, after, name, choice);
      OverIsPass(w, name, choice, |after| - |begun|, next);
    }

    ghost predicate In(name: string, k: Control)
      reads this
    {
      Valid() && At(State(), name) == k
    }

    constructor (answers: nat -> Choice)
      ensures Valid() && events == [] && this.answers == answers
    {
      this.answers, moment := answers, 0;
      lease, sessions, pods := START.lease, START.sessions, START.pods;
      control, nextUid, grants, events := START.control, START.nextUid, START.grants, [];
    }

    // Records the event whose effect on the stored objects has just been carried out.
    method Record(ghost before: World, ghost event: Event)
      requires Reached(before, events) && moment == |events|
      requires lease == Step(before, event).lease
      requires sessions == Step(before, event).sessions && pods == Step(before, event).pods
      modifies `control, `nextUid, `grants, `events, `moment
      ensures Valid() && State() == Step(before, event) && events == old(events) + [event]
    {
      ghost var next := Step(before, event);
      ReachedStep(before, events, event);
      control, nextUid, grants, events := next.control, next.nextUid, next.grants, events + [event];
      moment := moment + 1;
    }

    // Other clients, the kubelet and the garbage collector get their turns here: callers may rely
    // only on the contract, which allows any run without this reconcile's own steps.
    method Interfere(name: string)
      requires Valid()
      modifies this
      ensures Valid() && At(State(), name) == old(At(State(), name))
      ensures Continued(old(events), events, name)
      ensures forall i | |old(events)| <= i < |events| :: !Own(events[i], name)
    {
    }

    // What the call that is made now is told.
    method Ask() returns (told: Choice)
      ensures told == answers(moment)
    {
      return answers(moment);
    }

    // Update of a session, or of its status, with the resource version of the copy.
    method UpdateSession(name: string, c: Session, updated: Session, ghost next: Control) returns (ok: bool)
      requires Valid() && PutsThis(At(State(), name), c, updated, next)
      modifies this
      ensures In(name, if ok then next else Idle) && Continued(old(events), events, name)
    {
      Interfere(name);
      ghost var before := State();
      var told := Ask();
      ok := !told.fails && name in sessions && sessions[name] == c;
      if ok {
        sessions := sessions[name := updated];
      }
      RecordPut(before, name, told, c, updated, next);
    }

    method RecordPut(ghost before: World, name: string, told: Choice, c: Session, updated: Session,
                     ghost next: Control)
      requires Reached(before, events) && PutsThis(At(before, name), c, updated, next)
      requires moment == |events| && told == answers(moment)
      requires lease == before.lease && pods == before.pods
      requires sessions == if told.fails || !Unchanged(before, name, c) then before.sessions
        else before.sessions[name := updated]
      modifies `control, `nextUid, `grants, `events, `moment
      ensures In(name, if told.fails || !Unchanged(before, name, c) then Idle else next)
        && Continued(old(events), events, name)
    {
      PutStep(before, name, told, c, updated, next);
      Record(before, Continue(name, told));
    }

    // AcquireWorkspaceWriter: the answer holds when the method returns, whatever happened meanwhile.
    method AcquireWorkspaceWriter(name: string, c: Session) returns (answer: Answer)
      requires In(name, AcquireGet(c, 0))
      modifies this
      ensures !answer.Take? && Continued(old(events), events, name)
      ensures In(name, Answered(c, answer))
      ensures answer.Granted? ==>
        Holds(lease, Identity(name, c.uid), answer.epoch) && (c.epoch > 0 ==> answer.epoch == c.epoch)
      ensures answer.Lost? ==> c.epoch > 0 && Over(lease, grants, Identity(name, c.uid), c.epoch)
    {
      var attempt: nat := 0;
      while attempt < 5
        invariant In(name, if attempt < 5 then AcquireGet(c, attempt) else Idle) && Continued(old(events), events, name)
      {
        answer := TryToAcquire(name, c, attempt);
        if !answer.Take? {
          if answer.Granted? {
            GrantIsHeld(State(), events, name, c, answer.epoch);
          }
          return;
        }
        attempt := attempt + 1;
      }
      return Failed;
    }

    // One attempt; Take says that the write met a conflict.
    method TryToAcquire(name: string, c: Session, ghost tries: nat) returns (answer: Answer)
      requires In(name, AcquireGet(c, tries)) && tries < 5
      modifies this
      ensures Continued(old(events), events, name)
      ensures In(name, if answer.Take? && tries < 4 then AcquireGet(c, tries + 1) else Answered(c, answer))
      ensures answer.Granted? && c.epoch > 0 ==> answer.epoch == c.epoch
      ensures answer.Lost? ==> c.epoch > 0 && Over(lease, grants, Identity(name, c.uid), c.epoch)
    {
      var holder := Identity(name, c.uid);
      Interfere(name);
      var fetched := ReadToAcquire(name, c, tries);
      if fetched.None? || fetched.value.state == Removed {
        return Failed;
      }
      var read := fetched.value;
      if c.epoch > 0 {
        if read.holder == Some(holder) && read.epoch == c.epoch {
          return Granted(c.epoch);
        }
        return Lost;
      }
      if read.holder == Some(holder) {
        if read.epoch < 1 {
          return Failed;
        }
        return Granted(read.epoch);
      }
      if read.holder.Some? {
        return Blocked;
      }
      if read.epoch == MAX_INT32 {
        return Failed;
      }
      Interfere(name);
      var written := UpdateToAcquire(name, c, read, tries);
      if written == Some(true) {
        return Granted(read.epoch + 1);
      }
      return if written.Some? then Take else Failed;
    }

    method ReadToAcquire(name: string, c: Session, ghost tries: nat) returns (read: Option<Lease>)
      requires In(name, AcquireGet(c, tries))
      modifies this
      ensures In(name, if read.None? then Idle else After(name, c, tries, read.value))
        && Continued(old(events), events, name)
      ensures lease == old(lease) && (read.Some? ==> read.value == lease)
      ensures read.Some? && AcquireAnswer(lease, Identity(name, c.uid), c.epoch) == Lost ==>
        Over(lease, grants, Identity(name, c.uid), c.epoch)
    {
      ghost var before := State();
      var told := Ask();
      read := if told.fails then None else Some(lease);
      if AcquireAnswer(lease, Identity(name, c.uid), c.epoch) == Lost {
        LostIsOver(before, events, name, c, tries);
      }
      Record(before, Continue(name, told));
    }

    // The write of one attempt: None is an error other than a conflict.
    method UpdateToAcquire(name: string, c: Session, read: Lease, ghost tries: nat) returns (written: Option<bool>)
      requires In(name, AcquirePut(c, read, tries))
      modifies this
      ensures In(name, match written
                       case Some(true) => PutGrant(c, read.epoch + 1)
                       case Some(false) => if tries < 4 then AcquireGet(c, tries + 1) else Idle
                       case None => Idle)
      ensures Continued(old(events), events, name)
      ensures lease == if written == Some(true) then Taken(read, Identity(name, c.uid)) else old(lease)
    {
      ghost var before := State();
      var told := Ask();
      if told.fails {
        written := None;
      } else if lease != read {
        written := Some(false);
      } else {
        lease := read.(holder := Some(Identity(name, c.uid)), epoch := read.epoch + 1);
        written := Some(true);
      }
      Record(before, Continue(name, told));
    }

    // ReleaseWorkspaceWriter: on success the term is over, unless the lease is being deleted.
    method ReleaseWorkspaceWriter(name: string, c: Session, purpose: Purpose) returns (ok: bool)
      requires In(name, ReleaseGet(c, purpose, 0))
      modifies this
      ensures In(name, if ok then PutReleased(c, purpose) else Idle) && Continued(old(events), events, name)
      ensures ok && lease.state == Present && c.epoch > 0 ==> Over(lease, grants, Identity(name, c.uid), c.epoch)
    {
      var attempt: nat := 0;
      while attempt < 5
        invariant In(name, if attempt < 5 then ReleaseGet(c, purpose, attempt) else Idle)
          && Continued(old(events), events, name)
      {
        var released := TryToRelease(name, c, purpose, attempt);
        if released == Some(true) {
          ReleasedIsOver(State(), events, name, c, purpose);
          return true;
        } else if released == None {
          return false;
        }
        attempt := attempt + 1;
      }
      return false;
    }

    // One attempt: a term that is not the lease's needs no write; Some(false) is a conflict.
    method TryToRelease(name: string, c: Session, purpose: Purpose, ghost tries: nat) returns (released: Option<bool>)
      requires In(name, ReleaseGet(c, purpose, tries)) && tries < 5
      modifies this
      ensures Continued(old(events), events, name)
      ensures In(name, match released
                       case Some(true) => PutReleased(c, purpose)
                       case Some(false) => if tries < 4 then ReleaseGet(c, purpose, tries + 1) else Idle
                       case None => Idle)
    {
      Interfere(name);
      var fetched := ReadToRelease(name, c, purpose, tries);
      if fetched.None? {
        return None;
      }
      var read := fetched.value;
      if read.state != Present || read.holder != Some(Identity(name, c.uid)) || read.epoch != c.epoch {
        return Some(true);
      }
      Interfere(name);
      released := UpdateToRelease(name, c, purpose, read, tries);
    }

    method ReadToRelease(name: string, c: Session, purpose: Purpose, ghost tries: nat) returns (read: Option<Lease>)
      requires In(name, ReleaseGet(c, purpose, tries))
      modifies this
      ensures In(name,
                 if read.None? then Idle
                 else if Releases(read.value, Identity(name, c.uid), c.epoch)
                   then ReleasePut(c, purpose, read.value, tries)
                 else PutReleased(c, purpose))
      ensures Continued(old(events), events, name) && lease == old(lease) && (read.Some? ==> read.value == lease)
    {
      ghost var before := State();
      var told := Ask();
      read := if told.fails then None else Some(lease);
      Record(before, Continue(name, told));
    }

    method UpdateToRelease(name: string, c: Session, purpose: Purpose, read: Lease, ghost tries: nat)
        returns (written: Option<bool>)
      requires In(name, ReleasePut(c, purpose, read, tries))
      modifies this
      ensures In(name, match written
                       case Some(true) => PutReleased(c, purpose)
                       case Some(false) => if tries < 4 then ReleaseGet(c, purpose, tries + 1) else Idle
                       case None => Idle)
      ensures Continued(old(events), events, name)
      ensures lease == if written == Some(true) then Freed(read) else old(lease)
    {
      ghost var before := State();
      var told := Ask();
      if told.fails {
        written := None;
      } else if lease != read {
        written := Some(false);
      } else {
        lease := read.(holder := None);
        written := Some(true);
      }
      Record(before, Continue(name, told));
    }

    method GetSession(name: string) returns (found: Option<Session>)
      requires In(name, Idle)
      modifies this
      ensures Valid() && RanOnce(old(events), events, name)
      ensures At(State(), name) == match found
        case None => Idle
        case Some(c) => FirstCall(c)
    {
      Interfere(name);
      ghost var before := events;
      found := if name in sessions then Some(sessions[name]) else None;
      Record(State(), Begin(name));
      assert Started(old(events), events, |before|, name);
    }

    // deleteWorkspaceWriterWorkloads: the pod goes at once or ends later.
    method DeleteWorkloads(name: string, ghost next: Control) returns (ok: bool)
      requires Valid()
      requires match At(State(), name)
        case DeletePod(c, purpose) => next == CheckQuiet(c, purpose)
        case DeleteToInterrupt(c) => next == PutInterrupted(c)
        case _ => false
      modifies this
      ensures In(name, if ok then next else Idle) && Continued(old(events), events, name)
    {
      Interfere(name);
      ghost var before := State();
      var told := Ask();
      ok := !told.fails;
      if ok && told.podGone {
        pods := pods - {name};
      }
      Record(before, Continue(name, told));
    }

    // PodWriterQuiescent: an error counts as not quiescent, for every caller gives up then.
    method PodWriterQuiescent(name: string, c: Session, purpose: Purpose) returns (quiet: bool)
      requires In(name, CheckQuiet(c, purpose))
      modifies this
      ensures In(name, if quiet then WhenQuiet(c, purpose) else Idle) && Continued(old(events), events, name)
      ensures quiet ==> !LivePod(pods, name)
    {
      Interfere(name);
      ghost var before := State();
      var told := Ask();
      quiet := !told.fails && (name !in pods || pods[name].phase == PodSucceeded || pods[name].phase == PodFailed);
      Record(before, Continue(name, told));
    }

    // Release of the recorded term, then its record.
    method ReleaseAndRecord(name: string, c: Session, purpose: Purpose) returns (ok: bool)
      requires In(name, ReleaseGet(c, purpose, 0))
      modifies this
      ensures In(name, if ok then WhenReleased(c.(released := true), purpose) else Idle)
        && Continued(old(events), events, name)
    {
      ok := ReleaseWorkspaceWriter(name, c, purpose);
      if ok {
        var updated := c.(released := true);
        ok := UpdateSession(name, c, updated, WhenReleased(updated, purpose));
      }
    }

    method Expire(name: string, session: Session)
      requires In(name, DeletePod(session, Expiry))
      modifies this
      ensures In(name, Idle) && Continued(old(events), events, name)
    {
      var c := session;
      var ok := DeleteWorkloads(name, CheckQuiet(c, Expiry));
      if !ok {
        return;
      }
      var quiet := PodWriterQuiescent(name, c, Expiry);
      if !quiet || c.phase == Cancelled {
        return;
      }
      if !NothingToRelease(c) {
        ok := ReleaseAndRecord(name, c, Expiry);
        if !ok {
          return;
        }
        c := c.(released := true);
      }
      ok := UpdateSession(name, c, c.(phase := Cancelled), Idle);
    }

    method FinalizeWorkspaceWriter(name: string, session: Session)
      requires In(name, DeletePod(session, Deletion))
      modifies this
      ensures In(name, Idle) && Continued(old(events), events, name)
    {
      var c := session;
      var ok := DeleteWorkloads(name, CheckQuiet(c, Deletion));
      if !ok {
        return;
      }
      var quiet := PodWriterQuiescent(name, c, Deletion);
      if !quiet {
        return;
      }
      if !NothingToRelease(c) {
        ok := ReleaseAndRecord(name, c, Deletion);
        if !ok {
          return;
        }
        c := c.(released := true);
      }
      RemoveFinalizer(name, c);
    }

    // The last finalizer goes, and the object with it.
    method RemoveFinalizer(name: string, c: Session)
      requires In(name, DropFinalizer(c))
      modifies this
      ensures In(name, Idle) && Continued(old(events), events, name)
    {
      Interfere(name);
      ghost var before := State();
      var told := Ask();
      if !told.fails && name in sessions && sessions[name] == c {
        sessions := sessions - {name};
      }
      Record(before, Continue(name, told));
    }

    method Interrupt(name: string, c: Session)
      requires In(name, DeleteToInterrupt(c))
      modifies this
      ensures In(name, Idle) && Continued(old(events), events, name)
    {
      var ok := DeleteWorkloads(name, PutInterrupted(c));
      if ok {
        ok := UpdateSession(name, c, c.(phase := Interrupted), Idle);
      }
    }

    // Under a granted term: record it, create the pod, and report what the pod does.
    method RunWorkload(name: string, session: Session, epoch: nat)
      requires In(name, PutGrant(session, epoch))
      modifies this
      ensures In(name, Idle) && Continued(old(events), events, name)
    {
      var c := session.(epoch := epoch, released := false);
      var ok := UpdateSession(name, session, c, CreatePod(c));
      if !ok {
        return;
      }
      ok := CreateWorkload(name, c);
      if !ok {
        return;
      }
      var observed := ObservePod(name, c);
      if observed.Some? {
        ok := UpdateSession(name, c, c.(phase := observed.value, podRef := true), Idle);
      }
    }

    // An existing pod is left as it is.
    method CreateWorkload(name: string, c: Session) returns (ok: bool)
      requires In(name, CreatePod(c))
      modifies this
      ensures In(name, if ok then GetPod(c) else Idle) && Continued(old(events), events, name)
      ensures ok ==> name in pods
    {
      Interfere(name);
      ghost var before := State();
      var told := Ask();
      ok := !told.fails;
      if ok && name !in pods {
        pods := pods[name := Pod(Identity(name, c.uid), c.epoch, PodPending, false)];
      }
      Record(before, Continue(name, told));
    }

    method ObservePod(name: string, c: Session) returns (observed: Option<Phase>)
      requires In(name, GetPod(c))
      modifies this
      ensures In(name, if observed.Some? then PutObserved(c, observed.value) else Idle)
        && Continued(old(events), events, name)
    {
      Interfere(name);
      ghost var before := State();
      var told := Ask();
      observed := None;
      if !told.fails && name in pods {
        var phase := if pods[name].phase == PodRunning && pods[name].ready then Running else Preparing;
        if c.phase != phase || !c.podRef {
          observed := Some(phase);
        }
      }
      Record(before, Continue(name, told));
    }

    // The clock, the namespace and the workflow: none if one of them cannot be read.
    method Look(name: string, c: Session) returns (seen: Option<Choice>)
      requires In(name, Decide(c))
      modifies this
      ensures In(name, if seen.Some? then Decided(c, seen.value) else Idle) && Continued(old(events), events, name)
    {
      Interfere(name);
      ghost var before := State();
      var told := Ask();
      seen := if told.fails then None else Some(told);
      Record(before, Continue(name, told));
    }

    // One reconcile is one uninterrupted pass of the protocol, from start to idle, whatever happens
    // between its calls.
    method Reconcile(name: string)
      requires In(name, Idle)
      modifies this
      ensures In(name, Idle) && RanOnce(old(events), events, name)
      // with nothing else happening in between, what it achieves is what a pass achieves
      ensures forall choice :: Alone(old(events), events, name, choice) ==>
        IsPass(old(State()), name, choice, State())
    {
      var found := GetSession(name);
      if found.Some? {
        ghost var begun := events;
        Handle(name, found.value);
        RanOnceContinued(old(events), begun, events, name);
      }
      forall choice | Alone(old(events), events, name, choice) ensures IsPass(old(State()), name, choice, State()) {
        AloneIsPass(old(State()), old(events), State(), events, name, choice);
      }
    }

    method Handle(name: string, stored: Session)
      requires In(name, FirstCall(stored))
      modifies this
      ensures In(name, Idle) && Continued(old(events), events, name)
    {
      var session := stored;
      if session.deleting {
        if session.finalizer {
          FinalizeWorkspaceWriter(name, session);
        }
        return;
      }
      if !session.finalizer {
        var updated := session.(finalizer := true);
        var ok := UpdateSession(name, session, updated, Decide(updated));
        if !ok {
          return;
        }
        session := updated;
      }
      var seen := Look(name, session);
      if seen.None? {
        return;
      }
      if seen.value.expired {
        Expire(name, session);
      } else if seen.value.terminating {
        return;
      } else if session.phase == Unset {
        var ok := UpdateSession(name, session, session.(phase := Preparing), Idle);
      } else if TerminalPhase(session.phase) {
        ReconcileRelease(name, session);
      } else if seen.value.noLeaseRef {
        if session.podRef {
          Interrupt(name, session);
        }
      } else {
        Proceed(name, session);
      }
    }

    method ReconcileRelease(name: string, session: Session)
      requires In(name, if NothingToRelease(session) then Idle else CheckQuiet(session, Terminal))
      modifies this
      ensures In(name, Idle) && Continued(old(events), events, name)
    {
      if NothingToRelease(session) {
        return;
      }
      var quiet := PodWriterQuiescent(name, session, Terminal);
      if quiet {
        var ok := ReleaseAndRecord(name, session, Terminal);
      }
    }

    method Proceed(name: string, session: Session)
      requires In(name, AcquireGet(session, 0))
      modifies this
      ensures In(name, Idle) && Continued(old(events), events, name)
    {
      var answer := AcquireWorkspaceWriter(name, session);
      match answer
      case Granted(epoch) => RunWorkload(name, session, epoch);
      case Lost => Interrupt(name, session);
      case Blocked =>
        if session.podRef {
          Interrupt(name, session);
        }
      case _ =>
    }
  }
}
