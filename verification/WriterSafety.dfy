/**
  What every run of the writer protocol keeps: one writer at a time, and its term is the lease's.
*/
module WriterSafety {
  import opened Wrappers
  import opened WriterLease
  import opened WriterProtocol

  // The epoch a session recorded was granted to it, and once recorded as released that term is
  // over, unless the lease itself was being deleted.
  ghost predicate SessionOk(lease: Lease, grants: seq<Identity>, name: string, s: Session)
  {
    var holder := Identity(name, s.uid);
    s.epoch > 0 ==>
      && WasGranted(grants, holder, s.epoch)
      && (s.released && lease.state == Present ==> Over(lease, grants, holder, s.epoch))
  }

  // A live pod works under the term the lease shows.
  ghost predicate PodOk(lease: Lease, grants: seq<Identity>, name: string, pod: Pod)
  {
    && pod.holder.name == name && WasGranted(grants, pod.holder, pod.epoch)
    && (Live(pod) ==> Holds(lease, pod.holder, pod.epoch))
  }

  ghost predicate ControlOk(w: World, name: string, control: Control)
  {
    (control.Idle? || SessionOk(w.lease, w.grants, name, control.c)) &&
    match control
    case AcquirePut(c, read, _) => c.epoch == 0 && AcquireAnswer(read, Identity(name, c.uid), 0) == Take
    case PutGrant(c, granted) => granted > 0 && Holds(w.lease, Identity(name, c.uid), granted)
    case CreatePod(c) => c.epoch > 0 && Holds(w.lease, Identity(name, c.uid), c.epoch)
    case ReleaseGet(c, _, _) => c.epoch > 0 && !LivePod(w.pods, name)
    case DeletePod(_, purpose) => purpose != Terminal
    case CheckQuiet(c, purpose) => purpose == Terminal ==> c.epoch > 0
    case ReleasePut(c, _, read, _) =>
      c.epoch > 0 && !LivePod(w.pods, name) && Releases(read, Identity(name, c.uid), c.epoch)
    case PutReleased(c, _) =>
      w.lease.state == Present && c.epoch > 0 ==> Over(w.lease, w.grants, Identity(name, c.uid), c.epoch)
    case _ => true
  }

  ghost predicate Inv(w: World)
  {
    && LeaseInv(w.lease, w.grants)
    && (forall name | name in w.sessions :: SessionOk(w.lease, w.grants, name, w.sessions[name]))
    && (forall name | name in w.pods :: PodOk(w.lease, w.grants, name, w.pods[name]))
    && (forall name | name in w.control :: ControlOk(w, name, w.control[name]))
  }

  // A step that leaves the lease and all pods alone needs only its own name checked.
  lemma LocalStep(w: World, next: World, name: string)
    requires Inv(w) && next.lease == w.lease && next.grants == w.grants && next.pods == w.pods
    requires forall n | n != name && n in next.sessions :: n in w.sessions && next.sessions[n] == w.sessions[n]
    requires forall n | n != name && n in next.control :: n in w.control && next.control[n] == w.control[n]
    requires name in next.sessions ==> SessionOk(w.lease, w.grants, name, next.sessions[name])
    requires name in next.control ==> ControlOk(w, name, next.control[name])
    ensures Inv(next)
  {
    forall n | n in next.control ensures ControlOk(next, n, next.control[n]) {
      if n == name {
        assert ControlOk(w, n, next.control[n]);
      } else {
        assert ControlOk(w, n, w.control[n]);
      }
    }
  }

  lemma PodsOnly(w: World, next: World, name: string)
    requires Inv(w) && next.lease == w.lease && next.grants == w.grants && next.sessions == w.sessions
    requires forall n | n != name && n in next.pods :: n in w.pods && next.pods[n] == w.pods[n]
    requires forall n | n != name && n in next.control :: n in w.control && next.control[n] == w.control[n]
    requires name in next.pods ==> PodOk(w.lease, w.grants, name, next.pods[name])
    requires name in next.control ==> ControlOk(next, name, next.control[name])
    ensures Inv(next)
  {
    forall n | n in next.control ensures ControlOk(next, n, next.control[n]) {
      if n != name {
        assert ControlOk(w, n, w.control[n]);
      }
    }
  }

  lemma GoToKeeps(w: World, name: string, next: Control)
    requires Inv(w) && ControlOk(w, name, next)
    ensures Inv(GoTo(w, name, next))
  {
    LocalStep(w, GoTo(w, name, next), name);
  }

  lemma PutKeeps(w: World, name: string, c: Session, fails: bool, updated: Session, next: Control)
    requires Inv(w) && SessionOk(w.lease, w.grants, name, updated) && ControlOk(w, name, next)
    ensures Inv(Put(w, name, c, fails, updated, next))
  {
    if fails || !Unchanged(w, name, c) {
      GoToKeeps(w, name, Idle);
    } else {
      var stored := w.(sessions := w.sessions[name := updated]);
      assert name in w.control ==> ControlOk(w, name, w.control[name]);
      LocalStep(w, stored, name);
      GoToKeeps(stored, name, next);
    }
  }

  lemma AcquireStepKeeps(w: World, name: string, c: Session, tries: nat)
    requires Inv(w) && ControlOk(w, name, AcquireGet(c, tries))
    ensures Inv(AcquireStep(w, name, c, tries))
  {
    match AcquireAnswer(w.lease, Identity(name, c.uid), c.epoch)
    case Failed => GoToKeeps(w, name, Idle);
    case Granted(e) => GoToKeeps(w, name, PutGrant(c, e));
    case Lost => GoToKeeps(w, name, DeleteToInterrupt(c));
    case Blocked => GoToKeeps(w, name, WhenBlocked(c));
    case Take => GoToKeeps(w, name, AcquirePut(c, w.lease, tries));
  }

  // Nobody holds the lease a step takes: no pod is live and no other reconcile relies on it.
  lemma TakeStepKeeps(w: World, name: string, c: Session, read: Lease, tries: nat, fails: bool)
    requires Inv(w) && ControlOk(w, name, AcquirePut(c, read, tries))
    ensures Inv(TakeStep(w, name, c, read, tries, fails))
  {
    var next := TakeStep(w, name, c, read, tries, fails);
    if fails || w.lease != read {
      LocalStep(w, next, name);
    } else {
      var holder := Identity(name, c.uid);
      AcquireKeepsLease(w.lease, w.grants, holder);
      forall n | n in next.control ensures ControlOk(next, n, next.control[n]) {
        if n != name {
          assert ControlOk(w, n, w.control[n]);
        }
      }
    }
  }

  // The lease is emptied only by its holder, and only when the holder's pod is not live.
  lemma FreeStepKeeps(w: World, name: string, c: Session, purpose: Purpose, read: Lease, tries: nat, fails: bool)
    requires Inv(w) && ControlOk(w, name, At(w, name)) && At(w, name) == ReleasePut(c, purpose, read, tries)
    ensures Inv(FreeStep(w, name, c, purpose, read, tries, fails))
  {
    var next := FreeStep(w, name, c, purpose, read, tries, fails);
    if fails || w.lease != read {
      LocalStep(w, next, name);
    } else {
      ReleaseKeepsLease(w.lease, w.grants, Identity(name, c.uid), c.epoch);
      forall n | n in next.pods ensures PodOk(next.lease, next.grants, n, next.pods[n]) {
        assert PodOk(w.lease, w.grants, n, w.pods[n]);
      }
      forall n | n in next.control ensures ControlOk(next, n, next.control[n]) {
        if n != name {
          assert ControlOk(w, n, w.control[n]);
        }
      }
    }
  }

  predicate Puts(k: Control)
  {
    || k.PutFinalizer? || k.PutPreparing? || k.PutGrant? || k.PutObserved? || k.PutInterrupted? || k.PutReleased?
    || k.PutCancelled?
  }

  lemma PutStepKeeps(w: World, name: string, choice: Choice)
    requires Inv(w) && ControlOk(w, name, At(w, name))
    requires Puts(At(w, name))
    ensures Inv(ContinueStep(w, name, choice))
  {
    match At(w, name)
    case PutFinalizer(c) => PutKeeps(w, name, c, choice.fails, c.(finalizer := true), Decide(c.(finalizer := true)));
    case PutPreparing(c) => PutKeeps(w, name, c, choice.fails, c.(phase := Preparing), Idle);
    case PutGrant(c, granted) =>
      var updated := c.(epoch := granted, released := false);
      PutKeeps(w, name, c, choice.fails, updated, CreatePod(updated));
    case PutObserved(c, observed) => PutKeeps(w, name, c, choice.fails, c.(phase := observed, podRef := true), Idle);
    case PutInterrupted(c) => PutKeeps(w, name, c, choice.fails, c.(phase := Interrupted), Idle);
    case PutReleased(c, purpose) =>
      var updated := c.(released := true);
      PutKeeps(w, name, c, choice.fails, updated, WhenReleased(updated, purpose));
    case PutCancelled(c) => PutKeeps(w, name, c, choice.fails, c.(phase := Cancelled), Idle);
  }

  lemma GoStepKeeps(w: World, name: string, choice: Choice)
    requires Inv(w) && ControlOk(w, name, At(w, name))
    requires var k := At(w, name); k.Decide? || k.GetPod? || k.CheckQuiet? || k.ReleaseGet?
    ensures Inv(ContinueStep(w, name, choice))
  {
    GoToKeeps(w, name, At(ContinueStep(w, name, choice), name));
  }

  lemma PodStepKeeps(w: World, name: string, choice: Choice)
    requires Inv(w) && ControlOk(w, name, At(w, name))
    requires var k := At(w, name); k.CreatePod? || k.DeletePod? || k.DeleteToInterrupt?
    ensures Inv(ContinueStep(w, name, choice))
  {
    PodsOnly(w, ContinueStep(w, name, choice), name);
  }

  lemma ContinueKeeps(w: World, name: string, choice: Choice)
    requires Inv(w)
    ensures Inv(ContinueStep(w, name, choice))
  {
    if name in w.control {
      assert ControlOk(w, name, w.control[name]);
      match w.control[name]
      case Idle =>
      case AcquireGet(c, tries) =>
        if choice.fails { GoToKeeps(w, name, Idle); } else { AcquireStepKeeps(w, name, c, tries); }
      case AcquirePut(c, read, tries) => TakeStepKeeps(w, name, c, read, tries, choice.fails);
      case ReleasePut(c, purpose, read, tries) => FreeStepKeeps(w, name, c, purpose, read, tries, choice.fails);
      case CreatePod(_) => PodStepKeeps(w, name, choice);
      case DeletePod(_, _) => PodStepKeeps(w, name, choice);
      case DeleteToInterrupt(_) => PodStepKeeps(w, name, choice);
      case DropFinalizer(_) => LocalStep(w, ContinueStep(w, name, choice), name);
      case Decide(_) => GoStepKeeps(w, name, choice);
      case GetPod(_) => GoStepKeeps(w, name, choice);
      case CheckQuiet(_, _) => GoStepKeeps(w, name, choice);
      case ReleaseGet(_, _, _) => GoStepKeeps(w, name, choice);
      case _ => PutStepKeeps(w, name, choice);
    }
  }

  lemma StepKeepsInv(w: World, event: Event)
    requires Inv(w)
    ensures Inv(Step(w, event))
  {
    var next := Step(w, event);
    match event
    case Continue(name, choice) => ContinueKeeps(w, name, choice);
    case LeaseDeleted(_) => LeaseDeletedKeeps(w, next);
    case PodChanges(_, _, _) => ExternalKeeps(w, event);
    case PodRemoved(_) => ExternalKeeps(w, event);
    case Begin(_) => ExternalKeeps(w, event);
    case Crash(_) => ExternalKeeps(w, event);
    case CreateSession(_) => ExternalKeeps(w, event);
    case DeleteSession(_) => ExternalKeeps(w, event);
  }

  lemma LeaseDeletedKeeps(w: World, next: World)
    requires Inv(w) && next == w.(lease := next.lease) && next.lease.state != Present
    requires next.lease.holder == w.lease.holder && next.lease.epoch == w.lease.epoch
    ensures Inv(next)
  {
    forall n | n in next.control ensures ControlOk(next, n, next.control[n]) {
      assert ControlOk(w, n, w.control[n]);
    }
  }

  lemma ExternalKeeps(w: World, event: Event)
    requires Inv(w) && !event.Continue? && !event.LeaseDeleted?
    ensures Inv(Step(w, event))
  {
    match event
    case Begin(name) => if At(w, name) == Idle { GoToKeeps(w, name, Begins(w, name)); }
    case Crash(name) => GoToKeeps(w, name, Idle);
    case CreateSession(name) => SessionChanges(w, event);
    case DeleteSession(name) => SessionChanges(w, event);
    case PodChanges(name, _, _) => PodChangesKeep(w, event);
    case PodRemoved(name) => PodChangesKeep(w, event);
  }

  lemma SessionChanges(w: World, event: Event)
    requires Inv(w) && (event.CreateSession? || event.DeleteSession?)
    ensures Inv(Step(w, event))
  {
    assert event.name in w.control ==> ControlOk(w, event.name, w.control[event.name]);
    LocalStep(w, Step(w, event), event.name);
  }

  lemma PodChangesKeep(w: World, event: Event)
    requires Inv(w) && (event.PodChanges? || event.PodRemoved?)
    ensures Inv(Step(w, event))
  {
    assert event.name in w.control ==> ControlOk(w, event.name, w.control[event.name]);
    PodsOnly(w, Step(w, event), event.name);
  }

  lemma {:induction false} RunKeepsInv(events: seq<Event>)
    ensures Inv(Run(START, events))
    decreases |events|
  {
    if events != [] {
      RunKeepsInv(events[..|events| - 1]);
      StepKeepsInv(Run(START, events[..|events| - 1]), events[|events| - 1]);
    }
  }

  // In every interleaving with crashes anywhere, at most one session has a live pod, and the term
  // in a live pod is the one the lease shows.
  lemma MutualExclusion(events: seq<Event>, left: string, right: string)
    requires LivePod(Run(START, events).pods, left) && LivePod(Run(START, events).pods, right)
    ensures left == right
    ensures var w := Run(START, events); var pod := w.pods[left];
      && pod.holder.name == left
      && w.lease.holder == Some(pod.holder) && w.lease.epoch == pod.epoch
  {
    RunKeepsInv(events);
    var w := Run(START, events);
    assert PodOk(w.lease, w.grants, left, w.pods[left]) && PodOk(w.lease, w.grants, right, w.pods[right]);
  }

  // The only changes of the lease's term: an empty lease gains a holder and the next epoch, or the
  // reconcile of the very object that holds it empties it, while no pod at all is live.
  ghost predicate TermKept(w: World, next: World)
  {
    next.lease.holder == w.lease.holder && next.lease.epoch == w.lease.epoch && next.grants == w.grants
  }

  ghost predicate TermTaken(w: World, event: Event, next: World)
  {
    && event.Continue? && At(w, event.name).AcquirePut? && w.lease.holder.None? && w.lease.epoch < MAX_INT32
    && next.lease.holder == Some(Identity(event.name, At(w, event.name).c.uid))
    && next.lease.epoch == w.lease.epoch + 1 && next.grants == w.grants + [next.lease.holder.value]
  }

  ghost predicate TermEnded(w: World, event: Event, next: World)
  {
    && event.Continue? && At(w, event.name).ReleasePut?
    && w.lease.holder == Some(Identity(event.name, At(w, event.name).c.uid))
    && next.lease == Freed(w.lease) && next.grants == w.grants
    && forall name :: !LivePod(w.pods, name)
  }

  lemma TermChanges(w: World, event: Event)
    requires Inv(w)
    ensures var next := Step(w, event); TermKept(w, next) || TermTaken(w, event, next) || TermEnded(w, event, next)
  {
    match event
    case Continue(name, choice) =>
      if At(w, name).ReleasePut? {
        FreeChanges(w, name, choice);
      } else if At(w, name).AcquirePut? {
        TakeChanges(w, name, choice);
      } else {
        OthersKeepTerm(w, name, choice);
      }
    case Begin(_) =>
    case Crash(_) =>
    case CreateSession(_) =>
    case DeleteSession(_) =>
    case PodChanges(_, _, _) =>
    case PodRemoved(_) =>
    case LeaseDeleted(_) =>
  }

  lemma TakeChanges(w: World, name: string, choice: Choice)
    requires Inv(w) && At(w, name).AcquirePut?
    ensures var event := Continue(name, choice);
      TermKept(w, Step(w, event)) || TermTaken(w, event, Step(w, event))
  {
    assert ControlOk(w, name, w.control[name]);
  }

  lemma FreeChanges(w: World, name: string, choice: Choice)
    requires Inv(w) && At(w, name).ReleasePut?
    ensures var event := Continue(name, choice);
      TermKept(w, Step(w, event)) || TermEnded(w, event, Step(w, event))
  {
    assert ControlOk(w, name, w.control[name]);
    NoLivePod(w, name, Identity(name, At(w, name).c.uid));
  }

  lemma OthersKeepTerm(w: World, name: string, choice: Choice)
    requires !At(w, name).AcquirePut? && !At(w, name).ReleasePut?
    ensures TermKept(w, ContinueStep(w, name, choice))
  {}

  lemma NoLivePod(w: World, name: string, holder: Identity)
    requires Inv(w) && holder.name == name && !LivePod(w.pods, name)
    ensures w.lease.holder == Some(holder) ==> forall n :: !LivePod(w.pods, n)
  {
    forall n | LivePod(w.pods, n) ensures w.lease.holder != Some(holder) {
      assert PodOk(w.lease, w.grants, n, w.pods[n]);
    }
  }

  lemma GrantsGrow(w: World, event: Event)
    requires Inv(w)
    ensures w.grants <= Step(w, event).grants
    ensures forall h, e | Over(w.lease, w.grants, h, e) :: Over(Step(w, event).lease, Step(w, event).grants, h, e)
  {
    TermChanges(w, event);
  }

  lemma RunLast(w: World, events: seq<Event>)
    requires events != []
    ensures Run(w, events) == Step(Run(w, events[..|events| - 1]), events[|events| - 1])
  {}

  lemma {:induction false} RunSplits(w: World, events: seq<Event>, more: seq<Event>)
    ensures Run(w, events + more) == Run(Run(w, events), more)
    decreases |more|
  {
    if more == [] {
      assert events + more == events;
    } else {
      var all, init := events + more, more[..|more| - 1];
      RunLast(w, all);
      RunLast(Run(w, events), more);
      assert all[..|all| - 1] == events + init && all[|all| - 1] == more[|more| - 1];
      RunSplits(w, events, init);
    }
  }

  // From any moment on: epochs only grow, and terms that are over stay over.
  lemma {:induction false} RunGrows(w: World, events: seq<Event>)
    requires Inv(w)
    ensures Inv(Run(w, events)) && w.grants <= Run(w, events).grants
    ensures forall h, e | Over(w.lease, w.grants, h, e) :: Over(Run(w, events).lease, Run(w, events).grants, h, e)
    decreases |events|
  {
    if events != [] {
      var before, event := Run(w, events[..|events| - 1]), events[|events| - 1];
      RunGrows(w, events[..|events| - 1]);
      StepKeepsInv(before, event);
      GrantsGrow(before, event);
    }
  }

  // An epoch is an int32, counts the grants, and grows by one with each; it never decreases.
  lemma EpochsGrow(events: seq<Event>, more: seq<Event>)
    ensures Run(START, events).grants <= Run(START, events + more).grants
    ensures Run(START, events).lease.epoch == |Run(START, events).grants| <= MAX_INT32
    ensures Run(START, events).lease.epoch <= Run(START, events + more).lease.epoch
  {
    RunKeepsInv(events);
    RunKeepsInv(events + more);
    RunSplits(START, events, more);
    RunGrows(Run(START, events), more);
  }

  // Two pods, at any two moments of a run, that carry the same epoch belong to the same session object.
  lemma OneHolderPerEpoch(events: seq<Event>, more: seq<Event>, left: string, right: string)
    requires left in Run(START, events).pods && right in Run(START, events + more).pods
    requires Run(START, events).pods[left].epoch == Run(START, events + more).pods[right].epoch
    ensures Run(START, events).pods[left].holder == Run(START, events + more).pods[right].holder
  {
    EpochsGrow(events, more);
    RunKeepsInv(events);
    RunKeepsInv(events + more);
    var w, later := Run(START, events), Run(START, events + more);
    assert PodOk(w.lease, w.grants, left, w.pods[left]);
    assert PodOk(later.lease, later.grants, right, later.pods[right]);
  }

  // A session told that its recorded term is lost is never granted that term again.
  lemma LostIsFinal(events: seq<Event>, more: seq<Event>, name: string, c: Session, tries: nat)
    requires At(Run(START, events), name) == AcquireGet(c, tries) && c.epoch > 0
    requires AcquireAnswer(Run(START, events).lease, Identity(name, c.uid), c.epoch) == Lost
    ensures !AcquireAnswer(Run(START, events + more).lease, Identity(name, c.uid), c.epoch).Granted?
  {
    RunKeepsInv(events);
    RunSplits(START, events, more);
    var w := Run(START, events);
    assert ControlOk(w, name, w.control[name]);
    RunGrows(w, more);
    assert Over(w.lease, w.grants, Identity(name, c.uid), c.epoch);
  }
}
