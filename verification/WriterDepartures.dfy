/**
  When a session that comes to its end leaves the lease held.  Safety is all the protocol gives: a
  term whose epoch its session never recorded is not released, and then no run frees the lease again.
*/
module WriterDepartures {
  import opened Wrappers
  import opened WriterLease
  import opened WriterProtocol
  import opened WriterSafety

  // A step of one reconcile works on its own session object only.
  ghost predicate Local(w: World, next: World, name: string)
  {
    && next.nextUid == w.nextUid
    && (next.control == w.control || next.control == w.control[name := At(next, name)])
    && (|| next.sessions == w.sessions || next.sessions == w.sessions - {name}
        || (name in w.sessions && name in next.sessions && next.sessions[name].uid == w.sessions[name].uid
            && next.sessions == w.sessions[name := next.sessions[name]]))
    && (At(next, name).Idle? || (!At(w, name).Idle? && At(next, name).c.uid == At(w, name).c.uid))
  }

  lemma PutIsLocal(w: World, name: string, c: Session, fails: bool, updated: Session, next: Control)
    requires !At(w, name).Idle? && At(w, name).c == c && updated.uid == c.uid && (next.Idle? || next.c == updated)
    ensures Local(w, Put(w, name, c, fails, updated, next), name)
  {}

  lemma GoToIsLocal(w: World, name: string, next: Control)
    requires next.Idle? || (!At(w, name).Idle? && next.c.uid == At(w, name).c.uid)
    ensures Local(w, GoTo(w, name, next), name)
  {}

  predicate Looks(k: Control)
  {
    k.Decide? || k.AcquireGet? || k.GetPod? || k.CheckQuiet? || k.ReleaseGet?
  }

  lemma LookIsLocal(w: World, name: string, choice: Choice)
    requires Looks(At(w, name))
    ensures Local(w, ContinueStep(w, name, choice), name)
  {
    var next := At(ContinueStep(w, name, choice), name);
    match At(w, name)
    case AcquireGet(_, _) => GoToIsLocal(w, name, next);
    case _ => GoToIsLocal(w, name, next);
  }

  lemma OtherIsLocal(w: World, name: string, choice: Choice)
    requires !Puts(At(w, name)) && !Looks(At(w, name))
    ensures Local(w, ContinueStep(w, name, choice), name)
  {
    match At(w, name)
    case AcquirePut(_, _, _) =>
    case ReleasePut(_, _, _, _) =>
    case CreatePod(_) =>
    case DeletePod(_, _) =>
    case DeleteToInterrupt(_) =>
    case DropFinalizer(_) =>
    case Idle =>
  }

  lemma ContinueIsLocal(w: World, name: string, choice: Choice)
    ensures Local(w, ContinueStep(w, name, choice), name)
  {
    match At(w, name)
    case PutFinalizer(c) => PutIsLocal(w, name, c, choice.fails, c.(finalizer := true), Decide(c.(finalizer := true)));
    case PutPreparing(c) => PutIsLocal(w, name, c, choice.fails, c.(phase := Preparing), Idle);
    case PutGrant(c, granted) =>
      var updated := c.(epoch := granted, released := false);
      PutIsLocal(w, name, c, choice.fails, updated, CreatePod(updated));
    case PutObserved(c, observed) => PutIsLocal(w, name, c, choice.fails, c.(phase := observed, podRef := true), Idle);
    case PutInterrupted(c) => PutIsLocal(w, name, c, choice.fails, c.(phase := Interrupted), Idle);
    case PutReleased(c, purpose) =>
      var updated := c.(released := true);
      PutIsLocal(w, name, c, choice.fails, updated, WhenReleased(updated, purpose));
    case PutCancelled(c) => PutIsLocal(w, name, c, choice.fails, c.(phase := Cancelled), Idle);
    case _ => if Looks(At(w, name)) { LookIsLocal(w, name, choice); } else { OtherIsLocal(w, name, choice); }
  }

  // ---- a reconcile's copy and the stored session ----

  function Self(name: string, s: Session): Identity
  {
    Identity(name, s.uid)
  }

  // The stored session is the copy, or the copy marked as being deleted.
  predicate Same(stored: Session, c: Session)
  {
    stored == c || stored == c.(deleting := true)
  }

  predicate CopyOk(sessions: map<string, Session>, name: string, k: Control)
  {
    k.Idle? ||
    (&& k.c.finalizer == !k.PutFinalizer?
     && (k.c.finalizer ==> name in sessions && sessions[name].uid == k.c.uid)
     && (name in sessions && sessions[name].uid == k.c.uid ==> Same(sessions[name], k.c))
     && (k.DropFinalizer? || k.PutCancelled? ==> NothingToRelease(k.c))
     && (k.AcquireGet? || k.AcquirePut? || k.PutGrant? ==> k.c.phase != Cancelled)
     && (k.PutGrant? ==> k.granted > 0)
     && (k.PutObserved? ==> k.observed != Cancelled))
  }

  ghost predicate CopyInv(w: World, name: string)
  {
    && CopyOk(w.sessions, name, At(w, name))
    && (!At(w, name).Idle? ==> At(w, name).c.uid < w.nextUid)
    && (name in w.sessions ==> w.sessions[name].uid < w.nextUid)
    && (name in w.sessions && w.sessions[name].phase == Cancelled ==> NothingToRelease(w.sessions[name]))
  }

  // What a step may do to the stored session: nothing, end it, update it without forgetting, or
  // create a new one.
  predicate Progress(w: World, next: World, name: string)
  {
    && w.nextUid <= next.nextUid
    && (name in next.sessions ==>
          if name in w.sessions && next.sessions[name].uid == w.sessions[name].uid then
            && (w.sessions[name].finalizer ==> next.sessions[name].finalizer)
            && (next.sessions[name].epoch == 0 ==> w.sessions[name].epoch == 0)
          else next.sessions[name].uid == w.nextUid)
  }

  lemma PutKeepsCopy(w: World, name: string, c: Session, fails: bool, updated: Session, next: Control)
    requires CopyInv(w, name) && !At(w, name).Idle? && At(w, name).c == c && updated.uid == c.uid
    requires updated.finalizer && updated.deleting == c.deleting && (updated.epoch == 0 ==> c.epoch == 0)
    requires Unchanged(w, name, c) && updated.phase == Cancelled ==> NothingToRelease(updated)
    requires next.Idle? || (next.c == updated && !next.PutFinalizer? && CopyOk(map[name := updated], name, next))
    ensures CopyInv(Put(w, name, c, fails, updated, next), name)
      && Progress(w, Put(w, name, c, fails, updated, next), name)
  {}

  lemma PutStepKeepsCopy(w: World, name: string, choice: Choice)
    requires CopyInv(w, name) && Puts(At(w, name))
    ensures CopyInv(ContinueStep(w, name, choice), name) && Progress(w, ContinueStep(w, name, choice), name)
  {
    match At(w, name)
    case PutFinalizer(c) =>
      PutKeepsCopy(w, name, c, choice.fails, c.(finalizer := true), Decide(c.(finalizer := true)));
    case PutPreparing(c) => PutKeepsCopy(w, name, c, choice.fails, c.(phase := Preparing), Idle);
    case PutGrant(c, granted) =>
      var updated := c.(epoch := granted, released := false);
      PutKeepsCopy(w, name, c, choice.fails, updated, CreatePod(updated));
    case PutObserved(c, observed) =>
      PutKeepsCopy(w, name, c, choice.fails, c.(phase := observed, podRef := true), Idle);
    case PutInterrupted(c) => PutKeepsCopy(w, name, c, choice.fails, c.(phase := Interrupted), Idle);
    case PutReleased(c, purpose) =>
      var updated := c.(released := true);
      PutKeepsCopy(w, name, c, choice.fails, updated, WhenReleased(updated, purpose));
    case PutCancelled(c) => PutKeepsCopy(w, name, c, choice.fails, c.(phase := Cancelled), Idle);
  }

  lemma GoToKeepsCopy(w: World, name: string, next: Control)
    requires CopyInv(w, name) && CopyOk(w.sessions, name, next) && (next.Idle? || next.c.uid < w.nextUid)
    ensures CopyInv(GoTo(w, name, next), name)
  {}

  lemma LookKeepsCopy(w: World, name: string, choice: Choice)
    requires CopyInv(w, name) && Looks(At(w, name))
    ensures CopyInv(ContinueStep(w, name, choice), name) && ContinueStep(w, name, choice).sessions == w.sessions
  {
    match At(w, name)
    case AcquireGet(_, _) => AskKeepsCopy(w, name, choice);
    case Decide(c) => GoToKeepsCopy(w, name, if choice.fails then Idle else Decided(c, choice));
    case GetPod(_) => GoToKeepsCopy(w, name, At(ContinueStep(w, name, choice), name));
    case CheckQuiet(_, _) => GoToKeepsCopy(w, name, At(ContinueStep(w, name, choice), name));
    case ReleaseGet(_, _, _) => GoToKeepsCopy(w, name, At(ContinueStep(w, name, choice), name));
  }

  lemma AskKeepsCopy(w: World, name: string, choice: Choice)
    requires CopyInv(w, name) && At(w, name).AcquireGet?
    ensures CopyInv(ContinueStep(w, name, choice), name) && ContinueStep(w, name, choice).sessions == w.sessions
  {
    var c := At(w, name).c;
    if choice.fails {
      GoToKeepsCopy(w, name, Idle);
    } else {
      match AcquireAnswer(w.lease, Identity(name, c.uid), c.epoch)
      case Failed => GoToKeepsCopy(w, name, Idle);
      case Granted(e) => GoToKeepsCopy(w, name, PutGrant(c, e));
      case Lost => GoToKeepsCopy(w, name, DeleteToInterrupt(c));
      case Blocked => GoToKeepsCopy(w, name, WhenBlocked(c));
      case Take => GoToKeepsCopy(w, name, AcquirePut(c, w.lease, At(w, name).tries));
    }
  }

  lemma OtherKeepsCopy(w: World, name: string, choice: Choice)
    requires CopyInv(w, name) && !Puts(At(w, name)) && !Looks(At(w, name))
    ensures CopyInv(ContinueStep(w, name, choice), name) && Progress(w, ContinueStep(w, name, choice), name)
  {
    match At(w, name)
    case AcquirePut(_, _, _) =>
    case ReleasePut(_, _, _, _) =>
    case CreatePod(_) =>
    case DeletePod(_, _) =>
    case DeleteToInterrupt(_) =>
    case DropFinalizer(_) =>
    case Idle =>
  }

  lemma OwnKeepsCopy(w: World, name: string, choice: Choice)
    requires CopyInv(w, name)
    ensures CopyInv(ContinueStep(w, name, choice), name) && Progress(w, ContinueStep(w, name, choice), name)
  {
    if Puts(At(w, name)) {
      PutStepKeepsCopy(w, name, choice);
    } else if Looks(At(w, name)) {
      LookKeepsCopy(w, name, choice);
    } else {
      OtherKeepsCopy(w, name, choice);
    }
  }

  lemma OthersKeepCopy(w: World, event: Event, name: string)
    requires CopyInv(w, name) && event.Continue? && event.name != name
    ensures CopyInv(Step(w, event), name) && Progress(w, Step(w, event), name)
  {
    ContinueIsLocal(w, event.name, event.choice);
  }

  lemma ExternalKeepsCopy(w: World, event: Event, name: string)
    requires CopyInv(w, name) && !event.Continue?
    ensures CopyInv(Step(w, event), name) && Progress(w, Step(w, event), name)
  {
    match event
    case Begin(n) => if n == name && At(w, name) == Idle { GoToKeepsCopy(w, name, Begins(w, name)); }
    case Crash(n) => if n == name { GoToKeepsCopy(w, name, Idle); }
    case CreateSession(_) =>
    case DeleteSession(_) =>
    case PodChanges(_, _, _) =>
    case PodRemoved(_) =>
    case LeaseDeleted(_) =>
  }

  lemma StepKeepsCopy(w: World, event: Event, name: string)
    requires CopyInv(w, name)
    ensures CopyInv(Step(w, event), name) && Progress(w, Step(w, event), name)
  {
    if !event.Continue? {
      ExternalKeepsCopy(w, event, name);
    } else if event.name == name {
      OwnKeepsCopy(w, name, event.choice);
    } else {
      OthersKeepCopy(w, event, name);
    }
  }

  // ---- a session and its term ----

  // A stored session that was granted a term has the finalizer, and until it records the epoch it
  // is still the holder.
  ghost predicate TermInv(w: World, name: string)
  {
    name in w.sessions && Self(name, w.sessions[name]) in w.grants ==>
      && w.sessions[name].finalizer
      && (w.sessions[name].epoch == 0 ==> w.lease.holder == Some(Self(name, w.sessions[name])))
  }

  // No identity is granted a term twice, and each was some session's.
  ghost predicate GrantsInv(w: World)
  {
    && (forall i, j | 0 <= i < j < |w.grants| :: w.grants[i] != w.grants[j])
    && forall i | 0 <= i < |w.grants| :: w.grants[i].uid < w.nextUid
  }

  ghost predicate Departing(w: World)
  {
    Inv(w) && GrantsInv(w) && forall name :: CopyInv(w, name) && TermInv(w, name)
  }

  // The session that takes the lease was never granted a term before.
  lemma TakerIsNew(w: World, name: string)
    requires Inv(w) && CopyInv(w, name) && TermInv(w, name)
    requires At(w, name).AcquirePut? && w.lease.holder.None?
    ensures name in w.sessions && w.sessions[name].uid == At(w, name).c.uid && w.sessions[name].finalizer
    ensures Self(name, w.sessions[name]) !in w.grants
  {
    assert ControlOk(w, name, w.control[name]);
  }

  // The session that frees the lease has recorded the epoch.
  lemma FreerHasRecorded(w: World, name: string)
    requires Inv(w) && CopyInv(w, name) && At(w, name).ReleasePut?
    ensures name in w.sessions && w.sessions[name].uid == At(w, name).c.uid && w.sessions[name].epoch > 0
  {
    assert ControlOk(w, name, w.control[name]);
  }

  lemma TermStep(w: World, event: Event, name: string)
    requires Inv(w) && GrantsInv(w) && TermInv(w, name) && Progress(w, Step(w, event), name)
    requires TermKept(w, Step(w, event))
    ensures TermInv(Step(w, event), name)
  {}

  lemma TermStepTaken(w: World, event: Event, name: string)
    requires Inv(w) && GrantsInv(w) && TermInv(w, name) && Progress(w, Step(w, event), name)
    requires event.Continue? && CopyInv(w, event.name) && TermInv(w, event.name)
    requires Progress(w, Step(w, event), event.name)
    requires TermTaken(w, event, Step(w, event))
    ensures TermInv(Step(w, event), name)
  {
    TakerIsNew(w, event.name);
  }

  lemma TermStepEnded(w: World, event: Event, name: string)
    requires Inv(w) && GrantsInv(w) && TermInv(w, name) && Progress(w, Step(w, event), name)
    requires event.Continue? && CopyInv(w, event.name) && Progress(w, Step(w, event), event.name)
    requires TermEnded(w, event, Step(w, event))
    ensures TermInv(Step(w, event), name)
  {
    FreerHasRecorded(w, event.name);
  }

  lemma GrantsStep(w: World, event: Event)
    requires Inv(w) && GrantsInv(w) && w.nextUid <= Step(w, event).nextUid
    requires event.Continue? ==> CopyInv(w, event.name) && TermInv(w, event.name)
    ensures GrantsInv(Step(w, event))
  {
    TermChanges(w, event);
    if TermTaken(w, event, Step(w, event)) {
      TakerIsNew(w, event.name);
    }
  }

  lemma StepKeepsDeparting(w: World, event: Event)
    requires Departing(w)
    ensures Departing(Step(w, event))
  {
    var next := Step(w, event);
    StepKeepsInv(w, event);
    TermChanges(w, event);
    forall name ensures CopyInv(next, name) && TermInv(next, name) && Progress(w, next, name) {
      StepKeepsCopy(w, event, name);
      if TermKept(w, next) {
        TermStep(w, event, name);
      } else if TermTaken(w, event, next) {
        StepKeepsCopy(w, event, event.name);
        TermStepTaken(w, event, name);
      } else {
        StepKeepsCopy(w, event, event.name);
        TermStepEnded(w, event, name);
      }
    }
    assert Progress(w, next, "");
    GrantsStep(w, event);
  }

  lemma {:induction false} RunKeepsDeparting(events: seq<Event>)
    ensures Departing(Run(START, events))
    decreases |events|
  {
    if events != [] {
      RunKeepsDeparting(events[..|events| - 1]);
      StepKeepsDeparting(Run(START, events[..|events| - 1]), events[|events| - 1]);
    }
  }

  // ---- when the lease stays held ----

  // Every session object is granted at most one term, ever.
  lemma OneTermEach(events: seq<Event>, i: nat, j: nat)
    requires i < |Run(START, events).grants| && j < |Run(START, events).grants|
    requires Run(START, events).grants[i] == Run(START, events).grants[j]
    ensures i == j
  {
    RunKeepsDeparting(events);
  }

  // A session that its controller has nothing to release for still holds the lease if and only if it
  // was granted a term and never recorded the epoch.
  lemma HeldIffUnrecorded(events: seq<Event>, name: string)
    requires var w := Run(START, events);
      name in w.sessions && NothingToRelease(w.sessions[name]) && w.lease.state == Present
    ensures var w := Run(START, events);
      w.lease.holder == Some(Self(name, w.sessions[name])) <==>
        w.sessions[name].epoch == 0 && Self(name, w.sessions[name]) in w.grants
  {
    RunKeepsDeparting(events);
    HeldIff(Run(START, events), name);
  }

  lemma HeldIff(w: World, name: string)
    requires Inv(w) && GrantsInv(w) && TermInv(w, name)
    requires name in w.sessions && NothingToRelease(w.sessions[name]) && w.lease.state == Present
    ensures w.lease.holder == Some(Self(name, w.sessions[name])) <==>
      w.sessions[name].epoch == 0 && Self(name, w.sessions[name]) in w.grants
  {
    assert SessionOk(w.lease, w.grants, name, w.sessions[name]);
  }

  // A session that has expired, or is about to lose its finalizer, is such a session.
  lemma EndedHasNothingToRelease(events: seq<Event>, name: string)
    requires var w := Run(START, events);
      && name in w.sessions
      && (w.sessions[name].phase == Cancelled || (At(w, name).DropFinalizer? && At(w, name).c == w.sessions[name]))
    ensures NothingToRelease(Run(START, events).sessions[name])
  {
    RunKeepsDeparting(events);
    assert CopyInv(Run(START, events), name);
  }

  ghost predicate Departs(w: World, next: World, name: string)
  {
    name in w.sessions && (name !in next.sessions || next.sessions[name].uid != w.sessions[name].uid)
  }

  // A step that takes a session object out of the store leaves the lease held by it if and only if
  // it was granted a term and never recorded the epoch.
  lemma DepartureHoldsIff(events: seq<Event>, event: Event, name: string)
    requires var w := Run(START, events); Departs(w, Step(w, event), name) && w.lease.state == Present
    ensures var w := Run(START, events);
      Step(w, event).lease.holder == Some(Self(name, w.sessions[name])) <==>
        w.sessions[name].epoch == 0 && Self(name, w.sessions[name]) in w.grants
  {
    RunKeepsDeparting(events);
    var w := Run(START, events);
    assert CopyInv(w, name) && TermInv(w, name);
    DepartureStep(w, event, name);
    if NothingToRelease(w.sessions[name]) {
      HeldIff(w, name);
    }
  }

  // Objects go by losing their finalizer or by never having had one; the lease is not touched.
  lemma DepartureStep(w: World, event: Event, name: string)
    requires CopyInv(w, name) && Departs(w, Step(w, event), name)
    ensures Step(w, event).lease == w.lease
    ensures !w.sessions[name].finalizer || NothingToRelease(w.sessions[name])
  {
    if event.Continue? {
      ContinueIsLocal(w, event.name, event.choice);
      if event.name == name {
        OwnDeparture(w, name, event.choice);
      }
    }
  }

  lemma OwnDeparture(w: World, name: string, choice: Choice)
    requires CopyInv(w, name) && Departs(w, ContinueStep(w, name, choice), name)
    ensures At(w, name).DropFinalizer? && At(w, name).c == w.sessions[name]
  {
    if Looks(At(w, name)) {
      LookKeepsCopy(w, name, choice);
    } else {
      match At(w, name)
      case PutFinalizer(c) =>
      case DropFinalizer(_) =>
      case _ =>
    }
  }

  // ---- and that it stays held ----

  // Held by a session object that is gone, or that has ended or is being deleted without a recorded
  // epoch, and no reconcile of it is past the point of giving up.
  ghost predicate Stuck(w: World, holder: Identity)
  {
    && w.lease.holder == Some(holder) && holder.uid < w.nextUid
    && (holder.name in w.sessions && w.sessions[holder.name].uid == holder.uid ==> Ended(w.sessions[holder.name]))
    && (At(w, holder.name).Idle? || At(w, holder.name).c.uid != holder.uid || EndedControl(At(w, holder.name)))
  }

  predicate Ended(s: Session)
  {
    s.epoch == 0 && (s.phase == Cancelled || s.deleting)
  }

  predicate EndedControl(k: Control)
  {
    match k
    case PutFinalizer(c) => c.phase == Cancelled && c.epoch == 0
    case Decide(c) => c.phase == Cancelled && c.epoch == 0
    case DeletePod(c, purpose) => Ended(c) && (purpose == Deletion || (purpose == Expiry && c.phase == Cancelled))
    case CheckQuiet(c, purpose) => Ended(c) && (purpose == Deletion || (purpose == Expiry && c.phase == Cancelled))
    case DropFinalizer(c) => Ended(c)
    case _ => false
  }

  lemma StuckStep(w: World, event: Event, holder: Identity)
    requires Inv(w) && Stuck(w, holder)
    ensures Stuck(Step(w, event), holder) && Step(w, event).lease.epoch == w.lease.epoch
  {
    TermChanges(w, event);
    if event.Continue? {
      ContinueIsLocal(w, event.name, event.choice);
      if event.name == holder.name {
        StuckOwn(w, event.choice, holder);
      }
    }
  }

  lemma StuckOwn(w: World, choice: Choice, holder: Identity)
    requires Stuck(w, holder)
    ensures var next := ContinueStep(w, holder.name, choice);
      && (holder.name in next.sessions && next.sessions[holder.name].uid == holder.uid ==>
          Ended(next.sessions[holder.name]))
      && (At(next, holder.name).Idle? || At(next, holder.name).c.uid != holder.uid
          || EndedControl(At(next, holder.name)))
  {
    ContinueIsLocal(w, holder.name, choice);
    if !At(w, holder.name).Idle? && At(w, holder.name).c.uid == holder.uid {
      match At(w, holder.name)
      case PutFinalizer(_) =>
      case Decide(_) =>
      case DeletePod(_, _) =>
      case CheckQuiet(_, _) =>
      case DropFinalizer(_) =>
    }
  }

  // No run at all frees the lease again.
  lemma {:induction false} StuckForEver(w: World, events: seq<Event>, holder: Identity)
    requires Inv(w) && Stuck(w, holder)
    ensures Inv(Run(w, events)) && Stuck(Run(w, events), holder) && Run(w, events).lease.epoch == w.lease.epoch
    decreases |events|
  {
    if events != [] {
      var before, event := Run(w, events[..|events| - 1]), events[|events| - 1];
      StuckForEver(w, events[..|events| - 1], holder);
      StepKeepsInv(before, event);
      StuckStep(before, event, holder);
    }
  }

  ghost predicate HeldForEver(w: World, holder: Identity)
  {
    forall more :: Run(w, more).lease.holder == Some(holder)
  }

  lemma HeldForEverIff(w: World, holder: Identity)
    requires Inv(w) && (w.lease.holder == Some(holder) ==> Stuck(w, holder))
    ensures HeldForEver(w, holder) <==> w.lease.holder == Some(holder)
  {
    assert Run(w, []) == w;
    if w.lease.holder == Some(holder) {
      forall more ensures Run(w, more).lease.holder == Some(holder) {
        StuckForEver(w, more, holder);
      }
    }
  }

  // So a session that is cancelled, with no reconcile of it going on, keeps the lease in every later
  // run if and only if it was granted a term and never recorded the epoch.
  lemma CancelledKeepsLeaseIff(events: seq<Event>, name: string)
    requires var w := Run(START, events);
      name in w.sessions && w.sessions[name].phase == Cancelled && At(w, name).Idle? && w.lease.state == Present
    ensures var w := Run(START, events); var self := Self(name, w.sessions[name]);
      HeldForEver(w, self) <==> w.sessions[name].epoch == 0 && self in w.grants
  {
    var w := Run(START, events);
    RunKeepsDeparting(events);
    EndedHasNothingToRelease(events, name);
    HeldIffUnrecorded(events, name);
    assert CopyInv(w, name);
    HeldForEverIff(w, Self(name, w.sessions[name]));
  }

  // And so does a session object that is taken out of the store.
  lemma DepartedKeepsLeaseIff(events: seq<Event>, event: Event, name: string)
    requires var w := Run(START, events); Departs(w, Step(w, event), name) && w.lease.state == Present
    ensures var w := Run(START, events); var self := Self(name, w.sessions[name]);
      HeldForEver(Step(w, event), self) <==> w.sessions[name].epoch == 0 && self in w.grants
  {
    var w := Run(START, events);
    DepartureHoldsIff(events, event, name);
    RunKeepsDeparting(events);
    assert CopyInv(w, name);
    StepKeepsInv(w, event);
    if w.sessions[name].finalizer {
      DepartedIsStuck(w, event, name);
    }
    HeldForEverIff(Step(w, event), Self(name, w.sessions[name]));
  }

  lemma DepartedIsStuck(w: World, event: Event, name: string)
    requires CopyInv(w, name) && Departs(w, Step(w, event), name) && w.sessions[name].finalizer
    ensures var self := Self(name, w.sessions[name]);
      Step(w, event).lease.holder == Some(self) ==> Stuck(Step(w, event), self)
  {
    StepKeepsCopy(w, event, name);
  }

  // A run that gets there.  (The quantifier keeps Run out of sight.)
  ghost predicate Reaches(events: seq<Event>, w: World)
  {
    forall start | start == START :: Run(start, events) == w
  }

  lemma Then(events: seq<Event>, w: World, event: Event) returns (more: seq<Event>, next: World)
    requires Reaches(events, w)
    ensures Reaches(more, next) && next == Step(w, event)
  {
    more := events + [event];
    assert more[..|more| - 1] == events;
    assert Run(START, events) == w;
    next := Step(w, event);
    assert Run(START, more) == next;
  }

  lemma ThenContinue(events: seq<Event>, w: World, name: string) returns (more: seq<Event>, next: World)
    requires Reaches(events, w)
    ensures Reaches(more, next) && next == ContinueStep(w, name, Choice(false, false, false, false, false))
  {
    more, next := Then(events, w, Continue(name, Choice(false, false, false, false, false)));
  }

  lemma BecomesPreparing(name: string) returns (events: seq<Event>, w: World)
    ensures Reaches(events, w) && At(w, name) == Idle && w.nextUid == 1 && w.lease == START.lease && w.pods == map[]
    ensures w.sessions == map[name := Session(0, true, false, Preparing, 0, false, false)]
  {
    events, w := Then([], START, CreateSession(name));
    events, w := Then(events, w, Begin(name));
    events, w := ThenContinue(events, w, name);
    assert At(w, name) == Decide(Session(0, true, false, Unset, 0, false, false));
    events, w := ThenContinue(events, w, name);
    events, w := ThenContinue(events, w, name);
    assert w.sessions == map[name := Session(0, true, false, Preparing, 0, false, false)];
  }

  // A session takes the lease and crashes before it can record the epoch.
  lemma TakesAndCrashes(name: string) returns (events: seq<Event>, w: World)
    ensures Reaches(events, w) && At(w, name) == Idle && w.nextUid == 1
    ensures w.lease == Lease(Some(Identity(name, 0)), 1, Present)
    ensures w.sessions == map[name := Session(0, true, false, Preparing, 0, false, false)] && w.pods == map[]
  {
    events, w := BecomesPreparing(name);
    var c := w.sessions[name];
    events, w := Then(events, w, Begin(name));
    events, w := ThenContinue(events, w, name);
    assert At(w, name) == AcquireGet(c, 0);
    events, w := ThenContinue(events, w, name);
    assert At(w, name) == AcquirePut(c, START.lease, 0);
    events, w := ThenContinue(events, w, name);
    events, w := Then(events, w, Crash(name));
  }

  // It happens by deletion: the session is finalized and gone, and still holds the lease.
  lemma GoneStillHolding(name: string)
    ensures exists events :: var w := Run(START, events);
      name !in w.sessions && Stuck(w, Identity(name, 0))
  {
    var events, w := TakesAndCrashes(name);
    var c := Session(0, true, true, Preparing, 0, false, false);
    events, w := Then(events, w, DeleteSession(name));
    assert w.sessions[name] == c;
    events, w := Then(events, w, Begin(name));
    assert At(w, name) == DeletePod(c, Deletion);
    events, w := ThenContinue(events, w, name);
    assert At(w, name) == CheckQuiet(c, Deletion);
    events, w := ThenContinue(events, w, name);
    assert At(w, name) == DropFinalizer(c);
    events, w := ThenContinue(events, w, name);
    assert Run(START, events) == w && Stuck(w, Identity(name, 0));
  }

  lemma StartsToExpire(name: string) returns (events: seq<Event>, w: World)
    ensures Reaches(events, w) && w.nextUid == 1 && w.lease.holder == Some(Identity(name, 0))
    ensures w.sessions == map[name := Session(0, true, false, Preparing, 0, false, false)] && w.pods == map[]
    ensures At(w, name) == DeletePod(w.sessions[name], Expiry)
  {
    events, w := TakesAndCrashes(name);
    events, w := Then(events, w, Begin(name));
    events, w := Then(events, w, Continue(name, Choice(false, true, false, false, false)));
  }

  // It happens by expiry: the session is cancelled, is still there, and still holds the lease.
  lemma CancelledStillHolding(name: string)
    ensures exists events :: var w := Run(START, events);
      name in w.sessions && w.sessions[name].phase == Cancelled && Stuck(w, Identity(name, 0))
  {
    var events, w := StartsToExpire(name);
    var c := w.sessions[name];
    events, w := ThenContinue(events, w, name);
    assert At(w, name) == CheckQuiet(c, Expiry);
    events, w := ThenContinue(events, w, name);
    assert At(w, name) == PutCancelled(c);
    events, w := ThenContinue(events, w, name);
    assert w.sessions[name] == c.(phase := Cancelled);
    assert Run(START, events) == w && Stuck(w, Identity(name, 0));
  }
}
