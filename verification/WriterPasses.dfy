/**
  What one undisturbed reconcile of a session achieves: no call of it fails and nothing happens in
  between.  The outcomes are stated in the stored objects before and after.
*/
module WriterPasses {
  import opened Wrappers
  import opened WriterLease
  import opened WriterProtocol
  import opened WriterSafety
  import opened WriterDepartures

  // The next n calls of the reconcile in flight.
  function Calls(w: World, name: string, choice: Choice, n: nat): World
    decreases n
  {
    if n == 0 then w else Calls(ContinueStep(w, name, choice), name, choice, n - 1)
  }

  // More calls than any reconcile makes.
  const ENOUGH: nat := 12

  // One undisturbed reconcile leads from w to next.  (The quantifier keeps the calls out of sight.)
  ghost predicate IsPass(w: World, name: string, choice: Choice, next: World)
  {
    forall m | m == ENOUGH :: Calls(Step(w, Begin(name)), name, choice, m) == next
  }

  // A pass is a run.
  lemma {:induction false} CallsAreRun(w: World, name: string, choice: Choice, n: nat)
    ensures Calls(w, name, choice, n) == Run(w, seq(n, _ => Continue(name, choice)))
    decreases n
  {
    if n > 0 {
      var event := Continue(name, choice);
      var rest := seq(n - 1, _ => event);
      CallsAreRun(ContinueStep(w, name, choice), name, choice, n - 1);
      assert seq(n, _ => Continue(name, choice)) == [event] + rest;
      RunSplits(w, [event], rest);
      RunOfOne(w, event);
    }
  }

  lemma RunOfOne(w: World, event: Event)
    ensures Run(w, [event]) == Step(w, event)
  {
    assert [event][..0] == [];
    assert Run(w, []) == w;
  }

  lemma PassIsRun(w: World, name: string, choice: Choice, next: World)
    ensures IsPass(w, name, choice, next) <==>
      next == Run(w, [Begin(name)] + seq(ENOUGH, _ => Continue(name, choice)))
  {
    CallsAreRun(Step(w, Begin(name)), name, choice, ENOUGH);
    RunSplits(w, [Begin(name)], seq(ENOUGH, _ => Continue(name, choice)));
    RunOfOne(w, Begin(name));
  }

  // The n calls end in this world.  (The quantifier keeps Calls out of sight.)
  ghost predicate EndsIn(w: World, name: string, choice: Choice, n: nat, end: World)
  {
    forall m | m == n :: Calls(w, name, choice, m) == end
  }

  lemma Call(w: World, name: string, choice: Choice, n: nat, end: World) returns (next: World)
    requires n > 0 && EndsIn(w, name, choice, n, end)
    ensures next == ContinueStep(w, name, choice) && EndsIn(next, name, choice, n - 1, end)
  {
    next := ContinueStep(w, name, choice);
    assert Calls(w, name, choice, n) == end;
  }

  lemma OneCallMore(w: World, name: string, choice: Choice, n: nat, end: World)
    requires n > 0 && EndsIn(ContinueStep(w, name, choice), name, choice, n - 1, end)
    ensures EndsIn(w, name, choice, n, end)
  {
    assert Calls(ContinueStep(w, name, choice), name, choice, n - 1) == end;
  }

  lemma {:induction false} Rests(w: World, name: string, choice: Choice, n: nat, end: World)
    requires At(w, name) == Idle && EndsIn(w, name, choice, n, end)
    ensures end == w
    decreases n
  {
    assert Calls(w, name, choice, n) == end;
    if n > 0 {
      var next := Call(w, name, choice, n, end);
      Rests(next, name, choice, n - 1, end);
    }
  }

  lemma PassBegins(w: World, name: string, choice: Choice, end: World) returns (v: World)
    requires IsPass(w, name, choice, end)
    ensures v == Step(w, Begin(name)) && EndsIn(v, name, choice, 12, end)
  {
    v := Step(w, Begin(name));
    assert Calls(v, name, choice, ENOUGH) == end;
  }

  // ---- a pass is over ----

  lemma {:induction false} CallsThenCalls(w: World, name: string, choice: Choice, n: nat, m: nat)
    ensures Calls(w, name, choice, n + m) == Calls(Calls(w, name, choice, n), name, choice, m)
    decreases n
  {
    if n > 0 {
      CallsThenCalls(ContinueStep(w, name, choice), name, choice, n - 1, m);
    }
  }

  // More calls than are left to make, when nothing disturbs them.
  function Left(k: Control): nat
  {
    match k
    case Idle => 0
    case PutFinalizer(_) => 11
    case Decide(_) => 10
    case AcquireGet(_, _) => 7
    case AcquirePut(_, _, _) => 6
    case PutGrant(_, _) => 4
    case CreatePod(_) => 3
    case GetPod(_) => 2
    case DeleteToInterrupt(_) => 2
    case DeletePod(_, _) => 9
    case CheckQuiet(_, _) => 8
    case ReleaseGet(_, _, _) => 4
    case ReleasePut(_, _, _, _) => 3
    case PutReleased(_, _) => 2
    case _ => 1
  }

  // What the next write is computed from is what is stored.
  predicate ReadIsFresh(w: World, name: string)
  {
    var k := At(w, name);
    (k.AcquirePut? ==> k.read == w.lease) && (k.ReleasePut? ==> k.read == w.lease)
  }

  lemma CallGetsOn(w: World, name: string, choice: Choice)
    requires ReadIsFresh(w, name) && At(w, name) != Idle
    ensures var next := ContinueStep(w, name, choice);
      ReadIsFresh(next, name) && Left(At(next, name)) < Left(At(w, name))
  {}

  lemma {:induction false} CallsEnd(w: World, name: string, choice: Choice, n: nat)
    requires ReadIsFresh(w, name) && Left(At(w, name)) <= n
    ensures At(Calls(w, name, choice, n), name) == Idle
    decreases n
  {
    if n > 0 {
      if At(w, name) != Idle {
        CallGetsOn(w, name, choice);
      }
      CallsEnd(ContinueStep(w, name, choice), name, choice, n - 1);
    }
  }

  // However many calls were made when it is over, it is this pass.
  lemma OverIsPass(w: World, name: string, choice: Choice, n: nat, next: World)
    requires EndsIn(Step(w, Begin(name)), name, choice, n, next) && At(w, name) == Idle && At(next, name) == Idle
    ensures IsPass(w, name, choice, next)
  {
    var v := Step(w, Begin(name));
    assert Calls(v, name, choice, n) == next;
    if n <= ENOUGH {
      CallsThenCalls(v, name, choice, n, ENOUGH - n);
      var end := Calls(next, name, choice, ENOUGH - n);
      Rests(next, name, choice, ENOUGH - n, end);
    } else {
      CallsThenCalls(v, name, choice, ENOUGH, n - ENOUGH);
      CallsEnd(v, name, choice, ENOUGH);
      Rests(Calls(v, name, choice, ENOUGH), name, choice, n - ENOUGH, next);
    }
  }

  // A conflicting write changes nothing and is tried again on a fresh read; the fifth one is the last.
  lemma ConflictIsRetried(w: World, name: string, choice: Choice)
    requires !choice.fails && !ReadIsFresh(w, name)
    ensures var k, next := At(w, name), ContinueStep(w, name, choice);
      && next.sessions == w.sessions && next.pods == w.pods && next.lease == w.lease
      && At(next, name) == (if k.tries >= 4 then Idle
                            else if k.AcquirePut? then AcquireGet(k.c, k.tries + 1)
                            else ReleaseGet(k.c, k.purpose, k.tries + 1))
  {}

  // An idle session, about to be reconciled with no failing call.
  predicate Starts(w: World, name: string, choice: Choice)
  {
    At(w, name) == Idle && name in w.sessions && !choice.fails && !choice.expired && !choice.terminating
  }

  // The stored session and where everything else stays, after a pass.
  ghost predicate Ends(w: World, next: World, name: string, s: Session)
  {
    && At(next, name) == Idle
    && next.sessions == w.sessions[name := s]
    && next.nextUid == w.nextUid
  }

  // A session that waits for an empty lease gets it: the lease goes to the next epoch, the pod is
  // created under exactly that term, and the session records it.
  lemma PassStartsPod(w: World, name: string, choice: Choice, next: World)
    requires IsPass(w, name, choice, next)
    requires Starts(w, name, choice) && !choice.noLeaseRef
    requires var s := w.sessions[name];
      s.finalizer && !s.deleting && s.phase == Preparing && s.epoch == 0 && name !in w.pods
    requires w.lease.state != Removed && w.lease.holder.None? && w.lease.epoch < 2147483647
    ensures var self, e := Identity(name, w.sessions[name].uid), w.lease.epoch + 1;
      && Ends(w, next, name, w.sessions[name].(epoch := e, released := false, podRef := true))
      && next.lease == w.lease.(holder := Some(self), epoch := e)
      && next.pods == w.pods[name := Pod(self, e, PodPending, false)]
      && next.grants == w.grants + [self]
  {
    var s, self := w.sessions[name], Identity(name, w.sessions[name].uid);
    var v := PassBegins(w, name, choice, next);
    assert At(v, name) == Decide(s);
    v := Call(v, name, choice, 12, next);
    assert At(v, name) == AcquireGet(s, 0);
    v := Call(v, name, choice, 11, next);
    assert At(v, name) == AcquirePut(s, w.lease, 0);
    v := Call(v, name, choice, 10, next);
    assert At(v, name) == PutGrant(s, w.lease.epoch + 1);
    v := Call(v, name, choice, 9, next);
    var c := s.(epoch := w.lease.epoch + 1, released := false);
    assert At(v, name) == CreatePod(c);
    PassReports(v, w, name, choice, c, 8, next);
  }

  function ReportedPhase(pod: Pod): Phase
  {
    if pod.phase == PodRunning && pod.ready then Running else Preparing
  }

  // From the creation of the pod on: there is a pod, and its state is reported.
  lemma PassReports(v: World, w: World, name: string, choice: Choice, c: Session, n: nat, end: World)
    requires At(v, name) == CreatePod(c) && v.sessions == w.sessions[name := c] && !choice.fails && n >= 3
    requires EndsIn(v, name, choice, n, end)
    ensures var next := end;
      && At(next, name) == Idle && next.lease == v.lease && next.grants == v.grants && next.nextUid == v.nextUid
      && next.pods == (if name in v.pods then v.pods
                       else v.pods[name := Pod(Identity(name, c.uid), c.epoch, PodPending, false)])
      && next.sessions == w.sessions[name := c.(podRef := true, phase := ReportedPhase(next.pods[name]))]
  {
    var u := Call(v, name, choice, n, end);
    assert At(u, name) == GetPod(c) && name in u.pods;
    PassObserves(u, w, name, choice, c, n - 1, end);
  }

  lemma PassObserves(u: World, w: World, name: string, choice: Choice, c: Session, n: nat, end: World)
    requires At(u, name) == GetPod(c) && u.sessions == w.sessions[name := c] && !choice.fails && n >= 2
    requires name in u.pods
    requires EndsIn(u, name, choice, n, end)
    ensures var next := end;
      && At(next, name) == Idle && next.lease == u.lease && next.grants == u.grants && next.nextUid == u.nextUid
      && next.pods == u.pods
      && next.sessions == w.sessions[name := c.(podRef := true, phase := ReportedPhase(next.pods[name]))]
  {
    var phase := ReportedPhase(u.pods[name]);
    var t := Call(u, name, choice, n, end);
    if c.phase != phase || !c.podRef {
      assert At(t, name) == PutObserved(c, phase);
      t := Call(t, name, choice, n - 1, end);
      Rests(t, name, choice, n - 2, end);
    } else {
      assert At(t, name) == Idle;
      Rests(t, name, choice, n - 1, end);
      assert c.(podRef := true, phase := phase) == c;
    }
  }

  // ---- under a recorded term ----

  // The session holds the lease, under the term it has recorded or without having recorded any.
  predicate HoldsTerm(w: World, name: string, s: Session)
  {
    w.lease.holder == Some(Identity(name, s.uid)) && w.lease.epoch > 0 && (s.epoch == 0 || s.epoch == w.lease.epoch)
  }

  // While it holds the term: the epoch is recorded, the pod is there afterwards, created only if there
  // was none, and the session reports Running exactly when the pod runs and is ready.
  lemma PassUnderTerm(w: World, name: string, choice: Choice, next: World)
    requires IsPass(w, name, choice, next)
    requires Starts(w, name, choice) && !choice.noLeaseRef && w.lease.state != Removed
    requires var s := w.sessions[name];
      s.finalizer && !s.deleting && (s.phase == Preparing || s.phase == Running) && HoldsTerm(w, name, s)
    ensures var s := w.sessions[name];
      var pod := if name in w.pods then w.pods[name] else Pod(Identity(name, s.uid), w.lease.epoch, PodPending, false);
      && next.pods == w.pods[name := pod] && next.lease == w.lease
      && Ends(w, next, name, s.(epoch := w.lease.epoch, released := false, podRef := true,
                                phase := if pod.phase == PodRunning && pod.ready then Running else Preparing))
  {
    var s := w.sessions[name];
    var v := PassBegins(w, name, choice, next);
    assert At(v, name) == Decide(s);
    v := Call(v, name, choice, 12, next);
    assert At(v, name) == AcquireGet(s, 0);
    v := Call(v, name, choice, 11, next);
    assert At(v, name) == PutGrant(s, w.lease.epoch);
    v := Call(v, name, choice, 10, next);
    assert At(v, name) == CreatePod(s.(epoch := w.lease.epoch, released := false));
    PassReports(v, w, name, choice, s.(epoch := w.lease.epoch, released := false), 9, next);
  }

  // A recorded term that the lease no longer shows: the session is interrupted, and its pod is deleted.
  lemma PassAfterLoss(w: World, name: string, choice: Choice, next: World)
    requires IsPass(w, name, choice, next)
    requires Starts(w, name, choice) && !choice.noLeaseRef && w.lease.state != Removed
    requires var s := w.sessions[name];
      s.finalizer && !s.deleting && (s.phase == Preparing || s.phase == Running) && s.epoch > 0
        && !HoldsTerm(w, name, s)
    ensures
      && Ends(w, next, name, w.sessions[name].(phase := Interrupted)) && next.lease == w.lease
      && next.pods == (if choice.podGone then w.pods - {name} else w.pods)
  {
    var s := w.sessions[name];
    var v := PassBegins(w, name, choice, next);
    v := Call(v, name, choice, 12, next);
    assert At(v, name) == AcquireGet(s, 0);
    v := Call(v, name, choice, 11, next);
    assert At(v, name) == DeleteToInterrupt(s);
    v := Call(v, name, choice, 10, next);
    assert At(v, name) == PutInterrupted(s);
    v := Call(v, name, choice, 9, next);
    Rests(v, name, choice, 8, next);
  }

  // Somebody else holds the lease: a session without a pod waits unchanged, one with a pod is
  // interrupted.
  lemma PassBlocked(w: World, name: string, choice: Choice, next: World)
    requires IsPass(w, name, choice, next)
    requires Starts(w, name, choice) && w.lease.state != Removed
    requires var s := w.sessions[name];
      && s.finalizer && !s.deleting && (s.phase == Preparing || s.phase == Running) && s.epoch == 0
      && w.lease.holder.Some? && w.lease.holder != Some(Identity(name, s.uid))
    ensures var s := w.sessions[name];
      && Ends(w, next, name, if s.podRef then s.(phase := Interrupted) else s) && next.lease == w.lease
      && next.pods == (if s.podRef && choice.podGone then w.pods - {name} else w.pods)
  {
    var s := w.sessions[name];
    var v := PassBegins(w, name, choice, next);
    v := Call(v, name, choice, 12, next);
    if choice.noLeaseRef {
      BlockedEnds(v, w, name, choice, s, 11, next);
    } else {
      assert At(v, name) == AcquireGet(s, 0);
      v := Call(v, name, choice, 11, next);
      BlockedEnds(v, w, name, choice, s, 10, next);
    }
  }

  lemma BlockedEnds(v: World, w: World, name: string, choice: Choice, s: Session, n: nat, end: World)
    requires At(v, name) == (if s.podRef then DeleteToInterrupt(s) else Idle) && n >= 2 && !choice.fails
    requires name in w.sessions && w.sessions[name] == s && v == w.(control := v.control)
    requires EndsIn(v, name, choice, n, end)
    ensures var next := end;
      && Ends(w, next, name, if s.podRef then s.(phase := Interrupted) else s) && next.lease == w.lease
      && next.pods == (if s.podRef && choice.podGone then w.pods - {name} else w.pods)
  {
    if s.podRef {
      var u := Call(v, name, choice, n, end);
      assert At(u, name) == PutInterrupted(s);
      u := Call(u, name, choice, n - 1, end);
      Rests(u, name, choice, n - 2, end);
    } else {
      Rests(v, name, choice, n, end);
    }
  }

  // ---- the beginning and the end ----

  // A new session gets its finalizer and is prepared.
  lemma PassPrepares(w: World, name: string, choice: Choice, next: World)
    requires IsPass(w, name, choice, next)
    requires Starts(w, name, choice) && !w.sessions[name].deleting && w.sessions[name].phase == Phase.Unset
    ensures
      && Ends(w, next, name, w.sessions[name].(finalizer := true, phase := Preparing))
      && next.lease == w.lease && next.pods == w.pods
  {
    var s := w.sessions[name].(finalizer := true);
    var v := PassBegins(w, name, choice, next);
    if w.sessions[name].finalizer {
      assert At(v, name) == Decide(s);
      v := Call(v, name, choice, 12, next);
      assert At(v, name) == PutPreparing(s);
      v := Call(v, name, choice, 11, next);
      Rests(v, name, choice, 10, next);
    } else {
      assert At(v, name) == PutFinalizer(w.sessions[name]);
      v := Call(v, name, choice, 12, next);
      assert At(v, name) == Decide(s);
      v := Call(v, name, choice, 11, next);
      assert At(v, name) == PutPreparing(s);
      v := Call(v, name, choice, 10, next);
      Rests(v, name, choice, 9, next);
    }
  }

  // The lease after a release by this session: empty if it was held under the recorded term.
  function Released(lease: Lease, name: string, s: Session): Lease
  {
    if s.epoch > 0 && !s.released && lease.state == Present && lease.holder == Some(Identity(name, s.uid))
      && lease.epoch == s.epoch
    then lease.(holder := None) else lease
  }

  // The three calls of a release, from its first one on.
  lemma ReleaseCalls(v: World, w: World, name: string, choice: Choice, s: Session, purpose: Purpose, n: nat,
                     end: World)
      returns (u: World, m: nat)
    requires At(v, name) == ReleaseGet(s, purpose, 0) && n >= 3 && !choice.fails && s.epoch > 0 && !s.released
    requires name in w.sessions && w.sessions[name] == s && v.sessions == w.sessions && v.lease == w.lease
    requires v.pods == w.pods || v.pods == w.pods - {name}
    requires EndsIn(v, name, choice, n, end)
    ensures m >= n - 3 && m < n && EndsIn(u, name, choice, m, end)
    ensures At(u, name) == WhenReleased(s.(released := true), purpose)
    ensures u.sessions == w.sessions[name := s.(released := true)] && u.lease == Released(w.lease, name, s)
    ensures u.pods == v.pods && u.nextUid == v.nextUid
  {
    u := Call(v, name, choice, n, end);
    m := n - 1;
    if u.control[name].ReleasePut? {
      u := Call(u, name, choice, m, end);
      m := m - 1;
    }
    assert At(u, name) == PutReleased(s, purpose);
    u := Call(u, name, choice, m, end);
    m := m - 1;
  }

  // The pod is gone or has ended.
  predicate Quiet(pods: map<string, Pod>, name: string)
  {
    name in pods ==> pods[name].phase == PodSucceeded || pods[name].phase == PodFailed
  }

  // An expired session whose pod is gone is cancelled, and its recorded term is released.  While a
  // pod lives nothing else happens.
  lemma PassExpires(w: World, name: string, choice: Choice, next: World)
    requires IsPass(w, name, choice, next)
    requires At(w, name) == Idle && name in w.sessions && !choice.fails && choice.expired
    requires var s := w.sessions[name]; s.finalizer && !s.deleting && s.phase != Cancelled
    ensures var s := w.sessions[name];
      && next.pods == (if choice.podGone then w.pods - {name} else w.pods)
      && At(next, name) == Idle
      && if Quiet(next.pods, name) then
           && next.sessions == w.sessions[name := s.(phase := Cancelled, released := s.released || s.epoch > 0)]
           && next.lease == Released(w.lease, name, s)
         else next.sessions == w.sessions && next.lease == w.lease
  {
    var s := w.sessions[name];
    var v := PassBegins(w, name, choice, next);
    assert At(v, name) == Decide(s);
    v := Call(v, name, choice, 12, next);
    assert At(v, name) == DeletePod(s, Expiry);
    v := Call(v, name, choice, 11, next);
    assert At(v, name) == CheckQuiet(s, Expiry);
    ExpiryEnds(v, w, name, choice, s, 10, next);
  }

  lemma ExpiryEnds(u: World, w: World, name: string, choice: Choice, s: Session, n: nat, end: World)
    requires At(u, name) == CheckQuiet(s, Expiry) && n >= 5 && !choice.fails && s.phase != Cancelled
    requires name in w.sessions && w.sessions[name] == s && u.sessions == w.sessions && u.lease == w.lease
    requires u.pods == w.pods || u.pods == w.pods - {name}
    requires EndsIn(u, name, choice, n, end)
    ensures var next := end;
      && next.pods == u.pods && At(next, name) == Idle
      && if Quiet(u.pods, name) then
           && next.sessions == w.sessions[name := s.(phase := Cancelled, released := s.released || s.epoch > 0)]
           && next.lease == Released(w.lease, name, s)
         else next.sessions == w.sessions && next.lease == w.lease
  {
    var v := Call(u, name, choice, n, end);
    if !Quiet(u.pods, name) {
      Rests(v, name, choice, n - 1, end);
    } else if s.epoch < 1 || s.released {
      assert At(v, name) == PutCancelled(s);
      v := Call(v, name, choice, n - 1, end);
      Rests(v, name, choice, n - 2, end);
    } else {
      ReleasedThenCancelled(v, w, name, choice, s, n - 1, end);
    }
  }

  lemma ReleasedThenCancelled(u: World, w: World, name: string, choice: Choice, s: Session, n: nat, end: World)
    requires At(u, name) == ReleaseGet(s, Expiry, 0) && n >= 4 && !choice.fails && s.epoch > 0 && !s.released
    requires name in w.sessions && w.sessions[name] == s && u.sessions == w.sessions && u.lease == w.lease
    requires (u.pods == w.pods || u.pods == w.pods - {name}) && EndsIn(u, name, choice, n, end)
    ensures end.pods == u.pods && At(end, name) == Idle && end.lease == Released(w.lease, name, s)
    ensures end.sessions == w.sessions[name := s.(phase := Cancelled, released := true)]
  {
    var v, m := ReleaseCalls(u, w, name, choice, s, Expiry, n, end);
    assert At(v, name) == PutCancelled(s.(released := true));
    v := Call(v, name, choice, m, end);
    Rests(v, name, choice, m - 1, end);
  }

  // A deleted session whose pod is gone is gone as well, and its recorded term is released.
  lemma PassFinalizes(w: World, name: string, choice: Choice, next: World)
    requires IsPass(w, name, choice, next)
    requires At(w, name) == Idle && name in w.sessions && !choice.fails
    requires w.sessions[name].deleting && w.sessions[name].finalizer
    ensures var s := w.sessions[name];
      && next.pods == (if choice.podGone then w.pods - {name} else w.pods)
      && At(next, name) == Idle
      && if Quiet(next.pods, name) then
           next.sessions == w.sessions - {name} && next.lease == Released(w.lease, name, s)
         else next.sessions == w.sessions && next.lease == w.lease
  {
    var s := w.sessions[name];
    var v := PassBegins(w, name, choice, next);
    assert At(v, name) == DeletePod(s, Deletion);
    v := Call(v, name, choice, 12, next);
    assert At(v, name) == CheckQuiet(s, Deletion);
    DeletionEnds(v, w, name, choice, s, 11, next);
  }

  lemma DeletionEnds(u: World, w: World, name: string, choice: Choice, s: Session, n: nat, end: World)
    requires At(u, name) == CheckQuiet(s, Deletion) && n >= 5 && !choice.fails
    requires name in w.sessions && w.sessions[name] == s && u.sessions == w.sessions && u.lease == w.lease
    requires u.pods == w.pods || u.pods == w.pods - {name}
    requires EndsIn(u, name, choice, n, end)
    ensures var next := end;
      && next.pods == u.pods && At(next, name) == Idle
      && if Quiet(u.pods, name) then next.sessions == w.sessions - {name} && next.lease == Released(w.lease, name, s)
         else next.sessions == w.sessions && next.lease == w.lease
  {
    var v := Call(u, name, choice, n, end);
    if !Quiet(u.pods, name) {
      Rests(v, name, choice, n - 1, end);
    } else if s.epoch < 1 || s.released {
      assert At(v, name) == DropFinalizer(s);
      v := Call(v, name, choice, n - 1, end);
      Rests(v, name, choice, n - 2, end);
    } else {
      var m;
      v, m := ReleaseCalls(v, w, name, choice, s, Deletion, n - 1, end);
      assert At(v, name) == DropFinalizer(s.(released := true));
      v := Call(v, name, choice, m, end);
      assert v.sessions == w.sessions - {name};
      Rests(v, name, choice, m - 1, end);
    }
  }

  // An ended session that still has a recorded term releases it once its pod is gone.
  lemma PassReleases(w: World, name: string, choice: Choice, next: World)
    requires IsPass(w, name, choice, next)
    requires Starts(w, name, choice)
    requires var s := w.sessions[name];
      && s.finalizer && !s.deleting && (s.phase == Cancelled || s.phase == Interrupted)
      && s.epoch > 0 && !s.released && Quiet(w.pods, name)
    ensures var s := w.sessions[name];
      Ends(w, next, name, s.(released := true)) && next.lease == Released(w.lease, name, s) && next.pods == w.pods
  {
    var s := w.sessions[name];
    var v := PassBegins(w, name, choice, next);
    v := Call(v, name, choice, 12, next);
    assert At(v, name) == CheckQuiet(s, Terminal);
    v := Call(v, name, choice, 11, next);
    var m;
    v, m := ReleaseCalls(v, w, name, choice, s, Terminal, 10, next);
    Rests(v, name, choice, m, next);
  }

  // Nothing to do: the namespace is going away, the lease is gone or out of epochs, the session has
  // ended with nothing to release, or its pod still lives.
  predicate NothingToDo(w: World, name: string, choice: Choice)
    requires name in w.sessions
  {
    var s := w.sessions[name];
    || choice.terminating
    || (TerminalPhase(s.phase) && (s.epoch < 1 || s.released || !Quiet(w.pods, name)))
    || ((s.phase == Preparing || s.phase == Running) && !choice.noLeaseRef
        && (w.lease.state == Removed || (w.lease.holder.None? && w.lease.epoch == 2147483647 && s.epoch == 0)))
  }

  lemma PassDoesNothing(w: World, name: string, choice: Choice, next: World)
    requires IsPass(w, name, choice, next) && At(w, name) == Idle && name in w.sessions && !choice.fails
    requires !choice.expired && w.sessions[name].finalizer && !w.sessions[name].deleting
    requires NothingToDo(w, name, choice)
    ensures Ends(w, next, name, w.sessions[name]) && next.lease == w.lease && next.pods == w.pods
  {
    var v := PassBegins(w, name, choice, next);
    assert At(v, name) == Decide(w.sessions[name]);
    v := Call(v, name, choice, 12, next);
    if At(v, name) == Idle {
      Rests(v, name, choice, 11, next);
    } else {
      v := Call(v, name, choice, 11, next);
      Rests(v, name, choice, 10, next);
    }
  }

  // ---- live pods are reached ----

  const CALM: Choice := Choice(false, false, false, false, false)

  lemma ThenPass(events: seq<Event>, w: World, name: string) returns (more: seq<Event>, next: World)
    requires Reaches(events, w)
    ensures Reaches(more, next) && IsPass(w, name, CALM, next)
  {
    var pass := [Begin(name)] + seq(ENOUGH, _ => Continue(name, CALM));
    more, next := events + pass, Run(w, pass);
    PassIsRun(w, name, CALM, next);
    assert Run(START, events) == w;
    RunSplits(START, events, pass);
  }

  lemma PodIsCreated(name: string) returns (events: seq<Event>, w: World)
    ensures Reaches(events, w) && At(w, name) == Idle && w.lease == Lease(Some(Identity(name, 0)), 1, Present)
    ensures w.sessions == map[name := Session(0, true, false, Preparing, 1, false, true)]
    ensures w.pods == map[name := Pod(Identity(name, 0), 1, PodPending, false)]
  {
    var first, v := BecomesPreparing(name);
    events, w := ThenPass(first, v, name);
    PassStartsPod(v, name, CALM, w);
  }

  lemma PodRuns(name: string) returns (events: seq<Event>, w: World)
    ensures Reaches(events, w) && At(w, name) == Idle && w.lease == Lease(Some(Identity(name, 0)), 1, Present)
    ensures w.sessions == map[name := Session(0, true, false, Preparing, 1, false, true)]
    ensures w.pods == map[name := Pod(Identity(name, 0), 1, PodRunning, true)]
  {
    events, w := PodIsCreated(name);
    events, w := Then(events, w, PodChanges(name, PodRunning, true));
  }

  // From the empty cluster two passes bring a session to a live pod under the first epoch, and a
  // third one reports it as running once the pod is.
  lemma LivePodIsReachable(name: string)
    ensures exists events :: var w := Run(START, events);
      && LivePod(w.pods, name) && w.pods[name].holder == Identity(name, 0) && w.pods[name].epoch == 1
      && w.lease == Lease(Some(Identity(name, 0)), 1, Present)
      && name in w.sessions && w.sessions[name].phase == Running && w.sessions[name].epoch == 1
  {
    var first, v := PodRuns(name);
    var events, w := ThenPass(first, v, name);
    PassUnderTerm(v, name, CALM, w);
    assert Run(START, events) == w;
  }
}
