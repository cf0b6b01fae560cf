/** What every run of the reservation protocol keeps: each endpoint's account. */
module KvSafety {
  import opened Wrappers
  import opened Admission
  import opened KvAccounting

  lemma {:induction false} SumConcat(kv: Estimates, a: seq<Ref>, b: seq<Ref>)
    ensures Sum(kv, a + b) == Sum(kv, a) + Sum(kv, b)
  {
    if b == [] {
      assert a + b == a;
    } else {
      assert (a + b)[..|a + b| - 1] == a + b[..|b| - 1];
      SumConcat(kv, a, b[..|b| - 1]);
    }
  }

  lemma SumAppend(kv: Estimates, refs: seq<Ref>, ref: Ref)
    ensures Sum(kv, refs + [ref]) == Sum(kv, refs) + kv(ref)
  {
    assert (refs + [ref])[..|refs|] == refs;
  }

  // Removal takes exactly the lease's estimate off: the floor at zero never bites.
  lemma RemovedAccount(kv: Estimates, p: Pool, ref: Ref)
    requires Accounted(kv, p) && ref in p.active
    ensures Accounted(kv, Removed(kv, p, ref))
    ensures p.reserved - kv(ref) >= 0 && Removed(kv, p, ref).reserved == p.reserved - kv(ref)
    ensures forall r :: r in Removed(kv, p, ref).active <==> r in p.active && r != ref
  {
    WithoutSum(kv, p.active, ref);
    WithoutMembers(p.active, ref);
  }

  lemma WithoutSum(kv: Estimates, refs: seq<Ref>, ref: Ref)
    requires ref in refs
    ensures Sum(kv, refs) == Sum(kv, Without(refs, ref)) + kv(ref)
  {
    var i := IndexOf(refs, ref);
    var left, right := refs[..i], refs[i + 1..];
    assert refs == left + [ref] + right;
    SumConcat(kv, left + [ref], right);
    SumAppend(kv, left, ref);
    SumConcat(kv, left, right);
  }

  lemma WithoutMembers(refs: seq<Ref>, ref: Ref)
    requires NoDuplicates(refs) && ref in refs
    ensures NoDuplicates(Without(refs, ref))
    ensures forall r :: r in Without(refs, ref) <==> r in refs && r != ref
  {
    var i, rest := IndexOf(refs, ref), Without(refs, ref);
    forall k | 0 <= k < |rest| ensures rest[k] == refs[if k < i then k else k + 1] {}
    forall r | r in refs && r != ref ensures r in rest {
      var k :| 0 <= k < |refs| && refs[k] == r;
      assert rest[if k < i then k else k - 1] == r;
    }
  }

  lemma BoundAccount(kv: Estimates, p: Pool, ref: Ref, kept: seq<Ref>, sum: int)
    requires NoDuplicates(kept) && sum == Sum(kv, kept) && sum + p.headroom <= p.maximum && Fits(kv, p, ref, kept, sum)
    ensures Accounted(kv, Bound(kv, p, ref, kept, sum)) && ref in Bound(kv, p, ref, kept, sum).active
  {
    SumAppend(kv, kept, ref);
  }

  // The part of the list the prune loop has kept so far.
  ghost predicate LookupOk(kv: Estimates, read: Pool, i: nat, kept: seq<Ref>, sum: int)
  {
    && Accounted(kv, read) && i <= |read.active|
    && NoDuplicates(kept) && sum == Sum(kv, kept) <= Sum(kv, read.active[..i])
    && forall r | r in kept :: r in read.active[..i]
  }

  ghost predicate ControlOk(kv: Estimates, ref: Ref, k: Control)
  {
    match k
    case RemovePut(target, _, _, read, _) => Accounted(kv, read) && target in read.active
    case Lookup(_, _, read, i, kept, sum, _) => LookupOk(kv, read, i, kept, sum)
    case BindPut(_, _, read, updated, _) =>
      Accounted(kv, updated) && ref in updated.active && forall r | r in updated.active :: r == ref || r in read.active
    case _ => true
  }

  ghost predicate Inv(kv: Estimates, w: World)
  {
    && (forall e | e in w.pools :: Accounted(kv, w.pools[e]))
    && (forall ref | ref in w.control :: ControlOk(kv, ref, w.control[ref]))
  }

  lemma LookupSkips(kv: Estimates, read: Pool, i: nat, kept: seq<Ref>, sum: int)
    requires LookupOk(kv, read, i, kept, sum) && i < |read.active|
    ensures LookupOk(kv, read, i + 1, kept, sum)
  {
    assert read.active[..i + 1] == read.active[..i] + [read.active[i]];
    SumAppend(kv, read.active[..i], read.active[i]);
  }

  lemma LookupKeeps(kv: Estimates, read: Pool, i: nat, kept: seq<Ref>, sum: int)
    requires LookupOk(kv, read, i, kept, sum) && i < |read.active|
    ensures LookupOk(kv, read, i + 1, kept + [read.active[i]], sum + kv(read.active[i]))
  {
    var entry := read.active[i];
    assert read.active[..i + 1] == read.active[..i] + [entry];
    SumAppend(kv, read.active[..i], entry);
    SumAppend(kv, kept, entry);
    assert entry !in read.active[..i];
    assert NoDuplicates(kept + [entry]);
  }

  lemma EntryStepOk(kv: Estimates, w: World, ref: Ref, k: Control)
    requires k.Lookup? && LookupOk(kv, k.read, k.i, k.kept, k.sum) && k.i < |k.read.active|
    ensures ControlOk(kv, ref, LookupStep(kv, w, ref, k))
  {
    var entry := k.read.active[k.i];
    if entry in k.read.active[..k.i] || !Kept(w, entry, k.e) {
      LookupSkips(kv, k.read, k.i, k.kept, k.sum);
    } else {
      LookupKeeps(kv, k.read, k.i, k.kept, k.sum);
    }
  }

  lemma LookupStepOk(kv: Estimates, w: World, ref: Ref, k: Control)
    requires k.Lookup? && ControlOk(kv, ref, k)
    ensures ControlOk(kv, ref, LookupStep(kv, w, ref, k))
  {
    if k.i < |k.read.active| {
      EntryStepOk(kv, w, ref, k);
    } else if Fits(kv, k.read, ref, k.kept, k.sum) {
      assert k.read.active[..k.i] == k.read.active;
      BoundAccount(kv, k.read, ref, k.kept, k.sum);
    }
  }

  lemma GoToKeeps(kv: Estimates, w: World, ref: Ref, next: Control)
    requires Inv(kv, w) && ControlOk(kv, ref, next)
    ensures Inv(kv, GoTo(w, ref, next))
  {}

  lemma PutClaimKeeps(kv: Estimates, w: World, ref: Ref, target: Ref, copy: Claim, fails: bool, updated: Claim,
                      next: Control)
    requires Inv(kv, w) && ControlOk(kv, ref, next)
    ensures Inv(kv, PutClaim(w, ref, target, copy, fails, updated, next))
  {}

  lemma PutPoolKeeps(kv: Estimates, w: World, ref: Ref, e: Ref, read: Pool, updated: Pool, fails: bool,
                     conflict: Control, next: Control)
    requires Inv(kv, w) && ControlOk(kv, ref, next) && ControlOk(kv, ref, conflict) && Accounted(kv, updated)
    ensures Inv(kv, PutPool(w, ref, e, read, updated, fails, conflict, next))
  {
    var result := PutPool(w, ref, e, read, updated, fails, conflict, next);
    if fails || e !in w.pools || w.pools[e] != read {
      var k := if fails then Idle else conflict;
      assert result == GoTo(w, ref, k);
      GoToKeeps(kv, w, ref, k);
    } else {
      var stored := w.(pools := w.pools[e := updated]);
      assert result == GoTo(stored, ref, next);
      PoolStored(kv, w, e, updated);
      GoToKeeps(kv, stored, ref, next);
    }
  }

  lemma PoolStored(kv: Estimates, w: World, e: Ref, updated: Pool)
    requires Inv(kv, w) && Accounted(kv, updated)
    ensures Inv(kv, w.(pools := w.pools[e := updated]))
  {}

  lemma ContinueKeeps(kv: Estimates, w: World, ref: Ref, choice: Choice)
    requires Inv(kv, w)
    ensures Inv(kv, ContinueStep(kv, w, ref, choice))
  {
    if ref in w.control {
      assert ControlOk(kv, ref, w.control[ref]);
      match w.control[ref]
      case Idle =>
      case PutFinalizer(c) =>
        PutClaimKeeps(kv, w, ref, ref, c, choice.fails, c.(finalizer := true), Proceed(c.(finalizer := true)));
      case PutPending(c) => PutClaimKeeps(kv, w, ref, ref, c, choice.fails, c.(phase := Pending), Idle);
      case PutRejected(c) => PutClaimKeeps(kv, w, ref, ref, c, choice.fails, c.(phase := Rejected), Idle);
      case PutRunning(c, e) =>
        PutClaimKeeps(kv, w, ref, ref, c, choice.fails, c.(phase := Running, endpoint := Some(e)), Idle);
      case PutEnded(target, copy, after) =>
        PutClaimKeeps(kv, w, ref, target, copy, choice.fails, copy.(phase := EndedPhase(after)), WhenEnded(after));
      case RemovePut(target, copy, after, read, tries) =>
        if copy.endpoint.None? {
          GoToKeeps(kv, w, ref, Idle);
        } else {
          RemovedAccount(kv, read, target);
          PutPoolKeeps(kv, w, ref, copy.endpoint.value, read, Removed(kv, read, target), choice.fails,
                       RemoveAgain(target, copy, after, tries), AfterRemoving(target, copy, after));
        }
      case BindPut(c, e, read, updated, tries) =>
        PutPoolKeeps(kv, w, ref, e, read, updated, choice.fails, BindAgain(c, e, tries), PutRunning(c, e));
      case Lookup(_, _, _, _, _, _, _) =>
        LookupStepOk(kv, w, ref, w.control[ref]);
        GoToKeeps(kv, w, ref, At(ContinueStep(kv, w, ref, choice), ref));
      case DropFinalizer(_) =>
      case _ => GoToKeeps(kv, w, ref, At(ContinueStep(kv, w, ref, choice), ref));
    }
  }

  lemma StepKeepsInv(kv: Estimates, w: World, event: Event)
    requires Inv(kv, w)
    ensures Inv(kv, Step(kv, w, event))
  {
    match event
    case Continue(ref, choice) => ContinueKeeps(kv, w, ref, choice);
    case Begin(ref) => if At(w, ref) == Idle { GoToKeeps(kv, w, ref, Begins(w, ref)); }
    case Crash(ref) => GoToKeeps(kv, w, ref, Idle);
    case _ =>
  }

  lemma {:induction false} RunKeepsInv(kv: Estimates, events: seq<Event>)
    ensures Inv(kv, Run(kv, events))
    decreases |events|
  {
    if events != [] {
      RunKeepsInv(kv, events[..|events| - 1]);
      StepKeepsInv(kv, Run(kv, events[..|events| - 1]), events[|events| - 1]);
    }
  }

  // In every run, with crashes anywhere: an endpoint's allocation is the sum over its active
  // leases, none listed twice, the count is their number, and with the headroom it fits.
  lemma AllocationIsExact(kv: Estimates, events: seq<Event>, e: Ref)
    requires e in Run(kv, events).pools
    ensures var p := Run(kv, events).pools[e];
      && (forall i, j | 0 <= i < j < |p.active| :: p.active[i] != p.active[j])
      && p.count == |p.active| && p.reserved == Sum(kv, p.active) && p.reserved + p.headroom <= p.maximum
  {
    RunKeepsInv(kv, events);
  }

  // The floor at zero never changes a removal, in any run.
  lemma FloorNeverBites(kv: Estimates, events: seq<Event>, ref: Ref)
    requires At(Run(kv, events), ref).RemovePut?
    ensures var k := At(Run(kv, events), ref); k.read.reserved - kv(k.target) >= 0
  {
    RunKeepsInv(kv, events);
    var k := At(Run(kv, events), ref);
    assert ControlOk(kv, ref, k);
    RemovedAccount(kv, k.read, k.target);
  }

  // A run that gets there.  (The quantifier keeps Run out of sight.)
  ghost predicate Reaches(kv: Estimates, events: seq<Event>, w: World)
  {
    forall f: Estimates | f == kv :: Run(f, events) == w
  }

  lemma Then(kv: Estimates, events: seq<Event>, w: World, event: Event) returns (more: seq<Event>, next: World)
    requires Reaches(kv, events, w)
    ensures Reaches(kv, more, next) && next == Step(kv, w, event)
  {
    more := events + [event];
    assert more[..|more| - 1] == events;
    assert Run(kv, events) == w;
    next := Step(kv, w, event);
    assert Run(kv, more) == next;
  }

  lemma ThenContinue(kv: Estimates, events: seq<Event>, w: World, ref: Ref, verdict: Verdict)
      returns (more: seq<Event>, next: World)
    requires Reaches(kv, events, w)
    ensures Reaches(kv, more, next) && next == ContinueStep(kv, w, ref, Choice(false, verdict))
  {
    more, next := Then(kv, events, w, Continue(ref, Choice(false, verdict)));
  }
}
