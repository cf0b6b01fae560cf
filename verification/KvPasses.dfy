/**
  What one undisturbed reconcile of an inference lease achieves: no call of it fails and nothing
  happens in between.  The outcomes are stated in the stored objects before and after.
*/
module KvPasses {
  import opened Wrappers
  import opened Admission
  import opened KvAccounting
  import opened KvSafety

  // The next n calls of the reconcile in flight.
  function Calls(kv: Estimates, w: World, ref: Ref, choice: Choice, n: nat): World
    decreases n
  {
    if n == 0 then w else Calls(kv, ContinueStep(kv, w, ref, choice), ref, choice, n - 1)
  }

  // They end in this world.  (The quantifier keeps the calls out of sight.)
  ghost predicate EndsIn(kv: Estimates, w: World, ref: Ref, choice: Choice, n: nat, end: World)
  {
    forall m | m == n :: Calls(kv, w, ref, choice, m) == end
  }

  // One undisturbed reconcile of at most n calls leads from w to next.
  ghost predicate IsPass(kv: Estimates, w: World, ref: Ref, choice: Choice, n: nat, next: World)
  {
    EndsIn(kv, Step(kv, w, Begin(ref)), ref, choice, n, next)
  }

  lemma PassBegins(kv: Estimates, w: World, ref: Ref, choice: Choice, n: nat, end: World) returns (v: World)
    requires IsPass(kv, w, ref, choice, n, end)
    ensures v == Step(kv, w, Begin(ref)) && EndsIn(kv, v, ref, choice, n, end)
  {
    v := Step(kv, w, Begin(ref));
  }

  lemma Call(kv: Estimates, w: World, ref: Ref, choice: Choice, n: nat, end: World) returns (next: World)
    requires n > 0 && EndsIn(kv, w, ref, choice, n, end)
    ensures next == ContinueStep(kv, w, ref, choice) && EndsIn(kv, next, ref, choice, n - 1, end)
  {
    next := ContinueStep(kv, w, ref, choice);
    assert Calls(kv, w, ref, choice, n) == end;
  }

  lemma OneCallMore(kv: Estimates, w: World, ref: Ref, choice: Choice, n: nat, end: World)
    requires n > 0 && EndsIn(kv, ContinueStep(kv, w, ref, choice), ref, choice, n - 1, end)
    ensures EndsIn(kv, w, ref, choice, n, end)
  {
    assert Calls(kv, ContinueStep(kv, w, ref, choice), ref, choice, n - 1) == end;
  }

  lemma {:induction false} Rests(kv: Estimates, w: World, ref: Ref, choice: Choice, n: nat, end: World)
    requires At(w, ref) == Idle && EndsIn(kv, w, ref, choice, n, end)
    ensures end == w
    decreases n
  {
    assert Calls(kv, w, ref, choice, n) == end;
    if n > 0 {
      var next := Call(kv, w, ref, choice, n, end);
      Rests(kv, next, ref, choice, n - 1, end);
    }
  }

  // However many more calls there could be, a pass that is over stays as it is.
  lemma {:induction false} StaysOver(kv: Estimates, w: World, ref: Ref, choice: Choice, n: nat, m: nat, end: World)
    requires EndsIn(kv, w, ref, choice, n, end) && At(end, ref) == Idle && m >= n
    ensures EndsIn(kv, w, ref, choice, m, end)
    decreases n, m
  {
    assert Calls(kv, w, ref, choice, n) == end;
    if n > 0 {
      var next := Call(kv, w, ref, choice, n, end);
      StaysOver(kv, next, ref, choice, n - 1, m - 1, end);
      OneCallMore(kv, w, ref, choice, m, end);
    } else if m > 0 {
      StaysOver(kv, w, ref, choice, 0, m - 1, end);
      OneCallMore(kv, w, ref, choice, m, end);
    }
  }

  // A conflicting write changes nothing and is tried again on a fresh read; the fifth one is the last.
  lemma ConflictIsRetried(kv: Estimates, w: World, ref: Ref, choice: Choice, e: Ref)
    requires !choice.fails
    requires var k := At(w, ref);
      && ((k.BindPut? && k.e == e) || (k.RemovePut? && k.copy.endpoint == Some(e)))
      && (e !in w.pools || w.pools[e] != k.read)
    ensures var k, next := At(w, ref), ContinueStep(kv, w, ref, choice);
      && next.pools == w.pools && next.claims == w.claims
      && At(next, ref) == (if k.tries >= 4 then Idle
                           else if k.BindPut? then BindGet(k.c, e, k.tries + 1)
                           else RemoveGet(k.target, k.copy, k.after, k.tries + 1))
  {}

  // A pass of a run is a run.
  lemma {:induction false} CallsReach(kv: Estimates, events: seq<Event>, w: World, ref: Ref, choice: Choice, n: nat)
      returns (more: seq<Event>, next: World)
    requires Reaches(kv, events, w)
    ensures Reaches(kv, more, next) && EndsIn(kv, w, ref, choice, n, next)
    decreases n
  {
    if n == 0 {
      more, next := events, w;
    } else {
      var one, v := Then(kv, events, w, Continue(ref, choice));
      more, next := CallsReach(kv, one, v, ref, choice, n - 1);
      assert Calls(kv, v, ref, choice, n - 1) == next;
      assert Calls(kv, w, ref, choice, n) == Calls(kv, v, ref, choice, n - 1);
    }
  }

  lemma PassReaches(kv: Estimates, events: seq<Event>, w: World, ref: Ref, choice: Choice, n: nat)
      returns (more: seq<Event>, next: World)
    requires Reaches(kv, events, w)
    ensures Reaches(kv, more, next) && IsPass(kv, w, ref, choice, n, next)
  {
    var one, v := Then(kv, events, w, Begin(ref));
    more, next := CallsReach(kv, one, v, ref, choice, n);
  }

  predicate Ended(phase: Phase)
  {
    phase == Succeeded || phase == Rejected || phase == Interrupted
  }

  // An idle lease that is not being deleted.
  predicate Starts(w: World, ref: Ref, choice: Choice)
  {
    At(w, ref) == Idle && ref in w.claims && w.claims[ref].finalizer && !w.claims[ref].deleting && !choice.fails
  }

  // Only this lease changes, to this.
  ghost predicate Becomes(w: World, next: World, ref: Ref, c: Claim)
  {
    At(next, ref) == Idle && next.claims == w.claims[ref := c]
  }

  // ---- the short passes ----

  // A new lease gets its finalizer and is pending.
  lemma PassStarts(kv: Estimates, w: World, ref: Ref, choice: Choice, n: nat, next: World)
    requires IsPass(kv, w, ref, choice, n, next) && n >= 4
    requires At(w, ref) == Idle && ref in w.claims && !w.claims[ref].deleting && !choice.fails
    requires w.claims[ref].phase == Phase.Unset && !w.claims[ref].releaseAsked
    ensures Becomes(w, next, ref, w.claims[ref].(finalizer := true, phase := Pending)) && next.pools == w.pools
  {
    var c := w.claims[ref].(finalizer := true);
    var v := PassBegins(kv, w, ref, choice, n, next);
    var m := n;
    if !w.claims[ref].finalizer {
      assert At(v, ref) == PutFinalizer(w.claims[ref]);
      v := Call(kv, v, ref, choice, m, next);
      m := m - 1;
    }
    assert At(v, ref) == Proceed(c) && v.claims == w.claims[ref := c];
    v := Call(kv, v, ref, choice, m, next);
    assert At(v, ref) == PutPending(c);
    v := Call(kv, v, ref, choice, m - 1, next);
    Rests(kv, v, ref, choice, m - 2, next);
  }

  // A pending lease is rejected when the policy says so.
  lemma PassRejects(kv: Estimates, w: World, ref: Ref, choice: Choice, n: nat, next: World)
    requires IsPass(kv, w, ref, choice, n, next) && n >= 3 && Starts(w, ref, choice)
    requires w.claims[ref].phase == Pending && !w.claims[ref].releaseAsked && choice.verdict == RejectIt
    ensures Becomes(w, next, ref, w.claims[ref].(phase := Rejected)) && next.pools == w.pools
  {
    var v := PassBegins(kv, w, ref, choice, n, next);
    v := Call(kv, v, ref, choice, n, next);
    assert At(v, ref) == PutRejected(w.claims[ref]);
    v := Call(kv, v, ref, choice, n - 1, next);
    Rests(kv, v, ref, choice, n - 2, next);
  }

  // A lease that runs or has ended, and one that has to wait, stays as it is.
  lemma PassDoesNothing(kv: Estimates, w: World, ref: Ref, choice: Choice, n: nat, next: World)
    requires IsPass(kv, w, ref, choice, n, next) && n >= 2 && Starts(w, ref, choice)
    requires var c := w.claims[ref];
      || Ended(c.phase)
      || (!c.releaseAsked && (c.phase == Running || (c.phase == Pending && choice.verdict == Later)))
    ensures Becomes(w, next, ref, w.claims[ref]) && next.pools == w.pools
  {
    var v := PassBegins(kv, w, ref, choice, n, next);
    v := Call(kv, v, ref, choice, n, next);
    Rests(kv, v, ref, choice, n - 1, next);
  }

  // ---- giving the reservation back ----

  // The second account is the first without this lease.
  ghost predicate TakenOff(kv: Estimates, p: Pool, q: Pool, ref: Ref)
  {
    && q.maximum == p.maximum && q.headroom == p.headroom
    && (exists left, right :: q.active == left + right && p.active == left + ([ref] + right))
    && q.count == p.count - 1 && q.reserved == p.reserved - kv(ref)
  }

  // The lease is taken off the endpoint it names, if it is listed there, and nothing else happens to
  // the endpoints.
  ghost predicate GivesBack(kv: Estimates, before: map<Ref, Pool>, after: map<Ref, Pool>, ref: Ref,
                            endpoint: Option<Ref>)
  {
    if endpoint.Some? && endpoint.value in before && ref in before[endpoint.value].active then
      var e := endpoint.value;
      e in after && TakenOff(kv, before[e], after[e], ref) && after == before[e := after[e]]
    else after == before
  }

  lemma Around(refs: seq<Ref>, r: Ref) returns (left: seq<Ref>, right: seq<Ref>)
    requires r in refs
    ensures refs == left + ([r] + right) && Without(refs, r) == left + right
  {
    var i := IndexOf(refs, r);
    left, right := refs[..i], refs[i + 1..];
  }

  lemma RemovedIsTakenOff(kv: Estimates, p: Pool, ref: Ref)
    requires Accounted(kv, p) && ref in p.active
    ensures TakenOff(kv, p, Removed(kv, p, ref), ref)
  {
    var left, right := Around(p.active, ref);
    assert Removed(kv, p, ref).active == left + right;
    WithoutSum(kv, p.active, ref);
  }

  // What the removal of a lease's reservation does to the endpoints.
  function PoolsAfterRemoval(kv: Estimates, pools: map<Ref, Pool>, target: Ref, endpoint: Option<Ref>): map<Ref, Pool>
  {
    if endpoint.Some? && endpoint.value in pools && target in pools[endpoint.value].active
    then pools[endpoint.value := Removed(kv, pools[endpoint.value], target)] else pools
  }

  lemma RemovalGivesBack(kv: Estimates, pools: map<Ref, Pool>, ref: Ref, endpoint: Option<Ref>)
    requires forall e | e in pools :: Accounted(kv, pools[e])
    ensures GivesBack(kv, pools, PoolsAfterRemoval(kv, pools, ref, endpoint), ref, endpoint)
  {
    if endpoint.Some? && endpoint.value in pools && ref in pools[endpoint.value].active {
      RemovedIsTakenOff(kv, pools[endpoint.value], ref);
    }
  }

  // The read of the endpoint.
  lemma RemoveGetCall(kv: Estimates, w: World, ref: Ref, choice: Choice, target: Ref, copy: Claim, after: After)
    requires At(w, ref) == RemoveGet(target, copy, after, 0) && copy.endpoint.Some? && !choice.fails
    ensures var v := ContinueStep(kv, w, ref, choice);
      && v.claims == w.claims && v.pools == w.pools
      && At(v, ref) == (if copy.endpoint.value in w.pools && target in w.pools[copy.endpoint.value].active
                        then RemovePut(target, copy, after, w.pools[copy.endpoint.value], 0)
                        else AfterRemoving(target, copy, after))
  {}

  // Its update.
  lemma RemovePutCall(kv: Estimates, w: World, ref: Ref, choice: Choice, target: Ref, copy: Claim, after: After, e: Ref)
    requires e in w.pools && copy.endpoint == Some(e) && !choice.fails
    requires At(w, ref) == RemovePut(target, copy, after, w.pools[e], 0)
    ensures var v := ContinueStep(kv, w, ref, choice);
      && v.claims == w.claims && v.pools == w.pools[e := Removed(kv, w.pools[e], target)]
      && At(v, ref) == AfterRemoving(target, copy, after)
  {}

  // The removal of a reservation takes at most two calls.
  lemma CallsRemove(kv: Estimates, w: World, ref: Ref, choice: Choice, target: Ref, copy: Claim, after: After, n: nat,
                    end: World)
      returns (v: World, m: nat)
    requires !choice.fails && n >= 2 && EndsIn(kv, w, ref, choice, n, end)
    requires At(w, ref) == StartRemoving(target, copy, after)
    ensures m >= n - 2 && EndsIn(kv, v, ref, choice, m, end)
    ensures At(v, ref) == AfterRemoving(target, copy, after)
    ensures v.claims == w.claims && v.pools == PoolsAfterRemoval(kv, w.pools, target, copy.endpoint)
  {
    v, m := w, n;
    if copy.endpoint.Some? {
      var e := copy.endpoint.value;
      RemoveGetCall(kv, w, ref, choice, target, copy, after);
      v := Call(kv, w, ref, choice, n, end);
      m := n - 1;
      if e in w.pools && target in w.pools[e].active {
        RemovePutCall(kv, v, ref, choice, target, copy, after, e);
        v := Call(kv, v, ref, choice, m, end);
        m := m - 1;
      }
    }
  }

  // A lease whose release was asked for ends as succeeded, without its reservation.
  lemma PassReleases(kv: Estimates, w: World, ref: Ref, choice: Choice, n: nat, next: World)
    requires IsPass(kv, w, ref, choice, n, next) && n >= 5 && Inv(kv, w) && Starts(w, ref, choice)
    requires w.claims[ref].releaseAsked && !Ended(w.claims[ref].phase)
    ensures Becomes(w, next, ref, w.claims[ref].(phase := Succeeded))
    ensures GivesBack(kv, w.pools, next.pools, ref, w.claims[ref].endpoint)
  {
    var v := PassBegins(kv, w, ref, choice, n, next);
    v := Call(kv, v, ref, choice, n, next);
    var u, m := CallsRemove(kv, v, ref, choice, ref, w.claims[ref], Release, n - 1, next);
    RemovalGivesBack(kv, w.pools, ref, w.claims[ref].endpoint);
    assert At(u, ref) == PutEnded(ref, w.claims[ref], Release);
    u := Call(kv, u, ref, choice, m, next);
    Rests(kv, u, ref, choice, m - 1, next);
  }

  // A deleted lease goes away, and its reservation with it.
  lemma PassFinalizes(kv: Estimates, w: World, ref: Ref, choice: Choice, n: nat, next: World)
    requires IsPass(kv, w, ref, choice, n, next) && n >= 4 && Inv(kv, w) && !choice.fails
    requires At(w, ref) == Idle && ref in w.claims && w.claims[ref].finalizer && w.claims[ref].deleting
    ensures At(next, ref) == Idle && next.claims == w.claims - {ref}
    ensures GivesBack(kv, w.pools, next.pools, ref, w.claims[ref].endpoint)
  {
    var v := PassBegins(kv, w, ref, choice, n, next);
    var u, m := CallsRemove(kv, v, ref, choice, ref, w.claims[ref], Drop, n, next);
    RemovalGivesBack(kv, w.pools, ref, w.claims[ref].endpoint);
    assert At(u, ref) == DropFinalizer(w.claims[ref]);
    u := Call(kv, u, ref, choice, m, next);
    Rests(kv, u, ref, choice, m - 1, next);
  }

  // ---- binding ----

  // The listed leases that are there, not going away, not over, and not bound elsewhere.
  function StillHeld(claims: map<Ref, Claim>, refs: seq<Ref>, e: Ref): seq<Ref>
  {
    if refs == [] then []
    else
      StillHeld(claims, refs[..|refs| - 1], e) +
      if Holds(claims, refs[|refs| - 1], e) then [refs[|refs| - 1]] else []
  }

  predicate Holds(claims: map<Ref, Claim>, r: Ref, e: Ref)
  {
    && r in claims && !claims[r].deleting && !Ended(claims[r].phase)
    && (claims[r].endpoint == None || claims[r].endpoint == Some(e))
  }

  // There is room next to the leases that still hold, with the headroom kept free.
  predicate HasPlace(kv: Estimates, p: Pool, ref: Ref, held: seq<Ref>)
  {
    ref in held || Sum(kv, held) + kv(ref) + p.headroom <= p.maximum
  }

  // The leases that still hold and this one, once.
  function Together(held: seq<Ref>, ref: Ref): seq<Ref>
  {
    if ref in held then held else held + [ref]
  }

  function WithActive(kv: Estimates, p: Pool, active: seq<Ref>): Pool
  {
    p.(active := active, count := |active|, reserved := Sum(kv, active))
  }

  lemma LookupCall(kv: Estimates, w: World, ref: Ref, choice: Choice, c: Claim, e: Ref, read: Pool, i: nat)
    requires NoDuplicates(read.active) && !choice.fails && i < |read.active|
    requires var held := StillHeld(w.claims, read.active[..i], e);
      At(w, ref) == Lookup(c, e, read, i, held, Sum(kv, held), 0)
    ensures var v := ContinueStep(kv, w, ref, choice); var held := StillHeld(w.claims, read.active[..i + 1], e);
      v.claims == w.claims && v.pools == w.pools && At(v, ref) == Lookup(c, e, read, i + 1, held, Sum(kv, held), 0)
  {
    var entry := read.active[i];
    assert read.active[..i + 1][..i] == read.active[..i] && read.active[..i + 1][i] == entry;
    assert entry !in read.active[..i];
    SumAppend(kv, StillHeld(w.claims, read.active[..i], e), entry);
    assert Kept(w, entry, e) <==> Holds(w.claims, entry, e);
    var held := StillHeld(w.claims, read.active[..i], e);
    assert StillHeld(w.claims, read.active[..i + 1], e) == if Holds(w.claims, entry, e) then held + [entry] else held;
    assert held + [] == held;
  }

  // The lookups of an endpoint's list, one call each.
  lemma {:induction false} CallsPrune(kv: Estimates, w: World, ref: Ref, choice: Choice, c: Claim, e: Ref, read: Pool,
                                      i: nat, n: nat, end: World)
      returns (v: World, m: nat)
    requires Accounted(kv, read) && !choice.fails && i <= |read.active|
    requires n >= |read.active| - i && EndsIn(kv, w, ref, choice, n, end)
    requires var held := StillHeld(w.claims, read.active[..i], e);
      At(w, ref) == Lookup(c, e, read, i, held, Sum(kv, held), 0)
    ensures m == n - (|read.active| - i) && EndsIn(kv, v, ref, choice, m, end)
    ensures v.claims == w.claims && v.pools == w.pools
    ensures var held := StillHeld(w.claims, read.active, e);
      At(v, ref) == Lookup(c, e, read, |read.active|, held, Sum(kv, held), 0)
    decreases |read.active| - i
  {
    if i == |read.active| {
      assert read.active[..i] == read.active;
      v, m := w, n;
    } else {
      LookupCall(kv, w, ref, choice, c, e, read, i);
      v := Call(kv, w, ref, choice, n, end);
      v, m := CallsPrune(kv, v, ref, choice, c, e, read, i + 1, n - 1, end);
    }
  }

  // The last lookup decides.
  lemma DecideCall(kv: Estimates, w: World, ref: Ref, choice: Choice, c: Claim, e: Ref, read: Pool, held: seq<Ref>)
    requires At(w, ref) == Lookup(c, e, read, |read.active|, held, Sum(kv, held), 0) && !choice.fails
    ensures var v := ContinueStep(kv, w, ref, choice);
      && v.claims == w.claims && v.pools == w.pools
      && At(v, ref) == (if !HasPlace(kv, read, ref, held) then Idle
                        else if WithActive(kv, read, Together(held, ref)) == read then PutRunning(c, e)
                        else BindPut(c, e, read, WithActive(kv, read, Together(held, ref)), 0))
  {
    SumAppend(kv, held, ref);
  }

  lemma BindPutCall(kv: Estimates, w: World, ref: Ref, choice: Choice, c: Claim, e: Ref, updated: Pool)
    requires e in w.pools && At(w, ref) == BindPut(c, e, w.pools[e], updated, 0) && !choice.fails
    ensures var v := ContinueStep(kv, w, ref, choice);
      v.claims == w.claims && v.pools == w.pools[e := updated] && At(v, ref) == PutRunning(c, e)
  {}

  lemma CallsReport(kv: Estimates, w: World, ref: Ref, choice: Choice, e: Ref, n: nat, end: World)
    requires ref in w.claims && At(w, ref) == PutRunning(w.claims[ref], e) && !choice.fails
    requires n >= 1 && EndsIn(kv, w, ref, choice, n, end)
    ensures At(end, ref) == Idle && end.pools == w.pools
    ensures end.claims == w.claims[ref := w.claims[ref].(phase := Running, endpoint := Some(e))]
  {
    var v := Call(kv, w, ref, choice, n, end);
    Rests(kv, v, ref, choice, n - 1, end);
  }

  // From the decision on.
  lemma CallsWrite(kv: Estimates, w: World, ref: Ref, choice: Choice, e: Ref, held: seq<Ref>, n: nat, end: World)
    requires ref in w.claims && e in w.pools && !choice.fails && n >= 3 && EndsIn(kv, w, ref, choice, n, end)
    requires At(w, ref) == Lookup(w.claims[ref], e, w.pools[e], |w.pools[e].active|, held, Sum(kv, held), 0)
    ensures At(end, ref) == Idle
    ensures if HasPlace(kv, w.pools[e], ref, held) then
        && end.claims == w.claims[ref := w.claims[ref].(phase := Running, endpoint := Some(e))]
        && end.pools == w.pools[e := WithActive(kv, w.pools[e], Together(held, ref))]
      else end.claims == w.claims && end.pools == w.pools
  {
    var c, p := w.claims[ref], w.pools[e];
    DecideCall(kv, w, ref, choice, c, e, p, held);
    var u := Call(kv, w, ref, choice, n, end);
    if !HasPlace(kv, p, ref, held) {
      Rests(kv, u, ref, choice, n - 1, end);
    } else if WithActive(kv, p, Together(held, ref)) == p {
      CallsReport(kv, u, ref, choice, e, n - 1, end);
    } else {
      BindPutCall(kv, u, ref, choice, c, e, WithActive(kv, p, Together(held, ref)));
      u := Call(kv, u, ref, choice, n - 1, end);
      CallsReport(kv, u, ref, choice, e, n - 2, end);
    }
  }

  // From the read of the endpoint on: the lease is bound if it has a place, and otherwise nothing
  // is written.
  lemma CallsBind(kv: Estimates, w: World, ref: Ref, choice: Choice, e: Ref, n: nat, end: World)
    requires ref in w.claims && e in w.pools && Accounted(kv, w.pools[e]) && !choice.fails
    requires At(w, ref) == BindGet(w.claims[ref], e, 0) && n >= |w.pools[e].active| + 4
    requires EndsIn(kv, w, ref, choice, n, end)
    ensures At(end, ref) == Idle
    ensures var p := w.pools[e]; var held := StillHeld(w.claims, p.active, e);
      if HasPlace(kv, p, ref, held) then
        && end.claims == w.claims[ref := w.claims[ref].(phase := Running, endpoint := Some(e))]
        && end.pools == w.pools[e := WithActive(kv, p, Together(held, ref))]
      else end.claims == w.claims && end.pools == w.pools
  {
    var c, p := w.claims[ref], w.pools[e];
    var v := Call(kv, w, ref, choice, n, end);
    assert p.active[..0] == [];
    var u, m := CallsPrune(kv, v, ref, choice, c, e, p, 0, n - 1, end);
    CallsWrite(kv, u, ref, choice, e, StillHeld(w.claims, p.active, e), m, end);
  }

  // A pending lease the scheduler has a place for runs there, unless the endpoint is full by then.
  lemma PassBinds(kv: Estimates, w: World, ref: Ref, choice: Choice, e: Ref, n: nat, next: World)
    requires IsPass(kv, w, ref, choice, n, next) && Inv(kv, w) && Starts(w, ref, choice)
    requires w.claims[ref].phase == Pending && !w.claims[ref].releaseAsked && choice.verdict == BindTo(e)
    requires e in w.pools && n >= |w.pools[e].active| + 5
    ensures var p := w.pools[e]; var held := StillHeld(w.claims, p.active, e);
      if HasPlace(kv, p, ref, held) then
        && Becomes(w, next, ref, w.claims[ref].(phase := Running, endpoint := Some(e)))
        && next.pools == w.pools[e := WithActive(kv, p, Together(held, ref))]
      else Becomes(w, next, ref, w.claims[ref]) && next.pools == w.pools
  {
    var v := PassBegins(kv, w, ref, choice, n, next);
    v := Call(kv, v, ref, choice, n, next);
    CallsBind(kv, v, ref, choice, e, n - 1, next);
  }

  // ---- eviction ----

  function Interrupt(claims: map<Ref, Claim>, victims: seq<Ref>): map<Ref, Claim>
  {
    map r | r in claims :: if r in victims then claims[r].(phase := Interrupted) else claims[r]
  }

  // The endpoint has lost these victims, those without an object excepted.
  ghost predicate Freed(kv: Estimates, present: set<Ref>, victims: seq<Ref>, p: Pool, q: Pool)
  {
    && Accounted(kv, q) && q.maximum == p.maximum && q.headroom == p.headroom
    && (forall r :: r in q.active <==> r in p.active && !(r in victims && r in present))
    && |q.active| <= |p.active|
  }

  // A lease that does not hold may as well be off the list.
  lemma HeldWithout(claims: map<Ref, Claim>, refs: seq<Ref>, r: Ref, e: Ref)
    requires r in refs && !Holds(claims, r, e)
    ensures StillHeld(claims, Without(refs, r), e) == StillHeld(claims, refs, e)
  {
    var left, right := Around(refs, r);
    HeldConcat(claims, left, [r] + right, e);
    HeldConcat(claims, [r], right, e);
    HeldConcat(claims, left, right, e);
    NotHeld(claims, r, e);
  }

  lemma NotHeld(claims: map<Ref, Claim>, r: Ref, e: Ref)
    requires !Holds(claims, r, e)
    ensures StillHeld(claims, [r], e) == []
  {
    assert [r][..0] == [];
    assert StillHeld(claims, [], e) == [];
  }

  lemma {:induction false} HeldConcat(claims: map<Ref, Claim>, a: seq<Ref>, b: seq<Ref>, e: Ref)
    ensures StillHeld(claims, a + b, e) == StillHeld(claims, a, e) + StillHeld(claims, b, e)
    decreases |b|
  {
    if b == [] {
      assert a + b == a;
    } else {
      assert (a + b)[..|a + b| - 1] == a + b[..|b| - 1];
      HeldConcat(claims, a, b[..|b| - 1], e);
    }
  }

  // What the endpoint's account becomes when its victims with an object are taken off in turn.
  function WithoutAll(kv: Estimates, present: set<Ref>, p: Pool, victims: seq<Ref>): Pool
    decreases |victims|
  {
    if victims == [] then p else WithoutAll(kv, present, WithoutOne(kv, present, p, victims[0]), victims[1..])
  }

  function WithoutOne(kv: Estimates, present: set<Ref>, p: Pool, r: Ref): Pool
  {
    if r in present && r in p.active then Removed(kv, p, r) else p
  }

  lemma {:induction false} WithoutAllFreed(kv: Estimates, present: set<Ref>, p: Pool, victims: seq<Ref>)
    requires Accounted(kv, p)
    ensures Freed(kv, present, victims, p, WithoutAll(kv, present, p, victims))
    decreases |victims|
  {
    if victims != [] {
      if victims[0] in present && victims[0] in p.active {
        RemovedAccount(kv, p, victims[0]);
      }
      WithoutAllFreed(kv, present, WithoutOne(kv, present, p, victims[0]), victims[1..]);
      assert forall x :: x in victims <==> x == victims[0] || x in victims[1..];
    }
  }

  lemma {:induction false} WithoutAllHeld(kv: Estimates, present: set<Ref>, p: Pool, victims: seq<Ref>,
                                          claims: map<Ref, Claim>, e: Ref)
    requires forall r | r in victims :: !Holds(claims, r, e)
    ensures StillHeld(claims, WithoutAll(kv, present, p, victims).active, e) == StillHeld(claims, p.active, e)
    decreases |victims|
  {
    if victims != [] {
      if victims[0] in present && victims[0] in p.active {
        HeldWithout(claims, p.active, victims[0], e);
      }
      WithoutAllHeld(kv, present, WithoutOne(kv, present, p, victims[0]), victims[1..], claims, e);
    }
  }

  // One victim: its reservation goes, then it is interrupted.
  lemma CallsInterrupt(kv: Estimates, w: World, ref: Ref, choice: Choice, c: Claim, victims: seq<Ref>, e: Ref, n: nat,
                       end: World)
      returns (v: World, m: nat)
    requires At(w, ref) == NextVictim(c, victims, e) && victims != [] && e in w.pools
    requires victims[0] in w.claims ==> w.claims[victims[0]].endpoint == Some(e)
    requires !choice.fails && n >= 4 && EndsIn(kv, w, ref, choice, n, end)
    ensures m >= n - 4 && EndsIn(kv, v, ref, choice, m, end) && At(v, ref) == NextVictim(c, victims[1..], e)
    ensures v.claims == Interrupt(w.claims, [victims[0]])
    ensures v.pools == w.pools[e := WithoutOne(kv, w.claims.Keys, w.pools[e], victims[0])]
  {
    var r := victims[0];
    VictimCall(kv, w, ref, choice, c, victims, e);
    v := Call(kv, w, ref, choice, n, end);
    m := n - 1;
    if r in w.claims {
      var copy, after := w.claims[r], Evicting(c, victims[1..], e);
      v, m := CallsRemove(kv, v, ref, choice, r, copy, after, m, end);
      EndVictimCall(kv, v, ref, choice, r, copy, c, victims[1..], e);
      v := Call(kv, v, ref, choice, m, end);
      m := m - 1;
    } else {
      assert Interrupt(w.claims, [r]) == w.claims;
    }
  }

  lemma VictimCall(kv: Estimates, w: World, ref: Ref, choice: Choice, c: Claim, victims: seq<Ref>, e: Ref)
    requires At(w, ref) == NextVictim(c, victims, e) && !choice.fails
    ensures var v := ContinueStep(kv, w, ref, choice);
      && v.claims == w.claims && v.pools == w.pools
      && At(v, ref) == (if victims == [] then BindGet(c, e, 0)
                        else if victims[0] !in w.claims then NextVictim(c, victims[1..], e)
                        else StartRemoving(victims[0], w.claims[victims[0]], Evicting(c, victims[1..], e)))
  {}

  lemma EndVictimCall(kv: Estimates, w: World, ref: Ref, choice: Choice, target: Ref, copy: Claim, c: Claim,
                      rest: seq<Ref>, e: Ref)
    requires At(w, ref) == PutEnded(target, copy, Evicting(c, rest, e)) && !choice.fails
    requires target in w.claims && w.claims[target] == copy
    ensures var v := ContinueStep(kv, w, ref, choice);
      && v.claims == Interrupt(w.claims, [target]) && v.pools == w.pools && At(v, ref) == NextVictim(c, rest, e)
  {
    var v := ContinueStep(kv, w, ref, choice);
    assert v.claims == w.claims[target := copy.(phase := Interrupted)];
  }

  lemma FirstThenRest(claims: map<Ref, Claim>, victims: seq<Ref>)
    requires victims != []
    ensures Interrupt(Interrupt(claims, [victims[0]]), victims[1..]) == Interrupt(claims, victims)
  {}

  lemma {:induction false} CallsInterruptAll(kv: Estimates, w: World, ref: Ref, choice: Choice, c: Claim,
                                             victims: seq<Ref>, e: Ref, n: nat, end: World)
      returns (v: World, m: nat)
    requires At(w, ref) == NextVictim(c, victims, e) && e in w.pools
    requires forall r | r in victims && r in w.claims :: w.claims[r].endpoint == Some(e)
    requires !choice.fails && n >= 4 * |victims| && EndsIn(kv, w, ref, choice, n, end)
    ensures m >= n - 4 * |victims| && EndsIn(kv, v, ref, choice, m, end) && At(v, ref) == NextVictim(c, [], e)
    ensures v.claims == Interrupt(w.claims, victims)
    ensures v.pools == w.pools[e := WithoutAll(kv, w.claims.Keys, w.pools[e], victims)]
    decreases |victims|
  {
    if victims == [] {
      v, m := w, n;
      assert Interrupt(w.claims, victims) == w.claims && w.pools[e := w.pools[e]] == w.pools;
    } else {
      var u, k := CallsInterrupt(kv, w, ref, choice, c, victims, e, n, end);
      assert u.claims.Keys == w.claims.Keys;
      v, m := CallsInterruptAll(kv, u, ref, choice, c, victims[1..], e, k, end);
      var q := WithoutOne(kv, w.claims.Keys, w.pools[e], victims[0]);
      assert w.pools[e := q][e := WithoutAll(kv, w.claims.Keys, q, victims[1..])]
        == w.pools[e := WithoutAll(kv, w.claims.Keys, w.pools[e], victims)];
      FirstThenRest(w.claims, victims);
    }
  }

  // An evicting pass interrupts its victims, takes them off the endpoint, and binds the lease there
  // if it has a place next to what is left.
  lemma PassEvicts(kv: Estimates, w: World, ref: Ref, choice: Choice, e: Ref, victims: seq<Ref>, n: nat, next: World)
    requires IsPass(kv, w, ref, choice, n, next) && Inv(kv, w) && Starts(w, ref, choice)
    requires w.claims[ref].phase == Pending && !w.claims[ref].releaseAsked && choice.verdict == EvictFor(e, victims)
    requires e in w.pools && n >= |w.pools[e].active| + 4 * |victims| + 6
    requires ref !in victims && forall r | r in victims && r in w.claims :: w.claims[r].endpoint == Some(e)
    ensures At(next, ref) == Idle && e in next.pools && next.pools == w.pools[e := next.pools[e]]
    ensures var p := w.pools[e]; var ended := Interrupt(w.claims, victims); var held := StillHeld(ended, p.active, e);
      if HasPlace(kv, p, ref, held) then
        && next.claims == ended[ref := w.claims[ref].(phase := Running, endpoint := Some(e))]
        && next.pools[e] == WithActive(kv, p, Together(held, ref))
      else next.claims == ended && Freed(kv, w.claims.Keys, victims, p, next.pools[e])
  {
    var p := w.pools[e];
    var v := PassBegins(kv, w, ref, choice, n, next);
    v := Call(kv, v, ref, choice, n, next);
    EvictsThenBinds(kv, w, v, ref, choice, e, victims, n - 1, next);
  }

  lemma EvictsThenBinds(kv: Estimates, w: World, v: World, ref: Ref, choice: Choice, e: Ref, victims: seq<Ref>, n: nat,
                        next: World)
    requires ref in w.claims && e in w.pools && Accounted(kv, w.pools[e]) && !choice.fails
    requires v.claims == w.claims && v.pools == w.pools && At(v, ref) == NextVictim(w.claims[ref], victims, e)
    requires n >= |w.pools[e].active| + 4 * |victims| + 5 && EndsIn(kv, v, ref, choice, n, next)
    requires ref !in victims && forall r | r in victims && r in w.claims :: w.claims[r].endpoint == Some(e)
    ensures At(next, ref) == Idle && e in next.pools && next.pools == w.pools[e := next.pools[e]]
    ensures var p := w.pools[e]; var ended := Interrupt(w.claims, victims); var held := StillHeld(ended, p.active, e);
      if HasPlace(kv, p, ref, held) then
        && next.claims == ended[ref := w.claims[ref].(phase := Running, endpoint := Some(e))]
        && next.pools[e] == WithActive(kv, p, Together(held, ref))
      else next.claims == ended && Freed(kv, w.claims.Keys, victims, p, next.pools[e])
  {
    var p := w.pools[e];
    var u, m := CallsInterruptAll(kv, v, ref, choice, w.claims[ref], victims, e, n, next);
    WithoutAllFreed(kv, w.claims.Keys, p, victims);
    WithoutAllHeld(kv, w.claims.Keys, p, victims, u.claims, e);
    VictimCall(kv, u, ref, choice, w.claims[ref], [], e);
    u := Call(kv, u, ref, choice, m, next);
    CallsBind(kv, u, ref, choice, e, m - 1, next);
  }

  // ---- a lease runs and ends ----

  const CALM: Choice := Choice(false, Later)

  // From the empty cluster: an endpoint and a lease that fills it; the lease runs there.
  lemma RunsAlone(kv: Estimates, ref: Ref, e: Ref) returns (events: seq<Event>, w: World)
    ensures Reaches(kv, events, w) && At(w, ref) == Idle
    ensures w.claims == map[ref := Claim(Running, true, false, false, Some(e))]
    ensures w.pools == map[e := Pool(kv(ref), 0, [ref], 1, kv(ref))]
  {
    var start := World(map[], map[], map[]);
    assert Run(kv, []) == start;
    events, w := Then(kv, [], start, CreatePool(e, kv(ref), 0));
    events, w := Then(kv, events, w, CreateClaim(ref));
    var v := w;
    events, w := PassReaches(kv, events, v, ref, CALM, 4);
    PassStarts(kv, v, ref, CALM, 4, w);
    ReachesInv(kv, events, w);
    v := w;
    events, w := PassReaches(kv, events, v, ref, Choice(false, BindTo(e)), 5);
    var p := Pool(kv(ref), 0, [], 0, 0);
    assert v.pools == map[e := p] && StillHeld(v.claims, p.active, e) == [];
    AloneInPool(kv, p, ref);
    PassBinds(kv, v, ref, Choice(false, BindTo(e)), e, 5, w);
  }

  lemma AloneInPool(kv: Estimates, p: Pool, ref: Ref)
    requires p == Pool(kv(ref), 0, [], 0, 0)
    ensures HasPlace(kv, p, ref, []) && WithActive(kv, p, Together([], ref)) == Pool(kv(ref), 0, [ref], 1, kv(ref))
  {
    SumAppend(kv, [], ref);
    assert [] + [ref] == [ref];
  }

  // When its release was asked for it ends as succeeded, and the endpoint is empty again.
  lemma RunsThenEnds(kv: Estimates, ref: Ref, e: Ref)
    ensures exists events :: var w := Run(kv, events);
      && w.claims == map[ref := Claim(Succeeded, true, false, true, Some(e))]
      && e in w.pools && w.pools[e].active == [] && w.pools[e].count == 0 && w.pools[e].reserved == 0
  {
    var events, w := AsksForRelease(kv, ref, e);
    var more, next := PassReaches(kv, events, w, ref, CALM, 5);
    ReleasesAlone(kv, w, ref, e, next);
    assert Run(kv, more) == next;
  }

  lemma AsksForRelease(kv: Estimates, ref: Ref, e: Ref) returns (events: seq<Event>, w: World)
    ensures Reaches(kv, events, w) && Inv(kv, w) && At(w, ref) == Idle
    ensures w.claims == map[ref := Claim(Running, true, false, true, Some(e))]
    ensures w.pools == map[e := Pool(kv(ref), 0, [ref], 1, kv(ref))]
  {
    events, w := RunsAlone(kv, ref, e);
    events, w := Then(kv, events, w, AskRelease(ref));
    ReachesInv(kv, events, w);
  }

  lemma ReleasesAlone(kv: Estimates, w: World, ref: Ref, e: Ref, next: World)
    requires IsPass(kv, w, ref, CALM, 5, next) && Inv(kv, w) && At(w, ref) == Idle
    requires w.claims == map[ref := Claim(Running, true, false, true, Some(e))]
    requires w.pools == map[e := Pool(kv(ref), 0, [ref], 1, kv(ref))]
    ensures next.claims == map[ref := Claim(Succeeded, true, false, true, Some(e))]
    ensures e in next.pools && next.pools[e].active == [] && next.pools[e].count == 0 && next.pools[e].reserved == 0
  {
    PassReleases(kv, w, ref, CALM, 5, next);
    EndsAlone(kv, w.pools, next.pools, ref, e);
  }

  lemma EndsAlone(kv: Estimates, before: map<Ref, Pool>, after: map<Ref, Pool>, ref: Ref, e: Ref)
    requires before == map[e := Pool(kv(ref), 0, [ref], 1, kv(ref))] && GivesBack(kv, before, after, ref, Some(e))
    ensures e in after && after[e].active == [] && after[e].count == 0 && after[e].reserved == 0
  {
    TakenOffAlone(kv, before[e], after[e], ref);
  }

  lemma TakenOffAlone(kv: Estimates, p: Pool, q: Pool, ref: Ref)
    requires p.active == [ref] && p.count == 1 && p.reserved == kv(ref) && TakenOff(kv, p, q, ref)
    ensures q.active == [] && q.count == 0 && q.reserved == 0
  {
    var left, right :| q.active == left + right && p.active == left + ([ref] + right);
    assert |q.active| + 1 == |p.active|;
  }

  lemma ReachesInv(kv: Estimates, events: seq<Event>, w: World)
    requires Reaches(kv, events, w)
    ensures Inv(kv, w)
  {
    RunKeepsInv(kv, events);
  }
}
