/**
  Running leases that their endpoint does not list: exactly which runs lead there.  A run is looked at
  through its trace, the states it goes through.
*/
module KvListings {
  import opened Wrappers
  import opened Admission
  import opened KvAccounting
  import opened KvSafety
  import opened KvFindings

  predicate Listed(w: World, ref: Ref, e: Ref)
  {
    e in w.pools && ref in w.pools[e].active
  }

  predicate Unlisted(w: World, ref: Ref)
  {
    && ref in w.claims && w.claims[ref].phase == Running && w.claims[ref].endpoint.Some?
    && !Listed(w, ref, w.claims[ref].endpoint.value)
  }

  // The endpoint that a running lease counts on.
  predicate RunsAt(w: World, ref: Ref, e: Ref)
  {
    ref in w.claims && w.claims[ref].phase == Running && w.claims[ref].endpoint == Some(e)
  }

  predicate Stored(w: World, e: Ref, read: Pool)
  {
    e in w.pools && w.pools[e] == read
  }

  // The steps that take a lease off the list of an endpoint.
  predicate CallTakesOff(w: World, at: Ref, choice: Choice, ref: Ref, e: Ref)
  {
    !choice.fails &&
    match At(w, at)
    case RemovePut(target, copy, _, read, _) => target == ref && copy.endpoint == Some(e) && Stored(w, e, read)
    case BindPut(_, bound, read, updated, _) => bound == e && Stored(w, e, read) && ref !in updated.active
    case _ => false
  }

  predicate TakesOff(w: World, event: Event, ref: Ref, e: Ref)
  {
    || (event.Continue? && CallTakesOff(w, event.ref, event.choice, ref, e))
    || (event.DeletePool? && event.ref == e)
  }

  // The states a run goes through.
  ghost predicate IsTrace(kv: Estimates, events: seq<Event>, ws: seq<World>)
  {
    |ws| == |events| + 1 && forall j | 0 <= j <= |events| :: Reaches(kv, events[..j], ws[j])
  }

  lemma TraceExists(kv: Estimates, events: seq<Event>) returns (ws: seq<World>)
    ensures IsTrace(kv, events, ws)
  {
    ws := seq(|events| + 1, j requires 0 <= j <= |events| => Run(kv, events[..j]));
  }

  // The lease is between reading the endpoint it binds to and reporting itself as running there.
  predicate Binding(k: Control, e: Ref)
  {
    match k
    case Lookup(_, bound, _, _, _, _, _) => bound == e
    case PutRunning(_, bound) => bound == e
    case _ => false
  }

  // From the k-th state on the lease has been binding to this endpoint, and it was listed then.
  ghost predicate BindingSince(ws: seq<World>, ref: Ref, e: Ref, k: int)
  {
    0 <= k < |ws| && Listed(ws[k], ref, e) && forall j | k <= j < |ws| :: Binding(At(ws[j], ref), e)
  }

  ghost predicate TakenOffIn(events: seq<Event>, ws: seq<World>, ref: Ref, e: Ref, k: int, n: int)
    requires |ws| == |events| + 1 && 0 <= k <= n <= |events|
  {
    exists j | k <= j < n :: TakesOff(ws[j], events[j], ref, e)
  }

  // Since the read or the write that a report of a running lease rests on, some step has taken it
  // off the list again.
  ghost predicate TakenOffSince(kv: Estimates, events: seq<Event>, ref: Ref, e: Ref)
  {
    exists ws, k ::
      IsTrace(kv, events, ws) && BindingSince(ws, ref, e, k) && TakenOffIn(events, ws, ref, e, k, |events|)
  }

  // The calls that leave a running lease unlisted: one that takes it off the list, and a report of
  // one that was taken off since its binding.
  ghost predicate Unlists(kv: Estimates, events: seq<Event>, w: World, at: Ref, choice: Choice, ref: Ref)
  {
    !choice.fails &&
    match At(w, at)
    case RemovePut(_, copy, _, _, _) =>
      copy.endpoint.Some? && RunsAt(w, ref, copy.endpoint.value)
        && CallTakesOff(w, at, choice, ref, copy.endpoint.value)
    case BindPut(_, e, _, _, _) => RunsAt(w, ref, e) && CallTakesOff(w, at, choice, ref, e)
    case PutRunning(c, e) => at == ref && ref in w.claims && w.claims[ref] == c && TakenOffSince(kv, events, ref, e)
    case _ => false
  }

  // A running lease becomes unlisted by exactly those calls and by the deletion of its endpoint.
  lemma BecomesUnlistedIff(kv: Estimates, events: seq<Event>, event: Event, ref: Ref)
    requires !Unlisted(Run(kv, events), ref)
    ensures var w := Run(kv, events);
      Unlisted(Step(kv, w, event), ref) <==>
        || (event.Continue? && Unlists(kv, events, w, event.ref, event.choice, ref))
        || (event.DeletePool? && RunsAt(w, ref, event.ref))
  {
    var w := Run(kv, events);
    RunKeepsInv(kv, events);
    if event.Continue? {
      RunStaysUnfinished(kv, events, event.ref);
      UnlistedByContinue(kv, w, event.ref, event.choice, ref);
      HistoryOrNow(kv, events, w, event.ref, event.choice, ref);
    }
  }

  lemma HistoryOrNow(kv: Estimates, events: seq<Event>, w: World, at: Ref, choice: Choice, ref: Ref)
    requires Reaches(kv, events, w)
    ensures Unlists(kv, events, w, at, choice, ref) <==> UnlistsNow(w, at, choice, ref)
  {
    if At(w, at).PutRunning? && at == ref {
      TakenOffIff(kv, events, w, ref);
    }
  }

  // ---- what became of a listing ----

  // A lease that is binding is listed after a step if it was before and the step does not take it off.
  lemma ListingStep(kv: Estimates, w: World, event: Event, ref: Ref, e: Ref)
    requires Inv(kv, w) && Binding(At(w, ref), e)
    ensures Listed(Step(kv, w, event), ref, e) <==> Listed(w, ref, e) && !TakesOff(w, event, ref, e)
  {
    if event.Continue? {
      match At(w, event.ref)
      case RemovePut(_, _, _, _, _) => ListingRemoval(kv, w, event.ref, event.choice, ref, e);
      case BindPut(_, _, _, _, _) => assert ControlOk(kv, event.ref, w.control[event.ref]);
      case _ => PoolsStay(kv, w, event.ref, event.choice);
    }
  }

  lemma ListingRemoval(kv: Estimates, w: World, at: Ref, choice: Choice, ref: Ref, e: Ref)
    requires Inv(kv, w) && At(w, at).RemovePut?
    ensures Listed(ContinueStep(kv, w, at, choice), ref, e) <==>
      Listed(w, ref, e) && !CallTakesOff(w, at, choice, ref, e)
  {
    assert ControlOk(kv, at, w.control[at]);
    WithoutMembers(At(w, at).read.active, At(w, at).target);
  }

  lemma PoolsStay(kv: Estimates, w: World, at: Ref, choice: Choice)
    requires !At(w, at).RemovePut? && !At(w, at).BindPut?
    ensures ContinueStep(kv, w, at, choice).pools == w.pools
  {}

  lemma TraceStep(kv: Estimates, events: seq<Event>, ws: seq<World>, j: nat)
    requires IsTrace(kv, events, ws) && j < |events|
    ensures Inv(kv, ws[j]) && ws[j + 1] == Step(kv, ws[j], events[j])
  {
    var init := events[..j];
    assert Reaches(kv, init, ws[j]) && Reaches(kv, events[..j + 1], ws[j + 1]);
    var more, next := Then(kv, init, ws[j], events[j]);
    assert events[..j + 1] == init + [events[j]];
    assert Run(kv, init) == ws[j];
    RunKeepsInv(kv, init);
    StepOfRun(kv, init, events[j]);
    assert Run(kv, events[..j + 1]) == ws[j + 1];
  }

  lemma StepOfRun(kv: Estimates, init: seq<Event>, event: Event)
    ensures Run(kv, init + [event]) == Step(kv, Run(kv, init), event)
  {
    assert (init + [event])[..|init|] == init;
  }

  lemma ListingTraceStep(kv: Estimates, events: seq<Event>, ws: seq<World>, ref: Ref, e: Ref, j: nat)
    requires IsTrace(kv, events, ws) && j < |events| && Binding(At(ws[j], ref), e)
    ensures Listed(ws[j + 1], ref, e) <==> Listed(ws[j], ref, e) && !TakesOff(ws[j], events[j], ref, e)
  {
    TraceStep(kv, events, ws, j);
    ListingStep(kv, ws[j], events[j], ref, e);
  }

  lemma TakenOffOneMore(events: seq<Event>, ws: seq<World>, ref: Ref, e: Ref, k: nat, n: nat)
    requires |ws| == |events| + 1 && k <= n < |events|
    ensures TakenOffIn(events, ws, ref, e, k, n + 1) <==>
      TakenOffIn(events, ws, ref, e, k, n) || TakesOff(ws[n], events[n], ref, e)
  {}

  lemma {:induction false} ListingSince(kv: Estimates, events: seq<Event>, ws: seq<World>, ref: Ref, e: Ref,
                                        k: nat, n: nat)
    requires IsTrace(kv, events, ws) && BindingSince(ws, ref, e, k) && k <= n <= |events|
    ensures Listed(ws[n], ref, e) <==> !TakenOffIn(events, ws, ref, e, k, n)
    decreases n
  {
    if k < n {
      ListingSince(kv, events, ws, ref, e, k, n - 1);
      TakenOffOneMore(events, ws, ref, e, k, n - 1);
      assert Binding(At(ws[n - 1], ref), e);
      ListingTraceStep(kv, events, ws, ref, e, n - 1);
    }
  }

  // A report of a running lease rests on a state in which it was listed, and so does a lookup whose
  // read of the endpoint lists it.
  ghost predicate HasGround(ws: seq<World>, ref: Ref)
    requires ws != []
  {
    match At(ws[|ws| - 1], ref)
    case PutRunning(_, e) => exists k :: BindingSince(ws, ref, e, k)
    case Lookup(_, e, read, _, _, _, _) => ref in read.active ==> exists k :: BindingSince(ws, ref, e, k)
    case _ => true
  }

  lemma SinceOneMore(ws: seq<World>, next: World, ref: Ref, e: Ref, k: int)
    requires BindingSince(ws, ref, e, k) && Binding(At(next, ref), e)
    ensures BindingSince(ws + [next], ref, e, k)
  {}

  lemma SinceNow(ws: seq<World>, next: World, ref: Ref, e: Ref)
    requires Binding(At(next, ref), e) && Listed(next, ref, e)
    ensures BindingSince(ws + [next], ref, e, |ws|)
  {}

  lemma {:induction false} TraceHasGround(kv: Estimates, events: seq<Event>, ws: seq<World>, ref: Ref, n: nat)
    requires IsTrace(kv, events, ws) && n <= |events|
    ensures HasGround(ws[..n + 1], ref)
    decreases n
  {
    if n == 0 {
      assert Reaches(kv, events[..0], ws[0]);
      assert Run(kv, []) == ws[0];
    } else {
      TraceHasGround(kv, events, ws, ref, n - 1);
      TraceStep(kv, events, ws, n - 1);
      assert ws[..n + 1] == ws[..n] + [ws[n]];
      GroundStep(kv, ws[..n], ws[n - 1], events[n - 1], ref);
    }
  }

  lemma GroundStep(kv: Estimates, ws: seq<World>, w: World, event: Event, ref: Ref)
    requires ws != [] && ws[|ws| - 1] == w && HasGround(ws, ref) && Inv(kv, w)
    ensures HasGround(ws + [Step(kv, w, event)], ref)
  {
    if event.Continue? && event.ref == ref {
      OwnGround(kv, ws, w, event.choice, ref);
    } else {
      OthersKeepControl(kv, w, event, ref);
      StillGround(ws, w, Step(kv, w, event), ref);
    }
  }

  lemma StillGround(ws: seq<World>, w: World, next: World, ref: Ref)
    requires ws != [] && ws[|ws| - 1] == w && HasGround(ws, ref)
    requires At(next, ref) == At(w, ref) || !(At(next, ref).Lookup? || At(next, ref).PutRunning?)
    ensures HasGround(ws + [next], ref)
  {
    var k := At(next, ref);
    if k == At(w, ref) && (k.PutRunning? || (k.Lookup? && ref in k.read.active)) {
      var i :| BindingSince(ws, ref, k.e, i);
      SinceOneMore(ws, next, ref, k.e, i);
    }
  }

  lemma OthersKeepControl(kv: Estimates, w: World, event: Event, ref: Ref)
    requires !(event.Continue? && event.ref == ref)
    ensures var next := At(Step(kv, w, event), ref); next == At(w, ref) || !(next.Lookup? || next.PutRunning?)
  {
    if event.Continue? {
      ContinueLeavesOthers(kv, w, event.ref, event.choice, ref);
    }
  }

  lemma OwnGround(kv: Estimates, ws: seq<World>, w: World, choice: Choice, ref: Ref)
    requires ws != [] && ws[|ws| - 1] == w && HasGround(ws, ref) && Inv(kv, w)
    ensures HasGround(ws + [ContinueStep(kv, w, ref, choice)], ref)
  {
    var next := ContinueStep(kv, w, ref, choice);
    match At(w, ref)
    case BindGet(_, _, _) => ReadGround(kv, ws, w, choice, ref);
    case BindPut(_, _, _, _, _) => WriteGround(kv, ws, w, choice, ref);
    case Lookup(_, e, read, _, _, _, _) =>
      LookupEnds(kv, w, ref, choice);
      if Binding(At(next, ref), e) && ref in read.active {
        var k :| BindingSince(ws, ref, e, k);
        SinceOneMore(ws, next, ref, e, k);
      }
    case _ => NoBindingFromElsewhere(kv, w, ref, choice);
  }

  lemma ReadGround(kv: Estimates, ws: seq<World>, w: World, choice: Choice, ref: Ref)
    requires ws != [] && ws[|ws| - 1] == w && At(w, ref).BindGet?
    ensures HasGround(ws + [ContinueStep(kv, w, ref, choice)], ref)
  {
    var next, e := ContinueStep(kv, w, ref, choice), At(w, ref).e;
    if At(next, ref).Lookup? && ref in At(next, ref).read.active {
      SinceNow(ws, next, ref, e);
    }
  }

  lemma WriteGround(kv: Estimates, ws: seq<World>, w: World, choice: Choice, ref: Ref)
    requires ws != [] && ws[|ws| - 1] == w && At(w, ref).BindPut? && Inv(kv, w)
    ensures HasGround(ws + [ContinueStep(kv, w, ref, choice)], ref)
  {
    var next, e := ContinueStep(kv, w, ref, choice), At(w, ref).e;
    assert ControlOk(kv, ref, w.control[ref]);
    if At(next, ref).PutRunning? {
      SinceNow(ws, next, ref, e);
    }
  }

  lemma LookupEnds(kv: Estimates, w: World, ref: Ref, choice: Choice)
    requires At(w, ref).Lookup?
    ensures var k, next := At(w, ref), At(ContinueStep(kv, w, ref, choice), ref);
      && (next.Lookup? ==> next.e == k.e && next.read == k.read)
      && (next.PutRunning? ==> next.e == k.e && ref in k.read.active)
  {}

  lemma NoBindingFromElsewhere(kv: Estimates, w: World, ref: Ref, choice: Choice)
    requires !At(w, ref).BindGet? && !At(w, ref).BindPut? && !At(w, ref).Lookup?
    ensures var next := At(ContinueStep(kv, w, ref, choice), ref);
      next == At(w, ref) == Idle || (!next.Lookup? && !next.PutRunning?)
  {}

  // A lease about to be reported as running is unlisted exactly when it was taken off since.
  lemma TakenOffIff(kv: Estimates, events: seq<Event>, w: World, ref: Ref)
    requires Reaches(kv, events, w) && At(w, ref).PutRunning?
    ensures !Listed(w, ref, At(w, ref).e) <==> TakenOffSince(kv, events, ref, At(w, ref).e)
  {
    var e, n := At(w, ref).e, |events|;
    var ws := TraceExists(kv, events);
    TraceEnds(kv, events, w, ws);
    TraceHasGround(kv, events, ws, ref, n);
    assert ws[..n + 1] == ws;
    var k :| BindingSince(ws, ref, e, k);
    ListingSince(kv, events, ws, ref, e, k, n);
    if vs, i :| IsTrace(kv, events, vs) && BindingSince(vs, ref, e, i) && TakenOffIn(events, vs, ref, e, i, n) {
      TraceEnds(kv, events, w, vs);
      ListingSince(kv, events, vs, ref, e, i, n);
    }
  }

  lemma TraceEnds(kv: Estimates, events: seq<Event>, w: World, ws: seq<World>)
    requires Reaches(kv, events, w) && IsTrace(kv, events, ws)
    ensures ws[|events|] == w
  {
    assert events[..|events|] == events;
    assert Reaches(kv, events[..|events|], ws[|events|]);
    assert Run(kv, events) == w;
  }

  // The same with the listing as it is now in place of its history.
  predicate UnlistsNow(w: World, at: Ref, choice: Choice, ref: Ref)
  {
    !choice.fails &&
    match At(w, at)
    case RemovePut(target, copy, _, read, _) =>
      target == ref && copy.endpoint.Some? && RunsAt(w, ref, copy.endpoint.value)
        && Stored(w, copy.endpoint.value, read)
    case BindPut(_, e, read, updated, _) => RunsAt(w, ref, e) && Stored(w, e, read) && ref !in updated.active
    case PutRunning(c, e) => at == ref && ref in w.claims && w.claims[ref] == c && !Listed(w, ref, e)
    case _ => false
  }

  predicate PutsClaim(k: Control)
  {
    k.PutFinalizer? || k.PutPending? || k.PutRejected? || k.PutRunning? || k.PutEnded?
  }

  lemma UnlistedByPool(kv: Estimates, w: World, at: Ref, choice: Choice, ref: Ref)
    requires Inv(kv, w) && !Unlisted(w, ref) && (At(w, at).RemovePut? || At(w, at).BindPut?)
    ensures Unlisted(ContinueStep(kv, w, at, choice), ref) <==> UnlistsNow(w, at, choice, ref)
  {
    match At(w, at)
    case RemovePut(_, _, _, _, _) => UnlistedByRemoval(kv, w, at, choice, ref);
    case BindPut(_, _, _, _, _) =>
  }

  lemma UnlistedByRemoval(kv: Estimates, w: World, at: Ref, choice: Choice, ref: Ref)
    requires Inv(kv, w) && !Unlisted(w, ref) && At(w, at).RemovePut?
    ensures Unlisted(ContinueStep(kv, w, at, choice), ref) <==> UnlistsNow(w, at, choice, ref)
  {
    var target, read := At(w, at).target, At(w, at).read;
    assert ControlOk(kv, at, w.control[at]);
    WithoutMembers(read.active, target);
  }

  lemma UnlistedByPut(kv: Estimates, w: World, at: Ref, choice: Choice, ref: Ref)
    requires !Unlisted(w, ref) && Unfinished(At(w, at)) && PutsClaim(At(w, at))
    ensures Unlisted(ContinueStep(kv, w, at, choice), ref) <==> UnlistsNow(w, at, choice, ref)
  {
    match At(w, at)
    case PutFinalizer(_) =>
    case PutPending(_) =>
    case PutRejected(_) =>
    case PutRunning(_, _) =>
    case PutEnded(_, _, _) =>
  }

  lemma UnlistedByOther(kv: Estimates, w: World, at: Ref, choice: Choice, ref: Ref)
    requires !Unlisted(w, ref) && !PutsClaim(At(w, at)) && !At(w, at).RemovePut? && !At(w, at).BindPut?
    ensures !Unlisted(ContinueStep(kv, w, at, choice), ref)
  {
    match At(w, at)
    case DropFinalizer(_) =>
    case _ =>
  }

  lemma UnlistedByContinue(kv: Estimates, w: World, at: Ref, choice: Choice, ref: Ref)
    requires Inv(kv, w) && !Unlisted(w, ref) && Unfinished(At(w, at))
    ensures Unlisted(ContinueStep(kv, w, at, choice), ref) <==> UnlistsNow(w, at, choice, ref)
  {
    if At(w, at).RemovePut? || At(w, at).BindPut? {
      UnlistedByPool(kv, w, at, choice, ref);
    } else if PutsClaim(At(w, at)) {
      UnlistedByPut(kv, w, at, choice, ref);
    } else {
      UnlistedByOther(kv, w, at, choice, ref);
    }
  }
}
