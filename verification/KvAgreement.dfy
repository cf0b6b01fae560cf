/** The scheduler and the binder judge the same state alike. */
module KvAgreement {
  import opened Wrappers
  import opened Admission
  import opened KvAccounting
  import opened KvSafety

  ghost predicate DistinctRefs(leases: seq<Lease>)
  {
    forall i, j | 0 <= i < j < |leases| :: leases[i].ref != leases[j].ref
  }

  // A snapshot taken of these reservations: same numbers, and each lease with its own estimate.
  ghost predicate SnapshotOf(s: Snapshot, p: Pool, kv: Estimates)
  {
    && s.endpoint.maximum == p.maximum && s.endpoint.headroom == p.headroom && s.endpoint.reserved == p.reserved
    && (forall l | l in s.leases :: l.estimate == kv(l.ref))
    && DistinctRefs(s.leases)
  }

  // bind's capacity test on reservations that pruning leaves as they are, and after any pruning.
  predicate FitsUnpruned(kv: Estimates, p: Pool, ref: Ref)
  {
    Fits(kv, p, ref, p.active, p.reserved)
  }

  ghost predicate Accepted(kv: Estimates, p: Pool, ref: Ref)
  {
    forall kept, sum | LookupOk(kv, p, |p.active|, kept, sum) :: Fits(kv, p, ref, kept, sum)
  }

  // Pruning only ever makes room.
  lemma PruningMakesRoom(kv: Estimates, p: Pool, ref: Ref)
    requires Accounted(kv, p) && ref !in p.active
    ensures FitsUnpruned(kv, p, ref) <==> Accepted(kv, p, ref)
  {
    assert p.active[..|p.active|] == p.active;
    assert LookupOk(kv, p, |p.active|, p.active, p.reserved);
  }

  function RemovedAll(kv: Estimates, p: Pool, refs: seq<Ref>): Pool
  {
    if refs == [] then p
    else
      var q := RemovedAll(kv, p, refs[..|refs| - 1]);
      if refs[|refs| - 1] in q.active then Removed(kv, q, refs[|refs| - 1]) else q
  }

  function Listed(refs: seq<Ref>, active: seq<Ref>): seq<Ref>
  {
    if refs == [] then []
    else
      Listed(refs[..|refs| - 1], active) + if refs[|refs| - 1] in active then [refs[|refs| - 1]] else []
  }

  // Interrupting distinct victims frees exactly the estimates of those that are listed.
  lemma {:induction false} RemovedAllAccount(kv: Estimates, p: Pool, refs: seq<Ref>)
    requires Accounted(kv, p) && NoDuplicates(refs)
    ensures var q := RemovedAll(kv, p, refs);
      && Accounted(kv, q) && q.reserved == p.reserved - Sum(kv, Listed(refs, p.active))
      && q.maximum == p.maximum && q.headroom == p.headroom
      && forall r :: r in q.active <==> r in p.active && r !in refs
    decreases |refs|
  {
    if refs != [] {
      var init, last := refs[..|refs| - 1], refs[|refs| - 1];
      RemovedAllAccount(kv, p, init);
      assert refs == init + [last];
      var q := RemovedAll(kv, p, init);
      assert last !in init && forall r :: r in refs <==> r in init || r == last;
      if last in q.active {
        RemovedAccount(kv, q, last);
        assert Listed(refs, p.active) == Listed(init, p.active) + [last];
        SumAppend(kv, Listed(init, p.active), last);
      } else {
        assert Listed(refs, p.active) == Listed(init, p.active);
      }
    }
  }

  // Reuse is chosen for an endpoint exactly when the binder accepts what the scheduler saw.
  lemma ReuseFits(kv: Estimates, request: Lease, s: Snapshot, p: Pool)
    requires Accounted(kv, p) && SnapshotOf(s, p, kv) && request.estimate == kv(request.ref)
    requires request.ref !in p.active && Compatible(request, s.endpoint)
    ensures HasRoom(request, s) <==> Accepted(kv, p, request.ref)
  {
    PruningMakesRoom(kv, p, request.ref);
  }

  lemma {:induction false} FreedIsSum(kv: Estimates, victims: seq<Lease>)
    requires forall l | l in victims :: l.estimate == kv(l.ref)
    ensures Freed(victims) == Sum(kv, Refs(victims))
    decreases |victims|
  {
    if victims != [] {
      assert Refs(victims)[..|victims| - 1] == Refs(victims[..|victims| - 1]);
      FreedIsSum(kv, victims[..|victims| - 1]);
    }
  }

  lemma {:induction false} AllListed(refs: seq<Ref>, active: seq<Ref>)
    requires forall r | r in refs :: r in active
    ensures Listed(refs, active) == refs
    decreases |refs|
  {
    if refs != [] {
      AllListed(refs[..|refs| - 1], active);
    }
  }

  // Evict: once the victims are interrupted the binder accepts, whatever it prunes, if and only if
  // the victims that are listed as active suffice by themselves.
  lemma EvictFitsIff(kv: Estimates, request: Lease, s: Snapshot, p: Pool, victims: seq<Ref>)
    requires Accounted(kv, p) && SnapshotOf(s, p, kv) && request.estimate == kv(request.ref)
    requires NoDuplicates(victims) && request.ref !in p.active
    ensures Accepted(kv, RemovedAll(kv, p, victims), request.ref) <==>
      Available(s.endpoint) + Sum(kv, Listed(victims, p.active)) >= request.estimate
  {
    RemovedAllAccount(kv, p, victims);
    PruningMakesRoom(kv, RemovedAll(kv, p, victims), request.ref);
  }

  lemma VictimsDistinct(victims: seq<Lease>, candidates: seq<Lease>, request: Lease, s: Snapshot, p: Pool,
                        kv: Estimates)
    requires SnapshotOf(s, p, kv) && Evicts(request, s, victims, candidates)
    ensures NoDuplicates(Refs(victims)) && forall v | v in victims :: v in s.leases && v.running
  {
    EligibleDistinct(request, s.leases);
    forall i, j | 0 <= i < j < |victims| ensures Refs(victims)[i] != Refs(victims)[j] {
      assert victims[i] == candidates[i] && victims[j] == candidates[j];
      SameRefSameLease(EligibleOf(request, s.leases), candidates, i, j);
    }
    VictimsAreRunning(victims, candidates, request, s);
  }

  lemma VictimsAreRunning(victims: seq<Lease>, candidates: seq<Lease>, request: Lease, s: Snapshot)
    requires Evicts(request, s, victims, candidates)
    ensures forall v | v in victims :: v in s.leases && v.running
  {
    EligibleFromLeases(request, s.leases);
    forall v | v in victims ensures v in s.leases && v.running {
      var i :| 0 <= i < |victims| && victims[i] == v;
      assert candidates[i] in candidates;
      assert candidates[i] in multiset(candidates);
      assert v in EligibleOf(request, s.leases);
    }
  }

  lemma {:induction false} EligibleDistinct(request: Lease, leases: seq<Lease>)
    requires DistinctRefs(leases)
    ensures DistinctRefs(EligibleOf(request, leases))
    decreases |leases|
  {
    if leases != [] {
      var init := leases[..|leases| - 1];
      EligibleDistinct(request, init);
      EligibleFromLeases(request, init);
      var before := EligibleOf(request, init);
      forall i | 0 <= i < |before| ensures before[i].ref != leases[|leases| - 1].ref {
        assert before[i] in before;
        var j :| 0 <= j < |init| && init[j] == before[i];
        assert leases[j].ref != leases[|leases| - 1].ref;
      }
    }
  }

  // A list without equal references stays one in any other order.
  lemma SameRefSameLease(all: seq<Lease>, other: seq<Lease>, i: nat, j: nat)
    requires multiset(all) == multiset(other) && i < j < |other|
    requires DistinctRefs(all)
    ensures other[i].ref != other[j].ref
  {
    if other[i].ref == other[j].ref {
      assert other[i] in multiset(all) && other[j] in multiset(all);
      assert other[i] in all && other[j] in all;
      assert other[i] == other[j];
      assert other == other[..i] + [other[i]] + other[i + 1..j] + [other[j]] + other[j + 1..];
      assert multiset(other)[other[i]] >= 2;
      OnceOnly(all, other[i]);
    }
  }

  lemma OnceOnly(all: seq<Lease>, l: Lease)
    requires DistinctRefs(all)
    ensures multiset(all)[l] <= 1
    decreases |all|
  {
    if all != [] {
      assert all == all[..|all| - 1] + [all[|all| - 1]];
      OnceOnly(all[..|all| - 1], l);
      if l == all[|all| - 1] {
        assert l !in all[..|all| - 1];
      }
    }
  }

  // With no change after the snapshot and every running lease listed as active, an eviction decision
  // is one the binder accepts once exactly its victims have been interrupted.
  lemma EvictFits(kv: Estimates, request: Lease, s: Snapshot, p: Pool, victims: seq<Lease>, candidates: seq<Lease>)
    requires Accounted(kv, p) && SnapshotOf(s, p, kv) && request.estimate == kv(request.ref)
    requires request.ref !in p.active && Evicts(request, s, victims, candidates)
    requires forall l | l in s.leases && l.running :: l.ref in p.active
    ensures Accepted(kv, RemovedAll(kv, p, Refs(victims)), request.ref)
  {
    VictimsDistinct(victims, candidates, request, s, p, kv);
    EvictFitsIff(kv, request, s, p, Refs(victims));
    forall r | r in Refs(victims) ensures r in p.active {
      var i :| 0 <= i < |victims| && victims[i].ref == r;
      assert victims[i] in s.leases;
    }
    AllListed(Refs(victims), p.active);
    FreedIsSum(kv, victims);
  }

  // ---- an eviction that nothing disturbs ----

  function RemovedOne(kv: Estimates, p: Pool, ref: Ref): Pool
  {
    if ref in p.active then Removed(kv, p, ref) else p
  }

  lemma {:induction false} RemovedAllFront(kv: Estimates, p: Pool, refs: seq<Ref>)
    requires refs != []
    ensures RemovedAll(kv, p, refs) == RemovedAll(kv, RemovedOne(kv, p, refs[0]), refs[1..])
    decreases |refs|
  {
    if |refs| > 1 {
      var init := refs[..|refs| - 1];
      assert init[1..] == refs[1..][..|refs| - 2];
      RemovedAllFront(kv, p, init);
    }
  }

  // One victim after the other: its reservation goes, then it is reported as interrupted.
  lemma InterruptsOne(kv: Estimates, events: seq<Event>, w: World, ref: Ref, c: Claim, victims: seq<Ref>, e: Ref)
      returns (more: seq<Event>, next: World)
    requires Reaches(kv, events, w) && At(w, ref) == NextVictim(c, victims, e) && victims != [] && e in w.pools
    requires victims[0] in w.claims && w.claims[victims[0]].endpoint == Some(e)
    ensures Reaches(kv, more, next) && At(next, ref) == NextVictim(c, victims[1..], e)
    ensures next.pools == w.pools[e := RemovedOne(kv, w.pools[e], victims[0])]
    ensures next.claims == w.claims[victims[0] := w.claims[victims[0]].(phase := Interrupted)]
  {
    var v, verdict := victims[0], Later;
    var copy, after := w.claims[v], Evicting(c, victims[1..], e);
    more, next := ThenContinue(kv, events, w, ref, verdict);
    assert next == GoTo(w, ref, RemoveGet(v, copy, after, 0));
    more, next := ThenContinue(kv, more, next, ref, verdict);
    if v in w.pools[e].active {
      assert At(next, ref) == RemovePut(v, copy, after, w.pools[e], 0);
      more, next := ThenContinue(kv, more, next, ref, verdict);
    }
    assert At(next, ref) == PutEnded(v, copy, after) && next.claims == w.claims;
    assert next.pools == w.pools[e := RemovedOne(kv, w.pools[e], v)];
    more, next := ThenContinue(kv, more, next, ref, verdict);
  }

  // With nothing in between, the reconcile that evicts leaves the endpoint without its victims, the
  // victims interrupted whatever their phase was, and itself at the binding.
  lemma {:induction false} InterruptsAll(kv: Estimates, events: seq<Event>, w: World, ref: Ref, c: Claim,
                                         victims: seq<Ref>, e: Ref)
      returns (more: seq<Event>, next: World)
    requires Reaches(kv, events, w) && At(w, ref) == NextVictim(c, victims, e) && e in w.pools
    requires forall v | v in victims :: v in w.claims && w.claims[v].endpoint == Some(e)
    ensures Reaches(kv, more, next) && At(next, ref) == NextVictim(c, [], e)
    ensures e in next.pools && next.pools[e] == RemovedAll(kv, w.pools[e], victims)
    ensures next.claims.Keys == w.claims.Keys
    ensures forall v | v in w.claims ::
      next.claims[v] == if v in victims then w.claims[v].(phase := Interrupted) else w.claims[v]
    decreases |victims|
  {
    if victims == [] {
      more, next := events, w;
    } else {
      var first, middle := InterruptsOne(kv, events, w, ref, c, victims, e);
      assert forall v :: v in victims <==> v == victims[0] || v in victims[1..];
      more, next := InterruptsAll(kv, first, middle, ref, c, victims[1..], e);
      RemovedAllFront(kv, w.pools[e], victims);
    }
  }

  // The agreement over a run: nothing changed after the snapshot, every running lease is listed, and
  // nothing disturbs the reconcile: then it arrives at the binding with its victims interrupted, and
  // the binder accepts.
  lemma EvictionIsAccepted(kv: Estimates, events: seq<Event>, w: World, request: Lease, s: Snapshot, c: Claim,
                           victims: seq<Lease>, candidates: seq<Lease>)
      returns (more: seq<Event>, next: World)
    requires Reaches(kv, events, w) && At(w, request.ref) == NextVictim(c, Refs(victims), s.endpoint.ref)
    requires s.endpoint.ref in w.pools && SnapshotOf(s, w.pools[s.endpoint.ref], kv)
      && request.estimate == kv(request.ref)
    requires request.ref !in w.pools[s.endpoint.ref].active && Evicts(request, s, victims, candidates)
    requires forall l | l in s.leases && l.running :: l.ref in w.pools[s.endpoint.ref].active
    requires forall l | l in s.leases :: l.ref in w.claims && w.claims[l.ref].endpoint == Some(s.endpoint.ref)
    ensures Reaches(kv, more, next) && At(next, request.ref) == NextVictim(c, [], s.endpoint.ref)
    ensures forall v | v in victims :: v.ref in next.claims && next.claims[v.ref].phase == Interrupted
    ensures s.endpoint.ref in next.pools && Accepted(kv, next.pools[s.endpoint.ref], request.ref)
  {
    var e := s.endpoint.ref;
    assert Run(kv, events) == w;
    RunKeepsInv(kv, events);
    VictimsAreRunning(victims, candidates, request, s);
    RefsOfVictims(victims);
    more, next := InterruptsAll(kv, events, w, request.ref, c, Refs(victims), e);
    EvictFits(kv, request, s, w.pools[e], victims, candidates);
  }

  lemma RefsOfVictims(victims: seq<Lease>)
    ensures forall r | r in Refs(victims) :: exists v :: v in victims && v.ref == r
    ensures forall v | v in victims :: v.ref in Refs(victims)
  {
    forall r | r in Refs(victims) ensures exists v :: v in victims && v.ref == r {
      var i :| 0 <= i < |victims| && Refs(victims)[i] == r;
      assert victims[i] in victims;
    }
    forall v | v in victims ensures v.ref in Refs(victims) {
      var i :| 0 <= i < |victims| && victims[i] == v;
      assert Refs(victims)[i] == v.ref;
    }
  }
}
