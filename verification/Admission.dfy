/**
  Inference admission: which endpoint serves a new lease, and which running leases of lower priority
  make room for it.  Sorting is the standard library's: any order the comparison allows.
*/
module Admission {
  datatype Scope = Dedicated | WithinWorkflow | WithinProject | WithinTenant | WithinClassification | OtherScope

  datatype Ref = Ref(namespace: string, name: string)

  datatype Model = Model(name: string, revision: string, tenant: string, classification: string)

  datatype Lease = Lease(
    ref: Ref, model: Model, scope: Scope, workflow: string, project: string,
    estimate: int, priority: int, evictable: bool, running: bool, created: int)

  // A label that is not set reads as the empty string.
  datatype Endpoint = Endpoint(
    ref: Ref, model: Model, workflowLabel: string, projectLabel: string, maximum: int, headroom: int, reserved: int)

  datatype Snapshot = Snapshot(endpoint: Endpoint, leases: seq<Lease>)

  datatype Decision = Reuse(endpoint: Ref) | Create | Evict(endpoint: Ref, victims: seq<Ref>) | Wait

  predicate Compatible(lease: Lease, endpoint: Endpoint)
  {
    lease.model == endpoint.model &&
    match lease.scope
    case Dedicated => false
    case WithinWorkflow => endpoint.workflowLabel == lease.workflow
    case WithinProject => endpoint.projectLabel == lease.project
    case WithinTenant => true
    case WithinClassification => true
    case OtherScope => false
  }

  function Available(endpoint: Endpoint): int
  {
    var capacity := endpoint.maximum - endpoint.headroom - endpoint.reserved;
    if capacity < 0 then 0 else capacity
  }

  predicate Eligible(request: Lease, lease: Lease)
  {
    lease.evictable && lease.priority < request.priority && lease.running
  }

  function EligibleOf(request: Lease, leases: seq<Lease>): seq<Lease>
  {
    if leases == [] then []
    else
      var last := leases[|leases| - 1];
      EligibleOf(request, leases[..|leases| - 1]) + if Eligible(request, last) then [last] else []
  }

  predicate Before(a: Lease, b: Lease)
  {
    a.priority < b.priority || (a.priority == b.priority && a.created < b.created)
  }

  ghost predicate InOrder(leases: seq<Lease>)
  {
    forall i, j | 0 <= i < j < |leases| :: !Before(leases[j], leases[i])
  }

  // The candidates of an endpoint, lowest priority first and older ones first among equals.
  ghost predicate IsCandidates(candidates: seq<Lease>, request: Lease, leases: seq<Lease>)
  {
    InOrder(candidates) && multiset(candidates) == multiset(EligibleOf(request, leases))
  }

  // A running lease of lower priority that allows to be interrupted.
  predicate MayBeVictim(request: Lease, lease: Lease)
  {
    lease.evictable && lease.running && lease.priority < request.priority
  }

  // Each lease is a candidate as often as it is listed, if it may be a victim, and never otherwise.
  lemma {:induction false} EligibleAre(request: Lease, leases: seq<Lease>)
    ensures forall l ::
      multiset(EligibleOf(request, leases))[l] == if MayBeVictim(request, l) then multiset(leases)[l] else 0
  {
    if leases != [] {
      var init, last := leases[..|leases| - 1], leases[|leases| - 1];
      assert leases == init + [last];
      EligibleAre(request, init);
    }
  }

  method EvictionCandidates(request: Lease, leases: seq<Lease>) returns (candidates: seq<Lease>)
    ensures IsCandidates(candidates, request, leases)
    ensures forall l :: multiset(candidates)[l] == if MayBeVictim(request, l) then multiset(leases)[l] else 0
    ensures forall i, j | 0 <= i < j < |candidates| ::
      candidates[i].priority < candidates[j].priority
      || (candidates[i].priority == candidates[j].priority && candidates[i].created <= candidates[j].created)
  {
    var eligible: seq<Lease> := [];
    for i := 0 to |leases|
      invariant eligible == EligibleOf(request, leases[..i])
    {
      assert leases[..i + 1][..i] == leases[..i];
      if Eligible(request, leases[i]) {
        eligible := eligible + [leases[i]];
      }
    }
    assert leases[..|leases|] == leases;
    candidates := SortLeases(eligible);
    EligibleAre(request, leases);
    forall i, j | 0 <= i < j < |candidates|
      ensures candidates[i].priority < candidates[j].priority
        || (candidates[i].priority == candidates[j].priority && candidates[i].created <= candidates[j].created)
    {
      assert !Before(candidates[j], candidates[i]);
    }
  }

  lemma InsertAt(sorted: seq<Lease>, k: nat, lease: Lease)
    requires k <= |sorted| && InOrder(sorted)
    requires k > 0 ==> !Before(lease, sorted[k - 1])
    requires forall j | k <= j < |sorted| :: Before(lease, sorted[j])
    ensures InOrder(sorted[..k] + [lease] + sorted[k..])
    ensures multiset(sorted[..k] + [lease] + sorted[k..]) == multiset(sorted) + multiset{lease}
  {
    assert sorted == sorted[..k] + sorted[k..];
    var next := sorted[..k] + [lease] + sorted[k..];
    forall i, j | 0 <= i < j < |next| ensures !Before(next[j], next[i]) {
      InsertOrder(sorted, k, lease, i, j);
    }
  }

  lemma InsertOrder(sorted: seq<Lease>, k: nat, lease: Lease, i: nat, j: nat)
    requires k <= |sorted| && InOrder(sorted) && i < j <= |sorted|
    requires k > 0 ==> !Before(lease, sorted[k - 1])
    requires forall j | k <= j < |sorted| :: Before(lease, sorted[j])
    ensures var next := sorted[..k] + [lease] + sorted[k..]; !Before(next[j], next[i])
  {
    if j == k && i < k - 1 {
      assert !Before(sorted[k - 1], sorted[i]);
    }
  }

  method SortLeases(leases: seq<Lease>) returns (sorted: seq<Lease>)
    ensures InOrder(sorted) && multiset(sorted) == multiset(leases)
  {
    sorted := [];
    for i := 0 to |leases|
      invariant InOrder(sorted) && multiset(sorted) == multiset(leases[..i])
    {
      var k := |sorted|;
      while k > 0 && Before(leases[i], sorted[k - 1])
        invariant 0 <= k <= |sorted|
        invariant forall j | k <= j < |sorted| :: Before(leases[i], sorted[j])
      {
        k := k - 1;
      }
      assert leases[..i + 1] == leases[..i] + [leases[i]];
      InsertAt(sorted, k, leases[i]);
      sorted := sorted[..k] + [leases[i]] + sorted[k..];
    }
    assert leases[..|leases|] == leases;
  }

  function Freed(leases: seq<Lease>): int
  {
    if leases == [] then 0 else Freed(leases[..|leases| - 1]) + leases[|leases| - 1].estimate
  }

  function Refs(leases: seq<Lease>): (refs: seq<Ref>)
    ensures |refs| == |leases| && forall i | 0 <= i < |refs| :: refs[i] == leases[i].ref
  {
    seq(|leases|, i requires 0 <= i < |leases| => leases[i].ref)
  }

  predicate HasRoom(request: Lease, s: Snapshot)
  {
    Compatible(request, s.endpoint) && Available(s.endpoint) >= request.estimate
  }

  // Interrupting these leases makes room for the request.
  predicate Suffices(victims: seq<Lease>, request: Lease, endpoint: Endpoint)
  {
    Available(endpoint) + Freed(victims) >= request.estimate
  }

  // The shortest prefix of the candidates that makes room.
  ghost predicate LeastPrefix(victims: seq<Lease>, candidates: seq<Lease>, request: Lease, endpoint: Endpoint)
  {
    && 0 < |victims| && victims <= candidates && Suffices(victims, request, endpoint)
    && forall k | 0 <= k < |victims| :: !Suffices(candidates[..k], request, endpoint)
  }

  ghost predicate NoPrefix(candidates: seq<Lease>, request: Lease, endpoint: Endpoint)
  {
    forall k | 0 <= k <= |candidates| :: !Suffices(candidates[..k], request, endpoint)
  }

  // No room and no way to make any.
  ghost predicate Hopeless(request: Lease, s: Snapshot)
  {
    Compatible(request, s.endpoint) ==>
      exists candidates :: IsCandidates(candidates, request, s.leases) && NoPrefix(candidates, request, s.endpoint)
  }

  // Every endpoint before this one was passed over.
  ghost predicate ChosenAt(i: int, request: Lease, snapshots: seq<Snapshot>)
  {
    0 <= i < |snapshots| && forall j | 0 <= j < i :: Hopeless(request, snapshots[j])
  }

  // What a decision means.
  ghost predicate Selected(decision: Decision, request: Lease, snapshots: seq<Snapshot>, allowCreate: bool)
  {
    match decision
    case Reuse(endpoint) =>
      exists i ::
        ChosenAt(i, request, snapshots) && snapshots[i].endpoint.ref == endpoint && HasRoom(request, snapshots[i])
    case Evict(endpoint, victims) =>
      exists i, leases, candidates ::
        ChosenAt(i, request, snapshots) && snapshots[i].endpoint.ref == endpoint
        && Evicts(request, snapshots[i], leases, candidates) && victims == Refs(leases)
    case Create => allowCreate && forall s | s in snapshots :: Hopeless(request, s)
    case Wait => !allowCreate && forall s | s in snapshots :: Hopeless(request, s)
  }

  ghost predicate Evicts(request: Lease, s: Snapshot, victims: seq<Lease>, candidates: seq<Lease>)
  {
    && Compatible(request, s.endpoint) && Available(s.endpoint) < request.estimate
    && IsCandidates(candidates, request, s.leases) && LeastPrefix(victims, candidates, request, s.endpoint)
  }

  // The same model, and the scope's own label where it has one.
  predicate Serves(endpoint: Endpoint, request: Lease)
  {
    && endpoint.model == request.model
    && request.scope != Dedicated && request.scope != OtherScope
    && (request.scope == WithinWorkflow ==> endpoint.workflowLabel == request.workflow)
    && (request.scope == WithinProject ==> endpoint.projectLabel == request.project)
  }

  // A reference to a lease of this endpoint that may be interrupted.
  predicate NamesVictim(v: Ref, request: Lease, leases: seq<Lease>)
  {
    exists l | l in leases :: l.ref == v && l.evictable && l.running && l.priority < request.priority
  }

  lemma CompatibleServes(request: Lease, endpoint: Endpoint)
    ensures Compatible(request, endpoint) <==> Serves(endpoint, request)
  {}

  // What an answer means for the endpoint it names, and for the victims.
  ghost predicate ReuseIsSound(decision: Decision, request: Lease, snapshots: seq<Snapshot>)
  {
    decision.Reuse? ==>
      exists s | s in snapshots :: s.endpoint.ref == decision.endpoint && Serves(s.endpoint, request)
        && (request.estimate <= 0 || s.endpoint.reserved + s.endpoint.headroom + request.estimate <= s.endpoint.maximum)
  }

  ghost predicate EvictIsSound(decision: Decision, request: Lease, snapshots: seq<Snapshot>)
  {
    decision.Evict? ==>
      exists s | s in snapshots :: s.endpoint.ref == decision.endpoint && Serves(s.endpoint, request)
        && decision.victims != [] && forall v | v in decision.victims :: NamesVictim(v, request, s.leases)
  }

  lemma SelectedIsSound(decision: Decision, request: Lease, snapshots: seq<Snapshot>, allowCreate: bool)
    requires Selected(decision, request, snapshots, allowCreate)
    ensures ReuseIsSound(decision, request, snapshots) && EvictIsSound(decision, request, snapshots)
  {
    if decision.Reuse? {
      var i :| ChosenAt(i, request, snapshots) && snapshots[i].endpoint.ref == decision.endpoint
        && HasRoom(request, snapshots[i]);
      CompatibleServes(request, snapshots[i].endpoint);
      assert snapshots[i] in snapshots;
    } else if decision.Evict? {
      var i, leases, candidates :| ChosenAt(i, request, snapshots) && snapshots[i].endpoint.ref == decision.endpoint
        && Evicts(request, snapshots[i], leases, candidates) && decision.victims == Refs(leases);
      CompatibleServes(request, snapshots[i].endpoint);
      VictimsAreNamed(request, snapshots[i], leases, candidates);
      assert snapshots[i] in snapshots;
    }
  }

  lemma VictimsAreNamed(request: Lease, s: Snapshot, victims: seq<Lease>, candidates: seq<Lease>)
    requires Evicts(request, s, victims, candidates)
    ensures forall v | v in Refs(victims) :: NamesVictim(v, request, s.leases)
  {
    EligibleAre(request, s.leases);
    forall v | v in Refs(victims) ensures NamesVictim(v, request, s.leases) {
      var i :| 0 <= i < |victims| && Refs(victims)[i] == v;
      assert victims[i] == candidates[i] && candidates[i] in multiset(candidates);
      assert multiset(s.leases)[victims[i]] > 0 && victims[i] in s.leases;
    }
  }

  method Select(request: Lease, snapshots: seq<Snapshot>, allowCreate: bool) returns (decision: Decision)
    ensures Selected(decision, request, snapshots, allowCreate)
    ensures ReuseIsSound(decision, request, snapshots) && EvictIsSound(decision, request, snapshots)
  {
    decision := Choose(request, snapshots, allowCreate);
    SelectedIsSound(decision, request, snapshots, allowCreate);
  }

  method Choose(request: Lease, snapshots: seq<Snapshot>, allowCreate: bool) returns (decision: Decision)
    ensures Selected(decision, request, snapshots, allowCreate)
  {
    for i := 0 to |snapshots|
      invariant forall j | 0 <= j < i :: Hopeless(request, snapshots[j])
    {
      var s := snapshots[i];
      if !Compatible(request, s.endpoint) {
        continue;
      }
      assert ChosenAt(i, request, snapshots);
      if Available(s.endpoint) >= request.estimate {
        return Reuse(s.endpoint.ref);
      }
      var candidates := EvictionCandidates(request, s.leases);
      var freed, names := 0, [];
      for k := 0 to |candidates|
        invariant freed == Freed(candidates[..k]) && names == Refs(candidates[..k])
        invariant forall m | 0 <= m <= k :: !Suffices(candidates[..m], request, s.endpoint)
      {
        assert candidates[..k + 1][..k] == candidates[..k];
        freed := freed + candidates[k].estimate;
        names := names + [candidates[k].ref];
        assert names == Refs(candidates[..k + 1]);
        if Available(s.endpoint) + freed >= request.estimate {
          assert Evicts(request, s, candidates[..k + 1], candidates);
          return Evict(s.endpoint.ref, names);
        }
      }
    }
    return if allowCreate then Create else Wait;
  }

  // ---- what the greedy choice achieves, for estimates that are not negative ----

  ghost predicate NonNegative(leases: seq<Lease>)
  {
    forall l | l in leases :: l.estimate >= 0
  }

  // Some of the leases: running ones of lower priority that allow to be interrupted.
  ghost predicate VictimSet(victims: seq<Lease>, request: Lease, leases: seq<Lease>)
  {
    && multiset(victims) <= multiset(leases)
    && forall v | v in victims :: v.evictable && v.running && v.priority < request.priority
  }

  lemma VictimSetIff(victims: seq<Lease>, request: Lease, leases: seq<Lease>)
    ensures VictimSet(victims, request, leases) <==> multiset(victims) <= multiset(EligibleOf(request, leases))
  {
    EligibleAre(request, leases);
    var eligible := multiset(EligibleOf(request, leases));
    forall v | v in victims ensures multiset(victims)[v] > 0 {}
    if VictimSet(victims, request, leases) {
      forall l ensures multiset(victims)[l] <= eligible[l] {
        assert l in multiset(victims) <==> l in victims;
      }
    }
    if multiset(victims) <= eligible {
      forall l ensures multiset(victims)[l] <= multiset(leases)[l] {
        assert multiset(victims)[l] <= eligible[l];
      }
      forall v | v in victims ensures MayBeVictim(request, v) {
        assert multiset(victims)[v] <= eligible[v];
      }
    }
  }

  lemma {:induction false} FreedSplit(a: seq<Lease>, b: seq<Lease>)
    ensures Freed(a + b) == Freed(a) + Freed(b)
  {
    if b == [] {
      assert a + b == a;
    } else {
      assert (a + b)[..|a + b| - 1] == a + b[..|b| - 1];
      FreedSplit(a, b[..|b| - 1]);
    }
  }

  lemma FreedWithout(leases: seq<Lease>, i: nat)
    requires i < |leases|
    ensures var rest := leases[..i] + leases[i + 1..];
      && Freed(leases) == Freed(rest) + leases[i].estimate
      && multiset(leases) == multiset(rest) + multiset{leases[i]}
  {
    var one := [leases[i]];
    assert leases == leases[..i] + (one + leases[i + 1..]);
    assert one[..0] == [];
    FreedSplit(leases[..i], one + leases[i + 1..]);
    FreedSplit(one, leases[i + 1..]);
    FreedSplit(leases[..i], leases[i + 1..]);
  }

  lemma {:induction false} FreedNonNegative(leases: seq<Lease>)
    requires NonNegative(leases)
    ensures Freed(leases) >= 0
  {
    if leases != [] {
      FreedNonNegative(leases[..|leases| - 1]);
    }
  }

  lemma WithoutContains(init: seq<Lease>, last: Lease, whole: seq<Lease>, i: nat)
    requires i < |whole| && whole[i] == last && multiset(init + [last]) <= multiset(whole) && NonNegative(whole)
    ensures var rest := whole[..i] + whole[i + 1..]; multiset(init) <= multiset(rest) && NonNegative(rest)
  {
    assert multiset(init + [last]) == multiset(init) + multiset{last};
    assert whole == whole[..i] + [last] + whole[i + 1..];
    var rest := whole[..i] + whole[i + 1..];
    assert multiset(whole) == multiset(rest) + multiset{last};
    forall l ensures multiset(init)[l] <= multiset(rest)[l] {
      assert multiset(init + [last])[l] <= multiset(whole)[l];
    }
    forall l | l in rest ensures l.estimate >= 0 {
      assert l in whole;
    }
  }

  lemma {:induction false} FreedMonotone(part: seq<Lease>, whole: seq<Lease>)
    requires multiset(part) <= multiset(whole) && NonNegative(whole)
    ensures Freed(part) <= Freed(whole)
    decreases |part|
  {
    if part == [] {
      FreedNonNegative(whole);
    } else {
      var last, init := part[|part| - 1], part[..|part| - 1];
      assert part == init + [last];
      assert last in multiset(part);
      assert last in multiset(whole);
      var i :| 0 <= i < |whole| && whole[i] == last;
      WithoutContains(init, last, whole, i);
      FreedMonotone(init, whole[..i] + whole[i + 1..]);
      FreedWithout(whole, i);
    }
  }

  lemma {:induction false} EligibleFromLeases(request: Lease, leases: seq<Lease>)
    ensures forall l | l in EligibleOf(request, leases) :: l in leases && Eligible(request, l)
  {
    if leases != [] {
      EligibleFromLeases(request, leases[..|leases| - 1]);
    }
  }

  lemma CandidatesNonNegative(candidates: seq<Lease>, request: Lease, leases: seq<Lease>)
    requires multiset(candidates) <= multiset(EligibleOf(request, leases)) && NonNegative(leases)
    ensures NonNegative(candidates)
  {
    EligibleFromLeases(request, leases);
    forall l | l in candidates ensures l.estimate >= 0 {
      assert l in multiset(candidates);
    }
  }

  // Interrupting this choice of eligible leases makes room at this endpoint.
  ghost predicate Helps(victims: seq<Lease>, request: Lease, s: Snapshot)
  {
    Serves(s.endpoint, request) && VictimSet(victims, request, s.leases) && Suffices(victims, request, s.endpoint)
  }

  lemma RoomNeedsNoVictims(request: Lease, s: Snapshot)
    requires HasRoom(request, s)
    ensures Helps([], request, s)
  {
    CompatibleServes(request, s.endpoint);
  }

  lemma EvictsHelps(request: Lease, s: Snapshot, victims: seq<Lease>, candidates: seq<Lease>)
    requires Evicts(request, s, victims, candidates)
    ensures Helps(victims, request, s)
  {
    assert candidates == victims + candidates[|victims|..];
    CompatibleServes(request, s.endpoint);
    VictimSetIff(victims, request, s.leases);
  }

  lemma HopelessCannot(request: Lease, s: Snapshot, victims: seq<Lease>)
    requires NonNegative(s.leases) && Hopeless(request, s)
    ensures !Helps(victims, request, s)
  {
    CompatibleServes(request, s.endpoint);
    VictimSetIff(victims, request, s.leases);
    if Compatible(request, s.endpoint) && VictimSet(victims, request, s.leases) {
      var candidates :| IsCandidates(candidates, request, s.leases) && NoPrefix(candidates, request, s.endpoint);
      CandidatesNonNegative(candidates, request, s.leases);
      FreedMonotone(victims, candidates);
      assert candidates[..|candidates|] == candidates;
    }
  }

  lemma PrefixIsVictimSet(candidates: seq<Lease>, k: nat, request: Lease, s: Snapshot)
    requires IsCandidates(candidates, request, s.leases) && k <= |candidates| && Compatible(request, s.endpoint)
    ensures Serves(s.endpoint, request) && VictimSet(candidates[..k], request, s.leases)
  {
    assert candidates == candidates[..k] + candidates[k..];
    CompatibleServes(request, s.endpoint);
    VictimSetIff(candidates[..k], request, s.leases);
  }

  lemma CannotIsHopeless(request: Lease, s: Snapshot)
    requires forall victims :: !Helps(victims, request, s)
    ensures Hopeless(request, s)
  {
    if Compatible(request, s.endpoint) {
      var candidates := SortedCandidates(EligibleOf(request, s.leases));
      forall k | 0 <= k <= |candidates| ensures !Suffices(candidates[..k], request, s.endpoint) {
        PrefixIsVictimSet(candidates, k, request, s);
        assert !Helps(candidates[..k], request, s);
      }
      assert IsCandidates(candidates, request, s.leases) && NoPrefix(candidates, request, s.endpoint);
    }
  }

  lemma {:induction false} SortedCandidates(leases: seq<Lease>) returns (sorted: seq<Lease>)
    ensures InOrder(sorted) && multiset(sorted) == multiset(leases)
  {
    if leases == [] {
      sorted := [];
    } else {
      var init, last := leases[..|leases| - 1], leases[|leases| - 1];
      assert leases == init + [last];
      var s := SortedCandidates(init);
      var k := |s|;
      while k > 0 && Before(last, s[k - 1])
        invariant 0 <= k <= |s| && forall j | k <= j < |s| :: Before(last, s[j])
      {
        k := k - 1;
      }
      InsertAt(s, k, last);
      sorted := s[..k] + [last] + s[k..];
    }
  }

  // An endpoint is passed over exactly when no choice of eligible victims at all makes room.
  lemma HopelessIff(request: Lease, s: Snapshot)
    requires NonNegative(s.leases)
    ensures Hopeless(request, s) <==> forall victims :: !Helps(victims, request, s)
  {
    if Hopeless(request, s) {
      forall victims {
        HopelessCannot(request, s, victims);
      }
    }
    if forall victims :: !Helps(victims, request, s) {
      CannotIsHopeless(request, s);
    }
  }

  // Creation (or waiting) is chosen if and only if no set of eligible victims, at any compatible
  // endpoint, would make room.
  lemma CreateIff(decision: Decision, request: Lease, snapshots: seq<Snapshot>, allowCreate: bool)
    requires Selected(decision, request, snapshots, allowCreate)
    requires forall s | s in snapshots :: NonNegative(s.leases)
    ensures (decision.Create? || decision.Wait?) <==>
      forall s, victims | s in snapshots :: !Helps(victims, request, s)
    ensures decision.Create? ==> allowCreate
    ensures decision.Wait? ==> !allowCreate
  {
    match decision
    case Reuse(endpoint) =>
      var i :| ChosenAt(i, request, snapshots) && HasRoom(request, snapshots[i]);
      RoomNeedsNoVictims(request, snapshots[i]);
      assert snapshots[i] in snapshots;
    case Evict(endpoint, victims) =>
      var i, leases, candidates :| ChosenAt(i, request, snapshots) && Evicts(request, snapshots[i], leases, candidates);
      EvictsHelps(request, snapshots[i], leases, candidates);
      assert snapshots[i] in snapshots;
    case _ =>
      forall s | s in snapshots ensures forall victims :: !Helps(victims, request, s) {
        HopelessIff(request, s);
      }
  }

  // Leases of lower priority than the k-th candidate all come before it.
  lemma LowerComeBefore(candidates: seq<Lease>, k: nat, other: seq<Lease>)
    requires InOrder(candidates) && k < |candidates| && multiset(other) <= multiset(candidates)
    requires forall l | l in other :: l.priority < candidates[k].priority
    ensures multiset(other) <= multiset(candidates[..k])
  {
    assert candidates == candidates[..k] + candidates[k..];
    forall l | l in candidates[k..] ensures l !in multiset(other) {
      var j :| k <= j < |candidates| && candidates[j] == l;
      assert j > k ==> !Before(candidates[j], candidates[k]);
    }
    assert forall l :: multiset(other)[l] <= multiset(candidates[..k])[l] + multiset(candidates[k..])[l];
  }

  // No choice of victims spares a priority as high as the highest one given up: every set that
  // helps has a lease at least as important as the last victim.
  lemma VictimsAreMinimax(request: Lease, s: Snapshot, victims: seq<Lease>, candidates: seq<Lease>, other: seq<Lease>)
    requires NonNegative(s.leases) && Evicts(request, s, victims, candidates)
    requires Helps(other, request, s)
    ensures exists l :: l in other && l.priority >= victims[|victims| - 1].priority
    ensures forall v | v in victims :: v.priority <= victims[|victims| - 1].priority < request.priority
  {
    var k := |victims| - 1;
    assert victims[k] == candidates[k];
    CandidatesNonNegative(candidates, request, s.leases);
    VictimSetIff(other, request, s.leases);
    if forall l | l in other :: l.priority < victims[k].priority {
      LowerComeBefore(candidates, k, other);
      BelowIsNotEnough(request, s, candidates, k, other);
    }
    VictimsAreLower(request, s, victims, candidates);
  }

  lemma BelowIsNotEnough(request: Lease, s: Snapshot, candidates: seq<Lease>, k: nat, other: seq<Lease>)
    requires NonNegative(candidates) && k < |candidates| && multiset(other) <= multiset(candidates[..k])
    requires !Suffices(candidates[..k], request, s.endpoint)
    ensures !Suffices(other, request, s.endpoint)
  {
    FreedMonotone(other, candidates[..k]);
  }

  lemma VictimsAreLower(request: Lease, s: Snapshot, victims: seq<Lease>, candidates: seq<Lease>)
    requires Evicts(request, s, victims, candidates)
    ensures forall v | v in victims :: v.priority <= victims[|victims| - 1].priority < request.priority
  {
    EligibleFromLeases(request, s.leases);
    forall v | v in victims ensures v.priority <= victims[|victims| - 1].priority < request.priority {
      var i :| 0 <= i < |victims| && victims[i] == v;
      assert victims[i] == candidates[i] && victims[|victims| - 1] == candidates[|victims| - 1];
      assert i < |victims| - 1 ==> !Before(candidates[|victims| - 1], candidates[i]);
      assert candidates[|victims| - 1] in candidates;
      assert candidates[|victims| - 1] in multiset(candidates);
      assert candidates[|victims| - 1] in EligibleOf(request, s.leases);
    }
  }

  // When some compatible endpoint has room, the scheduler takes one with room if and only if no
  // endpoint listed before the first such one could make room by eviction.  Otherwise it interrupts
  // leases although a later endpoint could have taken the request as it is.
  lemma EvictsDespiteRoom(decision: Decision, request: Lease, snapshots: seq<Snapshot>, allowCreate: bool, r: nat)
    requires Selected(decision, request, snapshots, allowCreate)
    requires forall s | s in snapshots :: NonNegative(s.leases)
    requires r < |snapshots| && HasRoom(request, snapshots[r])
    requires forall i | 0 <= i < r :: !HasRoom(request, snapshots[i])
    ensures decision.Reuse? <==> forall i, victims | 0 <= i < r :: !Helps(victims, request, snapshots[i])
    ensures !decision.Reuse? ==> decision.Evict?
  {
    CreateIff(decision, request, snapshots, allowCreate);
    RoomNeedsNoVictims(request, snapshots[r]);
    assert snapshots[r] in snapshots;
    if decision.Evict? {
      var i, victims, candidates :| ChosenAt(i, request, snapshots)
        && Evicts(request, snapshots[i], victims, candidates);
      EvictsHelps(request, snapshots[i], victims, candidates);
      HopelessBefore(request, snapshots, r, i);
    } else {
      ReuseHasNoHelpBefore(decision, request, snapshots, allowCreate, r);
    }
  }

  lemma ReuseHasNoHelpBefore(decision: Decision, request: Lease, snapshots: seq<Snapshot>, allowCreate: bool, r: nat)
    requires decision.Reuse? && Selected(decision, request, snapshots, allowCreate)
    requires forall s | s in snapshots :: NonNegative(s.leases)
    requires r < |snapshots| && forall i | 0 <= i < r :: !HasRoom(request, snapshots[i])
    ensures forall i, victims | 0 <= i < r :: !Helps(victims, request, snapshots[i])
  {
    var k :| ChosenAt(k, request, snapshots) && HasRoom(request, snapshots[k]);
    assert r <= k;
    forall i | 0 <= i < r ensures forall victims :: !Helps(victims, request, snapshots[i]) {
      HopelessIff(request, snapshots[i]);
    }
  }

  lemma HopelessBefore(request: Lease, snapshots: seq<Snapshot>, r: nat, i: int)
    requires forall s | s in snapshots :: NonNegative(s.leases)
    requires r < |snapshots| && HasRoom(request, snapshots[r]) && ChosenAt(i, request, snapshots)
    ensures i <= r
  {
    if r < i {
      RoomNeedsNoVictims(request, snapshots[r]);
      HopelessCannot(request, snapshots[r], []);
    }
  }

  // A full endpoint with one lower lease listed before an empty endpoint: the lease is interrupted.
  lemma EvictionDespiteRoomHappens(first: Ref, second: Ref, victim: Ref, model: Model, allowCreate: bool)
      returns (request: Lease, snapshots: seq<Snapshot>)
    ensures |snapshots| == 2 && HasRoom(request, snapshots[1])
    ensures forall decision | Selected(decision, request, snapshots, allowCreate) ::
      decision.Evict? && decision.endpoint == first && decision.victims == [victim]
  {
    request := Lease(second, model, WithinTenant, "", "", 1, 2, true, false, 0);
    var lower := Lease(victim, model, WithinTenant, "", "", 1, 1, true, true, 0);
    var full, empty := Endpoint(first, model, "", "", 1, 0, 1), Endpoint(second, model, "", "", 1, 0, 0);
    snapshots := [Snapshot(full, [lower]), Snapshot(empty, [])];
    OneEligible(request, lower);
    assert Helps([lower], request, snapshots[0]) && !HasRoom(request, snapshots[0]);
    forall decision | Selected(decision, request, snapshots, allowCreate)
      ensures decision.Evict? && decision.endpoint == first && decision.victims == [victim]
    {
      OneVictim(decision, request, snapshots, allowCreate, lower);
    }
  }

  lemma OneVictim(decision: Decision, request: Lease, snapshots: seq<Snapshot>, allowCreate: bool, lower: Lease)
    requires |snapshots| == 2 && snapshots[0].leases == [lower] && snapshots[1].leases == []
    requires Eligible(request, lower) && lower.estimate >= 0 && Helps([lower], request, snapshots[0])
    requires !HasRoom(request, snapshots[0]) && HasRoom(request, snapshots[1])
    requires Selected(decision, request, snapshots, allowCreate)
    ensures decision.Evict? && decision.endpoint == snapshots[0].endpoint.ref && decision.victims == [lower.ref]
  {
    NonNegativeBoth(snapshots);
    EvictsDespiteRoom(decision, request, snapshots, allowCreate, 1);
    assert decision.Evict?;
    FirstHelpful(decision, request, snapshots, allowCreate, lower);
  }

  lemma NonNegativeBoth(snapshots: seq<Snapshot>)
    requires |snapshots| == 2 && NonNegative(snapshots[0].leases) && NonNegative(snapshots[1].leases)
    ensures forall s | s in snapshots :: NonNegative(s.leases)
  {}

  lemma OneEligible(request: Lease, lease: Lease)
    ensures EligibleOf(request, [lease]) == if Eligible(request, lease) then [lease] else []
    ensures Freed([lease]) == lease.estimate
  {
    assert [lease][..0] == [];
  }

  lemma FirstHelpful(decision: Decision, request: Lease, snapshots: seq<Snapshot>, allowCreate: bool, lower: Lease)
    requires |snapshots| > 0 && snapshots[0].leases == [lower] && Eligible(request, lower)
    requires NonNegative(snapshots[0].leases)
    requires Helps([lower], request, snapshots[0])
    requires decision.Evict? && Selected(decision, request, snapshots, allowCreate)
    ensures decision.endpoint == snapshots[0].endpoint.ref && decision.victims == [lower.ref]
  {
    var i, leases, candidates :| ChosenAt(i, request, snapshots) && snapshots[i].endpoint.ref == decision.endpoint
      && Evicts(request, snapshots[i], leases, candidates) && decision.victims == Refs(leases);
    FirstIsChosen(i, request, snapshots, [lower]);
    EvictsTheOnlyOne(request, snapshots[0], leases, candidates, lower);
  }

  lemma FirstIsChosen(i: int, request: Lease, snapshots: seq<Snapshot>, victims: seq<Lease>)
    requires |snapshots| > 0 && NonNegative(snapshots[0].leases)
    requires Helps(victims, request, snapshots[0]) && ChosenAt(i, request, snapshots)
    ensures i == 0
  {
    if i > 0 {
      HopelessCannot(request, snapshots[0], victims);
    }
  }

  // An endpoint with one eligible lease can give up only that lease.
  lemma EvictsTheOnlyOne(request: Lease, s: Snapshot, victims: seq<Lease>, candidates: seq<Lease>, lower: Lease)
    requires s.leases == [lower] && Eligible(request, lower) && Evicts(request, s, victims, candidates)
    ensures victims == [lower]
  {
    OneEligible(request, lower);
    OnlyElement(candidates, lower);
  }

  lemma OnlyElement(s: seq<Lease>, x: Lease)
    requires multiset(s) == multiset{x}
    ensures s == [x]
  {
    assert |s| == |multiset(s)| == 1;
    assert s[0] in multiset(s);
  }
}
