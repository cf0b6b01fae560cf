/**
  KV-cache reservations: each endpoint keeps the list of its active leases, their count and the sum
  of their estimates, and the lease controller keeps these in step.

  Every API call is one step; reconciles of different leases, lookups, deletions and crashes
  interleave in any order, and the scheduler may name any endpoint and any victims.  A write takes
  effect only if the stored object still equals the copy it was computed from.  Estimates are not
  negative and fixed per lease reference; an endpoint's headroom is at most its maximum.
*/
module KvAccounting {
  import opened Wrappers
  import opened Admission

  type Estimates = Ref -> nat

  datatype Phase = Unset | Pending | Running | Succeeded | Rejected | Interrupted

  datatype Claim = Claim(phase: Phase, finalizer: bool, deleting: bool, releaseAsked: bool, endpoint: Option<Ref>)

  // The reservations in an endpoint's status, with the limits of its spec.
  datatype Pool = Pool(maximum: int, headroom: int, active: seq<Ref>, count: int, reserved: int)

  predicate TerminalPhase(phase: Phase)
  {
    phase == Succeeded || phase == Rejected || phase == Interrupted
  }

  function Sum(kv: Estimates, refs: seq<Ref>): nat
  {
    if refs == [] then 0 else Sum(kv, refs[..|refs| - 1]) + kv(refs[|refs| - 1])
  }

  ghost predicate NoDuplicates(refs: seq<Ref>)
  {
    forall i, j | 0 <= i < j < |refs| :: refs[i] != refs[j]
  }

  // The account is right and within the limits.
  ghost predicate Accounted(kv: Estimates, p: Pool)
  {
    && NoDuplicates(p.active) && p.count == |p.active| && p.reserved == Sum(kv, p.active)
    && p.reserved + p.headroom <= p.maximum
  }

  function IndexOf(refs: seq<Ref>, ref: Ref): (i: nat)
    requires ref in refs
    ensures i < |refs| && refs[i] == ref && ref !in refs[..i]
  {
    if refs[0] == ref then 0 else 1 + IndexOf(refs[1..], ref)
  }

  function Without(refs: seq<Ref>, ref: Ref): seq<Ref>
  {
    if ref !in refs then refs else refs[..IndexOf(refs, ref)] + refs[IndexOf(refs, ref) + 1..]
  }

  // removeEndpointReservation on a listed lease.
  function Removed(kv: Estimates, p: Pool, ref: Ref): Pool
  {
    var active := Without(p.active, ref);
    var left := p.reserved - kv(ref);
    p.(active := active, count := |active|, reserved := if left < 0 then 0 else left)
  }

  // bind on an endpoint whose reservations were pruned to these.
  predicate Fits(kv: Estimates, p: Pool, ref: Ref, kept: seq<Ref>, sum: int)
  {
    ref in kept || sum + kv(ref) + p.headroom <= p.maximum
  }

  function Bound(kv: Estimates, p: Pool, ref: Ref, kept: seq<Ref>, sum: int): Pool
  {
    if ref in kept then p.(active := kept, count := |kept|, reserved := sum)
    else p.(active := kept + [ref], count := |kept| + 1, reserved := sum + kv(ref))
  }

  // What happens after a lease's reservation is gone: the lease is released, dropped, or it was a
  // victim and the next one follows.
  datatype After = Release | Drop | Evicting(c: Claim, rest: seq<Ref>, e: Ref)

  // Where the reconcile of a lease is: the next API call, with the copies it works on.
  datatype Control =
    | Idle
    | PutFinalizer(c: Claim)
    | Proceed(c: Claim)
    | PutPending(c: Claim)
    | PutRejected(c: Claim)
    | NextVictim(c: Claim, victims: seq<Ref>, e: Ref)
    | RemoveGet(target: Ref, copy: Claim, after: After, tries: nat)
    | RemovePut(target: Ref, copy: Claim, after: After, read: Pool, tries: nat)
    | PutEnded(target: Ref, copy: Claim, after: After)
    | DropFinalizer(c: Claim)
    | BindGet(c: Claim, e: Ref, tries: nat)
    | Lookup(c: Claim, e: Ref, read: Pool, i: nat, kept: seq<Ref>, sum: int, tries: nat)
    | BindPut(c: Claim, e: Ref, read: Pool, updated: Pool, tries: nat)
    | PutRunning(c: Claim, e: Ref)

  datatype World = World(pools: map<Ref, Pool>, claims: map<Ref, Claim>, control: map<Ref, Control>)

  // The scheduler's and the policy's answer.
  datatype Verdict = BindTo(e: Ref) | EvictFor(e: Ref, victims: seq<Ref>) | Later | RejectIt

  datatype Choice = Choice(fails: bool, verdict: Verdict)

  datatype Event =
    | Begin(ref: Ref)
    | Continue(ref: Ref, choice: Choice)
    | Crash(ref: Ref)
    | CreateClaim(ref: Ref)
    | DeleteClaim(ref: Ref)
    | AskRelease(ref: Ref)
    | CreatePool(ref: Ref, maximum: int, headroom: int)
    | DeletePool(ref: Ref)

  function At(w: World, ref: Ref): Control
  {
    if ref in w.control then w.control[ref] else Idle
  }

  function GoTo(w: World, ref: Ref, next: Control): World
  {
    w.(control := w.control[ref := next])
  }

  // Update of a lease: a compare-and-swap on the copy.
  function PutClaim(w: World, ref: Ref, target: Ref, copy: Claim, fails: bool, updated: Claim, next: Control): World
  {
    if fails || target !in w.claims || w.claims[target] != copy then GoTo(w, ref, Idle)
    else GoTo(w.(claims := w.claims[target := updated]), ref, next)
  }

  function PutPool(w: World, ref: Ref, e: Ref, read: Pool, updated: Pool, fails: bool, conflict: Control,
                   next: Control): World
  {
    if fails then GoTo(w, ref, Idle)
    else if e !in w.pools || w.pools[e] != read then GoTo(w, ref, conflict)
    else GoTo(w.(pools := w.pools[e := updated]), ref, next)
  }

  // An update of an endpoint that meets a conflict is tried again on a fresh read, five times in all.
  const TRIES: nat := 5

  function RemoveAgain(target: Ref, copy: Claim, after: After, tries: nat): Control
  {
    if tries + 1 < TRIES then RemoveGet(target, copy, after, tries + 1) else Idle
  }

  function BindAgain(c: Claim, e: Ref, tries: nat): Control
  {
    if tries + 1 < TRIES then BindGet(c, e, tries + 1) else Idle
  }

  function Begins(w: World, ref: Ref): Control
  {
    if ref !in w.claims then Idle
    else
      var c := w.claims[ref];
      if c.deleting then if c.finalizer then StartRemoving(ref, c, Drop) else Idle
      else if !c.finalizer then PutFinalizer(c)
      else Proceed(c)
  }

  // A lease without an endpoint has nothing to remove.
  function StartRemoving(ref: Ref, c: Claim, after: After): Control
  {
    if c.endpoint.None? then AfterRemoving(ref, c, after) else RemoveGet(ref, c, after, 0)
  }

  function AfterRemoving(ref: Ref, c: Claim, after: After): Control
  {
    if after == Drop then DropFinalizer(c) else PutEnded(ref, c, after)
  }

  function Proceeds(ref: Ref, c: Claim, verdict: Verdict): Control
  {
    if c.releaseAsked && !TerminalPhase(c.phase) then StartRemoving(ref, c, Release)
    else if c.phase == Running || TerminalPhase(c.phase) then Idle
    else if c.phase == Unset then PutPending(c)
    else
      match verdict
      case BindTo(e) => BindGet(c, e, 0)
      case EvictFor(e, victims) => NextVictim(c, victims, e)
      case Later => Idle
      case RejectIt => PutRejected(c)
  }

  function VictimStep(w: World, ref: Ref, c: Claim, victims: seq<Ref>, e: Ref): Control
  {
    if victims == [] then BindGet(c, e, 0)
    else if victims[0] !in w.claims then NextVictim(c, victims[1..], e)
    else StartRemoving(victims[0], w.claims[victims[0]], Evicting(c, victims[1..], e))
  }

  // Whether pruning keeps an active lease, by what a lookup of it shows.
  predicate Kept(w: World, ref: Ref, e: Ref)
  {
    && ref in w.claims && !w.claims[ref].deleting && !TerminalPhase(w.claims[ref].phase)
    && (w.claims[ref].endpoint.Some? ==> w.claims[ref].endpoint.value == e)
  }

  // One entry of the prune loop, or what follows it.
  function LookupStep(kv: Estimates, w: World, ref: Ref, k: Control): Control
    requires k.Lookup?
  {
    if k.i < |k.read.active| then
      var entry := k.read.active[k.i];
      if entry in k.read.active[..k.i] || !Kept(w, entry, k.e) then k.(i := k.i + 1)
      else k.(i := k.i + 1, kept := k.kept + [entry], sum := k.sum + kv(entry))
    else if !Fits(kv, k.read, ref, k.kept, k.sum) then Idle
    else
      var updated := Bound(kv, k.read, ref, k.kept, k.sum);
      if updated == k.read then PutRunning(k.c, k.e) else BindPut(k.c, k.e, k.read, updated, k.tries)
  }

  function EndedPhase(after: After): Phase
  {
    if after == Release then Succeeded else Interrupted
  }

  function WhenEnded(after: After): Control
  {
    match after
    case Evicting(c, rest, e) => NextVictim(c, rest, e)
    case _ => Idle
  }

  // One API call of the reconcile in flight for a lease.
  function ContinueStep(kv: Estimates, w: World, ref: Ref, choice: Choice): World
  {
    match At(w, ref)
    case Idle => w
    case PutFinalizer(c) =>
      PutClaim(w, ref, ref, c, choice.fails, c.(finalizer := true), Proceed(c.(finalizer := true)))
    case Proceed(c) => GoTo(w, ref, if choice.fails then Idle else Proceeds(ref, c, choice.verdict))
    case PutPending(c) => PutClaim(w, ref, ref, c, choice.fails, c.(phase := Pending), Idle)
    case PutRejected(c) => PutClaim(w, ref, ref, c, choice.fails, c.(phase := Rejected), Idle)
    case NextVictim(c, victims, e) =>
      GoTo(w, ref, if choice.fails && victims != [] then Idle else VictimStep(w, ref, c, victims, e))
    case RemoveGet(target, copy, after, tries) =>
      GoTo(w, ref,
           if choice.fails || copy.endpoint.None? then Idle
           else if copy.endpoint.value in w.pools && target in w.pools[copy.endpoint.value].active
             then RemovePut(target, copy, after, w.pools[copy.endpoint.value], tries)
           else AfterRemoving(target, copy, after))
    case RemovePut(target, copy, after, read, tries) =>
      if copy.endpoint.None? then GoTo(w, ref, Idle)
      else
        PutPool(w, ref, copy.endpoint.value, read, Removed(kv, read, target), choice.fails,
                RemoveAgain(target, copy, after, tries), AfterRemoving(target, copy, after))
    case PutEnded(target, copy, after) =>
      PutClaim(w, ref, target, copy, choice.fails, copy.(phase := EndedPhase(after)), WhenEnded(after))
    case DropFinalizer(c) =>
      if choice.fails || ref !in w.claims || w.claims[ref] != c then GoTo(w, ref, Idle)
      else GoTo(w.(claims := w.claims - {ref}), ref, Idle)
    case BindGet(c, e, tries) =>
      GoTo(w, ref, if choice.fails || e !in w.pools then Idle else Lookup(c, e, w.pools[e], 0, [], 0, tries))
    case Lookup(_, _, read, i, _, _, _) =>
      GoTo(w, ref, if choice.fails && i < |read.active| then Idle else LookupStep(kv, w, ref, At(w, ref)))
    case BindPut(c, e, read, updated, tries) =>
      PutPool(w, ref, e, read, updated, choice.fails, BindAgain(c, e, tries), PutRunning(c, e))
    case PutRunning(c, e) =>
      PutClaim(w, ref, ref, c, choice.fails, c.(phase := Running, endpoint := Some(e)), Idle)
  }

  function DeleteClaimStep(w: World, ref: Ref): World
  {
    if ref !in w.claims then w
    else if w.claims[ref].finalizer then w.(claims := w.claims[ref := w.claims[ref].(deleting := true)])
    else w.(claims := w.claims - {ref})
  }

  function Step(kv: Estimates, w: World, event: Event): World
  {
    match event
    case Begin(ref) => if At(w, ref) == Idle then GoTo(w, ref, Begins(w, ref)) else w
    case Continue(ref, choice) => ContinueStep(kv, w, ref, choice)
    case Crash(ref) => GoTo(w, ref, Idle)
    case CreateClaim(ref) =>
      if ref in w.claims then w else w.(claims := w.claims[ref := Claim(Unset, false, false, false, None)])
    case DeleteClaim(ref) => DeleteClaimStep(w, ref)
    case AskRelease(ref) =>
      if ref in w.claims then w.(claims := w.claims[ref := w.claims[ref].(releaseAsked := true)]) else w
    case CreatePool(ref, maximum, headroom) =>
      if ref in w.pools || headroom > maximum then w
      else w.(pools := w.pools[ref := Pool(maximum, headroom, [], 0, 0)])
    case DeletePool(ref) => w.(pools := w.pools - {ref})
  }

  function Run(kv: Estimates, events: seq<Event>): World
    decreases |events|
  {
    if events == [] then World(map[], map[], map[])
    else Step(kv, Run(kv, events[..|events| - 1]), events[|events| - 1])
  }
}
