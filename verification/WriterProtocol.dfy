/**
  The HumanSession controller as a client of the workspace writer lease.

  Every API call of a reconcile is one step, and steps of different sessions, pod changes, session
  creation and deletion, lease deletion and crashes interleave in any order.  A write of a session
  or of the lease takes effect only when the stored object still equals the copy it was computed
  from; it may also fail for any other reason.  One reconcile per session name is in flight at a
  time.
*/
module WriterProtocol {
  import opened Wrappers
  import opened WriterLease

  datatype Phase = Unset | Preparing | Running | Cancelled | Interrupted

  datatype Session = Session(
    uid: nat, finalizer: bool, deleting: bool, phase: Phase, epoch: nat, released: bool, podRef: bool)

  datatype PodPhase = PodPending | PodRunning | PodSucceeded | PodFailed

  // A pod carries the term it was created under in its annotations and environment.
  datatype Pod = Pod(holder: Identity, epoch: nat, phase: PodPhase, ready: bool)

  datatype Purpose = Expiry | Terminal | Deletion

  // Where a reconcile of a session is: the next API call, with the copy it works on.
  datatype Control =
    | Idle
    | PutFinalizer(c: Session)
    | Decide(c: Session)
    | PutPreparing(c: Session)
    | AcquireGet(c: Session, tries: nat)
    | AcquirePut(c: Session, read: Lease, tries: nat)
    | PutGrant(c: Session, granted: nat)
    | CreatePod(c: Session)
    | GetPod(c: Session)
    | PutObserved(c: Session, observed: Phase)
    | DeleteToInterrupt(c: Session)
    | PutInterrupted(c: Session)
    | DeletePod(c: Session, purpose: Purpose)
    | CheckQuiet(c: Session, purpose: Purpose)
    | ReleaseGet(c: Session, purpose: Purpose, tries: nat)
    | ReleasePut(c: Session, purpose: Purpose, read: Lease, tries: nat)
    | PutReleased(c: Session, purpose: Purpose)
    | PutCancelled(c: Session)
    | DropFinalizer(c: Session)

  datatype World = World(
    lease: Lease,
    sessions: map<string, Session>,
    pods: map<string, Pod>,
    control: map<string, Control>,
    nextUid: nat,
    // what has happened: the holder of each epoch
    grants: seq<Identity>)

  // What a step does not decide itself: failing calls, time, the namespace, the workflow, the pod.
  datatype Choice = Choice(fails: bool, expired: bool, terminating: bool, noLeaseRef: bool, podGone: bool)

  datatype Event =
    | Begin(name: string)
    | Continue(name: string, choice: Choice)
    | Crash(name: string)
    | CreateSession(name: string)
    | DeleteSession(name: string)
    | PodChanges(name: string, phase: PodPhase, ready: bool)
    | PodRemoved(name: string)
    | LeaseDeleted(finalizers: bool)

  predicate Live(pod: Pod)
  {
    pod.phase != PodSucceeded && pod.phase != PodFailed
  }

  predicate LivePod(pods: map<string, Pod>, name: string)
  {
    name in pods && Live(pods[name])
  }

  predicate TerminalPhase(phase: Phase)
  {
    phase == Cancelled || phase == Interrupted
  }

  function At(w: World, name: string): Control
  {
    if name in w.control then w.control[name] else Idle
  }

  function GoTo(w: World, name: string, next: Control): World
  {
    w.(control := w.control[name := next])
  }

  predicate Unchanged(w: World, name: string, c: Session)
  {
    name in w.sessions && w.sessions[name] == c
  }

  // Update of the session object: a compare-and-swap on the copy.
  function Put(w: World, name: string, c: Session, fails: bool, updated: Session, next: Control): World
  {
    if fails || !Unchanged(w, name, c) then GoTo(w, name, Idle)
    else GoTo(w.(sessions := w.sessions[name := updated]), name, next)
  }

  function Begins(w: World, name: string): Control
  {
    if name !in w.sessions then Idle
    else
      var c := w.sessions[name];
      if c.deleting then if c.finalizer then DeletePod(c, Deletion) else Idle
      else if !c.finalizer then PutFinalizer(c)
      else Decide(c)
  }

  predicate NothingToRelease(c: Session)
  {
    c.epoch < 1 || c.released
  }

  function Decided(c: Session, choice: Choice): Control
  {
    if choice.expired then DeletePod(c, Expiry)
    else if choice.terminating then Idle
    else if c.phase == Unset then PutPreparing(c)
    else if TerminalPhase(c.phase) then if NothingToRelease(c) then Idle else CheckQuiet(c, Terminal)
    else if choice.noLeaseRef then WhenBlocked(c)
    else AcquireGet(c, 0)
  }

  function WhenBlocked(c: Session): Control
  {
    if c.podRef then DeleteToInterrupt(c) else Idle
  }

  // After the pod was found quiescent.
  function WhenQuiet(c: Session, purpose: Purpose): Control
  {
    match purpose
    case Expiry =>
      if c.phase == Cancelled then Idle else if NothingToRelease(c) then PutCancelled(c) else ReleaseGet(c, Expiry, 0)
    case Terminal => ReleaseGet(c, Terminal, 0)
    case Deletion => if NothingToRelease(c) then DropFinalizer(c) else ReleaseGet(c, Deletion, 0)
  }

  function WhenReleased(c: Session, purpose: Purpose): Control
  {
    match purpose
    case Expiry => PutCancelled(c)
    case Terminal => Idle
    case Deletion => DropFinalizer(c)
  }

  function ObservedPhase(pod: Pod): Phase
  {
    if pod.phase == PodRunning && pod.ready then Running else Preparing
  }

  function AcquireStep(w: World, name: string, c: Session, tries: nat): World
  {
    var holder := Identity(name, c.uid);
    match AcquireAnswer(w.lease, holder, c.epoch)
    case Failed => GoTo(w, name, Idle)
    case Granted(e) => GoTo(w, name, PutGrant(c, e))
    case Lost => GoTo(w, name, DeleteToInterrupt(c))
    case Blocked => GoTo(w, name, WhenBlocked(c))
    case Take => GoTo(w, name, AcquirePut(c, w.lease, tries))
  }

  // A write that meets a conflict is tried again on a fresh read, five times in all.
  const TRIES: nat := 5

  function TakeStep(w: World, name: string, c: Session, read: Lease, tries: nat, fails: bool): World
  {
    var holder := Identity(name, c.uid);
    if fails then GoTo(w, name, Idle)
    else if w.lease != read then GoTo(w, name, if tries + 1 < TRIES then AcquireGet(c, tries + 1) else Idle)
    else
      GoTo(w.(lease := Taken(read, holder), grants := w.grants + [holder]), name, PutGrant(c, read.epoch + 1))
  }

  function FreeStep(w: World, name: string, c: Session, purpose: Purpose, read: Lease, tries: nat, fails: bool): World
  {
    if fails then GoTo(w, name, Idle)
    else if w.lease != read then GoTo(w, name, if tries + 1 < TRIES then ReleaseGet(c, purpose, tries + 1) else Idle)
    else GoTo(w.(lease := Freed(read)), name, PutReleased(c, purpose))
  }

  function CreateStep(w: World, name: string, c: Session): World
  {
    var pods := if name in w.pods then w.pods
      else w.pods[name := Pod(Identity(name, c.uid), c.epoch, PodPending, false)];
    GoTo(w.(pods := pods), name, GetPod(c))
  }

  function DeleteStep(w: World, name: string, gone: bool, next: Control): World
  {
    GoTo(if gone then w.(pods := w.pods - {name}) else w, name, next)
  }

  // One API call of the reconcile in flight for a session.
  function ContinueStep(w: World, name: string, choice: Choice): World
  {
    match At(w, name)
    case Idle => w
    case PutFinalizer(c) =>
      var updated := c.(finalizer := true);
      Put(w, name, c, choice.fails, updated, Decide(updated))
    case Decide(c) => GoTo(w, name, if choice.fails then Idle else Decided(c, choice))
    case PutPreparing(c) => Put(w, name, c, choice.fails, c.(phase := Preparing), Idle)
    case AcquireGet(c, tries) => if choice.fails then GoTo(w, name, Idle) else AcquireStep(w, name, c, tries)
    case AcquirePut(c, read, tries) => TakeStep(w, name, c, read, tries, choice.fails)
    case PutGrant(c, granted) =>
      var updated := c.(epoch := granted, released := false);
      Put(w, name, c, choice.fails, updated, CreatePod(updated))
    case CreatePod(c) => if choice.fails then GoTo(w, name, Idle) else CreateStep(w, name, c)
    case GetPod(c) =>
      if choice.fails || name !in w.pods then GoTo(w, name, Idle)
      else
        var observed := ObservedPhase(w.pods[name]);
        GoTo(w, name, if c.phase != observed || !c.podRef then PutObserved(c, observed) else Idle)
    case PutObserved(c, observed) => Put(w, name, c, choice.fails, c.(phase := observed, podRef := true), Idle)
    case DeleteToInterrupt(c) =>
      if choice.fails then GoTo(w, name, Idle) else DeleteStep(w, name, choice.podGone, PutInterrupted(c))
    case PutInterrupted(c) => Put(w, name, c, choice.fails, c.(phase := Interrupted), Idle)
    case DeletePod(c, purpose) =>
      if choice.fails then GoTo(w, name, Idle) else DeleteStep(w, name, choice.podGone, CheckQuiet(c, purpose))
    case CheckQuiet(c, purpose) =>
      GoTo(w, name, if choice.fails || LivePod(w.pods, name) then Idle else WhenQuiet(c, purpose))
    case ReleaseGet(c, purpose, tries) =>
      GoTo(w, name,
           if choice.fails then Idle
           else if Releases(w.lease, Identity(name, c.uid), c.epoch) then ReleasePut(c, purpose, w.lease, tries)
           else PutReleased(c, purpose))
    case ReleasePut(c, purpose, read, tries) => FreeStep(w, name, c, purpose, read, tries, choice.fails)
    case PutReleased(c, purpose) =>
      var updated := c.(released := true);
      Put(w, name, c, choice.fails, updated, WhenReleased(updated, purpose))
    case PutCancelled(c) => Put(w, name, c, choice.fails, c.(phase := Cancelled), Idle)
    case DropFinalizer(c) =>
      if choice.fails || !Unchanged(w, name, c) then GoTo(w, name, Idle)
      else GoTo(w.(sessions := w.sessions - {name}), name, Idle)
  }

  // Pods end once: a succeeded or failed pod never runs again.
  function PodStep(w: World, name: string, phase: PodPhase, ready: bool): World
  {
    if LivePod(w.pods, name) then w.(pods := w.pods[name := w.pods[name].(phase := phase, ready := ready)]) else w
  }

  // Deletion waits for the finalizer; without one the object is gone at once.
  function DeleteSessionStep(w: World, name: string): World
  {
    if name !in w.sessions then w
    else if w.sessions[name].finalizer then w.(sessions := w.sessions[name := w.sessions[name].(deleting := true)])
    else w.(sessions := w.sessions - {name})
  }

  function Step(w: World, event: Event): World
  {
    match event
    case Begin(name) => if At(w, name) == Idle then GoTo(w, name, Begins(w, name)) else w
    case Continue(name, choice) => ContinueStep(w, name, choice)
    case Crash(name) => GoTo(w, name, Idle)
    case CreateSession(name) =>
      if name in w.sessions then w
      else w.(sessions := w.sessions[name := Session(w.nextUid, false, false, Unset, 0, false, false)],
              nextUid := w.nextUid + 1)
    case DeleteSession(name) => DeleteSessionStep(w, name)
    case PodChanges(name, phase, ready) => PodStep(w, name, phase, ready)
    case PodRemoved(name) => w.(pods := w.pods - {name})
    case LeaseDeleted(finalizers) =>
      w.(lease := w.lease.(state := if finalizers && w.lease.state != Removed then Deleting else Removed))
  }

  function Run(w: World, events: seq<Event>): World
    decreases |events|
  {
    if events == [] then w else Step(Run(w, events[..|events| - 1]), events[|events| - 1])
  }

  const START: World := World(Lease(None, 0, Present), map[], map[], map[], 0, [])
}
