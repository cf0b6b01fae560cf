/**
  The workspace writer lease: what one attempt to acquire or release it decides from the lease it
  read, and the terms it was ever granted for.
*/
module WriterLease {
  import opened Wrappers

  // A writer: its name and the UID of that object.  Kind and namespace are the same for all.
  datatype Identity = Identity(name: string, uid: nat)

  // WorkspaceWriterIdentity: what the lease and the pods carry for it.
  function IdentityText(kind: string, namespace: string, name: string, uid: string): string
  {
    kind + "/" + (namespace + "/" + (name + "/" + uid))
  }

  lemma {:induction false} SplitAtSlash(a: string, rest: string, b: string, other: string)
    requires '/' !in a && '/' !in b && a + "/" + rest == b + "/" + other
    ensures a == b && rest == other
  {
    var left, right := a + "/" + rest, b + "/" + other;
    if a == "" || b == "" {
      assert left[0] == right[0];
      assert a == "" && b == "";
      assert left[1..] == rest && right[1..] == other;
    } else {
      assert a[0] == left[0] == right[0] == b[0];
      assert left[1..] == a[1..] + "/" + rest && right[1..] == b[1..] + "/" + other;
      SplitAtSlash(a[1..], rest, b[1..], other);
      assert a == [a[0]] + a[1..] && b == [b[0]] + b[1..];
    }
  }

  // Names in a cluster have no slash, so different writers have different texts.
  lemma IdentityTextIsInjective(kind: string, namespace: string, name: string, uid: string,
                                kind2: string, namespace2: string, name2: string, uid2: string)
    requires '/' !in kind && '/' !in namespace && '/' !in name && '/' !in kind2 && '/' !in namespace2 && '/' !in name2
    requires IdentityText(kind, namespace, name, uid) == IdentityText(kind2, namespace2, name2, uid2)
    ensures kind == kind2 && namespace == namespace2 && name == name2 && uid == uid2
  {
    SplitAtSlash(kind, namespace + "/" + (name + "/" + uid), kind2, namespace2 + "/" + (name2 + "/" + uid2));
    SplitAtSlash(namespace, name + "/" + uid, namespace2, name2 + "/" + uid2);
    SplitAtSlash(name, uid, name2, uid2);
  }

  datatype LeaseState = Present | Deleting | Removed

  datatype Lease = Lease(holder: Option<Identity>, epoch: nat, state: LeaseState)

  // LeaseTransitions is an int32.
  const MAX_INT32: nat := 2147483647

  datatype Answer = Granted(epoch: nat) | Blocked | Lost | Failed | Take

  // One pass of the acquire loop, up to its write.
  function AcquireAnswer(lease: Lease, holder: Identity, expected: nat): Answer
  {
    if lease.state == Removed then Failed
    else if expected > 0 then
      if lease.holder == Some(holder) && lease.epoch == expected then Granted(expected) else Lost
    else if lease.holder == Some(holder) then
      if lease.epoch < 1 then Failed else Granted(lease.epoch)
    else if lease.holder.Some? then Blocked
    else if lease.epoch == MAX_INT32 then Failed
    else Take
  }

  function Taken(lease: Lease, holder: Identity): Lease
  {
    lease.(holder := Some(holder), epoch := lease.epoch + 1)
  }

  // Whether a release of this term has anything to write.
  predicate Releases(lease: Lease, holder: Identity, epoch: nat)
  {
    lease.state == Present && lease.holder == Some(holder) && lease.epoch == epoch
  }

  function Freed(lease: Lease): Lease
  {
    lease.(holder := None)
  }

  // The lease together with the holders of all terms so far, first epoch first.
  ghost predicate LeaseInv(lease: Lease, grants: seq<Identity>)
  {
    && lease.epoch == |grants| <= MAX_INT32
    && (lease.holder.Some? ==> lease.epoch >= 1 && lease.holder.value == grants[lease.epoch - 1])
  }

  predicate Holds(lease: Lease, holder: Identity, epoch: nat)
  {
    lease.holder == Some(holder) && lease.epoch == epoch
  }

  predicate WasGranted(grants: seq<Identity>, holder: Identity, epoch: nat)
  {
    1 <= epoch <= |grants| && grants[epoch - 1] == holder
  }

  // A term that was granted and is no longer held cannot be held again: its epoch has passed, or
  // the next grant will pass it.
  ghost predicate Over(lease: Lease, grants: seq<Identity>, holder: Identity, epoch: nat)
  {
    WasGranted(grants, holder, epoch) && !Holds(lease, holder, epoch)
  }

  lemma AcquireKeepsLease(lease: Lease, grants: seq<Identity>, holder: Identity)
    requires LeaseInv(lease, grants) && AcquireAnswer(lease, holder, 0) == Take
    ensures LeaseInv(Taken(lease, holder), grants + [holder])
    ensures forall h, e | Over(lease, grants, h, e) :: Over(Taken(lease, holder), grants + [holder], h, e)
    ensures forall h, e | WasGranted(grants, h, e) :: WasGranted(grants + [holder], h, e)
  {}

  lemma ReleaseKeepsLease(lease: Lease, grants: seq<Identity>, holder: Identity, epoch: nat)
    requires LeaseInv(lease, grants) && Releases(lease, holder, epoch)
    ensures LeaseInv(Freed(lease), grants) && Over(Freed(lease), grants, holder, epoch)
    ensures forall h, e | Over(lease, grants, h, e) :: Over(Freed(lease), grants, h, e)
  {}
}
