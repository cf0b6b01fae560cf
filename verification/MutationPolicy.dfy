/**
  Which workspace paths an agent may change: the policy an output contract and an accepted
  implementation plan give.
*/
module MutationPolicy {
  import opened Wrappers
  import opened Paths
  import opened Manifest

  datatype AffectedPath = AffectedPath(path: Path, action: Action)

  datatype Contract = TestChangeSet | ChangeSet | OtherContract

  // The server has no policy when the output contract is not a change set.
  datatype Policy = NoPolicy | TestPolicy | PlanPolicy(actions: map<Path, Action>)

  function ActionsOf(affected: seq<AffectedPath>): map<Path, Action>
  {
    if affected == [] then map[]
    else
      var last := affected[|affected| - 1];
      ActionsOf(affected[..|affected| - 1])[last.path := last.action]
  }

  method NewWorkspaceMutationPolicy(contract: Contract, plan: Option<seq<AffectedPath>>)
      returns (policy: Outcome<Policy>)
    ensures policy == match contract
      case TestChangeSet => Ok(TestPolicy)
      case ChangeSet => (if plan.Some? then Ok(PlanPolicy(ActionsOf(plan.value))) else Refused)
      case OtherContract => Refused
  {
    match contract
    case TestChangeSet => return Ok(TestPolicy);
    case OtherContract => return Refused;
    case ChangeSet =>
      if plan.None? {
        return Refused;
      }
      var actions := map[];
      for i := 0 to |plan.value|
        invariant actions == ActionsOf(plan.value[..i])
      {
        assert plan.value[..i + 1][..i] == plan.value[..i];
        actions := actions[plan.value[i].path := plan.value[i].action];
      }
      assert plan.value[..|plan.value|] == plan.value;
      return Ok(PlanPolicy(actions));
  }

  predicate ValidateUpdate(policy: Policy, path: Path)
  {
    match policy
    case NoPolicy => true
    case TestPolicy => IsTestPath(path)
    case PlanPolicy(actions) => path in actions && !IsTestPath(path) && actions[path] in {Modify, Add}
  }

  predicate ValidateCreate(policy: Policy, path: Path)
  {
    match policy
    case NoPolicy => true
    case TestPolicy => false
    case PlanPolicy(_) => RequireAction(policy, path, Add)
  }

  predicate ValidateDelete(policy: Policy, path: Path)
  {
    match policy
    case NoPolicy => true
    case TestPolicy => IsTestPath(path)
    case PlanPolicy(_) => RequireAction(policy, path, Delete)
  }

  predicate RequireAction(policy: Policy, path: Path, expected: Action)
    requires policy.PlanPolicy?
  {
    !IsTestPath(path) && path in policy.actions && policy.actions[path] == expected
  }

  // The inspected paths the policy lets an agent update.
  function AuthorizedUpdatePaths(policy: Policy, paths: set<Path>): set<Path>
  {
    set p | p in paths && ValidateUpdate(policy, p)
  }

  predicate AcceptedItem(item: AffectedPath, existing: set<Path>)
  {
    item.path in existing <==> item.action != Add
  }

  // validateAffectedWorkspacePaths: a plan is judged only against a complete listing.
  method ValidateAffectedWorkspacePaths(affected: seq<AffectedPath>, existing: set<Path>, observed: bool,
                                        complete: bool)
      returns (accepted: bool)
    ensures accepted <==> !observed || (complete && forall item | item in affected :: AcceptedItem(item, existing))
  {
    if !observed {
      return true;
    }
    if !complete {
      return false;
    }
    for i := 0 to |affected|
      invariant forall j | 0 <= j < i :: AcceptedItem(affected[j], existing)
    {
      assert affected[i] in affected;
      match affected[i].action
      case Add =>
        if affected[i].path in existing {
          return false;
        }
      case Modify =>
        if affected[i].path !in existing {
          return false;
        }
      case Delete =>
        if affected[i].path !in existing {
          return false;
        }
    }
    return true;
  }

  // In the policy of an accepted plan, add means absent and modify or delete means present.
  lemma {:induction false} ActionsMatchListing(affected: seq<AffectedPath>, existing: set<Path>)
    requires forall item | item in affected :: AcceptedItem(item, existing)
    ensures forall p | p in ActionsOf(affected) :: p in existing <==> ActionsOf(affected)[p] != Add
  {
    if affected != [] {
      assert affected[|affected| - 1] in affected;
      ActionsMatchListing(affected[..|affected| - 1], existing);
    }
  }

  // What an affected path is listed for last is its action, and a path that is not listed has none.
  lemma {:induction false} ActionsOfIsLast(affected: seq<AffectedPath>)
    ensures forall p :: p in ActionsOf(affected) <==> exists item :: item in affected && item.path == p
    ensures forall i | 0 <= i < |affected| && (forall j | i < j < |affected| :: affected[j].path != affected[i].path) ::
      ActionsOf(affected)[affected[i].path] == affected[i].action
  {
    if affected != [] {
      var n := |affected| - 1;
      var init := affected[..n];
      ActionsOfIsLast(init);
      assert affected == init + [affected[n]];
      assert forall item :: item in affected <==> item in init || item == affected[n];
      forall i | 0 <= i < |affected| && (forall j | i < j < |affected| :: affected[j].path != affected[i].path)
        ensures ActionsOf(affected)[affected[i].path] == affected[i].action
      {
        if i < n {
          assert affected[n].path != affected[i].path;
          assert init[i] == affected[i];
        }
      }
    }
  }
}
