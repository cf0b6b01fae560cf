/**
  Binding an operation to the human approval it needs: the latest attempt at the gate, the admitted
  decision on it, and the one artifact that both the approver and the operation name.  Every lookup may
  have a different moment, so its answer is a parameter.
*/
module ApprovalBinding {
  import opened Wrappers
  import opened Approval

  datatype Requirement = Requirement(step: string, subject: string)

  // A step attempt, with what its references and owner come down to.
  datatype Attempt = Attempt(
    self: UidRef, workflow: UidRef, step: string, workflowAttempt: int, retry: int, deleting: bool,
    succeeded: bool, terminal: bool, humanGate: bool, ownedByWorkflow: bool, request: Option<string>)

  // An approval request as read: whether the gate attempt controls it is part of the answer.
  datatype ReadRequest = ReadRequest(name: string, request: Request, ownedByGate: bool)

  datatype Resolution = Resolution(
    requirement: Requirement, request: UidRef, decision: DecisionName, decisionUid: nat, subject: Pin, event: EventId)

  // ---- the gate ----

  predicate AtGate(item: Attempt, consumer: Attempt, required: Requirement)
  {
    item.workflow == consumer.workflow && item.step == required.step && item.workflowAttempt == consumer.workflowAttempt
  }

  datatype Scan = NoGate | Ambiguous | Gate(gate: Attempt)

  // Two attempts at the gate share a retry number and nothing before the second of them is later.
  ghost predicate Clash(items: seq<Attempt>, consumer: Attempt, required: Requirement, i: nat, j: nat)
  {
    && i < j < |items| && AtGate(items[i], consumer, required) && AtGate(items[j], consumer, required)
    && items[i].retry == items[j].retry
    && forall k | 0 <= k < j && AtGate(items[k], consumer, required) :: items[k].retry <= items[j].retry
  }

  // The only attempt at the gate with the highest retry number.
  ghost predicate IsLatest(gate: Attempt, items: seq<Attempt>, consumer: Attempt, required: Requirement)
  {
    exists g :: 0 <= g < |items| && items[g] == gate && AtGate(gate, consumer, required)
      && forall k | 0 <= k < |items| && k != g && AtGate(items[k], consumer, required) :: items[k].retry < gate.retry
  }

  method LatestGate(items: seq<Attempt>, consumer: Attempt, required: Requirement) returns (scan: Scan)
    ensures scan.NoGate? <==> forall i | 0 <= i < |items| :: !AtGate(items[i], consumer, required)
    ensures scan.Gate? ==> IsLatest(scan.gate, items, consumer, required)
    ensures scan.Ambiguous? <==> exists i, j :: Clash(items, consumer, required, i, j)
  {
    scan := NoGate;
    ghost var g := 0;
    for i := 0 to |items|
      invariant !scan.Ambiguous?
      invariant scan.NoGate? ==> forall k | 0 <= k < i :: !AtGate(items[k], consumer, required)
      invariant scan.Gate? ==> 0 <= g < i && items[g] == scan.gate && AtGate(scan.gate, consumer, required)
      invariant scan.Gate? ==>
        forall k | 0 <= k < i && k != g && AtGate(items[k], consumer, required) :: items[k].retry < scan.gate.retry
      invariant forall j, l | 0 <= j < l < i :: !Clash(items, consumer, required, j, l)
    {
      var item := items[i];
      if !AtGate(item, consumer, required) {
        continue;
      }
      if scan.Gate? && item.retry == scan.gate.retry {
        assert Clash(items, consumer, required, g, i);
        return Ambiguous;
      }
      if scan.NoGate? || item.retry > scan.gate.retry {
        scan, g := Gate(item), i;
      }
    }
  }

  // With distinct retry numbers the scan is never ambiguous, and what it finds does not depend on
  // the order of the list.
  lemma DistinctRetriesAreClear(items: seq<Attempt>, consumer: Attempt, required: Requirement)
    requires forall i, j | 0 <= i < j < |items| && AtGate(items[i], consumer, required)
      && AtGate(items[j], consumer, required) ::
      items[i].retry != items[j].retry
    ensures !exists i, j :: Clash(items, consumer, required, i, j)
  {}

  lemma LatestIsUnique(a: Attempt, b: Attempt, items: seq<Attempt>, other: seq<Attempt>, consumer: Attempt,
                       required: Requirement)
    requires IsLatest(a, items, consumer, required) && IsLatest(b, other, consumer, required)
    requires multiset(items) == multiset(other)
    ensures a == b
  {
    assert a in items && b in other;
    assert a in multiset(items) && b in multiset(other);
    assert a in other && b in items;
  }

  // With repeated numbers it does depend on the order: 3, 3, 5 is ambiguous and 3, 5, 3 is not.
  lemma OrderDecidesAmbiguity(consumer: Attempt, required: Requirement, third: Attempt, fifth: Attempt)
    requires AtGate(third, consumer, required) && AtGate(fifth, consumer, required)
    requires third.retry == 3 && fifth.retry == 5
    ensures exists i, j :: Clash([third, third, fifth], consumer, required, i, j)
    ensures !exists i, j :: Clash([third, fifth, third], consumer, required, i, j)
    ensures multiset([third, third, fifth]) == multiset([third, fifth, third])
  {
    assert Clash([third, third, fifth], consumer, required, 0, 1);
    var clear := [third, fifth, third];
    assert clear[1].retry > clear[2].retry;
  }

  // ---- the subject ----

  predicate ExactPin(pin: Pin)
  {
    pin.artifact.Some? && pin.artifact.value.name != "" && pin.artifact.value.uid != "" && pin.digest != ""
  }

  function NamedPins(inputs: seq<Pin>, name: string): seq<Pin>
  {
    if inputs == [] then []
    else
      var last := inputs[|inputs| - 1];
      NamedPins(inputs[..|inputs| - 1], name) + if last.name == name then [last] else []
  }

  // pinnedApprovalSubject: the only input of that name, if it is an exact pin.
  method PinnedSubject(inputs: seq<Pin>, name: string) returns (pinned: Outcome<Pin>)
    ensures pinned.Ok? <==> |NamedPins(inputs, name)| == 1 && ExactPin(NamedPins(inputs, name)[0])
    ensures pinned.Ok? ==> [pinned.value] == NamedPins(inputs, name)
  {
    var found: Option<Pin> := None;
    for i := 0 to |inputs|
      invariant NamedPins(inputs[..i], name) == if found.None? then [] else [found.value]
    {
      assert inputs[..i + 1][..i] == inputs[..i];
      if inputs[i].name == name {
        if found.Some? {
          NamedPinsGrow(inputs, i + 1, name);
          return Refused;
        }
        found := Some(inputs[i]);
      }
    }
    assert inputs[..|inputs|] == inputs;
    if found.None? || !ExactPin(found.value) {
      return Refused;
    }
    return Ok(found.value);
  }

  lemma {:induction false} NamedPinsGrow(inputs: seq<Pin>, k: nat, name: string)
    requires k <= |inputs|
    ensures |NamedPins(inputs[..k], name)| <= |NamedPins(inputs, name)|
    decreases |inputs|
  {
    if k == |inputs| {
      assert inputs[..k] == inputs;
    } else {
      assert inputs[..|inputs| - 1][..k] == inputs[..k];
      NamedPinsGrow(inputs[..|inputs| - 1], k, name);
    }
  }

  // ---- the workflow's steps ----

  datatype Kind = AgentStep | UtilityStep | HumanGateStep | ValidationStep

  datatype StepConfig = StepConfig(
    name: string, order: int, kind: Kind, utility: Option<string>, requires_: Option<Requirement>, inputs: seq<Pin>)

  const MERGE_REQUEST: string := "git.mergeRequest"

  // The gate a step requires is another, earlier human gate, and both have the subject as one input.
  ghost predicate SoundStep(steps: seq<StepConfig>, i: nat)
    requires i < |steps|
  {
    var step := steps[i];
    if step.requires_.None? then step.utility != Some(MERGE_REQUEST)
    else
      var required := step.requires_.value;
      && step.kind == UtilityStep && required.subject != ""
      && exists g :: 0 <= g < i && steps[g].name == required.step && steps[g].order < step.order
           && steps[g].kind == HumanGateStep
           && |NamedPins(step.inputs, required.subject)| == 1 && |NamedPins(steps[g].inputs, required.subject)| == 1
  }

  ghost predicate SoundSteps(steps: seq<StepConfig>)
  {
    && (forall i, j | 0 <= i < j < |steps| :: steps[i].name != steps[j].name)
    && forall i | 0 <= i < |steps| :: SoundStep(steps, i)
  }

  method ValidateApprovalRequirements(steps: seq<StepConfig>) returns (sound: bool)
    ensures sound <==> SoundSteps(steps)
  {
    var byName: map<string, nat> := map[];
    for i := 0 to |steps|
      invariant forall a, b | 0 <= a < b < i :: steps[a].name != steps[b].name
      invariant forall a | 0 <= a < i :: steps[a].name in byName && byName[steps[a].name] == a
      invariant forall name | name in byName :: byName[name] < i && steps[byName[name]].name == name
    {
      if steps[i].name in byName {
        return false;
      }
      byName := byName[steps[i].name := i];
    }
    for i := 0 to |steps|
      invariant forall k | 0 <= k < i :: SoundStep(steps, k)
    {
      var ok := ValidateStep(steps, i, byName);
      if !ok {
        return false;
      }
    }
    return true;
  }

  method ValidateStep(steps: seq<StepConfig>, i: nat, byName: map<string, nat>) returns (sound: bool)
    requires i < |steps|
    requires forall a | 0 <= a < |steps| :: steps[a].name in byName && byName[steps[a].name] == a
    requires forall name | name in byName :: byName[name] < |steps| && steps[byName[name]].name == name
    ensures sound <==> SoundStep(steps, i)
  {
    var step := steps[i];
    if step.requires_.None? {
      return step.utility != Some(MERGE_REQUEST);
    }
    var required := step.requires_.value;
    if step.kind != UtilityStep || required.subject == "" || required.step !in byName {
      return false;
    }
    var g := byName[required.step];
    if g >= i || steps[g].order >= step.order || steps[g].kind != HumanGateStep {
      return false;
    }
    var consumed := HasApprovalInput(step.inputs, required.subject);
    var reviewed := HasApprovalInput(steps[g].inputs, required.subject);
    return consumed && reviewed;
  }

  method HasApprovalInput(inputs: seq<Pin>, name: string) returns (has: bool)
    ensures has <==> |NamedPins(inputs, name)| == 1
  {
    var count := 0;
    for i := 0 to |inputs|
      invariant count == |NamedPins(inputs[..i], name)|
    {
      assert inputs[..i + 1][..i] == inputs[..i];
      if inputs[i].name == name {
        count := count + 1;
      }
    }
    assert inputs[..|inputs|] == inputs;
    return count == 1;
  }

  // ---- the authority ----

  predicate UsableGate(gate: Attempt)
  {
    !gate.deleting && gate.succeeded && gate.humanGate && gate.ownedByWorkflow && gate.request.Some?
  }

  // The request is the gate's own and carries an admitted approval.
  predicate AdmittedAt(gate: Attempt, read: ReadRequest)
  {
    var r := read.request;
    && !r.deleting && r.phase == Succeeded && r.decisionUid.Some? && r.decisionRef.Some?
    && r.spec.attempt == gate.self && read.ownedByGate
    && r.spec.workflow == gate.workflow && r.spec.step == gate.step && r.spec.retry == gate.retry
  }

  predicate ApprovesIt(read: ReadRequest, s: Stored)
  {
    && Some(s.uid) == read.request.decisionUid && s.decision.verdict == Approved && !s.deleting
    && ValidDecision(read.name, read.request.uid, read.request.spec, s.decision)
  }

  // Reviewed and operated on: the same artifact object with the same digest.
  predicate SameSubject(reviewed: Pin, operated: Pin)
  {
    reviewed.artifact == operated.artifact && reviewed.digest == operated.digest
  }

  // The succeeded human attempt at the required step, in the consumer's own attempt of the workflow,
  // with a higher retry number than every other one there.
  ghost predicate IsTheGate(gate: Attempt, items: seq<Attempt>, consumer: Attempt, required: Requirement)
  {
    && gate.workflow == consumer.workflow && gate.step == required.step
    && gate.workflowAttempt == consumer.workflowAttempt
    && (exists g :: 0 <= g < |items| && items[g] == gate
          && forall k | 0 <= k < |items| && k != g && items[k].workflow == gate.workflow
               && items[k].step == gate.step && items[k].workflowAttempt == gate.workflowAttempt ::
               items[k].retry < gate.retry)
    && gate.succeeded && gate.humanGate && gate.ownedByWorkflow && !gate.deleting
  }

  // The request is this gate's own and succeeded, by this decision, which was made for it and approves.
  ghost predicate IsTheApproval(gate: Attempt, read: ReadRequest, s: Stored)
  {
    var r, d := read.request, s.decision;
    && read.ownedByGate && r.spec.attempt == gate.self && r.spec.workflow == gate.workflow
    && r.spec.step == gate.step && r.spec.retry == gate.retry
    && !r.deleting && r.phase == Succeeded && r.completedAt.Some?
    && r.decisionRef == Some(d.name) && r.decisionUid == Some(s.uid)
    && !s.deleting && d.verdict == Approved && Counts(read.name, r, d)
  }

  // Both list one input of the required name, and it is the same artifact with the same digest.
  ghost predicate IsTheSubject(name: string, reviewed: seq<Pin>, operated: seq<Pin>)
  {
    && |NamedPins(reviewed, name)| == 1 && |NamedPins(operated, name)| == 1
    && var a, b := NamedPins(reviewed, name)[0], NamedPins(operated, name)[0];
    && a.artifact.Some? && b.artifact.Some? && a.digest != "" && a.digest == b.digest
    && a.artifact.value.name != "" && a.artifact.value.name == b.artifact.value.name
    && a.artifact.value.uid != "" && a.artifact.value.uid == b.artifact.value.uid
  }

  // What must hold for an operation to be authorized.
  ghost predicate Justified(required: Requirement, consumer: Attempt, items: seq<Attempt>,
                            requests: map<string, ReadRequest>, decisions: map<DecisionName, Stored>,
                            inputs: seq<Pin>, gate: Attempt)
  {
    && IsTheGate(gate, items, consumer, required) && gate.request.Some? && gate.request.value in requests
    && var read := requests[gate.request.value];
    && read.request.decisionRef.Some? && read.request.decisionRef.value in decisions
    && IsTheApproval(gate, read, decisions[read.request.decisionRef.value])
    && IsTheSubject(required.subject, read.request.spec.inputs, inputs)
  }

  // Besides the lookups: whether the evidence behind both sets of inputs is still accepted.
  ghost predicate Authorized(required: Requirement, consumer: Attempt, items: seq<Attempt>,
                             requests: map<string, ReadRequest>, decisions: map<DecisionName, Stored>,
                             inputs: seq<Pin>, evidenceStands: bool)
  {
    && evidenceStands && !(exists i, j :: Clash(items, consumer, required, i, j))
    && exists gate :: Justified(required, consumer, items, requests, decisions, inputs, gate)
  }

  ghost predicate ResolvesTo(resolution: Resolution, required: Requirement, consumer: Attempt, items: seq<Attempt>,
                             requests: map<string, ReadRequest>, decisions: map<DecisionName, Stored>, inputs: seq<Pin>)
  {
    exists gate ::
      && Justified(required, consumer, items, requests, decisions, inputs, gate)
      && var read := requests[gate.request.value];
      && resolution == Resolution(
           required, UidRef(read.name, read.request.uid),
           read.request.decisionRef.value, read.request.decisionUid.value,
           NamedPins(read.request.spec.inputs, required.subject)[0],
           Admitted(read.request.uid, read.request.decisionUid.value))
  }

  // ResolveRequiredApproval
  method Resolve(steps: seq<StepConfig>, workflow: UidRef, required: Option<Requirement>, consumer: Attempt,
                 items: seq<Attempt>, requests: map<string, ReadRequest>, decisions: map<DecisionName, Stored>,
                 inputs: seq<Pin>, evidenceStands: bool)
      returns (resolved: Outcome<Option<Resolution>>)
    ensures resolved == Ok(None) <==> SoundSteps(steps) && required.None?
    ensures resolved.Ok? && resolved.value.Some? <==>
      && SoundSteps(steps) && required.Some? && consumer.workflow == workflow && consumer.ownedByWorkflow
      && Authorized(required.value, consumer, items, requests, decisions, inputs, evidenceStands)
    ensures resolved.Ok? && resolved.value.Some? ==>
      ResolvesTo(resolved.value.value, required.value, consumer, items, requests, decisions, inputs)
  {
    var sound := ValidateApprovalRequirements(steps);
    if !sound {
      return Refused;
    }
    if required.None? {
      return Ok(None);
    }
    if consumer.workflow != workflow || !consumer.ownedByWorkflow {
      return Refused;
    }
    var resolution := ResolveGate(required.value, consumer, items, requests, decisions, inputs, evidenceStands);
    return if resolution.Refused? then Refused else Ok(Some(resolution.value));
  }

  method ResolveGate(required: Requirement, consumer: Attempt, items: seq<Attempt>, requests: map<string, ReadRequest>,
                     decisions: map<DecisionName, Stored>, inputs: seq<Pin>, evidenceStands: bool)
      returns (resolved: Outcome<Resolution>)
    ensures resolved.Ok? <==> Authorized(required, consumer, items, requests, decisions, inputs, evidenceStands)
    ensures resolved.Ok? ==> ResolvesTo(resolved.value, required, consumer, items, requests, decisions, inputs)
  {
    var scan := LatestGate(items, consumer, required);
    if scan.Ambiguous? {
      return Refused;
    }
    OnlyThisGate(scan, items, consumer, required);
    if scan.NoGate? || !UsableGate(scan.gate) {
      return Refused;
    }
    var gate := scan.gate;
    if gate.request.value !in requests {
      return Refused;
    }
    var read := requests[gate.request.value];
    if !AdmittedAt(gate, read) || read.request.decisionRef.value !in decisions {
      return Refused;
    }
    var s := decisions[read.request.decisionRef.value];
    if !ApprovesIt(read, s) {
      return Refused;
    }
    var reviewed := PinnedSubject(read.request.spec.inputs, required.subject);
    if reviewed.Refused? {
      return Refused;
    }
    var operated := PinnedSubject(inputs, required.subject);
    if operated.Refused? {
      return Refused;
    }
    if !SameSubject(reviewed.value, operated.value) || !evidenceStands || !Completes(read.request, s) {
      return Refused;
    }
    CountsIff(read.name, read.request, s.decision);
    assert Justified(required, consumer, items, requests, decisions, inputs, gate);
    return Ok(Resolution(required, UidRef(read.name, read.request.uid), read.request.decisionRef.value,
                         read.request.decisionUid.value, reviewed.value, Admitted(read.request.uid, s.uid)));
  }

  // Whatever the latest attempt is, the scan found it.
  lemma OnlyThisGate(scan: Scan, items: seq<Attempt>, consumer: Attempt, required: Requirement)
    requires scan.NoGate? <==> forall i | 0 <= i < |items| :: !AtGate(items[i], consumer, required)
    requires scan.Gate? ==> IsLatest(scan.gate, items, consumer, required)
    requires !scan.Ambiguous?
    ensures forall gate :: IsLatest(gate, items, consumer, required) ==> scan.Gate? && gate == scan.gate
  {
    forall gate | IsLatest(gate, items, consumer, required) ensures scan.Gate? && gate == scan.gate {
      if scan.Gate? {
        LatestIsUnique(gate, scan.gate, items, items, consumer, required);
      }
    }
  }

  // ---- the operation ----

  datatype Operation = Operation(step: string, utility: string, inputs: seq<Pin>, approval: Option<Resolution>)

  ghost predicate FirstNamed(steps: seq<StepConfig>, name: string, i: nat)
  {
    i < |steps| && steps[i].name == name && forall j | 0 <= j < i :: steps[j].name != name
  }

  // An operation may run unapproved only if nothing asks for an approval, and approved only under the
  // very binding that can be resolved now.
  ghost predicate MayRun(operation: Operation, step: StepConfig, steps: seq<StepConfig>, workflow: UidRef,
                         workflowAttempt: int, consumer: Option<Attempt>, items: seq<Attempt>,
                         requests: map<string, ReadRequest>, decisions: map<DecisionName, Stored>,
                         evidenceStands: bool)
  {
    if operation.approval.None? then step.requires_.None? && operation.utility != MERGE_REQUEST
    else
      && step.requires_.Some? && step.utility == Some(operation.utility) && consumer.Some?
      && !consumer.value.terminal && consumer.value.workflowAttempt == workflowAttempt
      && SoundSteps(steps) && consumer.value.workflow == workflow && consumer.value.ownedByWorkflow
      && Authorized(step.requires_.value, consumer.value, items, requests, decisions, operation.inputs, evidenceStands)
      && ResolvesTo(operation.approval.value, step.requires_.value, consumer.value, items, requests, decisions,
                    operation.inputs)
  }

  method ValidateOperationApproval(operation: Operation, steps: seq<StepConfig>, workflow: UidRef, workflowAttempt: int,
                                   consumer: Option<Attempt>, items: seq<Attempt>, requests: map<string, ReadRequest>,
                                   decisions: map<DecisionName, Stored>, evidenceStands: bool)
      returns (ok: bool)
    ensures ok <==> exists i: nat :: (FirstNamed(steps, operation.step, i)
      && MayRun(operation, steps[i], steps, workflow, workflowAttempt, consumer, items, requests, decisions,
                evidenceStands))
  {
    var i := 0;
    while i < |steps| && steps[i].name != operation.step
      invariant 0 <= i <= |steps| && forall j | 0 <= j < i :: steps[j].name != operation.step
    {
      i := i + 1;
    }
    if i == |steps| {
      return false;
    }
    var step := steps[i];
    assert FirstNamed(steps, operation.step, i) && forall k: nat :: FirstNamed(steps, operation.step, k) ==> k == i;
    if step.requires_.None? && operation.approval.None? && operation.utility != MERGE_REQUEST {
      return true;
    }
    if step.requires_.None? || operation.approval.None? || step.utility != Some(operation.utility) {
      return false;
    }
    if consumer.None? || consumer.value.terminal || consumer.value.workflowAttempt != workflowAttempt {
      return false;
    }
    var resolved := Resolve(steps, workflow, step.requires_, consumer.value, items, requests, decisions,
                            operation.inputs, evidenceStands);
    if resolved.Ok? && resolved.value.Some? {
      OneResolution(resolved.value.value, operation.approval.value, step.requires_.value, consumer.value, items,
                    requests, decisions, operation.inputs);
    }
    return resolved == Ok(operation.approval);
  }

  lemma OneResolution(a: Resolution, b: Resolution, required: Requirement, consumer: Attempt, items: seq<Attempt>,
                      requests: map<string, ReadRequest>, decisions: map<DecisionName, Stored>, inputs: seq<Pin>)
    requires ResolvesTo(a, required, consumer, items, requests, decisions, inputs)
    ensures ResolvesTo(b, required, consumer, items, requests, decisions, inputs) ==> a == b
  {
    if ResolvesTo(b, required, consumer, items, requests, decisions, inputs) {
      forall g, h | Justified(required, consumer, items, requests, decisions, inputs, g)
        && Justified(required, consumer, items, requests, decisions, inputs, h)
        ensures g == h
      {
        LatestIsUnique(g, h, items, items, consumer, required);
      }
    }
  }
}
