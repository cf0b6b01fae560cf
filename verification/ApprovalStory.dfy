/**
  The lineage story of an admitted human decision: which operations the builder makes for it, and
  what the log must hold for the story to be linked.  A payload is of the kind its event type names,
  or it is malformed.
*/
module ApprovalStory {
  import opened Wrappers
  import opened Lineage
  import opened Coherence
  import P = Projection

  datatype Ref = Ref(name: string, uid: string)

  // A pin, and the attempt it must come from when one is named.
  datatype Reviewed = Reviewed(pin: Pin, producer: string)

  datatype Input = Input(artifact: Resource, contract: string, digest: string, producer: Resource)

  datatype Choice = Approved | Denied | UnknownChoice

  datatype Evidence = Evidence(
    workflow: Ref, request: Ref, decision: Ref, choice: Choice, approver: string, reviewed: seq<Reviewed>,
    inputEvent: string, admittedAt: Option<nat>, submissionEvent: string)

  datatype Binding = Binding(
    request: Ref, decision: Ref, admissionEvent: string, step: string, required: string, subject: Reviewed)

  datatype Evaluated = Evaluated(
    versioned: bool, outcome: string, primitive: Resource, authorityEvent: string, inputEvent: string,
    evidenceEvents: seq<string>, binding: Option<Binding>)

  datatype Payload =
    | Human(evidence: Evidence)
    | Resolved(consumer: Resource, inputs: seq<Input>)
    | Decided(decision: Evaluated)
    | Authority(workflow: Resource, attempt: Resource, primitive: Resource)
    | Malformed

  datatype Kind =
    | DecisionAdmitted | DecisionSubmitted | InputsResolved | OperationAdmitted | ExecutionAuthorized
    | AuthorityEstablished | ValidationEvaluated | OtherKind

  // `versioned`: event and payload both have the schema version this code reads.
  datatype Entry = Entry(
    id: string, kind: Kind, namespace: string, workflow: string, step: string, versioned: bool, payload: Payload)

  predicate OfKind(kind: Kind, payload: Payload)
  {
    match kind
    case DecisionAdmitted => payload.Human?
    case DecisionSubmitted => payload.Human?
    case InputsResolved => payload.Resolved?
    case OperationAdmitted => payload.Decided?
    case ExecutionAuthorized => payload.Decided?
    case ValidationEvaluated => payload.Decided?
    case AuthorityEstablished => payload.Authority?
    case OtherKind => true
  }

  predicate Decodes(e: Entry)
  {
    e.id != "" && e.versioned && OfKind(e.kind, e.payload)
  }

  function Mismatched(event: string, reason: string): Op
  {
    IssueOp(Issue(Mismatch, event, reason))
  }

  function Lacking(event: string, reason: string): Op
  {
    IssueOp(Issue(Missing, event, reason))
  }

  const MALFORMED := "unsupported or malformed event payload"

  function Add(ops: seq<Op>, op: Op): (r: seq<Op>)
    requires UsualOps(ops) && UsualOp(op)
    ensures UsualOps(r) && ops <= r && |r| == |ops| + 1
    ensures Clean(r) <==> Clean(ops) && !op.IssueOp?
  {
    assert forall i | 0 <= i < |ops| :: (ops + [op])[i] == ops[i];
    assert (ops + [op])[|ops|] == op;
    ops + [op]
  }

  // What the story is about: the log, the admission, its evidence, the workflow, and the handles of
  // the decision's and the request's nodes.
  datatype Context = Context(
    log: seq<Entry>, admission: Entry, evidence: Evidence, scope: Resource, root: nat, subject: nat)

  predicate InScope(e: Entry, scope: Resource)
  {
    e.workflow == scope.name && e.namespace == scope.namespace
  }

  predicate Scoped(ref: Resource, kind: string, scope: Resource)
  {
    ValidResource(ref, kind, scope.namespace)
  }

  function Find(log: seq<Entry>, id: string): (found: Option<Entry>)
    ensures found.Some? ==> found.value in log && found.value.id == id
    ensures found.None? ==> forall e | e in log :: e.id != id
  {
    if log == [] then None else if log[0].id == id then Some(log[0]) else Find(log[1..], id)
  }

  // The event of this id, if it is there, of this kind, of this workflow, and readable.
  function Source(c: Context, id: string, kind: Kind): (found: Option<Entry>)
    ensures found.Some? ==>
      found.value in c.log && found.value.id == id && found.value.kind == kind && InScope(found.value, c.scope)
      && Decodes(found.value)
  {
    match Find(c.log, id)
    case None => None
    case Some(e) => if e.kind == kind && InScope(e, c.scope) && Decodes(e) then Some(e) else None
  }

  function KindName(kind: Kind): string
  {
    match kind
    case DecisionAdmitted => "ApprovalDecisionAdmitted"
    case DecisionSubmitted => "ApprovalDecisionSubmitted"
    case InputsResolved => "InputsResolved"
    case OperationAdmitted => "UtilityOperationAdmitted"
    case ExecutionAuthorized => "UtilityExecutionAuthorized"
    case AuthorityEstablished => "ExecutionAuthorityEstablished"
    case ValidationEvaluated => "ValidationEvaluated"
    case OtherKind => ""
  }

  function SourceIssue(c: Context, id: string, kind: Kind): (op: Op)
    ensures op.IssueOp? && UsualOp(op)
  {
    match Find(c.log, id)
    case None => Lacking(id, "missing " + KindName(kind) + " event")
    case Some(e) =>
      if id == "" then Lacking(id, "missing " + KindName(kind) + " event")
      else if e.kind != kind || !InScope(e, c.scope) then Mismatched(id, "event type or workflow scope differs")
      else Mismatched(id, MALFORMED)
  }

  predicate PinMatches(r: Reviewed, input: Input)
  {
    && r.pin.artifact == Some((input.artifact.name, input.artifact.uid))
    && r.pin.digest != "" && r.pin.digest == input.digest && r.pin.name == BeforeSlash(input.contract)
    && (r.producer == "" || r.producer == input.producer.name)
  }

  function PinOf(input: Input): (pin: Pin)
    ensures '/' !in pin.name
  {
    Pin(BeforeSlash(input.contract), input.digest, Some((input.artifact.name, input.artifact.uid)))
  }

  // --- authority ---

  predicate AuthorityBacked(c: Context, id: string, primitive: Resource)
  {
    var found := Source(c, id, AuthorityEstablished);
    && found.Some?
    && var a := found.value.payload;
    && SameResource(a.workflow, c.scope) && SameResource(a.primitive, primitive)
    && Scoped(a.attempt, "StepAttempt", c.scope)
  }

  function AuthorityOps(c: Context, ops: seq<Op>, id: string, primitive: Resource, node: nat): (r: seq<Op>)
    requires UsualOps(ops)
    ensures UsualOps(r) && ops <= r
    ensures Clean(r) <==> Clean(ops) && AuthorityBacked(c, id, primitive)
  {
    if Source(c, id, AuthorityEstablished).None? then Add(ops, SourceIssue(c, id, AuthorityEstablished))
    else
      var a := Source(c, id, AuthorityEstablished).value.payload;
      if !SameResource(a.workflow, c.scope) || !SameResource(a.primitive, primitive) then
        Add(ops, Mismatched(id, "execution authority identity differs"))
      else if !Scoped(a.attempt, "StepAttempt", c.scope) then
        Add(Add(ops, Mismatched(id, "invalid StepAttempt identity")),
            Mismatched(id, "execution authority identity differs"))
      else
        Add(Add(ops, ResourceOp(a.attempt, "", id)), LinkOp(node, |ops|, "authorized_by", id))
  }

  // --- validation of a reviewed artifact ---

  // An evaluation of the validation run that produced this artifact.
  predicate Evaluates(c: Context, input: Input, e: Entry)
  {
    && e.kind == ValidationEvaluated && InScope(e, c.scope) && e.payload.Decided?
    && e.payload.decision.primitive.uid == input.producer.uid
  }

  predicate EvaluationBacked(c: Context, input: Input, e: Entry)
  {
    && Decodes(e) && e.payload.Decided?
    && var d := e.payload.decision;
    && SameResource(d.primitive, input.producer) && Scoped(d.primitive, "ValidationRun", c.scope)
    && AuthorityBacked(c, d.authorityEvent, d.primitive)
    && var found := Source(c, d.inputEvent, InputsResolved);
    && found.Some? && SameResource(found.value.payload.consumer, d.primitive)
    && forall used | used in found.value.payload.inputs :: Scoped(used.artifact, "Artifact", c.scope)
  }

  predicate ValidationBacked(c: Context, input: Input)
  {
    && (exists e :: e in c.log && Evaluates(c, input, e))
    && (forall e | e in c.log && Evaluates(c, input, e) :: EvaluationBacked(c, input, e))
  }

  function UsedOps(c: Context, ops: seq<Op>, inputs: seq<Input>, k: nat, event: string, node: nat): (r: seq<Op>)
    requires UsualOps(ops) && k <= |inputs|
    ensures UsualOps(r) && ops <= r
    ensures Clean(r) <==> Clean(ops) && forall i | 0 <= i < k :: Scoped(inputs[i].artifact, "Artifact", c.scope)
  {
    if k == 0 then ops
    else
      var before, used := UsedOps(c, ops, inputs, k - 1, event, node), inputs[k - 1];
      if !Scoped(used.artifact, "Artifact", c.scope) then Add(before, Mismatched(event, "invalid Artifact identity"))
      else Add(Add(before, PinOp(PinOf(used), event)), LinkOp(node, |before|, "used_inputs_from", event))
  }

  function EvaluationOps(c: Context, ops: seq<Op>, input: Input, artifact: nat, e: Entry): (r: seq<Op>)
    requires UsualOps(ops) && e.payload.Decided?
    ensures UsualOps(r) && ops <= r
    ensures Clean(r) <==> Clean(ops) && EvaluationBacked(c, input, e)
  {
    var d := e.payload.decision;
    var differs := Mismatched(e.id, "validation producer identity differs");
    if !Decodes(e) then Add(Add(ops, Mismatched(e.id, MALFORMED)), differs)
    else if !SameResource(d.primitive, input.producer) then Add(ops, differs)
    else if !Scoped(d.primitive, "ValidationRun", c.scope) then
      Add(Add(ops, Mismatched(e.id, "invalid ValidationRun identity")), differs)
    else
      var run := Add(Add(ops, ResourceOp(d.primitive, d.outcome, e.id)), LinkOp(artifact, |ops|, "produced_by", e.id));
      var authority := AuthorityOps(c, run, d.authorityEvent, d.primitive, |ops|);
      var found := Source(c, d.inputEvent, InputsResolved);
      if found.None? then Add(authority, SourceIssue(c, d.inputEvent, InputsResolved))
      else if !SameResource(found.value.payload.consumer, d.primitive) then
        Add(authority, Mismatched(d.inputEvent, "validation input consumer differs"))
      else UsedOps(c, authority, found.value.payload.inputs, |found.value.payload.inputs|, d.inputEvent, |ops|)
  }

  function EvaluationsOps(c: Context, ops: seq<Op>, input: Input, artifact: nat, k: nat): (r: seq<Op>)
    requires UsualOps(ops) && k <= |c.log|
    ensures UsualOps(r) && ops <= r
    ensures Clean(r) <==>
      Clean(ops) && forall i | 0 <= i < k && Evaluates(c, input, c.log[i]) :: EvaluationBacked(c, input, c.log[i])
  {
    if k == 0 then ops
    else
      var before := EvaluationsOps(c, ops, input, artifact, k - 1);
      if Evaluates(c, input, c.log[k - 1]) then EvaluationOps(c, before, input, artifact, c.log[k - 1]) else before
  }

  function ValidationOps(c: Context, ops: seq<Op>, input: Input, artifact: nat): (r: seq<Op>)
    requires UsualOps(ops)
    ensures UsualOps(r) && ops <= r
    ensures Clean(r) <==> Clean(ops) && ValidationBacked(c, input)
  {
    var all := EvaluationsOps(c, ops, input, artifact, |c.log|);
    if exists e :: e in c.log && Evaluates(c, input, e) then all
    else Add(all, Lacking(c.admission.id, "validation evaluation is unavailable for " + input.producer.name))
  }

  // --- the reviewed inputs ---

  predicate Matched(c: Context, r: Reviewed, input: Input)
  {
    PinMatches(r, input) && Scoped(input.artifact, "Artifact", c.scope)
  }

  predicate AmongInputs(c: Context, r: Reviewed, inputs: seq<Input>)
  {
    exists input :: input in inputs && Matched(c, r, input)
  }

  // The pin is among the inputs, with no doubt about it or about the validation behind it.
  predicate PinBacked(c: Context, r: Reviewed, inputs: seq<Input>)
  {
    && AmongInputs(c, r, inputs)
    && (forall input | input in inputs && PinMatches(r, input) ::
          && Scoped(input.artifact, "Artifact", c.scope)
          && (input.producer.kind == "ValidationRun" ==> ValidationBacked(c, input)))
  }

  predicate PinsBacked(c: Context, inputs: seq<Input>, k: nat)
    requires k <= |c.evidence.reviewed|
  {
    forall i | 0 <= i < k :: PinBacked(c, c.evidence.reviewed[i], inputs)
  }

  predicate ReviewBacked(c: Context)
  {
    var request := RefTo(c.scope, "ApprovalRequest", c.evidence.request);
    var found := Source(c, c.evidence.inputEvent, InputsResolved);
    && found.Some? && SameResource(found.value.payload.consumer, request)
    && |found.value.payload.inputs| == |c.evidence.reviewed|
    && PinsBacked(c, found.value.payload.inputs, |c.evidence.reviewed|)
  }

  function RefTo(scope: Resource, kind: string, ref: Ref): Resource
  {
    Resource(SCHEMA, GROUP, kind, scope.namespace, ref.name, ref.uid)
  }

  function MatchOps(c: Context, ops: seq<Op>, r: Reviewed, inputs: seq<Input>, k: nat): (next: seq<Op>)
    requires UsualOps(ops) && k <= |inputs|
    ensures UsualOps(next) && ops <= next
    ensures Clean(next) <==> Clean(ops) && forall i | 0 <= i < k && PinMatches(r, inputs[i]) ::
      && Scoped(inputs[i].artifact, "Artifact", c.scope)
      && (inputs[i].producer.kind == "ValidationRun" ==> ValidationBacked(c, inputs[i]))
  {
    if k == 0 then ops
    else
      var before, input, id := MatchOps(c, ops, r, inputs, k - 1), inputs[k - 1], c.evidence.inputEvent;
      if !PinMatches(r, input) then before
      else if !Scoped(input.artifact, "Artifact", c.scope) then Add(before, Mismatched(id, "invalid Artifact identity"))
      else
        var linked := Add(Add(before, PinOp(r.pin, id)), LinkOp(c.subject, |before|, "used_inputs_from", id));
        if input.producer.kind == "ValidationRun" then ValidationOps(c, linked, input, |before|) else linked
  }

  function PinsOps(c: Context, ops: seq<Op>, inputs: seq<Input>, k: nat): (r: seq<Op>)
    requires UsualOps(ops) && k <= |c.evidence.reviewed|
    ensures UsualOps(r) && ops <= r
    ensures Clean(r) <==> Clean(ops) && PinsBacked(c, inputs, k)
  {
    if k == 0 then ops
    else
      var before, pin := PinsOps(c, ops, inputs, k - 1), c.evidence.reviewed[k - 1];
      var all := MatchOps(c, before, pin, inputs, |inputs|);
      if AmongInputs(c, pin, inputs) then all
      else Add(all, Mismatched(c.evidence.inputEvent, "reviewed artifact identity or digest differs"))
  }

  function ReviewOps(c: Context, ops: seq<Op>): (r: seq<Op>)
    requires UsualOps(ops)
    ensures UsualOps(r) && ops <= r
    ensures Clean(r) <==> Clean(ops) && ReviewBacked(c)
  {
    var id := c.evidence.inputEvent;
    var found := Source(c, id, InputsResolved);
    if found.None? then Add(ops, SourceIssue(c, id, InputsResolved))
    else
      var inputs := found.value.payload.inputs;
      if !SameResource(found.value.payload.consumer, RefTo(c.scope, "ApprovalRequest", c.evidence.request))
        || |inputs| != |c.evidence.reviewed|
      then Add(ops, Mismatched(id, "reviewed input set or consumer differs"))
      else PinsOps(c, ops, inputs, |c.evidence.reviewed|)
  }

  // --- the operations that were admitted because of the decision ---

  predicate Allowed(d: Evaluated)
  {
    d.versioned && d.outcome == "allowed"
  }

  // An admitted operation that names this admission as its evidence.
  predicate Cites(c: Context, e: Entry)
  {
    && e.kind == OperationAdmitted && InScope(e, c.scope) && e.payload.Decided?
    && c.admission.id in e.payload.decision.evidenceEvents
  }

  // The binding it carries is to exactly this request, decision and admission, and to a reviewed pin.
  predicate Binds(c: Context, b: Binding)
  {
    && b.request == c.evidence.request && b.decision == c.evidence.decision && b.admissionEvent == c.admission.id
    && b.required == b.subject.pin.name && b.step == c.admission.step && b.subject in c.evidence.reviewed
  }

  predicate Authorizes(c: Context, operation: Entry, e: Entry)
  {
    && e.kind == ExecutionAuthorized && InScope(e, c.scope) && e.payload.Decided?
    && operation.id in e.payload.decision.evidenceEvents
  }

  // The input has the UID or the name of the pinned artifact.
  predicate Concerns(r: Reviewed, input: Input)
  {
    && input.artifact.uid != "" && r.pin.artifact.Some?
    && (input.artifact.uid == r.pin.artifact.value.1 || BeforeSlash(input.contract) == r.pin.name)
  }

  // Every input of that UID or name is the pinned artifact, and there is one.
  predicate SubjectUsed(r: Reviewed, inputs: seq<Input>)
  {
    && (forall input | input in inputs && Concerns(r, input) :: PinMatches(r, input))
    && (exists input :: input in inputs && Concerns(r, input))
  }

  predicate AuthorizationBacked(c: Context, operation: Evaluated, subject: Reviewed, e: Entry)
  {
    && Decodes(e) && e.payload.Decided?
    && var d := e.payload.decision;
    && SameResource(d.primitive, operation.primitive) && Allowed(d)
    && var found := Source(c, d.inputEvent, InputsResolved);
    && found.Some? && SameResource(found.value.payload.consumer, operation.primitive)
    && SubjectUsed(subject, found.value.payload.inputs)
    && AuthorityBacked(c, d.authorityEvent, operation.primitive)
  }

  predicate OperationBacked(c: Context, e: Entry)
  {
    && Decodes(e) && e.payload.Decided?
    && var d := e.payload.decision;
    && Allowed(d) && Scoped(d.primitive, "UtilityOperation", c.scope) && c.evidence.choice == Approved
    && d.binding.Some? && Binds(c, d.binding.value)
    && AuthorizationsBacked(c, e, d.binding.value.subject, |c.log|)
  }

  datatype Progress = Progress(ops: seq<Op>, authorized: bool)

  ghost predicate Continues(before: seq<Op>, after: seq<Op>)
  {
    UsualOps(after) && before <= after
  }

  function SubjectOps(c: Context, ops: seq<Op>, r: Reviewed, inputs: seq<Input>, k: nat, event: string,
                      node: nat): (next: seq<Op>)
    requires UsualOps(ops) && k <= |inputs|
    ensures Continues(ops, next)
    ensures Clean(next) <==>
      Clean(ops) && forall i | 0 <= i < k && Concerns(r, inputs[i]) :: PinMatches(r, inputs[i])
  {
    if k == 0 then ops
    else
      var before, input := SubjectOps(c, ops, r, inputs, k - 1, event, node), inputs[k - 1];
      if !Concerns(r, input) then before
      else if !PinMatches(r, input) then
        Add(before, Mismatched(event, "reviewed and authorized artifact pins differ"))
      else Add(Add(before, PinOp(r.pin, event)), LinkOp(node, |before|, "used_inputs_from", event))
  }

  function AuthorizationOps(c: Context, p: Progress, operation: Evaluated, subject: Reviewed, e: Entry,
                            node: nat): (next: Progress)
    requires UsualOps(p.ops) && e.payload.Decided?
    ensures Continues(p.ops, next.ops)
    ensures Clean(next.ops) <==> Clean(p.ops) && AuthorizationBacked(c, operation, subject, e)
    ensures Clean(next.ops) ==> next.authorized
  {
    var d := e.payload.decision;
    var found := Source(c, d.inputEvent, InputsResolved);
    var differs := Mismatched(e.id, "utility authorization identity differs");
    if !Decodes(e) then p.(ops := Add(Add(p.ops, Mismatched(e.id, MALFORMED)), differs))
    else if !SameResource(d.primitive, operation.primitive) || !Allowed(d) then p.(ops := Add(p.ops, differs))
    else if found.None? then p.(ops := Add(p.ops, SourceIssue(c, d.inputEvent, InputsResolved)))
    else if !SameResource(found.value.payload.consumer, operation.primitive) then
      p.(ops := Add(p.ops, Mismatched(d.inputEvent, "authorized input consumer differs")))
    else UseOps(c, p, operation, subject, found.value.payload.inputs, e, node)
  }

  // An authorization on these inputs: granted once the reviewed subject is among them.
  function UseOps(c: Context, p: Progress, operation: Evaluated, subject: Reviewed, inputs: seq<Input>, e: Entry,
                  node: nat): (next: Progress)
    requires UsualOps(p.ops) && e.payload.Decided?
    ensures Continues(p.ops, next.ops)
    ensures Clean(next.ops) <==>
      Clean(p.ops) && SubjectUsed(subject, inputs)
      && AuthorityBacked(c, e.payload.decision.authorityEvent, operation.primitive)
    ensures Clean(next.ops) ==> next.authorized
  {
    var event := e.payload.decision.inputEvent;
    var linked := SubjectOps(c, p.ops, subject, inputs, |inputs|, event, node);
    if !exists input :: input in inputs && Concerns(subject, input) && PinMatches(subject, input) then
      p.(ops := Add(linked, Lacking(event, "no exact reviewed subject appears in authorized inputs")))
    else Progress(GrantOps(c, linked, operation, e, node), true)
  }

  function GrantOps(c: Context, ops: seq<Op>, operation: Evaluated, e: Entry, node: nat): (r: seq<Op>)
    requires UsualOps(ops) && e.payload.Decided?
    ensures Continues(ops, r)
    ensures Clean(r) <==> Clean(ops) && AuthorityBacked(c, e.payload.decision.authorityEvent, operation.primitive)
  {
    var d := e.payload.decision;
    var granted := Node("event:" + e.id, "UtilityAuthorization", operation.primitive.name, None, None,
                        d.outcome, [e.id]);
    var answered := Add(Add(ops, NodeOp(granted)), LinkOp(node, |ops|, "authorized_by", e.id));
    AuthorityOps(c, answered, d.authorityEvent, operation.primitive, |ops|)
  }

  predicate AuthorizationsBacked(c: Context, operation: Entry, subject: Reviewed, k: nat)
    requires k <= |c.log| && operation.payload.Decided?
  {
    forall i | 0 <= i < k && Authorizes(c, operation, c.log[i]) ::
      AuthorizationBacked(c, operation.payload.decision, subject, c.log[i])
  }

  function AuthorizationsOps(c: Context, p: Progress, operation: Entry, subject: Reviewed, node: nat,
                             k: nat): (next: Progress)
    requires UsualOps(p.ops) && k <= |c.log| && operation.payload.Decided?
    ensures Continues(p.ops, next.ops)
    ensures Clean(next.ops) <==> Clean(p.ops) && AuthorizationsBacked(c, operation, subject, k)
    ensures Clean(next.ops) ==>
      (next.authorized <==> p.authorized || exists i | 0 <= i < k :: Authorizes(c, operation, c.log[i]))
  {
    if k == 0 then p
    else
      var before, e := AuthorizationsOps(c, p, operation, subject, node, k - 1), c.log[k - 1];
      if Authorizes(c, operation, e) then
        AuthorizationOps(c, before, operation.payload.decision, subject, e, node)
      else before
  }

  function OperationOps(c: Context, p: Progress, e: Entry): (next: Progress)
    requires UsualOps(p.ops) && e.payload.Decided?
    ensures Continues(p.ops, next.ops)
    ensures Clean(next.ops) <==> Clean(p.ops) && OperationBacked(c, e)
    ensures Clean(next.ops) ==> (next.authorized <==> p.authorized || exists a :: a in c.log && Authorizes(c, e, a))
  {
    var d, differs := e.payload.decision, Mismatched(e.id, "utility admission does not match approved intent");
    if !Decodes(e) then p.(ops := Add(Add(p.ops, Mismatched(e.id, MALFORMED)), differs))
    else if !Allowed(d) then p.(ops := Add(p.ops, differs))
    else if !Scoped(d.primitive, "UtilityOperation", c.scope) then
      p.(ops := Add(Add(p.ops, Mismatched(e.id, "invalid UtilityOperation identity")), differs))
    else if c.evidence.choice != Approved then p.(ops := Add(p.ops, differs))
    else if d.binding.None? then
      p.(ops := Add(p.ops, Lacking(e.id, "explicit approved-subject binding is missing")))
    else if !Binds(c, d.binding.value) then
      p.(ops := Add(p.ops, Mismatched(e.id, "declared approval binding differs from admitted subject")))
    else
      var linked := Add(Add(p.ops, ResourceOp(d.primitive, "admitted", e.id)),
                        LinkOp(|p.ops|, c.root, "approved_by", e.id));
      AuthorizationsOps(c, p.(ops := linked), e, d.binding.value.subject, |p.ops|, |c.log|)
  }

  // An authorization of an operation of this decision, among the first k events.
  predicate AuthorizedWithin(c: Context, k: nat)
    requires k <= |c.log|
  {
    exists i, a | 0 <= i < k && a in c.log :: Cites(c, c.log[i]) && Authorizes(c, c.log[i], a)
  }

  predicate OperationsBacked(c: Context, k: nat)
    requires k <= |c.log|
  {
    forall i | 0 <= i < k && Cites(c, c.log[i]) :: OperationBacked(c, c.log[i])
  }

  function OperationsOps(c: Context, p: Progress, k: nat): (next: Progress)
    requires UsualOps(p.ops) && k <= |c.log| && !p.authorized
    ensures Continues(p.ops, next.ops)
    ensures Clean(next.ops) <==> Clean(p.ops) && OperationsBacked(c, k)
    ensures Clean(next.ops) ==> (next.authorized <==> AuthorizedWithin(c, k))
  {
    if k == 0 then p
    else
      var before, e := OperationsOps(c, p, k - 1), c.log[k - 1];
      if Cites(c, e) then OperationOps(c, before, e) else before
  }

  // --- the story ---

  function ContextOf(log: seq<Entry>, e: Entry): Context
    requires e.payload.Human?
  {
    var evidence := e.payload.evidence;
    var workflow := evidence.workflow;
    var scope := Resource(SCHEMA, GROUP, "SovereignWorkflow", e.namespace, workflow.name, workflow.uid);
    Context(log, e, evidence, scope, 0, 1)
  }

  predicate Identified(c: Context)
  {
    && c.scope.name == c.admission.workflow && Scoped(c.scope, "SovereignWorkflow", c.scope)
    && c.evidence.admittedAt.Some?
    && Scoped(RefTo(c.scope, "ApprovalRequest", c.evidence.request), "ApprovalRequest", c.scope)
    && Scoped(RefTo(c.scope, "ApprovalDecision", c.evidence.decision), "ApprovalDecision", c.scope)
    && c.evidence.choice != UnknownChoice
  }

  predicate SubmissionBacked(c: Context)
  {
    var found := Source(c, c.evidence.submissionEvent, DecisionSubmitted);
    found.Some? && found.value.payload.evidence == c.evidence.(admittedAt := None, submissionEvent := "")
  }

  // The log supports the decision: it was submitted as it was admitted, over exactly the reviewed
  // artifacts; every operation admitted because of it is bound to it and was authorized on the
  // reviewed subject; and if it approves, some operation was authorized.
  predicate Backed(log: seq<Entry>, e: Entry)
  {
    && Decodes(e) && e.payload.Human?
    && var c := ContextOf(log, e);
    && Identified(c) && SubmissionBacked(c) && ReviewBacked(c)
    && OperationsBacked(c, |log|)
    && (c.evidence.choice == Approved ==> AuthorizedWithin(c, |log|))
  }

  function IdentityOps(c: Context): (ops: seq<Op>)
    requires Decodes(c.admission)
    ensures UsualOps(ops) && (Clean(ops) <==> Identified(c))
  {
    var id, differs := c.admission.id, Mismatched(c.admission.id, "approval has no admitted workflow identity");
    var request, decision := RefTo(c.scope, "ApprovalRequest", c.evidence.request),
                             RefTo(c.scope, "ApprovalDecision", c.evidence.decision);
    if c.scope.name != c.admission.workflow then Add([], differs)
    else if !Scoped(c.scope, "SovereignWorkflow", c.scope) then
      Add(Add([], Mismatched(id, "invalid SovereignWorkflow identity")), differs)
    else if c.evidence.admittedAt.None? then Add([], differs)
    else if !Scoped(request, "ApprovalRequest", c.scope) then
      Add([], Mismatched(id, "invalid ApprovalRequest identity"))
    else if !Scoped(decision, "ApprovalDecision", c.scope) then
      Add([], Mismatched(id, "invalid ApprovalDecision identity"))
    else
      var nodes := Add(Add([], ResourceOp(decision, ChoiceText(c.evidence.choice), id)),
                       ResourceOp(request, "reviewed", id));
      match c.evidence.choice
      case Approved => Add(nodes, LinkOp(1, 0, "approved_by", id))
      case Denied => Add(nodes, LinkOp(1, 0, "supported_by", id))
      case UnknownChoice => Add(nodes, Mismatched(id, "unknown human decision"))
  }

  function ChoiceText(choice: Choice): string
  {
    match choice case Approved => "Approved" case Denied => "Denied" case UnknownChoice => ""
  }

  function SubmissionOps(c: Context, ops: seq<Op>): (r: seq<Op>)
    requires UsualOps(ops)
    ensures Continues(ops, r)
    ensures Clean(r) <==> Clean(ops) && SubmissionBacked(c)
  {
    var id := c.evidence.submissionEvent;
    var found := Source(c, id, DecisionSubmitted);
    if found.None? then Add(ops, SourceIssue(c, id, DecisionSubmitted))
    else if found.value.payload.evidence != c.evidence.(admittedAt := None, submissionEvent := "") then
      Add(ops, Mismatched(id, "submitted and admitted human decisions differ"))
    else
      var submission := Node("event:" + id, "HumanSubmission", c.evidence.approver, None, None,
                             ChoiceText(c.evidence.choice), [id]);
      Add(Add(ops, NodeOp(submission)), LinkOp(c.root, |ops|, "supported_by", c.admission.id))
  }

  // approval: the operations of the story of an admitted decision.
  function ApprovalOps(log: seq<Entry>, e: Entry): (r: seq<Op>)
    ensures ValidOps(r) && UsualOps(r)
    ensures Clean(r) <==> Backed(log, e)
  {
    var ops := StoryOps(log, e);
    UsualIsValid(ops);
    ops
  }

  function StoryOps(log: seq<Entry>, e: Entry): (r: seq<Op>)
    ensures UsualOps(r)
    ensures Clean(r) <==> Backed(log, e)
  {
    if !Decodes(e) || !e.payload.Human? then Add([], Mismatched(e.id, MALFORMED))
    else
      var c := ContextOf(log, e);
      var identity := IdentityOps(c);
      if !Identified(c) then identity
      else
        var reviewed := ReviewOps(c, SubmissionOps(c, identity));
        var p := OperationsOps(c, Progress(reviewed, false), |log|);
        if c.evidence.choice == Approved && !p.authorized then
          Add(p.ops, Lacking(e.id, "follow-on utility authorization has not been recorded"))
        else p.ops
  }

  // The story of a decision is linked if and only if the log backs the decision and everything the
  // story names is coherent.
  lemma LinkedIffBacked(namespace: string, log: seq<Entry>, e: Entry)
    ensures Run(namespace, ApprovalOps(log, e)).story.status == Linked <==>
      Backed(log, e) && Coherent(ApprovalOps(log, e), namespace)
  {
    LinkedIff(ApprovalOps(log, e), namespace);
  }

  lemma {:induction false} FindAt(log: seq<Entry>, i: nat)
    requires i < |log| && forall j | 0 <= j < i :: log[j].id != log[i].id
    ensures Find(log, log[i].id) == Some(log[i])
  {
    if i > 0 {
      assert log[1..][i - 1] == log[i];
      FindAt(log[1..], i - 1);
    }
  }

  ghost predicate DistinctIds(log: seq<Entry>)
  {
    forall i, j | 0 <= i < j < |log| :: log[i].id != log[j].id
  }

  // Who and what a decision is about is named.
  predicate Named(evidence: Evidence)
  {
    && evidence.workflow.name != "" && evidence.workflow.uid != ""
    && evidence.request.name != "" && evidence.request.uid != ""
    && evidence.decision.name != "" && evidence.decision.uid != ""
    && evidence.admittedAt.Some?
  }

  // A decision as the approval code logs it: submission, resolved inputs, admission.
  function DecisionLog(evidence: Evidence, namespace: string, step: string, admission: string, inputs: seq<Input>)
      : (log: seq<Entry>)
    ensures |log| == 3
  {
    var workflow := evidence.workflow.name;
    var request := Resource(SCHEMA, GROUP, "ApprovalRequest", namespace, evidence.request.name, evidence.request.uid);
    [Entry(evidence.submissionEvent, DecisionSubmitted, namespace, workflow, step, true,
           Human(evidence.(admittedAt := None, submissionEvent := ""))),
     Entry(evidence.inputEvent, InputsResolved, namespace, workflow, step, true, Resolved(request, inputs)),
     Entry(admission, DecisionAdmitted, namespace, workflow, step, true, Human(evidence))]
  }

  // A denial over no inputs needs no more.
  lemma DenialIsBacked(evidence: Evidence, namespace: string, step: string, admission: string)
    requires Named(evidence) && evidence.choice == Denied && evidence.reviewed == []
    requires evidence.submissionEvent != "" && evidence.inputEvent != "" && admission != ""
    requires DistinctIds(DecisionLog(evidence, namespace, step, admission, []))
    ensures var log := DecisionLog(evidence, namespace, step, admission, []); Backed(log, log[2])
  {
    var log := DecisionLog(evidence, namespace, step, admission, []);
    var c := ContextOf(log, log[2]);
    FindAt(log, 0);
    FindAt(log, 1);
    assert SubmissionBacked(c);
    assert ReviewBacked(c);
  }

  // An approval of one artifact, and the operation it led to.
  datatype Case = Case(
    evidence: Evidence, namespace: string, step: string, admission: string, input: Input, operation: Resource,
    attempt: Resource, ids: seq<string>)

  // Its log: the decision, then the operation's admission, inputs, authority and authorization.
  function CaseLog(k: Case): (log: seq<Entry>)
    requires |k.evidence.reviewed| == 1 && |k.ids| == 4
    ensures |log| == 7
  {
    var subject, workflow, namespace, step := k.evidence.reviewed[0], k.evidence.workflow.name, k.namespace, k.step;
    var scope := Resource(SCHEMA, GROUP, "SovereignWorkflow", namespace, workflow, k.evidence.workflow.uid);
    var binding := Binding(k.evidence.request, k.evidence.decision, k.admission, step, subject.pin.name, subject);
    DecisionLog(k.evidence, namespace, step, k.admission, [k.input]) +
    [Entry(k.ids[0], OperationAdmitted, namespace, workflow, step, true,
           Decided(Evaluated(true, "allowed", k.operation, "", "", [k.admission], Some(binding)))),
     Entry(k.ids[1], InputsResolved, namespace, workflow, step, true, Resolved(k.operation, [k.input])),
     Entry(k.ids[2], AuthorityEstablished, namespace, workflow, step, true, Authority(scope, k.attempt, k.operation)),
     Entry(k.ids[3], ExecutionAuthorized, namespace, workflow, step, true,
           Decided(Evaluated(true, "allowed", k.operation, k.ids[2], k.ids[1], [k.ids[0]], None)))]
  }

  ghost predicate ValidCase(k: Case)
  {
    && Named(k.evidence) && k.evidence.choice == Approved && |k.evidence.reviewed| == 1 && |k.ids| == 4
    && PinMatches(k.evidence.reviewed[0], k.input) && k.input.producer.kind != "ValidationRun"
    && ValidResource(k.input.artifact, "Artifact", k.namespace)
    && ValidResource(k.operation, "UtilityOperation", k.namespace)
    && ValidResource(k.attempt, "StepAttempt", k.namespace)
    && DistinctIds(CaseLog(k)) && forall i | 0 <= i < 7 :: CaseLog(k)[i].id != ""
  }

  lemma CaseFinds(k: Case, i: nat)
    requires ValidCase(k) && i < 7
    ensures Find(CaseLog(k), CaseLog(k)[i].id) == Some(CaseLog(k)[i])
  {
    FindAt(CaseLog(k), i);
  }

  lemma CaseReview(k: Case)
    requires ValidCase(k)
    ensures var c := ContextOf(CaseLog(k), CaseLog(k)[2]); Identified(c) && SubmissionBacked(c) && ReviewBacked(c)
  {
    var c := ContextOf(CaseLog(k), CaseLog(k)[2]);
    CaseFinds(k, 0);
    CaseFinds(k, 1);
    assert Source(c, k.evidence.inputEvent, InputsResolved) == Some(CaseLog(k)[1]);
    assert k.input in [k.input] && Matched(c, k.evidence.reviewed[0], k.input);
    assert PinBacked(c, k.evidence.reviewed[0], [k.input]);
  }

  lemma CaseAuthorization(k: Case)
    requires ValidCase(k)
    ensures var log := CaseLog(k); var c := ContextOf(log, log[2]);
      AuthorizationBacked(c, log[3].payload.decision, k.evidence.reviewed[0], log[6])
  {
    var log := CaseLog(k);
    var c := ContextOf(log, log[2]);
    CaseFinds(k, 4);
    CaseFinds(k, 5);
    assert Source(c, k.ids[1], InputsResolved) == Some(log[4]);
    assert Source(c, k.ids[2], AuthorityEstablished) == Some(log[5]);
    assert k.input in [k.input] && SubjectUsed(k.evidence.reviewed[0], [k.input]);
  }

  lemma CaseOperation(k: Case)
    requires ValidCase(k)
    ensures var log := CaseLog(k); var c := ContextOf(log, log[2]); OperationBacked(c, log[3])
  {
    var log := CaseLog(k);
    var c := ContextOf(log, log[2]);
    CaseAuthorization(k);
    assert Binds(c, log[3].payload.decision.binding.value);
    assert AuthorizationsBacked(c, log[3], k.evidence.reviewed[0], 7);
  }

  lemma ApprovalIsBacked(k: Case)
    requires ValidCase(k)
    ensures Backed(CaseLog(k), CaseLog(k)[2])
  {
    var log := CaseLog(k);
    var c := ContextOf(log, log[2]);
    CaseReview(k);
    CaseOperation(k);
    assert OperationsBacked(c, 7);
    assert Cites(c, log[3]) && Authorizes(c, log[3], log[6]) && log[6] in log;
  }

  // --- in a projection ---

  function ReadAll(read: P.Event -> Entry, events: seq<P.Event>): (log: seq<Entry>)
    ensures |log| == |events| && forall i | 0 <= i < |events| :: log[i] == read(events[i])
  {
    seq(|events|, i requires 0 <= i < |events| => read(events[i]))
  }

  // Admitted decisions get their approval story; the stories of the other roots are left open.
  function PlanWith(read: P.Event -> Entry, recovery: P.Plan): P.Plan
  {
    (events, e) =>
      if read(e).kind == DecisionAdmitted then ApprovalOps(ReadAll(read, events), read(e)) else recovery(events, e)
  }

  lemma PlanIsGood(read: P.Event -> Entry, recovery: P.Plan)
    requires P.GoodPlan(recovery)
    ensures P.GoodPlan(PlanWith(read, recovery))
  {
    forall events, e ensures ValidOps(PlanWith(read, recovery)(events, e)) {
      assert ValidOps(recovery(events, e));
    }
  }

  // An approval story of a projection is linked if and only if the projected events back the decision
  // and everything it names is coherent.
  lemma ToldApprovalsAreBacked(read: P.Event -> Entry, recovery: P.Plan, workflow: string, selected: string,
                               ordered: seq<P.Event>, told: P.Told)
    requires P.GoodPlan(recovery) && P.GoodPlan(PlanWith(read, recovery))
    requires told in P.Stories(PlanWith(read, recovery), workflow, selected, ordered, |ordered|)
    ensures exists e ::
      e in ordered && e.id == told.eventId
      && e.workflow == workflow && e.root && (selected == "" || e.id == selected)
      && LinkedAsBacked(read, ordered, e, told.story)
  {
    var plan := PlanWith(read, recovery);
    P.StoriesAreAboutChosen(plan, workflow, selected, ordered, |ordered|);
    assert P.ToldFrom(told, plan, workflow, selected, ordered, |ordered|);
    var i :| 0 <= i < |ordered| && told == P.Tell(plan, ordered, ordered[i])
      && P.Chosen(ordered[i], workflow, selected);
    if read(ordered[i]).kind == DecisionAdmitted {
      LinkedIffBacked(ordered[i].namespace, ReadAll(read, ordered), read(ordered[i]));
    }
    assert ordered[i] in ordered;
  }

  ghost predicate LinkedAsBacked(read: P.Event -> Entry, ordered: seq<P.Event>, e: P.Event, story: Story)
  {
    var log, entry := ReadAll(read, ordered), read(e);
    entry.kind == DecisionAdmitted ==>
      (story.status == Linked <==> Backed(log, entry) && Coherent(ApprovalOps(log, entry), e.namespace))
  }
}
