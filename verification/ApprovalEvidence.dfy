/**
  What backs an admitted human decision, in the fields of the logged events alone.  A log in which no
  two different events share an id backs a decision exactly when it holds this evidence.
*/
module ApprovalEvidence {
  import opened Wrappers
  import opened Lineage
  import opened Coherence
  import opened ApprovalStory

  ghost predicate ConflictFree(log: seq<Entry>)
  {
    forall a, b | a in log && b in log && a.id == b.id :: a == b
  }

  // An admitted decision, as a projection tells one.
  predicate IsAdmission(e: Entry)
  {
    e.kind == DecisionAdmitted && e.payload.Human? && e.versioned && e.id != ""
  }

  // A readable event of the workflow of the decision.
  ghost predicate Happened(log: seq<Entry>, e: Entry, x: Entry, kind: Kind)
    requires e.payload.Human?
  {
    && x in log && x.kind == kind && x.versioned && x.id != ""
    && x.namespace == e.namespace && x.workflow == e.payload.evidence.workflow.name
  }

  predicate Exact(ref: Resource, kind: string, namespace: string)
  {
    && ref.schemaVersion == "v1" && ref.apiVersion == "sovereign-ai.io/v1alpha1"
    && ref.kind == kind && ref.namespace == namespace && ref.name != "" && ref.uid != ""
  }

  predicate SameObject(a: Resource, b: Resource)
  {
    && a.kind == b.kind && a.apiVersion == b.apiVersion && a.namespace == b.namespace
    && a.name == b.name && a.uid == b.uid && a.uid != ""
  }

  // The reference is to the object of this kind with this name and UID in the decision's namespace.
  predicate RefersTo(a: Resource, kind: string, namespace: string, ref: Ref)
  {
    && a.kind == kind && a.apiVersion == "sovereign-ai.io/v1alpha1" && a.namespace == namespace
    && a.name == ref.name && a.uid == ref.uid && a.uid != ""
  }

  // The input is the very artifact that was reviewed, from the producer named with it.
  predicate IsReviewed(r: Reviewed, input: Input)
  {
    && r.pin.artifact.Some? && r.pin.artifact.value.0 == input.artifact.name
    && r.pin.artifact.value.1 == input.artifact.uid
    && r.pin.digest == input.digest && input.digest != "" && r.pin.name == BeforeSlash(input.contract)
    && (r.producer != "" ==> r.producer == input.producer.name)
  }

  // A step attempt of this workflow had the authority for this run or operation.
  ghost predicate HadAuthority(log: seq<Entry>, e: Entry, id: string, primitive: Resource)
    requires e.payload.Human?
  {
    exists x :: Happened(log, e, x, AuthorityEstablished) && x.id == id && x.payload.Authority?
      && RefersTo(x.payload.workflow, "SovereignWorkflow", e.namespace, e.payload.evidence.workflow)
      && SameObject(x.payload.primitive, primitive) && Exact(x.payload.attempt, "StepAttempt", e.namespace)
  }

  // The inputs that an event resolved for a consumer.
  ghost predicate ResolvedInputs(log: seq<Entry>, e: Entry, x: Entry, id: string)
    requires e.payload.Human?
  {
    Happened(log, e, x, InputsResolved) && x.id == id && x.payload.Resolved?
  }

  // An evaluation of the run that produced the input.
  ghost predicate IsEvaluation(log: seq<Entry>, e: Entry, input: Input, v: Entry)
    requires e.payload.Human?
  {
    && v in log && v.kind == ValidationEvaluated && v.payload.Decided?
    && v.namespace == e.namespace && v.workflow == e.payload.evidence.workflow.name
    && v.payload.decision.primitive.uid == input.producer.uid
  }

  ghost predicate GoodEvaluation(log: seq<Entry>, e: Entry, input: Input, v: Entry)
    requires e.payload.Human? && v.payload.Decided?
  {
    var d := v.payload.decision;
    && v.id != "" && v.versioned && SameObject(d.primitive, input.producer)
    && Exact(d.primitive, "ValidationRun", e.namespace) && HadAuthority(log, e, d.authorityEvent, d.primitive)
    && exists x :: ResolvedInputs(log, e, x, d.inputEvent) && SameObject(x.payload.consumer, d.primitive)
         && forall used | used in x.payload.inputs :: Exact(used.artifact, "Artifact", e.namespace)
  }

  ghost predicate WasValidated(log: seq<Entry>, e: Entry, input: Input)
    requires e.payload.Human?
  {
    && (exists v :: IsEvaluation(log, e, input, v))
    && (forall v | IsEvaluation(log, e, input, v) :: GoodEvaluation(log, e, input, v))
  }

  // It was submitted just as it was admitted.
  ghost predicate WasSubmitted(log: seq<Entry>, e: Entry)
    requires e.payload.Human?
  {
    var a := e.payload.evidence;
    exists x :: Happened(log, e, x, DecisionSubmitted) && x.id == a.submissionEvent && x.payload.Human?
      && var b := x.payload.evidence;
         && b.workflow == a.workflow && b.request == a.request && b.decision == a.decision && b.choice == a.choice
         && b.approver == a.approver && b.reviewed == a.reviewed && b.inputEvent == a.inputEvent
         && b.admittedAt == None && b.submissionEvent == ""
  }

  // What was reviewed are the inputs resolved for the request, with their validations.
  ghost predicate WasReviewed(log: seq<Entry>, e: Entry)
    requires e.payload.Human?
  {
    var a := e.payload.evidence;
    exists x :: ResolvedInputs(log, e, x, a.inputEvent)
      && RefersTo(x.payload.consumer, "ApprovalRequest", e.namespace, a.request)
      && |x.payload.inputs| == |a.reviewed|
      && forall r | r in a.reviewed ::
           && (exists input :: input in x.payload.inputs && IsReviewed(r, input))
           && (forall input | input in x.payload.inputs && IsReviewed(r, input) ::
                 && Exact(input.artifact, "Artifact", e.namespace)
                 && (input.producer.kind == "ValidationRun" ==> WasValidated(log, e, input)))
  }

  // An operation admitted because of the decision, and an authorization of it.
  ghost predicate Follows(log: seq<Entry>, e: Entry, a: Entry, kind: Kind, cited: string)
    requires e.payload.Human?
  {
    && a in log && a.kind == kind && a.payload.Decided?
    && a.namespace == e.namespace && a.workflow == e.payload.evidence.workflow.name
    && cited in a.payload.decision.evidenceEvents
  }

  // The input has the UID or the name of the reviewed artifact.
  predicate IsAbout(r: Reviewed, input: Input)
  {
    && r.pin.artifact.Some? && input.artifact.uid != ""
    && (input.artifact.uid == r.pin.artifact.value.1 || BeforeSlash(input.contract) == r.pin.name)
  }

  // Authorized on inputs in which everything about the subject is the reviewed artifact.
  ghost predicate GoodAuthorization(log: seq<Entry>, e: Entry, operation: Resource, subject: Reviewed, z: Entry)
    requires e.payload.Human? && z.payload.Decided?
  {
    var d := z.payload.decision;
    && z.id != "" && z.versioned && d.versioned && d.outcome == "allowed" && SameObject(d.primitive, operation)
    && HadAuthority(log, e, d.authorityEvent, operation)
    && exists x :: ResolvedInputs(log, e, x, d.inputEvent) && SameObject(x.payload.consumer, operation)
         && (exists input :: input in x.payload.inputs && IsAbout(subject, input))
         && (forall input | input in x.payload.inputs && IsAbout(subject, input) :: IsReviewed(subject, input))
  }

  // Admitted under an approval by exactly this request, decision and admission of a reviewed artifact.
  ghost predicate GoodOperation(log: seq<Entry>, e: Entry, a: Entry)
    requires e.payload.Human? && a.payload.Decided?
  {
    var d, evidence := a.payload.decision, e.payload.evidence;
    && a.id != "" && a.versioned && d.versioned && d.outcome == "allowed"
    && Exact(d.primitive, "UtilityOperation", e.namespace) && evidence.choice == Approved
    && d.binding.Some? && BoundTo(e, d.binding.value)
    && forall z | Follows(log, e, z, ExecutionAuthorized, a.id) ::
         GoodAuthorization(log, e, d.primitive, d.binding.value.subject, z)
  }

  predicate BoundTo(e: Entry, b: Binding)
    requires e.payload.Human?
  {
    && b.request == e.payload.evidence.request && b.decision == e.payload.evidence.decision
    && b.admissionEvent == e.id && b.step == e.step
    && b.required == b.subject.pin.name && b.subject in e.payload.evidence.reviewed
  }

  // It says who and what it is about, and how it was decided.
  predicate NamesAll(e: Entry)
    requires e.payload.Human?
  {
    var a := e.payload.evidence;
    && e.workflow == a.workflow.name && a.workflow.name != "" && a.workflow.uid != ""
    && a.request.name != "" && a.request.uid != "" && a.decision.name != "" && a.decision.uid != ""
    && a.admittedAt.Some? && (a.choice == Approved || a.choice == Denied)
  }

  ghost predicate Supported(log: seq<Entry>, e: Entry)
    requires e.payload.Human?
  {
    && NamesAll(e) && WasSubmitted(log, e) && WasReviewed(log, e)
    && (forall o | Follows(log, e, o, OperationAdmitted, e.id) :: GoodOperation(log, e, o))
    && (e.payload.evidence.choice == Approved ==>
          exists o, z :: Follows(log, e, o, OperationAdmitted, e.id) && Follows(log, e, z, ExecutionAuthorized, o.id))
  }

  // ---- the equivalence, piece by piece ----

  lemma SourceIs(log: seq<Entry>, e: Entry, id: string, kind: Kind, x: Entry)
    requires ConflictFree(log) && e.payload.Human? && kind != OtherKind
    ensures Source(ContextOf(log, e), id, kind) == Some(x) <==>
      Happened(log, e, x, kind) && x.id == id && OfKind(kind, x.payload)
  {}

  lemma SourceExists(log: seq<Entry>, e: Entry, id: string, kind: Kind)
    requires ConflictFree(log) && e.payload.Human? && kind != OtherKind
    ensures Source(ContextOf(log, e), id, kind).Some? <==>
      exists x :: Happened(log, e, x, kind) && x.id == id && OfKind(kind, x.payload)
  {
    forall x | Happened(log, e, x, kind) && x.id == id && OfKind(kind, x.payload)
      ensures Source(ContextOf(log, e), id, kind).Some?
    {
      SourceIs(log, e, id, kind, x);
    }
    var found := Source(ContextOf(log, e), id, kind);
    if found.Some? {
      SourceIs(log, e, id, kind, found.value);
    }
  }

  lemma AuthorityIff(log: seq<Entry>, e: Entry, id: string, primitive: Resource)
    requires ConflictFree(log) && IsAdmission(e)
    ensures AuthorityBacked(ContextOf(log, e), id, primitive) <==> HadAuthority(log, e, id, primitive)
  {
    var c := ContextOf(log, e);
    SourceExists(log, e, id, AuthorityEstablished);
    forall x ensures Source(c, id, AuthorityEstablished) == Some(x) <==>
      Happened(log, e, x, AuthorityEstablished) && x.id == id && x.payload.Authority?
    {
      SourceIs(log, e, id, AuthorityEstablished, x);
    }
  }

  // The resolved inputs of an id are those of one event.
  lemma InputsIff(log: seq<Entry>, e: Entry, id: string)
    requires ConflictFree(log) && IsAdmission(e)
    ensures forall x :: Source(ContextOf(log, e), id, InputsResolved) == Some(x) <==> ResolvedInputs(log, e, x, id)
  {
    forall x ensures Source(ContextOf(log, e), id, InputsResolved) == Some(x) <==> ResolvedInputs(log, e, x, id) {
      SourceIs(log, e, id, InputsResolved, x);
    }
  }

  lemma EvaluationIff(log: seq<Entry>, e: Entry, input: Input, v: Entry)
    requires ConflictFree(log) && IsAdmission(e) && IsEvaluation(log, e, input, v)
    ensures EvaluationBacked(ContextOf(log, e), input, v) <==> GoodEvaluation(log, e, input, v)
  {
    var d := v.payload.decision;
    AuthorityIff(log, e, d.authorityEvent, d.primitive);
    InputsIff(log, e, d.inputEvent);
  }

  lemma ValidatedIff(log: seq<Entry>, e: Entry, input: Input)
    requires ConflictFree(log) && IsAdmission(e)
    ensures ValidationBacked(ContextOf(log, e), input) <==> WasValidated(log, e, input)
  {
    var c := ContextOf(log, e);
    forall v ensures v in c.log && Evaluates(c, input, v) <==> IsEvaluation(log, e, input, v) {}
    forall v | IsEvaluation(log, e, input, v)
      ensures EvaluationBacked(c, input, v) <==> GoodEvaluation(log, e, input, v)
    {
      EvaluationIff(log, e, input, v);
    }
  }

  lemma SubmittedIff(log: seq<Entry>, e: Entry)
    requires ConflictFree(log) && IsAdmission(e)
    ensures SubmissionBacked(ContextOf(log, e)) <==> WasSubmitted(log, e)
  {
    var c := ContextOf(log, e);
    forall x ensures Source(c, c.evidence.submissionEvent, DecisionSubmitted) == Some(x) <==>
      Happened(log, e, x, DecisionSubmitted) && x.id == c.evidence.submissionEvent && x.payload.Human?
    {
      SourceIs(log, e, c.evidence.submissionEvent, DecisionSubmitted, x);
    }
  }

  lemma PinIff(log: seq<Entry>, e: Entry, r: Reviewed, inputs: seq<Input>)
    requires ConflictFree(log) && IsAdmission(e)
    ensures PinBacked(ContextOf(log, e), r, inputs) <==>
      && (exists input :: input in inputs && IsReviewed(r, input))
      && (forall input | input in inputs && IsReviewed(r, input) ::
            && Exact(input.artifact, "Artifact", e.namespace)
            && (input.producer.kind == "ValidationRun" ==> WasValidated(log, e, input)))
  {
    forall input ensures PinMatches(r, input) <==> IsReviewed(r, input) {}
    forall input ensures ValidationBacked(ContextOf(log, e), input) <==> WasValidated(log, e, input) {
      ValidatedIff(log, e, input);
    }
  }

  lemma ReviewedIff(log: seq<Entry>, e: Entry)
    requires ConflictFree(log) && IsAdmission(e)
    ensures ReviewBacked(ContextOf(log, e)) <==> WasReviewed(log, e)
  {
    var c := ContextOf(log, e);
    InputsIff(log, e, c.evidence.inputEvent);
    forall r, inputs ensures PinBacked(c, r, inputs) <==>
      && (exists input :: input in inputs && IsReviewed(r, input))
      && (forall input | input in inputs && IsReviewed(r, input) ::
            && Exact(input.artifact, "Artifact", e.namespace)
            && (input.producer.kind == "ValidationRun" ==> WasValidated(log, e, input)))
    {
      PinIff(log, e, r, inputs);
    }
    assert forall inputs :: PinsBacked(c, inputs, |c.evidence.reviewed|) <==>
      forall r | r in c.evidence.reviewed :: PinBacked(c, r, inputs);
  }

  lemma AuthorizationIff(log: seq<Entry>, e: Entry, operation: Evaluated, subject: Reviewed, z: Entry)
    requires ConflictFree(log) && IsAdmission(e) && z.payload.Decided? && z.kind == ExecutionAuthorized
    ensures AuthorizationBacked(ContextOf(log, e), operation, subject, z) <==>
      GoodAuthorization(log, e, operation.primitive, subject, z)
  {
    var d := z.payload.decision;
    AuthorityIff(log, e, d.authorityEvent, operation.primitive);
    InputsIff(log, e, d.inputEvent);
    forall input ensures PinMatches(subject, input) <==> IsReviewed(subject, input) {}
    forall input ensures Concerns(subject, input) <==> IsAbout(subject, input) {}
  }

  lemma AuthorizationsIff(log: seq<Entry>, e: Entry, a: Entry, subject: Reviewed)
    requires ConflictFree(log) && IsAdmission(e) && a.payload.Decided?
    ensures AuthorizationsBacked(ContextOf(log, e), a, subject, |log|) <==>
      forall z | Follows(log, e, z, ExecutionAuthorized, a.id) ::
        GoodAuthorization(log, e, a.payload.decision.primitive, subject, z)
  {
    var c := ContextOf(log, e);
    forall z ensures z in log && Authorizes(c, a, z) <==> Follows(log, e, z, ExecutionAuthorized, a.id) {}
    forall z | Follows(log, e, z, ExecutionAuthorized, a.id)
      ensures AuthorizationBacked(c, a.payload.decision, subject, z) <==>
        GoodAuthorization(log, e, a.payload.decision.primitive, subject, z)
    {
      AuthorizationIff(log, e, a.payload.decision, subject, z);
    }
  }

  lemma OperationIff(log: seq<Entry>, e: Entry, a: Entry)
    requires ConflictFree(log) && IsAdmission(e) && a.kind == OperationAdmitted && a.payload.Decided?
    ensures OperationBacked(ContextOf(log, e), a) <==> GoodOperation(log, e, a)
  {
    var c, d := ContextOf(log, e), a.payload.decision;
    if d.binding.Some? {
      AuthorizationsIff(log, e, a, d.binding.value.subject);
      assert Binds(c, d.binding.value) <==> BoundTo(e, d.binding.value);
    }
    assert Scoped(d.primitive, "UtilityOperation", c.scope) <==> Exact(d.primitive, "UtilityOperation", e.namespace);
  }

  lemma OperationsIff(log: seq<Entry>, e: Entry)
    requires ConflictFree(log) && IsAdmission(e)
    ensures OperationsBacked(ContextOf(log, e), |log|) <==>
      forall o | Follows(log, e, o, OperationAdmitted, e.id) :: GoodOperation(log, e, o)
  {
    var c := ContextOf(log, e);
    forall o ensures o in log && Cites(c, o) <==> Follows(log, e, o, OperationAdmitted, e.id) {}
    forall o | Follows(log, e, o, OperationAdmitted, e.id)
      ensures OperationBacked(c, o) <==> GoodOperation(log, e, o)
    {
      OperationIff(log, e, o);
    }
  }

  lemma AuthorizedIff(log: seq<Entry>, e: Entry)
    requires IsAdmission(e)
    ensures AuthorizedWithin(ContextOf(log, e), |log|) <==>
      exists o, z :: Follows(log, e, o, OperationAdmitted, e.id) && Follows(log, e, z, ExecutionAuthorized, o.id)
  {
    var c := ContextOf(log, e);
    forall o ensures o in log && Cites(c, o) <==> Follows(log, e, o, OperationAdmitted, e.id) {}
    forall o, z ensures z in log && Authorizes(c, o, z) <==> Follows(log, e, z, ExecutionAuthorized, o.id) {}
    if o, z :| Follows(log, e, o, OperationAdmitted, e.id) && Follows(log, e, z, ExecutionAuthorized, o.id) {
      var i :| 0 <= i < |log| && log[i] == o;
      assert Cites(c, log[i]) && z in log && Authorizes(c, log[i], z);
    }
  }

  lemma NamesIff(log: seq<Entry>, e: Entry)
    requires IsAdmission(e)
    ensures Identified(ContextOf(log, e)) <==> NamesAll(e)
  {}

  // A log backs an admitted decision if and only if it holds this evidence for it.
  lemma BackedIffSupported(log: seq<Entry>, e: Entry)
    requires ConflictFree(log) && IsAdmission(e)
    ensures Backed(log, e) <==> Supported(log, e)
  {
    NamesIff(log, e);
    SubmittedIff(log, e);
    ReviewedIff(log, e);
    OperationsIff(log, e);
    AuthorizedIff(log, e);
  }

  // And so the story of an admitted decision ends linked if and only if the log holds the evidence and
  // what the story names is coherent.
  lemma LinkedIffSupported(namespace: string, log: seq<Entry>, e: Entry)
    requires ConflictFree(log) && IsAdmission(e)
    ensures Run(namespace, ApprovalOps(log, e)).story.status == Linked <==>
      Supported(log, e) && Coherent(ApprovalOps(log, e), namespace)
  {
    LinkedIffBacked(namespace, log, e);
    BackedIffSupported(log, e);
  }
}
