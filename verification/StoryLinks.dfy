/**
  What a linked approval story tells.  Its links are exactly those the logged evidence calls for: each
  joins the nodes of the objects and events the evidence names, and none is missing.
*/
module StoryLinks {
  import opened Wrappers
  import opened Lineage
  import opened Coherence
  import opened ApprovalStory
  import opened ApprovalEvidence

  // ---- the links of a run ----

  predicate Names(op: Op)
  {
    op.NodeOp? || op.ResourceOp? || (op.PinOp? && op.pin.artifact.Some?)
  }

  // The id of the node an operation names.
  function NodeId(op: Op): string
    requires Names(op)
  {
    if op.NodeOp? then op.node.id
    else if op.ResourceOp? then op.ref.kind + ":" + op.ref.uid
    else "Artifact:" + op.pin.artifact.value.1
  }

  // The operation links the nodes that two earlier operations name.
  ghost predicate LinksEarlier(ops: seq<Op>, op: Op)
  {
    op.LinkOp? ==> op.source < |ops| && op.target < |ops| && Names(ops[op.source]) && Names(ops[op.target])
  }

  ghost predicate Makes(ops: seq<Op>, op: Op, link: Link)
  {
    op.LinkOp? && LinksEarlier(ops, op)
    && link == Link(NodeId(ops[op.source]), NodeId(ops[op.target]), op.relation, op.event)
  }

  ghost predicate AllLinkEarlier(ops: seq<Op>)
  {
    forall i | 0 <= i < |ops| :: LinksEarlier(ops[..i], ops[i])
  }

  ghost predicate Tells(ops: seq<Op>, link: Link)
  {
    exists i | 0 <= i < |ops| :: Makes(ops[..i], ops[i], link)
  }

  lemma OneMore(ops: seq<Op>, op: Op, link: Link)
    ensures AllLinkEarlier(ops + [op]) <==> AllLinkEarlier(ops) && LinksEarlier(ops, op)
    ensures Tells(ops + [op], link) <==> Tells(ops, link) || Makes(ops, op, link)
  {
    var all := ops + [op];
    assert all[..|ops|] == ops && all[|ops|] == op;
    assert forall i | 0 <= i < |ops| :: all[..i] == ops[..i] && all[i] == ops[i];
    if AllLinkEarlier(all) {
      assert LinksEarlier(all[..|ops|], all[|ops|]);
      forall i | 0 <= i < |ops| ensures LinksEarlier(ops[..i], ops[i]) {
        assert LinksEarlier(all[..i], all[i]);
      }
    }
    if Tells(ops, link) {
      var i :| 0 <= i < |ops| && Makes(ops[..i], ops[i], link);
      assert Makes(all[..i], all[i], link);
    }
    if Makes(ops, op, link) {
      assert Makes(all[..|ops|], all[|ops|], link);
    }
  }

  // The answers of a run without issues are the ids of the named nodes.
  ghost predicate Answers(ops: seq<Op>, answers: seq<string>)
  {
    |answers| == |ops| && forall h | 0 <= h < |ops| && Names(ops[h]) :: answers[h] == NodeId(ops[h]) != ""
  }

  lemma NodeAnswers(t: State, namespace: string, op: Op)
    requires ValidState(t) && UsualOp(op) && ValidOp(op) && Names(op)
    requires Apply(t, namespace, op).story.issues == []
    ensures var next := Apply(t, namespace, op);
      next.answers == t.answers + [NodeId(op)] && NodeId(op) != "" && next.story.links == t.story.links
  {
    ApplyKeeps(t, namespace, op);
  }

  lemma LinkAnswers(t: State, namespace: string, ops: seq<Op>, op: Op, link: Link)
    requires ValidState(t) && op.LinkOp? && Answers(ops, t.answers) && LinksEarlier(ops, op)
    ensures var next := Apply(t, namespace, op).story;
      link in next.links <==> link in t.story.links || Makes(ops, op, link)
  {}

  // A run ends in this state.  (The quantifier keeps the run out of sight.)
  ghost predicate EndsIn(namespace: string, ops: seq<Op>, t: State)
    requires ValidOps(ops)
  {
    forall n | n == namespace :: Run(n, ops) == t
  }

  lemma LastStep(namespace: string, ops: seq<Op>, t: State) returns (before: State)
    requires ValidOps(ops) && ops != [] && EndsIn(namespace, ops, t) && t.story.issues == []
    ensures ValidOps(ops[..|ops| - 1]) && ValidOp(ops[|ops| - 1]) && ValidState(before)
    ensures EndsIn(namespace, ops[..|ops| - 1], before) && before.story.issues == []
    ensures t == Apply(before, namespace, ops[|ops| - 1])
  {
    before := Run(namespace, ops[..|ops| - 1]);
    ApplyKeeps(before, namespace, ops[|ops| - 1]);
    assert Run(namespace, ops) == t;
  }

  // The links of a story without issues are those its operations make.
  lemma {:induction false} RunTells(namespace: string, ops: seq<Op>, t: State, link: Link)
    requires UsualOps(ops) && ValidOps(ops) && AllLinkEarlier(ops) && EndsIn(namespace, ops, t) && t.story.issues == []
    ensures Answers(ops, t.answers) && (link in t.story.links <==> Tells(ops, link))
    decreases |ops|
  {
    if ops == [] {
      assert Run(namespace, ops) == t;
    } else {
      var init, op := ops[..|ops| - 1], ops[|ops| - 1];
      assert ops == init + [op];
      UsualPrefix(ops);
      OneMore(init, op, link);
      var before := LastStep(namespace, ops, t);
      RunTells(namespace, init, before, link);
      RunStep(before, namespace, init, op, link);
    }
  }

  lemma RunStep(t: State, namespace: string, ops: seq<Op>, op: Op, link: Link)
    requires ValidState(t) && UsualOp(op) && ValidOp(op) && Answers(ops, t.answers) && LinksEarlier(ops, op)
    requires Apply(t, namespace, op).story.issues == []
    ensures var next := Apply(t, namespace, op);
      && Answers(ops + [op], next.answers)
      && (link in next.story.links <==> link in t.story.links || Makes(ops, op, link))
  {
    var next := Apply(t, namespace, op);
    NamesOrLinks(t, namespace, op);
    if Names(op) {
      NodeAnswers(t, namespace, op);
    } else {
      LinkAnswers(t, namespace, ops, op, link);
    }
    assert forall h | 0 <= h < |ops| :: (ops + [op])[h] == ops[h];
  }

  // Whatever else it may be reports an issue.
  lemma NamesOrLinks(t: State, namespace: string, op: Op)
    requires ValidState(t) && UsualOp(op) && ValidOp(op)
    ensures Apply(t, namespace, op).story.issues == [] ==> Names(op) || op.LinkOp?
  {
    ApplyKeeps(t, namespace, op);
  }

  // ---- what the evidence calls for ----

  ghost predicate AuthorityLink(log: seq<Entry>, e: Entry, id: string, node: string, link: Link)
    requires e.payload.Human?
  {
    exists x :: Happened(log, e, x, AuthorityEstablished) && x.id == id && x.payload.Authority?
      && link == Link(node, "StepAttempt:" + x.payload.attempt.uid, "authorized_by", id)
  }

  ghost predicate InputLink(log: seq<Entry>, e: Entry, id: string, node: string, link: Link)
    requires e.payload.Human?
  {
    exists x, used :: ResolvedInputs(log, e, x, id) && used in x.payload.inputs
      && link == Link(node, "Artifact:" + used.artifact.uid, "used_inputs_from", id)
  }

  ghost predicate EvaluationLink(log: seq<Entry>, e: Entry, artifact: string, v: Entry, link: Link)
    requires e.payload.Human? && v.payload.Decided?
  {
    var d := v.payload.decision;
    var run := "ValidationRun:" + d.primitive.uid;
    || link == Link(artifact, run, "produced_by", v.id)
    || AuthorityLink(log, e, d.authorityEvent, run, link)
    || InputLink(log, e, d.inputEvent, run, link)
  }

  ghost predicate ValidationLink(log: seq<Entry>, e: Entry, input: Input, artifact: string, link: Link)
    requires e.payload.Human?
  {
    exists v :: IsEvaluation(log, e, input, v) && EvaluationLink(log, e, artifact, v, link)
  }

  function RequestId(e: Entry): string
    requires e.payload.Human?
  {
    "ApprovalRequest:" + e.payload.evidence.request.uid
  }

  function DecisionId(e: Entry): string
    requires e.payload.Human?
  {
    "ApprovalDecision:" + e.payload.evidence.decision.uid
  }

  // The request to each reviewed input, and on to the validations that produced it.
  ghost predicate MatchLink(log: seq<Entry>, e: Entry, r: Reviewed, input: Input, link: Link)
    requires e.payload.Human?
  {
    var artifact := "Artifact:" + input.artifact.uid;
    && IsReviewed(r, input)
    && (|| link == Link(RequestId(e), artifact, "used_inputs_from", e.payload.evidence.inputEvent)
        || (input.producer.kind == "ValidationRun" && ValidationLink(log, e, input, artifact, link)))
  }

  ghost predicate ReviewLink(log: seq<Entry>, e: Entry, link: Link)
    requires e.payload.Human?
  {
    exists x, r, input :: ResolvedInputs(log, e, x, e.payload.evidence.inputEvent)
      && r in e.payload.evidence.reviewed && input in x.payload.inputs && MatchLink(log, e, r, input, link)
  }

  // The operation to its authorization, to the subject it was authorized on, and on to the authority.
  ghost predicate AuthorizationLink(log: seq<Entry>, e: Entry, operation: string, subject: Reviewed, z: Entry,
                                    link: Link)
    requires e.payload.Human? && z.payload.Decided? && subject.pin.artifact.Some?
  {
    var d := z.payload.decision;
    || link == Link(operation, "event:" + z.id, "authorized_by", z.id)
    || link == Link(operation, "Artifact:" + subject.pin.artifact.value.1, "used_inputs_from", d.inputEvent)
    || AuthorityLink(log, e, d.authorityEvent, "event:" + z.id, link)
  }

  ghost predicate OperationLink(log: seq<Entry>, e: Entry, a: Entry, link: Link)
    requires e.payload.Human? && a.payload.Decided?
  {
    var d := a.payload.decision;
    var operation := "UtilityOperation:" + d.primitive.uid;
    || link == Link(operation, DecisionId(e), "approved_by", a.id)
    || (d.binding.Some? && d.binding.value.subject.pin.artifact.Some?
        && exists z :: Follows(log, e, z, ExecutionAuthorized, a.id)
             && AuthorizationLink(log, e, operation, d.binding.value.subject, z, link))
  }

  ghost predicate DecisionLink(e: Entry, link: Link)
    requires e.payload.Human?
  {
    var relation := if e.payload.evidence.choice == Approved then "approved_by" else "supported_by";
    || link == Link(RequestId(e), DecisionId(e), relation, e.id)
    || link == Link(DecisionId(e), "event:" + e.payload.evidence.submissionEvent, "supported_by", e.id)
  }

  ghost predicate StoryLink(log: seq<Entry>, e: Entry, link: Link)
    requires e.payload.Human?
  {
    || DecisionLink(e, link) || ReviewLink(log, e, link)
    || exists a :: Follows(log, e, a, OperationAdmitted, e.id) && OperationLink(log, e, a, link)
  }

  // ---- which operations make them ----

  ghost predicate Named(ops: seq<Op>, h: nat, id: string)
  {
    h < |ops| && Names(ops[h]) && NodeId(ops[h]) == id
  }

  // From the first operations to all of them, the link is made as well if `more`.
  // (The quantifier keeps this out of sight.)
  ghost predicate Grows(ops: seq<Op>, r: seq<Op>, link: Link, more: bool)
  {
    ops <= r && forall l | l == link :: GrowsBy(ops, r, l, more)
  }

  ghost predicate GrowsBy(ops: seq<Op>, r: seq<Op>, link: Link, more: bool)
  {
    (AllLinkEarlier(ops) ==> AllLinkEarlier(r)) && (Tells(r, link) <==> Tells(ops, link) || more)
  }

  lemma Chain(a: seq<Op>, b: seq<Op>, c: seq<Op>, link: Link, more: bool, evenMore: bool)
    requires Grows(a, b, link, more) && Grows(b, c, link, evenMore)
    ensures Grows(a, c, link, more || evenMore)
  {
    assert GrowsBy(a, b, link, more) && GrowsBy(b, c, link, evenMore);
    assert a <= c;
  }

  lemma Stays(ops: seq<Op>, link: Link)
    ensures Grows(ops, ops, link, false)
  {}

  lemma NodeGrows(ops: seq<Op>, op: Op, link: Link)
    requires UsualOps(ops) && UsualOp(op) && !op.LinkOp?
    ensures Grows(ops, Add(ops, op), link, false)
    ensures Names(op) ==> Named(Add(ops, op), |ops|, NodeId(op))
  {
    OneMore(ops, op, link);
  }

  lemma LinkGrows(ops: seq<Op>, source: nat, target: nat, a: string, b: string, relation: string, event: string,
                  link: Link)
    requires UsualOps(ops) && Named(ops, source, a) && Named(ops, target, b)
    ensures Grows(ops, Add(ops, LinkOp(source, target, relation, event)), link, link == Link(a, b, relation, event))
  {
    OneMore(ops, LinkOp(source, target, relation, event), link);
  }

  // A node, and a link to it.
  lemma NodeAndLinkGrow(ops: seq<Op>, op: Op, source: nat, a: string, relation: string, event: string, link: Link)
    requires UsualOps(ops) && UsualOp(op) && Names(op) && Named(ops, source, a)
    ensures var r := Add(Add(ops, op), LinkOp(source, |ops|, relation, event));
      Grows(ops, r, link, link == Link(a, NodeId(op), relation, event)) && Named(r, |ops|, NodeId(op))
  {
    NodeGrows(ops, op, link);
    LinkGrows(Add(ops, op), source, |ops|, a, NodeId(op), relation, event, link);
    Chain(ops, Add(ops, op), Add(Add(ops, op), LinkOp(source, |ops|, relation, event)), link, false,
          link == Link(a, NodeId(op), relation, event));
  }

  lemma AuthorityGrows(log: seq<Entry>, e: Entry, ops: seq<Op>, id: string, primitive: Resource, node: nat, a: string,
                       link: Link)
    requires ConflictFree(log) && IsAdmission(e) && UsualOps(ops) && Named(ops, node, a)
    requires Clean(AuthorityOps(ContextOf(log, e), ops, id, primitive, node))
    ensures Grows(ops, AuthorityOps(ContextOf(log, e), ops, id, primitive, node), link,
                  AuthorityLink(log, e, id, a, link))
  {
    var x := Source(ContextOf(log, e), id, AuthorityEstablished).value;
    NodeAndLinkGrow(ops, ResourceOp(x.payload.attempt, "", id), node, a, "authorized_by", id, link);
    forall y ensures y == x <==> Happened(log, e, y, AuthorityEstablished) && y.id == id && y.payload.Authority? {
      SourceIs(log, e, id, AuthorityEstablished, y);
    }
  }

  function UsedLink(input: Input, event: string, a: string): Link
  {
    Link(a, "Artifact:" + input.artifact.uid, "used_inputs_from", event)
  }

  ghost predicate UsedAmong(inputs: seq<Input>, k: nat, event: string, a: string, link: Link)
    requires k <= |inputs|
  {
    exists i | 0 <= i < k :: link == UsedLink(inputs[i], event, a)
  }

  lemma {:induction false} UsedGrows(c: Context, ops: seq<Op>, inputs: seq<Input>, k: nat, event: string, node: nat,
                                     a: string, link: Link)
    requires UsualOps(ops) && k <= |inputs| && Named(ops, node, a) && Clean(UsedOps(c, ops, inputs, k, event, node))
    ensures Grows(ops, UsedOps(c, ops, inputs, k, event, node), link,
                  UsedAmong(inputs, k, event, a, link))
  {
    if k == 0 {
      Stays(ops, link);
    } else {
      var before := UsedOps(c, ops, inputs, k - 1, event, node);
      UsedGrows(c, ops, inputs, k - 1, event, node, a, link);
      NodeAndLinkGrow(before, PinOp(PinOf(inputs[k - 1]), event), node, a, "used_inputs_from", event, link);
      Chain(ops, before, UsedOps(c, ops, inputs, k, event, node), link, UsedAmong(inputs, k - 1, event, a, link),
            link == UsedLink(inputs[k - 1], event, a));
    }
  }

  lemma UsedIsInput(log: seq<Entry>, e: Entry, x: Entry, id: string, a: string, link: Link)
    requires e.payload.Human? && x.payload.Resolved? && forall y :: y == x <==> ResolvedInputs(log, e, y, id)
    ensures UsedAmong(x.payload.inputs, |x.payload.inputs|, id, a, link) <==> InputLink(log, e, id, a, link)
  {
    var inputs := x.payload.inputs;
    assert ResolvedInputs(log, e, x, id);
    if UsedAmong(inputs, |inputs|, id, a, link) {
      var i :| 0 <= i < |inputs| && link == UsedLink(inputs[i], id, a);
      assert inputs[i] in inputs;
    }
    if InputLink(log, e, id, a, link) {
      var y, used :| ResolvedInputs(log, e, y, id) && used in y.payload.inputs && link == UsedLink(used, id, a);
      var i :| 0 <= i < |inputs| && inputs[i] == used;
    }
  }

  lemma EvaluationGrows(log: seq<Entry>, e: Entry, ops: seq<Op>, input: Input, artifact: nat, a: string, v: Entry,
                        link: Link)
    requires ConflictFree(log) && IsAdmission(e) && UsualOps(ops) && Named(ops, artifact, a) && v.payload.Decided?
    requires Clean(EvaluationOps(ContextOf(log, e), ops, input, artifact, v))
    ensures Grows(ops, EvaluationOps(ContextOf(log, e), ops, input, artifact, v), link,
                  EvaluationLink(log, e, a, v, link))
  {
    var c, d := ContextOf(log, e), v.payload.decision;
    var id := "ValidationRun:" + d.primitive.uid;
    var run := Add(Add(ops, ResourceOp(d.primitive, d.outcome, v.id)), LinkOp(artifact, |ops|, "produced_by", v.id));
    NodeAndLinkGrow(ops, ResourceOp(d.primitive, d.outcome, v.id), artifact, a, "produced_by", v.id, link);
    var authority := AuthorityOps(c, run, d.authorityEvent, d.primitive, |ops|);
    AuthorityGrows(log, e, run, d.authorityEvent, d.primitive, |ops|, id, link);
    var x := Source(c, d.inputEvent, InputsResolved).value;
    var inputs := x.payload.inputs;
    Chain(ops, run, authority, link, link == Link(a, id, "produced_by", v.id),
          AuthorityLink(log, e, d.authorityEvent, id, link));
    UsedGrows(c, authority, inputs, |inputs|, d.inputEvent, |ops|, id, link);
    InputsIff(log, e, d.inputEvent);
    UsedIsInput(log, e, x, d.inputEvent, id, link);
    Chain(ops, authority, EvaluationOps(c, ops, input, artifact, v), link,
          link == Link(a, id, "produced_by", v.id) || AuthorityLink(log, e, d.authorityEvent, id, link),
          InputLink(log, e, d.inputEvent, id, link));
  }

  lemma {:induction false} EvaluationsGrow(log: seq<Entry>, e: Entry, ops: seq<Op>, input: Input, artifact: nat,
                                           a: string, k: nat, link: Link)
    requires ConflictFree(log) && IsAdmission(e) && UsualOps(ops) && Named(ops, artifact, a) && k <= |log|
    requires Clean(EvaluationsOps(ContextOf(log, e), ops, input, artifact, k))
    ensures Grows(ops, EvaluationsOps(ContextOf(log, e), ops, input, artifact, k), link,
                  EvaluatedAmong(log, e, input, a, k, link))
  {
    if k == 0 {
      Stays(ops, link);
    } else {
      var c, v := ContextOf(log, e), log[k - 1];
      EvaluationsGrow(log, e, ops, input, artifact, a, k - 1, link);
      assert Evaluates(c, input, v) <==> IsEvaluation(log, e, input, v);
      if Evaluates(c, input, v) {
        var before := EvaluationsOps(c, ops, input, artifact, k - 1);
        EvaluationGrows(log, e, before, input, artifact, a, v, link);
        Chain(ops, before, EvaluationsOps(c, ops, input, artifact, k), link,
              EvaluatedAmong(log, e, input, a, k - 1, link), EvaluationLink(log, e, a, v, link));
      }
    }
  }

  ghost predicate EvaluatedAmong(log: seq<Entry>, e: Entry, input: Input, a: string, k: nat, link: Link)
    requires e.payload.Human? && k <= |log|
    decreases k
  {
    k > 0 && (EvaluatedAmong(log, e, input, a, k - 1, link)
        || (IsEvaluation(log, e, input, log[k - 1]) && EvaluationLink(log, e, a, log[k - 1], link)))
  }

  lemma {:induction false} EvaluatedIff(log: seq<Entry>, e: Entry, input: Input, a: string, k: nat, link: Link)
    requires e.payload.Human? && k <= |log|
    ensures EvaluatedAmong(log, e, input, a, k, link) <==>
      exists i | 0 <= i < k :: IsEvaluation(log, e, input, log[i]) && EvaluationLink(log, e, a, log[i], link)
    decreases k
  {
    if k > 0 {
      EvaluatedIff(log, e, input, a, k - 1, link);
    }
  }

  lemma ValidationGrows(log: seq<Entry>, e: Entry, ops: seq<Op>, input: Input, artifact: nat, a: string, link: Link)
    requires ConflictFree(log) && IsAdmission(e) && UsualOps(ops) && Named(ops, artifact, a)
    requires Clean(ValidationOps(ContextOf(log, e), ops, input, artifact))
    ensures Grows(ops, ValidationOps(ContextOf(log, e), ops, input, artifact), link,
                  ValidationLink(log, e, input, a, link))
  {
    EvaluationsGrow(log, e, ops, input, artifact, a, |log|, link);
    EvaluatedIff(log, e, input, a, |log|, link);
    forall v | IsEvaluation(log, e, input, v) ensures exists i | 0 <= i < |log| :: log[i] == v {}
  }

  lemma {:induction false} MatchGrows(log: seq<Entry>, e: Entry, ops: seq<Op>, r: Reviewed, inputs: seq<Input>, k: nat,
                                      link: Link)
    requires ConflictFree(log) && IsAdmission(e) && UsualOps(ops) && Named(ops, 1, RequestId(e)) && k <= |inputs|
    requires Clean(MatchOps(ContextOf(log, e), ops, r, inputs, k))
    ensures Grows(ops, MatchOps(ContextOf(log, e), ops, r, inputs, k), link,
                  MatchedAmong(log, e, r, inputs, k, link))
  {
    if k == 0 {
      Stays(ops, link);
    } else {
      var c, input := ContextOf(log, e), inputs[k - 1];
      var before := MatchOps(c, ops, r, inputs, k - 1);
      MatchGrows(log, e, ops, r, inputs, k - 1, link);
      assert PinMatches(r, input) <==> IsReviewed(r, input);
      if PinMatches(r, input) {
        OneMatchGrows(log, e, before, r, input, link);
        Chain(ops, before, MatchOps(c, ops, r, inputs, k), link, MatchedAmong(log, e, r, inputs, k - 1, link),
              MatchLink(log, e, r, input, link));
      }
    }
  }

  ghost predicate MatchedAmong(log: seq<Entry>, e: Entry, r: Reviewed, inputs: seq<Input>, k: nat, link: Link)
    requires e.payload.Human? && k <= |inputs|
    decreases k
  {
    k > 0 && (MatchedAmong(log, e, r, inputs, k - 1, link) || MatchLink(log, e, r, inputs[k - 1], link))
  }

  lemma {:induction false} MatchedIff(log: seq<Entry>, e: Entry, r: Reviewed, inputs: seq<Input>, k: nat, link: Link)
    requires e.payload.Human? && k <= |inputs|
    ensures MatchedAmong(log, e, r, inputs, k, link) <==>
      exists i | 0 <= i < k :: MatchLink(log, e, r, inputs[i], link)
    decreases k
  {
    if k > 0 {
      MatchedIff(log, e, r, inputs, k - 1, link);
    }
  }

  // One reviewed input: its artifact, and what validated it.
  function OneMatch(c: Context, ops: seq<Op>, r: Reviewed, input: Input): seq<Op>
    requires UsualOps(ops) && PinMatches(r, input)
  {
    var id := c.evidence.inputEvent;
    var linked := Add(Add(ops, PinOp(r.pin, id)), LinkOp(c.subject, |ops|, "used_inputs_from", id));
    if input.producer.kind == "ValidationRun" then ValidationOps(c, linked, input, |ops|) else linked
  }

  lemma OneMatchGrows(log: seq<Entry>, e: Entry, ops: seq<Op>, r: Reviewed, input: Input, link: Link)
    requires ConflictFree(log) && IsAdmission(e) && UsualOps(ops) && Named(ops, 1, RequestId(e)) && PinMatches(r, input)
    requires Clean(OneMatch(ContextOf(log, e), ops, r, input))
    ensures Grows(ops, OneMatch(ContextOf(log, e), ops, r, input), link, MatchLink(log, e, r, input, link))
  {
    var c, id := ContextOf(log, e), e.payload.evidence.inputEvent;
    NodeAndLinkGrow(ops, PinOp(r.pin, id), 1, RequestId(e), "used_inputs_from", id, link);
    if input.producer.kind == "ValidationRun" {
      var linked := Add(Add(ops, PinOp(r.pin, id)), LinkOp(1, |ops|, "used_inputs_from", id));
      ValidationGrows(log, e, linked, input, |ops|, "Artifact:" + input.artifact.uid, link);
      Chain(ops, linked, OneMatch(c, ops, r, input), link,
            link == Link(RequestId(e), "Artifact:" + input.artifact.uid, "used_inputs_from", id),
            ValidationLink(log, e, input, "Artifact:" + input.artifact.uid, link));
    }
  }

  lemma {:induction false} PinsGrow(log: seq<Entry>, e: Entry, ops: seq<Op>, inputs: seq<Input>, k: nat, link: Link)
    requires ConflictFree(log) && IsAdmission(e) && UsualOps(ops) && Named(ops, 1, RequestId(e))
    requires k <= |e.payload.evidence.reviewed| && Clean(PinsOps(ContextOf(log, e), ops, inputs, k))
    ensures Grows(ops, PinsOps(ContextOf(log, e), ops, inputs, k), link,
                  ReviewedAmong(log, e, inputs, k, link))
  {
    if k == 0 {
      Stays(ops, link);
    } else {
      var c, r := ContextOf(log, e), e.payload.evidence.reviewed[k - 1];
      var before := PinsOps(c, ops, inputs, k - 1);
      PinsGrow(log, e, ops, inputs, k - 1, link);
      MatchGrows(log, e, before, r, inputs, |inputs|, link);
      Chain(ops, before, PinsOps(c, ops, inputs, k), link, ReviewedAmong(log, e, inputs, k - 1, link),
            MatchedAmong(log, e, r, inputs, |inputs|, link));
    }
  }

  ghost predicate ReviewedAmong(log: seq<Entry>, e: Entry, inputs: seq<Input>, k: nat, link: Link)
    requires e.payload.Human? && k <= |e.payload.evidence.reviewed|
    decreases k
  {
    k > 0 && (ReviewedAmong(log, e, inputs, k - 1, link)
        || MatchedAmong(log, e, e.payload.evidence.reviewed[k - 1], inputs, |inputs|, link))
  }

  lemma {:induction false} ReviewedAmongIff(log: seq<Entry>, e: Entry, inputs: seq<Input>, k: nat, link: Link)
    requires e.payload.Human? && k <= |e.payload.evidence.reviewed|
    ensures ReviewedAmong(log, e, inputs, k, link) <==>
      exists i | 0 <= i < k :: MatchedAmong(log, e, e.payload.evidence.reviewed[i], inputs, |inputs|, link)
    decreases k
  {
    if k > 0 {
      ReviewedAmongIff(log, e, inputs, k - 1, link);
    }
  }

  lemma ReviewGrows(log: seq<Entry>, e: Entry, ops: seq<Op>, link: Link)
    requires ConflictFree(log) && IsAdmission(e) && UsualOps(ops) && Named(ops, 1, RequestId(e))
    requires Clean(ReviewOps(ContextOf(log, e), ops))
    ensures Grows(ops, ReviewOps(ContextOf(log, e), ops), link, ReviewLink(log, e, link))
  {
    var evidence := e.payload.evidence;
    var x := Source(ContextOf(log, e), evidence.inputEvent, InputsResolved).value;
    PinsGrow(log, e, ops, x.payload.inputs, |evidence.reviewed|, link);
    InputsIff(log, e, evidence.inputEvent);
    ReviewedIsReview(log, e, x, link);
  }

  lemma ReviewedIsReview(log: seq<Entry>, e: Entry, x: Entry, link: Link)
    requires e.payload.Human? && x.payload.Resolved?
    requires forall y :: y == x <==> ResolvedInputs(log, e, y, e.payload.evidence.inputEvent)
    ensures ReviewedAmong(log, e, x.payload.inputs, |e.payload.evidence.reviewed|, link) <==> ReviewLink(log, e, link)
  {
    var inputs, reviewed := x.payload.inputs, e.payload.evidence.reviewed;
    assert ResolvedInputs(log, e, x, e.payload.evidence.inputEvent);
    ReviewedAmongIff(log, e, inputs, |reviewed|, link);
    forall r ensures MatchedAmong(log, e, r, inputs, |inputs|, link) <==>
      exists j | 0 <= j < |inputs| :: MatchLink(log, e, r, inputs[j], link)
    {
      MatchedIff(log, e, r, inputs, |inputs|, link);
    }
    if ReviewedAmong(log, e, inputs, |reviewed|, link) {
      var i :| 0 <= i < |reviewed| && MatchedAmong(log, e, reviewed[i], inputs, |inputs|, link);
      var j :| 0 <= j < |inputs| && MatchLink(log, e, reviewed[i], inputs[j], link);
      assert reviewed[i] in reviewed && inputs[j] in inputs;
    }
    if ReviewLink(log, e, link) {
      var y, r, input :| ResolvedInputs(log, e, y, e.payload.evidence.inputEvent) && r in reviewed
        && input in y.payload.inputs && MatchLink(log, e, r, input, link);
      var i :| 0 <= i < |reviewed| && reviewed[i] == r;
      var j :| 0 <= j < |inputs| && inputs[j] == input;
      assert MatchedAmong(log, e, r, inputs, |inputs|, link);
    }
  }

  lemma {:induction false} SubjectGrows(c: Context, ops: seq<Op>, r: Reviewed, inputs: seq<Input>, k: nat,
                                        event: string,
                                        node: nat, a: string, link: Link)
    requires UsualOps(ops) && k <= |inputs| && Named(ops, node, a) && r.pin.artifact.Some?
    requires Clean(SubjectOps(c, ops, r, inputs, k, event, node))
    ensures Grows(ops, SubjectOps(c, ops, r, inputs, k, event, node), link,
                  SubjectAmong(r, inputs, k) && link == SubjectLink(r, event, a))
  {
    if k == 0 {
      Stays(ops, link);
    } else {
      SubjectGrows(c, ops, r, inputs, k - 1, event, node, a, link);
      if Concerns(r, inputs[k - 1]) {
        var before := SubjectOps(c, ops, r, inputs, k - 1, event, node);
        NodeAndLinkGrow(before, PinOp(r.pin, event), node, a, "used_inputs_from", event, link);
        Chain(ops, before, SubjectOps(c, ops, r, inputs, k, event, node), link,
              SubjectAmong(r, inputs, k - 1) && link == SubjectLink(r, event, a), link == SubjectLink(r, event, a));
      }
    }
  }

  ghost predicate SubjectAmong(r: Reviewed, inputs: seq<Input>, k: nat)
    requires k <= |inputs|
  {
    exists i | 0 <= i < k :: Concerns(r, inputs[i])
  }

  function SubjectLink(r: Reviewed, event: string, a: string): Link
    requires r.pin.artifact.Some?
  {
    Link(a, "Artifact:" + r.pin.artifact.value.1, "used_inputs_from", event)
  }

  lemma GrantGrows(log: seq<Entry>, e: Entry, ops: seq<Op>, operation: Evaluated, z: Entry, node: nat, a: string,
                   link: Link)
    requires ConflictFree(log) && IsAdmission(e) && UsualOps(ops) && Named(ops, node, a) && z.payload.Decided?
    requires Clean(GrantOps(ContextOf(log, e), ops, operation, z, node))
    ensures Grows(ops, GrantOps(ContextOf(log, e), ops, operation, z, node), link,
                  || link == Link(a, "event:" + z.id, "authorized_by", z.id)
                  || AuthorityLink(log, e, z.payload.decision.authorityEvent, "event:" + z.id, link))
  {
    var c, d := ContextOf(log, e), z.payload.decision;
    var granted :=
      Node("event:" + z.id, "UtilityAuthorization", operation.primitive.name, None, None, d.outcome, [z.id]);
    NodeAndLinkGrow(ops, NodeOp(granted), node, a, "authorized_by", z.id, link);
    var answered := Add(Add(ops, NodeOp(granted)), LinkOp(node, |ops|, "authorized_by", z.id));
    AuthorityGrows(log, e, answered, d.authorityEvent, operation.primitive, |ops|, "event:" + z.id, link);
    Chain(ops, answered, GrantOps(c, ops, operation, z, node), link,
          link == Link(a, "event:" + z.id, "authorized_by", z.id),
          AuthorityLink(log, e, d.authorityEvent, "event:" + z.id, link));
  }

  lemma AuthorizationGrows(log: seq<Entry>, e: Entry, p: Progress, operation: Evaluated, subject: Reviewed, z: Entry,
                           node: nat, a: string, link: Link)
    requires ConflictFree(log) && IsAdmission(e) && UsualOps(p.ops) && Named(p.ops, node, a) && z.payload.Decided?
    requires subject.pin.artifact.Some?
    requires Clean(AuthorizationOps(ContextOf(log, e), p, operation, subject, z, node).ops)
    ensures Grows(p.ops, AuthorizationOps(ContextOf(log, e), p, operation, subject, z, node).ops, link,
                  AuthorizationLink(log, e, a, subject, z, link))
  {
    var c, d := ContextOf(log, e), z.payload.decision;
    var inputs := Source(c, d.inputEvent, InputsResolved).value.payload.inputs;
    SubjectGrows(c, p.ops, subject, inputs, |inputs|, d.inputEvent, node, a, link);
    var linked := SubjectOps(c, p.ops, subject, inputs, |inputs|, d.inputEvent, node);
    GrantGrows(log, e, linked, operation, z, node, a, link);
    assert exists i | 0 <= i < |inputs| :: Concerns(subject, inputs[i]);
    assert SubjectAmong(subject, inputs, |inputs|);
    Chain(p.ops, linked, GrantOps(c, linked, operation, z, node), link, link == SubjectLink(subject, d.inputEvent, a),
          || link == Link(a, "event:" + z.id, "authorized_by", z.id)
          || AuthorityLink(log, e, d.authorityEvent, "event:" + z.id, link));
  }

  lemma {:induction false} AuthorizationsGrow(log: seq<Entry>, e: Entry, p: Progress, a: Entry, subject: Reviewed,
                                              node: nat, id: string, k: nat, link: Link)
    requires ConflictFree(log) && IsAdmission(e) && UsualOps(p.ops) && Named(p.ops, node, id) && k <= |log|
    requires a.payload.Decided? && subject.pin.artifact.Some?
    requires Clean(AuthorizationsOps(ContextOf(log, e), p, a, subject, node, k).ops)
    ensures Grows(p.ops, AuthorizationsOps(ContextOf(log, e), p, a, subject, node, k).ops, link,
                  AuthorizedAmong(log, e, a, subject, id, k, link))
  {
    if k == 0 {
      Stays(p.ops, link);
    } else {
      var c, z := ContextOf(log, e), log[k - 1];
      AuthorizationsGrow(log, e, p, a, subject, node, id, k - 1, link);
      assert Authorizes(c, a, z) <==> Follows(log, e, z, ExecutionAuthorized, a.id);
      if Authorizes(c, a, z) {
        var before := AuthorizationsOps(c, p, a, subject, node, k - 1);
        AuthorizationGrows(log, e, before, a.payload.decision, subject, z, node, id, link);
        Chain(p.ops, before.ops, AuthorizationsOps(c, p, a, subject, node, k).ops, link,
              AuthorizedAmong(log, e, a, subject, id, k - 1, link), AuthorizationLink(log, e, id, subject, z, link));
      }
    }
  }

  ghost predicate AuthorizedAmong(log: seq<Entry>, e: Entry, a: Entry, subject: Reviewed, id: string, k: nat,
                                  link: Link)
    requires e.payload.Human? && k <= |log| && subject.pin.artifact.Some?
    decreases k
  {
    k > 0 && (AuthorizedAmong(log, e, a, subject, id, k - 1, link)
        || (Follows(log, e, log[k - 1], ExecutionAuthorized, a.id)
            && AuthorizationLink(log, e, id, subject, log[k - 1], link)))
  }

  lemma {:induction false} AuthorizedAmongIff(log: seq<Entry>, e: Entry, a: Entry, subject: Reviewed, id: string,
                                              k: nat, link: Link)
    requires e.payload.Human? && k <= |log| && subject.pin.artifact.Some?
    ensures AuthorizedAmong(log, e, a, subject, id, k, link) <==>
      exists i | 0 <= i < k ::
        Follows(log, e, log[i], ExecutionAuthorized, a.id) && AuthorizationLink(log, e, id, subject, log[i], link)
    decreases k
  {
    if k > 0 {
      AuthorizedAmongIff(log, e, a, subject, id, k - 1, link);
    }
  }

  predicate ReviewedArePinned(e: Entry)
    requires e.payload.Human?
  {
    forall r | r in e.payload.evidence.reviewed :: r.pin.artifact.Some?
  }

  // The admitted operation, linked to the decision.
  function Opened(ops: seq<Op>, a: Entry): seq<Op>
    requires UsualOps(ops) && a.payload.Decided? && a.payload.decision.primitive.kind == "UtilityOperation"
  {
    Add(Add(ops, ResourceOp(a.payload.decision.primitive, "admitted", a.id)), LinkOp(|ops|, 0, "approved_by", a.id))
  }

  lemma OpenedGrows(e: Entry, ops: seq<Op>, a: Entry, link: Link)
    requires e.payload.Human? && UsualOps(ops) && Named(ops, 0, DecisionId(e))
    requires a.payload.Decided? && a.payload.decision.primitive.kind == "UtilityOperation"
    ensures var id := "UtilityOperation:" + a.payload.decision.primitive.uid;
      && Grows(ops, Opened(ops, a), link, link == Link(id, DecisionId(e), "approved_by", a.id))
      && UsualOps(Opened(ops, a)) && Named(Opened(ops, a), |ops|, id)
  {
    var id, op := "UtilityOperation:" + a.payload.decision.primitive.uid,
                  ResourceOp(a.payload.decision.primitive, "admitted", a.id);
    NodeGrows(ops, op, link);
    LinkGrows(Add(ops, op), |ops|, 0, id, DecisionId(e), "approved_by", a.id, link);
    Chain(ops, Add(ops, op), Opened(ops, a), link, false, link == Link(id, DecisionId(e), "approved_by", a.id));
  }

  lemma AuthorizedIsLink(log: seq<Entry>, e: Entry, a: Entry, link: Link)
    requires e.payload.Human? && a.payload.Decided? && a.payload.decision.binding.Some?
    requires a.payload.decision.binding.value.subject.pin.artifact.Some?
    ensures var d := a.payload.decision; var id := "UtilityOperation:" + d.primitive.uid;
      (|| link == Link(id, DecisionId(e), "approved_by", a.id)
       || AuthorizedAmong(log, e, a, d.binding.value.subject, id, |log|, link)) <==> OperationLink(log, e, a, link)
  {
    var d := a.payload.decision;
    AuthorizedAmongIff(log, e, a, d.binding.value.subject, "UtilityOperation:" + d.primitive.uid, |log|, link);
    forall z | Follows(log, e, z, ExecutionAuthorized, a.id) ensures exists i | 0 <= i < |log| :: log[i] == z {}
  }

  lemma OperationGrows(log: seq<Entry>, e: Entry, p: Progress, a: Entry, link: Link)
    requires ConflictFree(log) && IsAdmission(e) && UsualOps(p.ops) && Named(p.ops, 0, DecisionId(e))
    requires a.payload.Decided? && ReviewedArePinned(e) && Clean(OperationOps(ContextOf(log, e), p, a).ops)
    ensures Grows(p.ops, OperationOps(ContextOf(log, e), p, a).ops, link, OperationLink(log, e, a, link))
  {
    var c, d := ContextOf(log, e), a.payload.decision;
    var id, subject := "UtilityOperation:" + d.primitive.uid, d.binding.value.subject;
    OpenedGrows(e, p.ops, a, link);
    var linked := p.(ops := Opened(p.ops, a));
    assert OperationOps(c, p, a) == AuthorizationsOps(c, linked, a, subject, |p.ops|, |log|);
    AuthorizationsGrow(log, e, linked, a, subject, |p.ops|, id, |log|, link);
    Chain(p.ops, linked.ops, OperationOps(c, p, a).ops, link,
          link == Link(id, DecisionId(e), "approved_by", a.id), AuthorizedAmong(log, e, a, subject, id, |log|, link));
    AuthorizedIsLink(log, e, a, link);
  }

  ghost predicate FollowedAmong(log: seq<Entry>, e: Entry, k: nat, link: Link)
    requires e.payload.Human? && k <= |log|
    decreases k
  {
    k > 0 && (FollowedAmong(log, e, k - 1, link)
              || (Follows(log, e, log[k - 1], OperationAdmitted, e.id) && OperationLink(log, e, log[k - 1], link)))
  }

  lemma {:induction false} FollowedIff(log: seq<Entry>, e: Entry, k: nat, link: Link)
    requires e.payload.Human? && k <= |log|
    ensures FollowedAmong(log, e, k, link) <==>
      exists i | 0 <= i < k :: Follows(log, e, log[i], OperationAdmitted, e.id) && OperationLink(log, e, log[i], link)
    decreases k
  {
    if k > 0 {
      FollowedIff(log, e, k - 1, link);
    }
  }

  lemma {:induction false} OperationsGrow(log: seq<Entry>, e: Entry, p: Progress, k: nat, link: Link)
    requires ConflictFree(log) && IsAdmission(e) && UsualOps(p.ops) && Named(p.ops, 0, DecisionId(e)) && k <= |log|
    requires !p.authorized && ReviewedArePinned(e) && Clean(OperationsOps(ContextOf(log, e), p, k).ops)
    ensures Grows(p.ops, OperationsOps(ContextOf(log, e), p, k).ops, link, FollowedAmong(log, e, k, link))
  {
    if k == 0 {
      Stays(p.ops, link);
    } else {
      var c, a := ContextOf(log, e), log[k - 1];
      OperationsGrow(log, e, p, k - 1, link);
      assert Cites(c, a) <==> Follows(log, e, a, OperationAdmitted, e.id);
      if Cites(c, a) {
        var before := OperationsOps(c, p, k - 1);
        OperationGrows(log, e, before, a, link);
        Chain(p.ops, before.ops, OperationsOps(c, p, k).ops, link, FollowedAmong(log, e, k - 1, link),
              OperationLink(log, e, a, link));
      }
    }
  }

  // The decision, the request, and how they belong together.
  lemma IdentityGrows(log: seq<Entry>, e: Entry, link: Link)
    requires IsAdmission(e) && Clean(IdentityOps(ContextOf(log, e)))
    ensures var ops := IdentityOps(ContextOf(log, e));
      && Named(ops, 0, DecisionId(e)) && Named(ops, 1, RequestId(e)) && AllLinkEarlier(ops)
      && (Tells(ops, link) <==>
            link == Link(RequestId(e), DecisionId(e),
                         if e.payload.evidence.choice == Approved then "approved_by" else "supported_by", e.id))
  {
    var c, id, evidence := ContextOf(log, e), e.id, e.payload.evidence;
    var decision := ResourceOp(RefTo(c.scope, "ApprovalDecision", evidence.decision), ChoiceText(evidence.choice), id);
    var request := ResourceOp(RefTo(c.scope, "ApprovalRequest", evidence.request), "reviewed", id);
    NodeGrows([], decision, link);
    var one := Add([], decision);
    NodeGrows(one, request, link);
    var two := Add(one, request);
    Chain([], one, two, link, false, false);
    var relation := if evidence.choice == Approved then "approved_by" else "supported_by";
    LinkGrows(two, 1, 0, RequestId(e), DecisionId(e), relation, id, link);
    Chain([], two, IdentityOps(c), link, false, link == Link(RequestId(e), DecisionId(e), relation, id));
    assert GrowsBy([], IdentityOps(c), link, link == Link(RequestId(e), DecisionId(e), relation, id));
  }

  lemma SubmissionGrows(log: seq<Entry>, e: Entry, ops: seq<Op>, link: Link)
    requires IsAdmission(e) && UsualOps(ops) && Named(ops, 0, DecisionId(e))
    requires Clean(SubmissionOps(ContextOf(log, e), ops))
    ensures Grows(ops, SubmissionOps(ContextOf(log, e), ops), link,
                  link == Link(DecisionId(e), "event:" + e.payload.evidence.submissionEvent, "supported_by", e.id))
  {
    var c, id := ContextOf(log, e), e.payload.evidence.submissionEvent;
    var submission := Node("event:" + id, "HumanSubmission", c.evidence.approver, None, None,
                           ChoiceText(c.evidence.choice), [id]);
    NodeAndLinkGrow(ops, NodeOp(submission), 0, DecisionId(e), "supported_by", e.id, link);
  }

  lemma PinnedWhenBacked(log: seq<Entry>, e: Entry)
    requires e.payload.Human? && ReviewBacked(ContextOf(log, e))
    ensures ReviewedArePinned(e)
  {
    var c := ContextOf(log, e);
    var inputs := Source(c, c.evidence.inputEvent, InputsResolved).value.payload.inputs;
    forall r | r in c.evidence.reviewed ensures r.pin.artifact.Some? {
      var i :| 0 <= i < |c.evidence.reviewed| && c.evidence.reviewed[i] == r;
      assert PinBacked(c, c.evidence.reviewed[i], inputs);
    }
  }

  lemma FollowedIsAll(log: seq<Entry>, e: Entry, link: Link)
    requires e.payload.Human?
    ensures FollowedAmong(log, e, |log|, link) <==>
      exists a :: Follows(log, e, a, OperationAdmitted, e.id) && OperationLink(log, e, a, link)
  {
    FollowedIff(log, e, |log|, link);
    forall a | Follows(log, e, a, OperationAdmitted, e.id) ensures exists i | 0 <= i < |log| :: log[i] == a {}
  }

  // The submission and the review, after the identity.
  lemma ReviewedGrows(log: seq<Entry>, e: Entry, ops: seq<Op>, link: Link)
    requires ConflictFree(log) && IsAdmission(e) && UsualOps(ops)
    requires Named(ops, 0, DecisionId(e)) && Named(ops, 1, RequestId(e))
    requires Clean(ReviewOps(ContextOf(log, e), SubmissionOps(ContextOf(log, e), ops)))
    ensures Grows(ops, ReviewOps(ContextOf(log, e), SubmissionOps(ContextOf(log, e), ops)), link,
                  || link == Link(DecisionId(e), "event:" + e.payload.evidence.submissionEvent, "supported_by", e.id)
                  || ReviewLink(log, e, link))
  {
    var c := ContextOf(log, e);
    var submitted := SubmissionOps(c, ops);
    SubmissionGrows(log, e, ops, link);
    ReviewGrows(log, e, submitted, link);
    Chain(ops, submitted, ReviewOps(c, submitted), link,
          link == Link(DecisionId(e), "event:" + e.payload.evidence.submissionEvent, "supported_by", e.id),
          ReviewLink(log, e, link));
  }

  // The operations of a backed decision make exactly these links.
  lemma BackedTells(log: seq<Entry>, e: Entry, link: Link)
    requires ConflictFree(log) && IsAdmission(e) && Backed(log, e)
    ensures AllLinkEarlier(ApprovalOps(log, e)) && (Tells(ApprovalOps(log, e), link) <==> StoryLink(log, e, link))
  {
    var c := ContextOf(log, e);
    var identity := IdentityOps(c);
    var reviewed := ReviewOps(c, SubmissionOps(c, identity));
    var p := OperationsOps(c, Progress(reviewed, false), |log|);
    assert ApprovalOps(log, e) == p.ops;
    IdentityGrows(log, e, link);
    ReviewedGrows(log, e, identity, link);
    PinnedWhenBacked(log, e);
    OperationsGrow(log, e, Progress(reviewed, false), |log|, link);
    FollowedIsAll(log, e, link);
    AllTogether(log, e, identity, reviewed, p.ops, link);
  }

  lemma AllTogether(log: seq<Entry>, e: Entry, identity: seq<Op>, reviewed: seq<Op>, all: seq<Op>, link: Link)
    requires IsAdmission(e) && AllLinkEarlier(identity)
    requires Tells(identity, link) <==>
      link == Link(RequestId(e), DecisionId(e),
                   if e.payload.evidence.choice == Approved then "approved_by" else "supported_by", e.id)
    requires Grows(identity, reviewed, link,
                   || link == Link(DecisionId(e), "event:" + e.payload.evidence.submissionEvent, "supported_by", e.id)
                   || ReviewLink(log, e, link))
    requires Grows(reviewed, all, link, exists a ::
        Follows(log, e, a, OperationAdmitted, e.id) && OperationLink(log, e, a, link))
    ensures AllLinkEarlier(all) && (Tells(all, link) <==> StoryLink(log, e, link))
  {
    var rest := exists a :: Follows(log, e, a, OperationAdmitted, e.id) && OperationLink(log, e, a, link);
    var first := || link == Link(DecisionId(e), "event:" + e.payload.evidence.submissionEvent, "supported_by", e.id)
                 || ReviewLink(log, e, link);
    Chain(identity, reviewed, all, link, first, rest);
    assert GrowsBy(identity, all, link, first || rest);
  }

  // The links of a linked approval story are exactly those the evidence calls for.
  lemma LinksAreTheEvidence(namespace: string, log: seq<Entry>, e: Entry, link: Link)
    requires ConflictFree(log) && IsAdmission(e)
    requires Run(namespace, ApprovalOps(log, e)).story.status == Linked
    ensures link in Run(namespace, ApprovalOps(log, e)).story.links <==> StoryLink(log, e, link)
  {
    LinkedIffBacked(namespace, log, e);
    BackedTells(log, e, link);
    StoryIsSound(namespace, ApprovalOps(log, e));
    RunTells(namespace, ApprovalOps(log, e), Run(namespace, ApprovalOps(log, e)), link);
  }
}
