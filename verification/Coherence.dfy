/**
  When a builder run ends linked.  The builder itself reports three kinds of disagreement: an identity
  that is not valid, two resources under one id, and an artifact pinned in two ways.
*/
module Coherence {
  import opened Wrappers
  import opened Lineage

  // The kinds of the resources a story names beside artifacts.
  const KINDS: set<string> :=
    {"ApprovalDecision", "ApprovalRequest", "StepAttempt", "ValidationRun", "UtilityOperation", "AgentRun"}

  // Operations as story code makes them: nodes of events, resources of these kinds, and pins that
  // name a contract without its version.
  predicate UsualOp(op: Op)
  {
    match op
    case IssueOp(issue) => issue.status != Linked
    case NodeOp(node) =>
      node.resource.None? && node.artifact.None? && |node.sources| == 1 && node.id == "event:" + node.sources[0]
    case ResourceOp(ref, _, _) => ref.kind in KINDS
    case PinOp(pin, _) => '/' !in pin.name
    case LinkOp(_, _, _, _) => true
    case AnnotateOp(_, _, _) => false
  }

  predicate UsualOps(ops: seq<Op>)
  {
    forall i | 0 <= i < |ops| :: UsualOp(ops[i])
  }

  lemma UsualIsValid(ops: seq<Op>)
    requires UsualOps(ops)
    ensures ValidOps(ops)
  {
    forall i | 0 <= i < |ops| ensures ValidOp(ops[i]) {
      assert UsualOp(ops[i]);
    }
  }

  predicate Clean(ops: seq<Op>)
  {
    forall i | 0 <= i < |ops| :: !ops[i].IssueOp?
  }

  function PinnedRef(pin: Pin, namespace: string): Resource
    requires pin.artifact.Some?
  {
    Resource(SCHEMA, GROUP, "Artifact", namespace, pin.artifact.value.0, pin.artifact.value.1)
  }

  // The resource an operation names.
  function Mention(op: Op, namespace: string): Option<Resource>
  {
    match op
    case ResourceOp(ref, _, _) => Some(ref)
    case PinOp(pin, _) => if pin.artifact.Some? then Some(PinnedRef(pin, namespace)) else None
    case _ => None
  }

  // Whole by itself: a valid identity, and an exact pin.
  predicate Sound(op: Op, namespace: string)
  {
    match op
    case ResourceOp(ref, _, _) => ValidResource(ref, ref.kind, namespace)
    case PinOp(pin, _) =>
      && pin.artifact.Some? && pin.digest != "" && pin.name != ""
      && ValidResource(PinnedRef(pin, namespace), "Artifact", namespace)
    case _ => true
  }

  // One kind and UID has one name, and one artifact has one digest and contract.
  predicate Agree(a: Op, b: Op, namespace: string)
  {
    var r, q := Mention(a, namespace), Mention(b, namespace);
    r.Some? && q.Some? && r.value.kind == q.value.kind && r.value.uid == q.value.uid ==>
      && r.value.name == q.value.name
      && (a.PinOp? && b.PinOp? ==> a.pin.digest == b.pin.digest && a.pin.name == b.pin.name)
  }

  predicate Coherent(ops: seq<Op>, namespace: string)
  {
    && (forall i | 0 <= i < |ops| :: Sound(ops[i], namespace))
    && (forall i, j | 0 <= i < j < |ops| :: Agree(ops[i], ops[j], namespace))
  }

  // The operation fits in after these.
  predicate Fits(ops: seq<Op>, op: Op, namespace: string)
  {
    !op.IssueOp? && Sound(op, namespace) && forall i | 0 <= i < |ops| :: Agree(ops[i], op, namespace)
  }

  lemma CoherentStep(ops: seq<Op>, op: Op, namespace: string)
    ensures Clean(ops + [op]) && Coherent(ops + [op], namespace) <==>
      Clean(ops) && Coherent(ops, namespace) && Fits(ops, op, namespace)
  {
    var all := ops + [op];
    assert all[|ops|] == op && forall i | 0 <= i < |ops| :: all[i] == ops[i];
    if Clean(all) && Coherent(all, namespace) {
      assert !all[|ops|].IssueOp? && Sound(all[|ops|], namespace);
      forall i | 0 <= i < |ops| ensures !ops[i].IssueOp? && Sound(ops[i], namespace) && Agree(ops[i], op, namespace) {
        assert !all[i].IssueOp? && Sound(all[i], namespace) && Agree(all[i], all[|ops|], namespace);
      }
      forall i, j | 0 <= i < j < |ops| ensures Agree(ops[i], ops[j], namespace) {
        assert Agree(all[i], all[j], namespace);
      }
    }
  }

  // ---- what the nodes of a story without issues say ----

  function IdOf(ref: Resource): string
  {
    ref.kind + ":" + ref.uid
  }

  predicate PlainKind(kind: string)
  {
    kind in KINDS || kind == "Artifact"
  }

  lemma PlainKindHasNoColon(kind: string)
    requires PlainKind(kind)
    ensures ':' !in kind && kind != "event"
  {}

  lemma IdsAreInjective(k: string, u: string, l: string, v: string)
    requires ':' !in k && ':' !in l && k + ":" + u == l + ":" + v
    ensures k == l && u == v
  {
    var id := k + ":" + u;
    assert forall i | 0 <= i < |k| :: id[i] == k[i] && k[i] in k;
    assert forall i | 0 <= i < |l| :: id[i] == l[i] && l[i] in l;
    assert id[|k|] == ':' && id[|l|] == ':';
    assert id[..|k|] == k && id[..|l|] == l && id[|k| + 1..] == u && id[|l| + 1..] == v;
  }

  // The operation that this node's resource, and its pin, come from.
  predicate MadeBy(node: Node, op: Op, namespace: string)
  {
    && Mention(op, namespace).Some? && node.resource == Mention(op, namespace)
    && node.id == IdOf(node.resource.value)
    && (if op.PinOp? then node.artifact == Some(Artifact(op.pin.name, op.pin.digest)) else node.artifact.None?)
  }

  // Each node is an event's, or comes from one of the operations; each resource named has its node.
  ghost predicate Tracks(s: Story, ops: seq<Op>, namespace: string)
  {
    && s.issues == []
    && (forall node | node in s.nodes ::
          if node.resource.None? then node.artifact.None? && exists x :: node.id == "event:" + x
          else exists i | 0 <= i < |ops| :: MadeBy(node, ops[i], namespace))
    && (forall i | 0 <= i < |ops| && Mention(ops[i], namespace).Some? ::
          IdOf(Mention(ops[i], namespace).value) in Ids(s.nodes))
  }

  // A node with the id of a resource is that resource's, not an event's.
  lemma NodeOfResource(s: Story, ops: seq<Op>, namespace: string, ref: Resource, k: nat) returns (i: nat)
    requires UsualOps(ops) && Tracks(s, ops, namespace) && PlainKind(ref.kind)
    requires k < |s.nodes| && s.nodes[k].id == IdOf(ref)
    ensures i < |ops| && MadeBy(s.nodes[k], ops[i], namespace)
    ensures var r := s.nodes[k].resource.value; r.kind == ref.kind && r.uid == ref.uid
    ensures ops[i].PinOp? <==> ref.kind == "Artifact"
  {
    var node := s.nodes[k];
    assert node in s.nodes;
    PlainKindHasNoColon(ref.kind);
    if node.resource.None? {
      var x :| node.id == "event:" + x;
      IdsAreInjective("event", x, ref.kind, ref.uid);
    }
    i :| 0 <= i < |ops| && MadeBy(node, ops[i], namespace);
    assert UsualOp(ops[i]);
    PlainKindHasNoColon(node.resource.value.kind);
    IdsAreInjective(node.resource.value.kind, node.resource.value.uid, ref.kind, ref.uid);
  }

  // Same nodes up to their sources, no issue, and the new operation's resource has its node.
  lemma SameNodesTrack(s: Story, next: Story, ops: seq<Op>, op: Op, namespace: string)
    requires Tracks(s, ops, namespace) && next.issues == [] && |next.nodes| == |s.nodes|
    requires forall k | 0 <= k < |s.nodes| ::
      next.nodes[k].id == s.nodes[k].id && next.nodes[k].resource == s.nodes[k].resource
      && next.nodes[k].artifact == s.nodes[k].artifact
    requires Mention(op, namespace).Some? ==> IdOf(Mention(op, namespace).value) in Ids(s.nodes)
    ensures Tracks(next, ops + [op], namespace)
  {
    var all := ops + [op];
    assert Ids(next.nodes) == Ids(s.nodes);
    forall node | node in next.nodes
      ensures if node.resource.None? then node.artifact.None? && exists x :: node.id == "event:" + x
              else exists i | 0 <= i < |all| :: MadeBy(node, all[i], namespace)
    {
      var k :| 0 <= k < |next.nodes| && next.nodes[k] == node;
      assert s.nodes[k] in s.nodes;
      if node.resource.Some? {
        var i :| 0 <= i < |ops| && MadeBy(s.nodes[k], ops[i], namespace);
        assert MadeBy(node, all[i], namespace);
      }
    }
    forall i | 0 <= i < |all| && Mention(all[i], namespace).Some?
      ensures IdOf(Mention(all[i], namespace).value) in Ids(next.nodes)
    {
      assert i < |ops| ==> all[i] == ops[i];
    }
  }

  // A new node.
  lemma NewNodeTracks(s: Story, node: Node, ops: seq<Op>, op: Op, namespace: string)
    requires Tracks(s, ops, namespace)
    requires if node.resource.None?
             then node.artifact.None? && (exists x :: node.id == "event:" + x) && Mention(op, namespace).None?
             else MadeBy(node, op, namespace)
    ensures Tracks(s.(nodes := s.nodes + [node]), ops + [op], namespace)
  {
    var next, all := s.(nodes := s.nodes + [node]), ops + [op];
    assert Ids(next.nodes) == Ids(s.nodes) + [node.id];
    forall n | n in next.nodes
      ensures if n.resource.None? then n.artifact.None? && exists x :: n.id == "event:" + x
              else exists i | 0 <= i < |all| :: MadeBy(n, all[i], namespace)
    {
      if n in s.nodes {
        if n.resource.Some? {
          var i :| 0 <= i < |ops| && MadeBy(n, ops[i], namespace);
          assert MadeBy(n, all[i], namespace);
        }
      } else {
        assert all[|ops|] == op;
      }
    }
    forall i | 0 <= i < |all| && Mention(all[i], namespace).Some?
      ensures IdOf(Mention(all[i], namespace).value) in Ids(next.nodes)
    {
      assert i < |ops| ==> all[i] == ops[i];
    }
  }

  // Adding an event's node never reports anything.
  lemma EventTracks(s: Story, ops: seq<Op>, op: Op, namespace: string)
    requires ValidStory(s) && Tracks(s, ops, namespace) && op.NodeOp? && UsualOp(op)
    ensures Tracks(AddNode(s, op.node).0, ops + [op], namespace)
  {
    if op.node.id !in Ids(s.nodes) {
      NewNodeTracks(s, op.node, ops, op, namespace);
    } else {
      SameNodesTrack(s, AddNode(s, op.node).0, ops, op, namespace);
    }
  }

  // Adding a resource's node reports something exactly when an earlier operation disagrees.
  lemma NodeTracks(s: Story, node: Node, ops: seq<Op>, op: Op, namespace: string)
    requires ValidStory(s) && UsualOps(ops) && Tracks(s, ops, namespace) && Coherent(ops, namespace)
    requires UsualOp(op) && MadeBy(node, op, namespace) && Sound(op, namespace) && node.sources != []
    requires forall i | 0 <= i < |ops| && op.PinOp? && ops[i].PinOp? && ops[i].pin.artifact.Some? ::
      ops[i].pin.artifact.value.1 == op.pin.artifact.value.1 ==>
        ops[i].pin.digest == op.pin.digest && ops[i].pin.name == op.pin.name
    ensures var next := AddNode(s, node).0;
      && (next.issues == [] <==> forall i | 0 <= i < |ops| :: Agree(ops[i], op, namespace))
      && (next.issues == [] ==> Tracks(next, ops + [op], namespace))
  {
    var ref := node.resource.value;
    PlainKindHasNoColon(ref.kind);
    if node.id !in Ids(s.nodes) {
      forall i | 0 <= i < |ops| ensures Agree(ops[i], op, namespace) {
        AgreeIfNew(s, ops, op, namespace, ref, i);
      }
      NewNodeTracks(s, node, ops, op, namespace);
    } else {
      var k := FirstAt(s.nodes, node.id);
      var i := NodeOfResource(s, ops, namespace, ref, k);
      assert Sound(ops[i], namespace);
      assert Conflicting(s.nodes[k], node) <==> !Agree(ops[i], op, namespace);
      if Agree(ops[i], op, namespace) {
        forall j | 0 <= j < |ops| ensures Agree(ops[j], op, namespace) {
          assert i < j ==> Agree(ops[i], ops[j], namespace);
          assert j < i ==> Agree(ops[j], ops[i], namespace);
        }
        SameNodesTrack(s, AddNode(s, node).0, ops, op, namespace);
      }
    }
  }

  lemma AgreeIfNew(s: Story, ops: seq<Op>, op: Op, namespace: string, ref: Resource, i: nat)
    requires Tracks(s, ops, namespace) && i < |ops| && Mention(op, namespace) == Some(ref)
    requires IdOf(ref) !in Ids(s.nodes)
    ensures Agree(ops[i], op, namespace)
  {}

  lemma ResourceTracks(s: Story, ops: seq<Op>, op: Op, namespace: string)
    requires ValidStory(s) && UsualOps(ops) && Tracks(s, ops, namespace) && Coherent(ops, namespace)
    requires op.ResourceOp? && UsualOp(op)
    ensures var next := AddResource(s, namespace, op.ref, op.outcome, op.event).0;
      && (next.issues == [] <==> Fits(ops, op, namespace))
      && (next.issues == [] ==> Tracks(next, ops + [op], namespace))
  {
    if Sound(op, namespace) {
      NodeTracks(s, ResourceNode(op.ref, op.outcome, op.event), ops, op, namespace);
    }
  }

  lemma {:induction false} BeforeSlashOfPlain(text: string)
    requires '/' !in text
    ensures BeforeSlash(text) == text
  {
    if text != "" {
      BeforeSlashOfPlain(text[1..]);
      assert text == [text[0]] + text[1..];
    }
  }

  predicate SamePin(a: Pin, b: Pin)
  {
    a.digest == b.digest && a.name == b.name
  }

  // A node that disagrees with a pin comes from an earlier pin that does.
  lemma DisagreeingNode(s: Story, ops: seq<Op>, op: Op, namespace: string, node: Node) returns (i: nat)
    requires UsualOps(ops) && Tracks(s, ops, namespace) && op.PinOp? && op.pin.artifact.Some?
    requires node in s.nodes && Disagrees(node, op.pin, op.pin.artifact.value.1)
    ensures i < |ops| && !Agree(ops[i], op, namespace)
  {
    var k :| 0 <= k < |s.nodes| && s.nodes[k] == node;
    i := NodeOfResource(s, ops, namespace, PinnedRef(op.pin, namespace), k);
    assert UsualOp(ops[i]);
    BeforeSlashOfPlain(ops[i].pin.name);
  }

  // And an earlier pin of the artifact that differs has such a node.
  lemma DisagreeingPin(s: Story, ops: seq<Op>, op: Op, namespace: string, i: nat) returns (node: Node)
    requires UsualOps(ops) && Tracks(s, ops, namespace) && Coherent(ops, namespace)
    requires op.PinOp? && op.pin.artifact.Some? && i < |ops| && ops[i].PinOp? && ops[i].pin.artifact.Some?
    requires ops[i].pin.artifact.value.1 == op.pin.artifact.value.1 && !SamePin(ops[i].pin, op.pin)
    ensures node in s.nodes && Disagrees(node, op.pin, op.pin.artifact.value.1)
  {
    var ref := PinnedRef(op.pin, namespace);
    assert Mention(ops[i], namespace) == Some(PinnedRef(ops[i].pin, namespace));
    assert IdOf(PinnedRef(ops[i].pin, namespace)) == IdOf(ref);
    assert IdOf(ref) in Ids(s.nodes);
    var k := FirstAt(s.nodes, IdOf(ref));
    node := s.nodes[k];
    var j := NodeOfResource(s, ops, namespace, ref, k);
    assert i < j ==> Agree(ops[i], ops[j], namespace);
    assert j < i ==> Agree(ops[j], ops[i], namespace);
    assert UsualOp(ops[j]);
    BeforeSlashOfPlain(ops[j].pin.name);
  }

  lemma PinTracks(s: Story, ops: seq<Op>, op: Op, namespace: string)
    requires ValidStory(s) && UsualOps(ops) && Tracks(s, ops, namespace) && Coherent(ops, namespace)
    requires op.PinOp? && UsualOp(op)
    ensures var next := AddPin(s, namespace, op.pin, op.event).0;
      && (next.issues == [] <==> Fits(ops, op, namespace))
      && (next.issues == [] ==> Tracks(next, ops + [op], namespace))
  {
    if Sound(op, namespace) {
      if node :| node in s.nodes && Disagrees(node, op.pin, op.pin.artifact.value.1) {
        var i := DisagreeingNode(s, ops, op, namespace, node);
      } else {
        AgreeingPinTracks(s, ops, op, namespace);
      }
    }
  }

  lemma AgreeingPinTracks(s: Story, ops: seq<Op>, op: Op, namespace: string)
    requires ValidStory(s) && UsualOps(ops) && Tracks(s, ops, namespace) && Coherent(ops, namespace)
    requires op.PinOp? && UsualOp(op) && Sound(op, namespace)
    requires forall node | node in s.nodes :: !Disagrees(node, op.pin, op.pin.artifact.value.1)
    ensures var next := AddPin(s, namespace, op.pin, op.event).0;
      && (next.issues == [] <==> Fits(ops, op, namespace))
      && (next.issues == [] ==> Tracks(next, ops + [op], namespace))
  {
    forall i | 0 <= i < |ops| && ops[i].PinOp? && ops[i].pin.artifact.Some?
      && ops[i].pin.artifact.value.1 == op.pin.artifact.value.1
      ensures SamePin(ops[i].pin, op.pin)
    {
      if !SamePin(ops[i].pin, op.pin) {
        var node := DisagreeingPin(s, ops, op, namespace, i);
      }
    }
    NodeTracks(s, PinNode(op.pin, PinnedRef(op.pin, namespace), op.event), ops, op, namespace);
  }

  lemma OpTracks(t: State, ops: seq<Op>, op: Op, namespace: string)
    requires ValidState(t) && UsualOps(ops) && Tracks(t.story, ops, namespace) && Coherent(ops, namespace)
    requires UsualOp(op) && ValidOp(op)
    ensures var next := Apply(t, namespace, op).story;
      && (next.issues == [] <==> Fits(ops, op, namespace))
      && (next.issues == [] ==> Tracks(next, ops + [op], namespace))
  {
    match op
    case IssueOp(issue) => IssueKeeps(t.story, issue);
    case NodeOp(_) =>
      NoMentionAgrees(ops, op, namespace);
      EventTracks(t.story, ops, op, namespace);
    case ResourceOp(_, _, _) => ResourceTracks(t.story, ops, op, namespace);
    case PinOp(_, _) => PinTracks(t.story, ops, op, namespace);
    case LinkOp(_, _, _, _) =>
      NoMentionAgrees(ops, op, namespace);
      SameNodesTrack(t.story, Apply(t, namespace, op).story, ops, op, namespace);
  }

  lemma NoMentionAgrees(ops: seq<Op>, op: Op, namespace: string)
    requires Mention(op, namespace).None?
    ensures forall i | 0 <= i < |ops| :: Agree(ops[i], op, namespace)
  {}

  // A run has no issue if and only if none is reported and all it names is coherent.
  lemma {:induction false} RunTracks(ops: seq<Op>, namespace: string)
    requires UsualOps(ops) && ValidOps(ops)
    ensures Run(namespace, ops).story.issues == [] <==> Clean(ops) && Coherent(ops, namespace)
    ensures Run(namespace, ops).story.issues == [] ==> Tracks(Run(namespace, ops).story, ops, namespace)
    decreases |ops|
  {
    if ops != [] {
      var init, op := ops[..|ops| - 1], ops[|ops| - 1];
      assert ops == init + [op];
      UsualPrefix(ops);
      RunTracks(init, namespace);
      CoherentStep(init, op, namespace);
      var before := Run(namespace, init);
      if before.story.issues == [] {
        OpTracks(before, init, op, namespace);
      } else {
        ApplyKeeps(before, namespace, op);
      }
    }
  }

  lemma UsualPrefix(ops: seq<Op>)
    requires UsualOps(ops) && ops != []
    ensures UsualOps(ops[..|ops| - 1]) && UsualOp(ops[|ops| - 1])
  {}

  lemma LinkedIff(ops: seq<Op>, namespace: string)
    requires UsualOps(ops) && ValidOps(ops)
    ensures Run(namespace, ops).story.status == Linked <==> Clean(ops) && Coherent(ops, namespace)
  {
    RunTracks(ops, namespace);
    StoryIsSound(namespace, ops);
  }
}
