/**
  Lineage stories: what the builder records about a recovery or an approval.  Every story is made by
  a run of the builder's operations, where a link joins nodes that earlier operations returned.
*/
module Lineage {
  import opened Wrappers
  import opened Paths

  datatype Status = Linked | Missing | Mismatch

  datatype Issue = Issue(status: Status, eventId: string, reason: string)

  datatype Resource = Resource(
    schemaVersion: string, apiVersion: string, kind: string, namespace: string, name: string, uid: string)

  // An accepted artifact, and the pin that names it by contract, UID and digest.
  datatype Artifact = Artifact(contract: string, digest: string)

  datatype Pin = Pin(name: string, digest: string, artifact: Option<(string, string)>)

  datatype Node = Node(
    id: string, kind: string, title: string, resource: Option<Resource>, artifact: Option<Artifact>,
    outcome: string, sources: seq<string>)

  datatype Link = Link(source: string, target: string, relation: string, eventId: string)

  datatype Story = Story(status: Status, issues: seq<Issue>, nodes: seq<Node>, links: seq<Link>)

  const SCHEMA: string := "v1"
  const GROUP: string := "sovereign-ai.io/v1alpha1"

  function Ids(nodes: seq<Node>): (ids: seq<string>)
    ensures |ids| == |nodes| && forall i | 0 <= i < |ids| :: ids[i] == nodes[i].id
  {
    seq(|nodes|, i requires 0 <= i < |nodes| => nodes[i].id)
  }

  function FirstAt(nodes: seq<Node>, id: string): (i: nat)
    requires id in Ids(nodes)
    ensures i < |nodes| && nodes[i].id == id && forall j | 0 <= j < i :: nodes[j].id != id
    decreases |nodes|
  {
    if nodes[0].id == id then 0
    else
      assert Ids(nodes)[0] == nodes[0].id && Ids(nodes)[1..] == Ids(nodes[1..]);
      1 + FirstAt(nodes[1..], id)
  }

  // The worst status among the issues.
  ghost predicate IsWorst(status: Status, issues: seq<Issue>)
  {
    match status
    case Linked => issues == []
    case Missing => issues != [] && forall i | i in issues :: i.status == Missing
    case Mismatch => exists i :: i in issues && i.status == Mismatch
  }

  function AddIssue(s: Story, issue: Issue): Story
  {
    if issue in s.issues then s
    else
      s.(issues := s.issues + [issue],
         status := if issue.status == Mismatch || s.status == Linked then issue.status else s.status)
  }

  predicate SameResource(a: Resource, b: Resource)
  {
    && a.kind == b.kind && a.apiVersion == b.apiVersion && a.namespace == b.namespace && a.name == b.name
    && a.uid != "" && a.uid == b.uid
  }

  function AddSources(sources: seq<string>, more: seq<string>): (r: seq<string>)
    requires Sorted(sources)
    ensures Sorted(r) && forall x :: x in r <==> x in sources || x in more
    decreases |more|
  {
    if more == [] then sources
    else AddSources(if more[0] in sources then sources else Insert(sources, more[0]), more[1..])
  }

  predicate Conflicting(present: Node, node: Node)
  {
    present.resource.Some? && node.resource.Some? && !SameResource(present.resource.value, node.resource.value)
  }

  // A node with an id that is there already only adds its sources, unless the two are different
  // resources.  The answer is the id to link to, or the empty string.
  function AddNode(s: Story, node: Node): (Story, string)
    requires ValidStory(s) && node.sources != []
  {
    if node.id !in Ids(s.nodes) then (s.(nodes := s.nodes + [node]), node.id)
    else
      var i := FirstAt(s.nodes, node.id);
      var present := s.nodes[i];
      if Conflicting(present, node)
        then (AddIssue(s, Issue(Mismatch, node.sources[0], "conflicting resource identities")), "")
      else
        assert ValidNode(present);
        (s.(nodes := s.nodes[i := present.(sources := AddSources(present.sources, node.sources))]), node.id)
  }

  predicate ValidResource(ref: Resource, kind: string, namespace: string)
  {
    && ref.schemaVersion == SCHEMA && ref.apiVersion == GROUP && ref.kind == kind && ref.namespace == namespace
    && ref.name != "" && ref.uid != ""
  }

  function ResourceNode(ref: Resource, outcome: string, event: string): Node
  {
    Node(ref.kind + ":" + ref.uid, ref.kind, ref.name, Some(ref), None, outcome, [event])
  }

  function AddResource(s: Story, namespace: string, ref: Resource, outcome: string, event: string): (Story, string)
    requires ValidStory(s)
  {
    if !ValidResource(ref, ref.kind, namespace)
    then (AddIssue(s, Issue(Mismatch, event, "invalid " + ref.kind + " identity")), "")
    else AddNode(s, ResourceNode(ref, outcome, event))
  }

  function BeforeSlash(text: string): (front: string)
    ensures '/' !in front
  {
    if text == "" || text[0] == '/' then "" else [text[0]] + BeforeSlash(text[1..])
  }

  predicate Disagrees(node: Node, pin: Pin, uid: string)
  {
    && node.id == "Artifact:" + uid && node.artifact.Some?
    && (node.artifact.value.digest != pin.digest || BeforeSlash(node.artifact.value.contract) != pin.name)
  }

  function PinNode(pin: Pin, ref: Resource, event: string): Node
  {
    Node("Artifact:" + ref.uid, "Artifact", pin.name, Some(ref), Some(Artifact(pin.name, pin.digest)), "", [event])
  }

  function AddPin(s: Story, namespace: string, pin: Pin, event: string): (Story, string)
    requires ValidStory(s)
  {
    if pin.artifact.None? || pin.digest == "" || pin.name == ""
    then (AddIssue(s, Issue(Missing, event, "artifact has no exact pin")), "")
    else
      var ref := Resource(SCHEMA, GROUP, "Artifact", namespace, pin.artifact.value.0, pin.artifact.value.1);
      if !ValidResource(ref, "Artifact", namespace)
      then (AddIssue(s, Issue(Mismatch, event, "invalid " + ref.kind + " identity")), "")
      else if exists node | node in s.nodes :: Disagrees(node, pin, ref.uid)
      then (AddIssue(s, Issue(Mismatch, event, "artifact digest or contract differs")), "")
      else AddNode(s, PinNode(pin, ref, event))
  }

  function AddLink(s: Story, link: Link): Story
  {
    if link.source == "" || link.target == "" || link in s.links then s else s.(links := s.links + [link])
  }

  // What later evidence adds to a node found by its id.
  function Annotate(s: Story, id: string, outcome: string, artifact: Option<Artifact>): Story
  {
    s.(nodes := seq(|s.nodes|, i requires 0 <= i < |s.nodes| =>
      if s.nodes[i].id == id
      then s.nodes[i].(outcome := outcome, artifact := if artifact.Some? then artifact else s.nodes[i].artifact)
      else s.nodes[i]))
  }

  predicate ValidNode(node: Node)
  {
    node.id != "" && node.sources != [] && Sorted(node.sources)
  }

  ghost predicate Distinct<T>(items: seq<T>)
  {
    forall i, j | 0 <= i < j < |items| :: items[i] != items[j]
  }

  ghost predicate ValidLink(s: Story, link: Link)
  {
    link.source in Ids(s.nodes) && link.target in Ids(s.nodes)
  }

  // Node ids are unique, links are unique and have both ends, the status is the worst issue.
  ghost predicate ValidStory(s: Story)
  {
    && Distinct(Ids(s.nodes)) && (forall node | node in s.nodes :: ValidNode(node))
    && Distinct(s.links) && (forall link | link in s.links :: ValidLink(s, link))
    && Distinct(s.issues) && (forall issue | issue in s.issues :: issue.status != Linked)
    && IsWorst(s.status, s.issues)
  }

  const EMPTY: Story := Story(Linked, [], [], [])

  lemma IssueKeeps(s: Story, issue: Issue)
    requires ValidStory(s) && issue.status != Linked
    ensures ValidStory(AddIssue(s, issue)) && issue in AddIssue(s, issue).issues
    ensures AddIssue(s, issue).nodes == s.nodes && Extends(s, AddIssue(s, issue), "")
  {
    var next := AddIssue(s, issue);
    if issue !in s.issues {
      assert issue in next.issues;
      assert forall i :: i in next.issues <==> i in s.issues || i == issue;
      assert forall link | link in next.links :: ValidLink(s, link);
    }
  }

  predicate NoBetter(before: Status, after: Status)
  {
    before == Linked || after == Mismatch || before == after
  }

  // Nothing is lost, the status gets no better, and the answer is an id of the story or empty.
  ghost predicate Extends(s: Story, next: Story, answer: string)
  {
    && s.issues <= next.issues && s.links <= next.links && NoBetter(s.status, next.status)
    && (forall id | id in Ids(s.nodes) :: id in Ids(next.nodes))
    && (answer == "" || answer in Ids(next.nodes))
  }

  lemma NodeKeeps(s: Story, node: Node)
    requires ValidStory(s) && ValidNode(node)
    ensures ValidStory(AddNode(s, node).0) && Extends(s, AddNode(s, node).0, AddNode(s, node).1)
  {
    var (next, answer) := AddNode(s, node);
    if node.id !in Ids(s.nodes) {
      NewNodeKeeps(s, node);
    } else {
      var i := FirstAt(s.nodes, node.id);
      assert s.nodes[i] in s.nodes;
      if Conflicting(s.nodes[i], node) {
        IssueKeeps(s, Issue(Mismatch, node.sources[0], "conflicting resource identities"));
      } else {
        SameIdsKeep(s, next);
      }
    }
  }

  lemma NewNodeKeeps(s: Story, node: Node)
    requires ValidStory(s) && ValidNode(node) && node.id !in Ids(s.nodes)
    ensures var next := s.(nodes := s.nodes + [node]); ValidStory(next) && Extends(s, next, node.id)
  {
    var next := s.(nodes := s.nodes + [node]);
    assert Ids(next.nodes) == Ids(s.nodes) + [node.id];
    forall link | link in next.links ensures ValidLink(next, link) {
      assert ValidLink(s, link);
    }
  }

  lemma SameIdsKeep(s: Story, next: Story)
    requires ValidStory(s) && next == s.(nodes := next.nodes)
    requires Ids(next.nodes) == Ids(s.nodes) && forall node | node in next.nodes :: ValidNode(node)
    ensures ValidStory(next)
  {
    forall link | link in next.links ensures ValidLink(next, link) {
      assert ValidLink(s, link);
    }
  }

  lemma ResourceKeeps(s: Story, namespace: string, ref: Resource, outcome: string, event: string)
    requires ValidStory(s)
    ensures var (next, answer) := AddResource(s, namespace, ref, outcome, event);
      ValidStory(next) && Extends(s, next, answer)
  {
    if ValidResource(ref, ref.kind, namespace) {
      NodeKeeps(s, ResourceNode(ref, outcome, event));
    } else {
      IssueKeeps(s, Issue(Mismatch, event, "invalid " + ref.kind + " identity"));
    }
  }

  lemma PinKeeps(s: Story, namespace: string, pin: Pin, event: string)
    requires ValidStory(s)
    ensures var (next, answer) := AddPin(s, namespace, pin, event); ValidStory(next) && Extends(s, next, answer)
  {
    if pin.artifact.None? || pin.digest == "" || pin.name == "" {
      IssueKeeps(s, Issue(Missing, event, "artifact has no exact pin"));
    } else {
      var ref := Resource(SCHEMA, GROUP, "Artifact", namespace, pin.artifact.value.0, pin.artifact.value.1);
      if !ValidResource(ref, "Artifact", namespace) {
        IssueKeeps(s, Issue(Mismatch, event, "invalid " + ref.kind + " identity"));
      } else if exists node | node in s.nodes :: Disagrees(node, pin, ref.uid) {
        IssueKeeps(s, Issue(Mismatch, event, "artifact digest or contract differs"));
      } else {
        NodeKeeps(s, PinNode(pin, ref, event));
      }
    }
  }

  lemma LinkKeeps(s: Story, link: Link)
    requires ValidStory(s)
    requires link.source == "" || link.target == "" || ValidLink(s, link)
    ensures ValidStory(AddLink(s, link)) && AddLink(s, link).nodes == s.nodes && Extends(s, AddLink(s, link), "")
  {
    var next := AddLink(s, link);
    forall l | l in next.links ensures ValidLink(next, l) {
      assert l in s.links ==> ValidLink(s, l);
    }
  }

  lemma AnnotateKeeps(s: Story, id: string, outcome: string, artifact: Option<Artifact>)
    requires ValidStory(s)
    ensures ValidStory(Annotate(s, id, outcome, artifact)) && Extends(s, Annotate(s, id, outcome, artifact), "")
    ensures Ids(Annotate(s, id, outcome, artifact).nodes) == Ids(s.nodes)
  {
    var next := Annotate(s, id, outcome, artifact);
    forall node | node in next.nodes ensures ValidNode(node) {
      var i :| 0 <= i < |next.nodes| && next.nodes[i] == node;
      assert s.nodes[i] in s.nodes;
    }
    SameIdsKeep(s, next);
  }

  // ---- runs of the builder ----

  // A handle is the position of the operation whose answer is meant.
  datatype Op =
    | IssueOp(issue: Issue)
    | NodeOp(node: Node)
    | ResourceOp(ref: Resource, outcome: string, event: string)
    | PinOp(pin: Pin, event: string)
    | LinkOp(source: nat, target: nat, relation: string, event: string)
    | AnnotateOp(handle: nat, outcome: string, artifact: Option<Artifact>)

  // The builder reports only these statuses, and names every node and its source.
  predicate ValidOp(op: Op)
  {
    match op
    case IssueOp(issue) => issue.status != Linked
    case NodeOp(node) => ValidNode(node)
    case _ => true
  }

  datatype State = State(story: Story, answers: seq<string>)

  function Answer(t: State, handle: nat): string
  {
    if handle < |t.answers| then t.answers[handle] else ""
  }

  function Apply(t: State, namespace: string, op: Op): State
    requires ValidStory(t.story) && ValidOp(op)
  {
    match op
    case IssueOp(issue) => State(AddIssue(t.story, issue), t.answers + [""])
    case NodeOp(node) => var (s, id) := AddNode(t.story, node); State(s, t.answers + [id])
    case ResourceOp(ref, outcome, event) =>
      var (s, id) := AddResource(t.story, namespace, ref, outcome, event); State(s, t.answers + [id])
    case PinOp(pin, event) => var (s, id) := AddPin(t.story, namespace, pin, event); State(s, t.answers + [id])
    case LinkOp(source, target, relation, event) =>
      State(AddLink(t.story, Link(Answer(t, source), Answer(t, target), relation, event)), t.answers + [""])
    case AnnotateOp(handle, outcome, artifact) =>
      State(Annotate(t.story, Answer(t, handle), outcome, artifact), t.answers + [""])
  }

  ghost predicate ValidState(t: State)
  {
    ValidStory(t.story) && forall id | id in t.answers :: id == "" || id in Ids(t.story.nodes)
  }

  lemma ApplyKeeps(t: State, namespace: string, op: Op)
    requires ValidState(t) && ValidOp(op)
    ensures ValidState(Apply(t, namespace, op)) && Extends(t.story, Apply(t, namespace, op).story, "")
  {
    match op
    case IssueOp(issue) => IssueKeeps(t.story, issue);
    case NodeOp(node) => NodeKeeps(t.story, node);
    case ResourceOp(ref, outcome, event) => ResourceKeeps(t.story, namespace, ref, outcome, event);
    case PinOp(pin, event) => PinKeeps(t.story, namespace, pin, event);
    case LinkOp(source, target, relation, event) =>
      assert Answer(t, source) == "" || Answer(t, source) in t.answers;
      assert Answer(t, target) == "" || Answer(t, target) in t.answers;
      LinkKeeps(t.story, Link(Answer(t, source), Answer(t, target), relation, event));
    case AnnotateOp(handle, outcome, artifact) => AnnotateKeeps(t.story, Answer(t, handle), outcome, artifact);
  }

  // Operations that the builder's code can make.
  predicate ValidOps(ops: seq<Op>)
  {
    forall i | 0 <= i < |ops| :: ValidOp(ops[i])
  }

  function Run(namespace: string, ops: seq<Op>): (t: State)
    requires ValidOps(ops)
    ensures ValidState(t)
    decreases |ops|
  {
    if ops == [] then State(EMPTY, [])
    else
      var t := Run(namespace, ops[..|ops| - 1]);
      ApplyKeeps(t, namespace, ops[|ops| - 1]);
      Apply(t, namespace, ops[|ops| - 1])
  }

  // After any run: no two nodes share an id, no two links are equal, both ends of every link are
  // nodes, and the status is linked if there are no issues, a mismatch if there is one, else missing.
  lemma StoryIsSound(namespace: string, ops: seq<Op>)
    requires ValidOps(ops)
    ensures var s := Run(namespace, ops).story;
      && (forall i, j | 0 <= i < j < |s.nodes| :: s.nodes[i].id != s.nodes[j].id)
      && (forall i, j | 0 <= i < j < |s.links| :: s.links[i] != s.links[j])
      && (forall link | link in s.links ::
            (exists n :: n in s.nodes && n.id == link.source) && (exists n :: n in s.nodes && n.id == link.target))
      && (s.status == Linked <==> s.issues == [])
      && (s.status == Mismatch <==> exists i :: i in s.issues && i.status == Mismatch)
  {
    var s := Run(namespace, ops).story;
    forall i, j | 0 <= i < j < |s.nodes| ensures s.nodes[i].id != s.nodes[j].id {
      assert Ids(s.nodes)[i] != Ids(s.nodes)[j];
    }
    forall link | link in s.links
      ensures (exists n :: n in s.nodes && n.id == link.source) && (exists n :: n in s.nodes && n.id == link.target)
    {
      assert ValidLink(s, link);
      var i :| 0 <= i < |s.nodes| && Ids(s.nodes)[i] == link.source;
      var j :| 0 <= j < |s.nodes| && Ids(s.nodes)[j] == link.target;
      assert s.nodes[i] in s.nodes && s.nodes[j] in s.nodes;
    }
  }

  // Nothing recorded is lost later in a run, and the status never gets better.
  lemma {:induction false} StoryOnlyGrows(namespace: string, ops: seq<Op>, k: nat)
    requires ValidOps(ops) && k <= |ops| && ValidOps(ops[..k])
    ensures var s, t := Run(namespace, ops[..k]).story, Run(namespace, ops).story;
      && s.issues <= t.issues && s.links <= t.links && NoBetter(s.status, t.status)
      && forall id | id in Ids(s.nodes) :: id in Ids(t.nodes)
    decreases |ops|
  {
    if k == |ops| {
      assert ops[..k] == ops;
    } else {
      var init, last := ops[..|ops| - 1], ops[|ops| - 1];
      assert init[..k] == ops[..k];
      StoryOnlyGrows(namespace, init, k);
      ApplyKeeps(Run(namespace, init), namespace, last);
    }
  }
}
