/** The builder of one lineage story: it appends to the story and changes it in place. */
module LineageBuilder {
  import opened Wrappers
  import opened Paths
  import L = Lineage

  class StoryBuilder {
    var story: L.Story
    const namespace: string

    ghost predicate Valid()
      reads this
    {
      L.ValidStory(story)
    }

    constructor (namespace: string)
      ensures Valid() && story == L.EMPTY && this.namespace == namespace
    {
      story := L.EMPTY;
      this.namespace := namespace;
    }

    method Issue(status: L.Status, id: string, reason: string)
      requires Valid() && status != L.Linked
      modifies this
      ensures Valid() && story == L.AddIssue(old(story), L.Issue(status, id, reason))
    {
      var value := L.Issue(status, id, reason);
      L.IssueKeeps(story, value);
      for i := 0 to |story.issues|
        invariant story == old(story) && value !in story.issues[..i]
      {
        if story.issues[i] == value {
          return;
        }
      }
      assert story.issues[..|story.issues|] == story.issues;
      story := story.(issues := story.issues + [value]);
      if status == L.Mismatch || story.status == L.Linked {
        story := story.(status := status);
      }
    }

    method Node(node: L.Node) returns (id: string)
      requires Valid() && L.ValidNode(node)
      modifies this
      ensures Valid() && (story, id) == L.AddNode(old(story), node) && L.Extends(old(story), story, id)
    {
      L.NodeKeeps(story, node);
      for i := 0 to |story.nodes|
        invariant story == old(story) && forall j | 0 <= j < i :: story.nodes[j].id != node.id
      {
        var present := story.nodes[i];
        if present.id == node.id {
          assert L.Ids(story.nodes)[i] == node.id;
          assert L.FirstAt(story.nodes, node.id) == i;
          if present.resource.Some? && node.resource.Some?
            && !L.SameResource(present.resource.value, node.resource.value) {
            Issue(L.Mismatch, node.sources[0], "conflicting resource identities");
            return "";
          }
          assert L.ValidNode(present);
          var sources := present.sources;
          for k := 0 to |node.sources|
            invariant Sorted(sources)
            invariant L.AddSources(sources, node.sources[k..]) == L.AddSources(present.sources, node.sources)
          {
            assert node.sources[k..][0] == node.sources[k] && node.sources[k..][1..] == node.sources[k + 1..];
            if node.sources[k] !in sources {
              sources := Insert(sources, node.sources[k]);
            }
          }
          assert node.sources[|node.sources|..] == [];
          story := story.(nodes := story.nodes[i := present.(sources := sources)]);
          return node.id;
        }
      }
      assert node.id !in L.Ids(story.nodes);
      story := story.(nodes := story.nodes + [node]);
      return node.id;
    }

    method ValidResource(ref: L.Resource, kind: string, event: string) returns (valid: bool)
      requires Valid()
      modifies this
      ensures Valid() && valid == L.ValidResource(ref, kind, namespace)
      ensures story == if valid then old(story)
                       else L.AddIssue(old(story), L.Issue(L.Mismatch, event, "invalid " + kind + " identity"))
    {
      if ref.schemaVersion != L.SCHEMA || ref.apiVersion != L.GROUP || ref.kind != kind || ref.namespace != namespace
        || ref.name == "" || ref.uid == "" {
        Issue(L.Mismatch, event, "invalid " + kind + " identity");
        return false;
      }
      return true;
    }

    method Resource(ref: L.Resource, outcome: string, event: string) returns (id: string)
      requires Valid()
      modifies this
      ensures Valid() && (story, id) == L.AddResource(old(story), namespace, ref, outcome, event)
      ensures L.Extends(old(story), story, id)
    {
      L.ResourceKeeps(story, namespace, ref, outcome, event);
      var valid := ValidResource(ref, ref.kind, event);
      if !valid {
        return "";
      }
      id := Node(L.Node(ref.kind + ":" + ref.uid, ref.kind, ref.name, Some(ref), None, outcome, [event]));
    }

    // Both ends come from earlier calls: an id of the story, or empty.
    method Link(source: string, target: string, relation: string, event: string)
      requires Valid()
      requires source == "" || source in L.Ids(story.nodes)
      requires target == "" || target in L.Ids(story.nodes)
      modifies this
      ensures Valid() && story == L.AddLink(old(story), L.Link(source, target, relation, event))
    {
      var value := L.Link(source, target, relation, event);
      L.LinkKeeps(story, value);
      if source == "" || target == "" {
        return;
      }
      for i := 0 to |story.links|
        invariant story == old(story) && value !in story.links[..i]
      {
        if story.links[i] == value {
          return;
        }
      }
      assert story.links[..|story.links|] == story.links;
      story := story.(links := story.links + [value]);
    }

    method Pin(pin: L.Pin, event: string) returns (id: string)
      requires Valid()
      modifies this
      ensures Valid() && (story, id) == L.AddPin(old(story), namespace, pin, event)
      ensures L.Extends(old(story), story, id)
    {
      L.PinKeeps(story, namespace, pin, event);
      if pin.artifact.None? || pin.digest == "" || pin.name == "" {
        Issue(L.Missing, event, "artifact has no exact pin");
        return "";
      }
      var ref := L.Resource(L.SCHEMA, L.GROUP, "Artifact", namespace, pin.artifact.value.0, pin.artifact.value.1);
      var valid := ValidResource(ref, "Artifact", event);
      if !valid {
        return "";
      }
      for i := 0 to |story.nodes|
        invariant story == old(story) && forall j | 0 <= j < i :: !L.Disagrees(story.nodes[j], pin, ref.uid)
      {
        if L.Disagrees(story.nodes[i], pin, ref.uid) {
          assert story.nodes[i] in story.nodes;
          Issue(L.Mismatch, event, "artifact digest or contract differs");
          return "";
        }
      }
      var evidence := L.Artifact(pin.name, pin.digest);
      id := Node(L.Node("Artifact:" + ref.uid, "Artifact", pin.name, Some(ref), Some(evidence), "", [event]));
    }
  }
}
