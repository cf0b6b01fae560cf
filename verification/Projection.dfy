/**
  The projection of an event log into lineage stories.  What a story contains is a run of builder
  operations chosen from the events, in the order of their ids, and the event it is about.
*/
module Projection {
  import opened Wrappers
  import opened Paths
  import opened Lineage

  // Of the event types, only the two that start a story matter here.
  datatype Event = Event(id: string, namespace: string, workflow: string, root: bool, content: string)

  datatype Told = Told(eventId: string, story: Story)

  // The operations of the story of an event, given all events in order.
  type Plan = (seq<Event>, Event) -> seq<Op>

  ghost predicate GoodPlan(plan: Plan)
  {
    forall events, e :: ValidOps(plan(events, e))
  }

  ghost predicate InOrder(events: seq<Event>)
  {
    forall i, j | 0 <= i < j < |events| :: !Less(events[j].id, events[i].id)
  }

  // Some order that sorting by id allows.
  ghost predicate IsOrdering(ordered: seq<Event>, events: seq<Event>)
  {
    InOrder(ordered) && multiset(ordered) == multiset(events)
  }

  // Two different events under one id.
  predicate Conflict(events: seq<Event>)
  {
    exists a, b | a in events && b in events :: a.id == b.id && a != b
  }

  method SortEvents(events: seq<Event>) returns (ordered: seq<Event>)
    ensures IsOrdering(ordered, events)
  {
    ordered := [];
    for i := 0 to |events|
      invariant InOrder(ordered) && multiset(ordered) == multiset(events[..i])
    {
      var k := |ordered|;
      while k > 0 && Less(events[i].id, ordered[k - 1].id)
        invariant 0 <= k <= |ordered|
        invariant forall j | k <= j < |ordered| :: Less(events[i].id, ordered[j].id)
      {
        k := k - 1;
      }
      assert events[..i + 1] == events[..i] + [events[i]];
      InsertAt(ordered, k, events[i]);
      ordered := ordered[..k] + [events[i]] + ordered[k..];
    }
    assert events[..|events|] == events;
  }

  lemma InsertAt(ordered: seq<Event>, k: nat, e: Event)
    requires k <= |ordered| && InOrder(ordered)
    requires k > 0 ==> !Less(e.id, ordered[k - 1].id)
    requires forall j | k <= j < |ordered| :: Less(e.id, ordered[j].id)
    ensures InOrder(ordered[..k] + [e] + ordered[k..])
    ensures multiset(ordered[..k] + [e] + ordered[k..]) == multiset(ordered) + multiset{e}
  {
    assert ordered == ordered[..k] + ordered[k..];
    var next := ordered[..k] + [e] + ordered[k..];
    forall i, j | 0 <= i < j < |next| ensures !Less(next[j].id, next[i].id) {
      if j == k {
        NoneBeforeIsLater(ordered, k, e, i);
      } else if i == k {
        LessTotal(e.id, ordered[j - 1].id);
      }
    }
  }

  lemma NoneBeforeIsLater(ordered: seq<Event>, k: nat, e: Event, i: nat)
    requires i < k <= |ordered| && InOrder(ordered) && !Less(e.id, ordered[k - 1].id)
    ensures !Less(e.id, ordered[i].id)
  {
    if i < k - 1 && Less(e.id, ordered[i].id) {
      LessTotal(ordered[i].id, ordered[k - 1].id);
      if ordered[i].id != ordered[k - 1].id {
        LessTransitive(e.id, ordered[i].id, ordered[k - 1].id);
      }
    }
  }

  lemma HeadsAgree(a: seq<Event>, b: seq<Event>)
    requires a != [] && b != [] && InOrder(a) && InOrder(b) && !Conflict(a)
    requires a[0] in b && b[0] in a
    ensures a[0] == b[0]
  {
    var i :| 0 <= i < |b| && b[i] == a[0];
    var j :| 0 <= j < |a| && a[j] == b[0];
    LessTotal(a[0].id, b[0].id);
    assert i > 0 ==> !Less(b[i].id, b[0].id);
    assert j > 0 ==> !Less(a[j].id, a[0].id);
    assert a[0] in a;
  }

  lemma TailsAgree(a: seq<Event>, b: seq<Event>)
    requires a != [] && b != [] && a[0] == b[0] && multiset(a) == multiset(b)
    ensures multiset(a[1..]) == multiset(b[1..])
  {
    assert a == [a[0]] + a[1..] && b == [b[0]] + b[1..];
    assert multiset(a[1..]) == multiset(a) - multiset{a[0]};
    assert multiset(b[1..]) == multiset(b) - multiset{b[0]};
  }

  // Without conflicts there is one order only, however the events arrived.
  lemma {:induction false} OrderingUnique(a: seq<Event>, b: seq<Event>)
    requires InOrder(a) && InOrder(b) && multiset(a) == multiset(b) && !Conflict(a)
    ensures a == b
    decreases |a|
  {
    assert |a| == |multiset(a)| == |multiset(b)| == |b|;
    if a != [] {
      assert a[0] in multiset(b) && b[0] in multiset(a);
      HeadsAgree(a, b);
      TailsAgree(a, b);
      assert forall e | e in a[1..] :: e in a;
      OrderingUnique(a[1..], b[1..]);
      assert a == [a[0]] + a[1..] && b == [b[0]] + b[1..];
    }
  }

  predicate Chosen(e: Event, workflow: string, selected: string)
  {
    e.workflow == workflow && (selected == "" || e.id == selected) && e.root
  }

  function Tell(plan: Plan, ordered: seq<Event>, e: Event): Told
    requires ValidOps(plan(ordered, e))
  {
    Told(e.id, Run(e.namespace, plan(ordered, e)).story)
  }

  // The stories of the first k events in order; an id is told once.
  function Stories(plan: Plan, workflow: string, selected: string, ordered: seq<Event>,
                   k: nat): seq<Told>
    requires GoodPlan(plan) && k <= |ordered|
  {
    if k == 0 then []
    else
      var e := ordered[k - 1];
      Stories(plan, workflow, selected, ordered, k - 1) +
      if Chosen(e, workflow, selected) && forall j | 0 <= j < k - 1 :: ordered[j].id != e.id
      then [Tell(plan, ordered, e)] else []
  }

  // What a projection is, given the events in order.
  function Projected(plan: Plan, workflow: string, selected: string,
                     ordered: seq<Event>): Outcome<seq<Told>>
    requires GoodPlan(plan)
  {
    if Conflict(ordered) then Refused
    else
      var stories := Stories(plan, workflow, selected, ordered, |ordered|);
      if selected != "" && stories == [] then Refused else Ok(stories)
  }

  method BuildProjection(plan: Plan, workflow: string, selected: string, events: seq<Event>)
      returns (result: Outcome<seq<Told>>)
    requires GoodPlan(plan)
    ensures exists ordered ::
      IsOrdering(ordered, events) && result == Projected(plan, workflow, selected, ordered)
  {
    var ordered := SortEvents(events);
    var conflict := HasConflict(ordered);
    if conflict {
      return Refused;
    }
    var stories := TellStories(plan, workflow, selected, ordered);
    return if selected != "" && stories == [] then Refused else Ok(stories);
  }

  // The map by id, compared with each event of an id that is there already.
  method HasConflict(ordered: seq<Event>) returns (conflict: bool)
    ensures conflict == Conflict(ordered)
  {
    var byId: map<string, Event> := map[];
    for i := 0 to |ordered|
      invariant forall id | id in byId :: byId[id].id == id && byId[id] in ordered[..i]
      invariant forall e | e in ordered[..i] :: e.id in byId && byId[e.id] == e
    {
      assert ordered[..i + 1] == ordered[..i] + [ordered[i]];
      var e := ordered[i];
      if e.id in byId && byId[e.id] != e {
        assert byId[e.id] in ordered && e in ordered;
        return true;
      }
      byId := byId[e.id := e];
    }
    assert ordered[..|ordered|] == ordered;
    return false;
  }

  method TellStories(plan: Plan, workflow: string, selected: string, ordered: seq<Event>)
      returns (stories: seq<Told>)
    requires GoodPlan(plan) && !Conflict(ordered)
    ensures stories == Stories(plan, workflow, selected, ordered, |ordered|)
  {
    var seen := {};
    stories := [];
    for i := 0 to |ordered|
      invariant stories == Stories(plan, workflow, selected, ordered, i)
      invariant SeenUpTo(seen, ordered, workflow, selected, i)
    {
      var e := ordered[i];
      SeenIff(ordered, workflow, selected, i, seen);
      SeenNext(ordered, workflow, selected, i, seen);
      if e.id in seen || e.workflow != workflow || (selected != "" && e.id != selected) {
        continue;
      }
      seen := seen + {e.id};
      if e.root {
        stories := stories + [Tell(plan, ordered, e)];
      }
    }
  }

  // An event that is looked at: it is of the workflow, and the selected one if one was selected.
  predicate Passed(e: Event, workflow: string, selected: string)
  {
    e.workflow == workflow && (selected == "" || e.id == selected)
  }

  ghost predicate SeenUpTo(seen: set<string>, ordered: seq<Event>, workflow: string, selected: string, i: nat)
    requires i <= |ordered|
  {
    forall id :: id in seen <==> exists j | 0 <= j < i :: ordered[j].id == id && Passed(ordered[j], workflow, selected)
  }

  lemma SeenNext(ordered: seq<Event>, workflow: string, selected: string, i: nat, seen: set<string>)
    requires i < |ordered| && SeenUpTo(seen, ordered, workflow, selected, i)
    ensures SeenUpTo(if Passed(ordered[i], workflow, selected) then seen + {ordered[i].id} else seen,
                     ordered, workflow, selected, i + 1)
    ensures ordered[i].id in seen ==> SeenUpTo(seen, ordered, workflow, selected, i + 1)
  {}

  // Without conflicts, having looked at an event of this id is having met this id at all.
  lemma SeenIff(ordered: seq<Event>, workflow: string, selected: string, i: nat, seen: set<string>)
    requires i < |ordered| && !Conflict(ordered) && SeenUpTo(seen, ordered, workflow, selected, i)
    ensures Passed(ordered[i], workflow, selected) ==>
      (ordered[i].id in seen <==> exists j | 0 <= j < i :: ordered[j].id == ordered[i].id)
  {
    if Passed(ordered[i], workflow, selected) {
      forall j | 0 <= j < i && ordered[j].id == ordered[i].id ensures Passed(ordered[j], workflow, selected) {
        assert ordered[i] in ordered && ordered[j] in ordered;
      }
    }
  }

  // The result does not depend on the order in which the events are given.
  lemma OrderDoesNotMatter(plan: Plan, workflow: string, selected: string,
                           events: seq<Event>, other: seq<Event>, a: seq<Event>, b: seq<Event>)
    requires GoodPlan(plan) && multiset(events) == multiset(other)
    requires IsOrdering(a, events) && IsOrdering(b, other)
    ensures Projected(plan, workflow, selected, a) == Projected(plan, workflow, selected, b)
  {
    SameMembers(a, b);
    if !Conflict(a) {
      OrderingUnique(a, b);
    }
  }

  lemma SameMembers(a: seq<Event>, b: seq<Event>)
    requires multiset(a) == multiset(b)
    ensures Conflict(a) == Conflict(b)
  {
    forall e ensures e in a <==> e in b {
      assert e in a <==> e in multiset(a);
      assert e in b <==> e in multiset(b);
    }
  }

  // This is the story of a chosen event among the first k.
  ghost predicate ToldFrom(told: Told, plan: Plan, workflow: string, selected: string,
                           ordered: seq<Event>, k: nat)
    requires GoodPlan(plan) && k <= |ordered|
  {
    exists i | 0 <= i < k ::
      told == Tell(plan, ordered, ordered[i]) && Chosen(ordered[i], workflow, selected)
  }

  // Each told story is about a chosen event, and is sound.
  lemma {:induction false} StoriesAreAboutChosen(plan: Plan, workflow: string, selected: string,
                                                 ordered: seq<Event>, k: nat)
    requires GoodPlan(plan) && k <= |ordered|
    ensures forall told | told in Stories(plan, workflow, selected, ordered, k) ::
      ValidStory(told.story) && ToldFrom(told, plan, workflow, selected, ordered, k)
  {
    if k > 0 {
      StoriesAreAboutChosen(plan, workflow, selected, ordered, k - 1);
      var e := ordered[k - 1];
      forall told | told in Stories(plan, workflow, selected, ordered, k)
        ensures ValidStory(told.story) && ToldFrom(told, plan, workflow, selected, ordered, k)
      {
        if told !in Stories(plan, workflow, selected, ordered, k - 1) {
          assert told == Tell(plan, ordered, ordered[k - 1]);
        }
      }
    }
  }

  lemma ToldIsEarlier(told: Told, plan: Plan, workflow: string, selected: string,
                      ordered: seq<Event>, k: nat)
    requires GoodPlan(plan) && k <= |ordered| && ToldFrom(told, plan, workflow, selected, ordered, k)
    ensures exists i | 0 <= i < k :: ordered[i].id == told.eventId
  {}

  ghost predicate DistinctIds(stories: seq<Told>)
  {
    forall i, j | 0 <= i < j < |stories| :: stories[i].eventId != stories[j].eventId
  }

  predicate Untold(stories: seq<Told>, id: string)
  {
    forall told | told in stories :: told.eventId != id
  }

  lemma DistinctAppend(stories: seq<Told>, told: Told)
    requires DistinctIds(stories) && Untold(stories, told.eventId)
    ensures DistinctIds(stories + [told])
  {}

  // An event whose id was not met before was not told before.
  lemma NewIdIsUntold(plan: Plan, workflow: string, selected: string, ordered: seq<Event>, k: nat)
    requires GoodPlan(plan) && k < |ordered| && forall j | 0 <= j < k :: ordered[j].id != ordered[k].id
    ensures Untold(Stories(plan, workflow, selected, ordered, k), ordered[k].id)
  {
    StoriesAreAboutChosen(plan, workflow, selected, ordered, k);
    forall told | told in Stories(plan, workflow, selected, ordered, k) ensures told.eventId != ordered[k].id {
      ToldIsEarlier(told, plan, workflow, selected, ordered, k);
    }
  }

  // No event is told twice.
  lemma {:induction false} NoStoryTwice(plan: Plan, workflow: string, selected: string,
                                        ordered: seq<Event>, k: nat)
    requires GoodPlan(plan) && k <= |ordered|
    ensures DistinctIds(Stories(plan, workflow, selected, ordered, k))
  {
    if k > 0 {
      NoStoryTwice(plan, workflow, selected, ordered, k - 1);
      OneMoreStory(plan, workflow, selected, ordered, k);
    }
  }

  lemma OneMoreStory(plan: Plan, workflow: string, selected: string, ordered: seq<Event>, k: nat)
    requires GoodPlan(plan) && 0 < k <= |ordered| && DistinctIds(Stories(plan, workflow, selected, ordered, k - 1))
    ensures DistinctIds(Stories(plan, workflow, selected, ordered, k))
  {
    var before, e := Stories(plan, workflow, selected, ordered, k - 1), ordered[k - 1];
    if Chosen(e, workflow, selected) && forall j | 0 <= j < k - 1 :: ordered[j].id != e.id {
      NewIdIsUntold(plan, workflow, selected, ordered, k - 1);
      DistinctAppend(before, Tell(plan, ordered, e));
    } else {
      assert before + [] == before;
    }
  }

  ghost predicate IsTold(stories: seq<Told>, id: string)
  {
    exists told :: told in stories && told.eventId == id
  }

  lemma StillTold(plan: Plan, workflow: string, selected: string, ordered: seq<Event>, k: nat,
                  id: string)
    requires GoodPlan(plan) && 0 < k <= |ordered|
    requires IsTold(Stories(plan, workflow, selected, ordered, k - 1), id)
    ensures IsTold(Stories(plan, workflow, selected, ordered, k), id)
  {
    var before := Stories(plan, workflow, selected, ordered, k - 1);
    var told :| told in before && told.eventId == id;
    assert told in Stories(plan, workflow, selected, ordered, k);
  }

  // Every chosen event is told.
  lemma {:induction false} EveryChosenIsTold(plan: Plan, workflow: string, selected: string,
                                             ordered: seq<Event>, k: nat, at: nat)
    requires GoodPlan(plan) && at < k <= |ordered| && !Conflict(ordered)
    requires ordered[at].workflow == workflow && ordered[at].root && (selected == "" || ordered[at].id == selected)
    ensures IsTold(Stories(plan, workflow, selected, ordered, k), ordered[at].id)
  {
    var e := ordered[k - 1];
    if at < k - 1 {
      EveryChosenIsTold(plan, workflow, selected, ordered, k - 1, at);
      StillTold(plan, workflow, selected, ordered, k, ordered[at].id);
    } else if j :| 0 <= j < k - 1 && ordered[j].id == e.id {
      assert ordered[j] in ordered && e in ordered && ordered[j] == e;
      EveryChosenIsTold(plan, workflow, selected, ordered, k - 1, j);
      StillTold(plan, workflow, selected, ordered, k, e.id);
    } else {
      assert Tell(plan, ordered, e) in Stories(plan, workflow, selected, ordered, k);
    }
  }

  // The projection is refused exactly for two different events under one id, and for a selected event
  // that is not there to start a story of the workflow.
  lemma RefusedIff(plan: Plan, workflow: string, selected: string, ordered: seq<Event>)
    requires GoodPlan(plan)
    ensures Projected(plan, workflow, selected, ordered).Refused? <==>
      || (exists a, b :: a in ordered && b in ordered && a.id == b.id && a != b)
      || (selected != "" && forall e | e in ordered :: e.workflow != workflow || e.id != selected || !e.root)
  {
    if !Conflict(ordered) && selected != "" {
      StoriesAreAboutChosen(plan, workflow, selected, ordered, |ordered|);
      var stories := Stories(plan, workflow, selected, ordered, |ordered|);
      if stories != [] {
        assert stories[0] in stories;
        assert ToldFrom(stories[0], plan, workflow, selected, ordered, |ordered|);
      }
      if e :| e in ordered && e.workflow == workflow && e.id == selected && e.root {
        var at :| 0 <= at < |ordered| && ordered[at] == e;
        EveryChosenIsTold(plan, workflow, selected, ordered, |ordered|, at);
      }
    }
  }
}
