/** The in-memory event store: the first event with an id stays, lists are in order of occurrence. */
module AuditMemory {
  import opened Wrappers
  import opened Paths

  datatype Event = Event(id: string, workflow: string, occurredAt: int, recordedAt: Option<int>, content: string)

  type Events = map<string, Event>

  // The clock stands in for a missing recording time.
  function Stamped(e: Event, now: int): Event
  {
    if e.recordedAt.None? then e.(recordedAt := Some(now)) else e
  }

  function Appended(events: Events, e: Event, now: int): Events
  {
    if e.id in events then events else events[e.id := Stamped(e, now)]
  }

  // What an event says, whenever it was recorded.
  function Fact(e: Event): Event
  {
    e.(recordedAt := None)
  }

  ghost predicate Earlier(a: Event, b: Event)
  {
    a.occurredAt < b.occurredAt || (a.occurredAt == b.occurredAt && Less(a.id, b.id))
  }

  ghost predicate InOrder(list: seq<Event>)
  {
    forall i, j | 0 <= i < j < |list| :: Earlier(list[i], list[j])
  }

  ghost predicate ByOwnId(events: Events)
  {
    forall id | id in events :: events[id].id == id
  }

  ghost predicate IsListing(list: seq<Event>, events: Events, workflow: string)
  {
    InOrder(list) && forall e :: e in list <==> e.id in events && events[e.id] == e && e.workflow == workflow
  }

  class MemoryRecorder {
    var events: Events

    ghost predicate Valid()
      reads this
    {
      ByOwnId(events)
    }

    constructor ()
      ensures Valid() && events == map[]
    {
      events := map[];
    }

    method Append(event: Event, now: int)
      requires Valid()
      modifies this
      ensures Valid() && events == Appended(old(events), event, now)
    {
      if event.id in events {
        return;
      }
      var stored := event;
      if stored.recordedAt.None? {
        stored := stored.(recordedAt := Some(now));
      }
      events := events[stored.id := stored];
    }

    // The map is visited in any order; sorting makes the list unique.
    method ListWorkflow(workflow: string) returns (list: seq<Event>)
      requires Valid()
      ensures IsListing(list, events, workflow)
    {
      list := [];
      var left := events.Keys;
      while left != {}
        invariant left <= events.Keys && InOrder(list)
        invariant forall e :: e in list <==>
          e.id in events && e.id !in left && events[e.id] == e && e.workflow == workflow
        decreases left
      {
        var id :| id in left;
        left := left - {id};
        if events[id].workflow == workflow {
          assert forall e | e in list :: e.id != id;
          list := Placed(list, events[id]);
        }
      }
    }
  }

  method Placed(list: seq<Event>, e: Event) returns (longer: seq<Event>)
    requires InOrder(list) && forall x | x in list :: x.id != e.id
    ensures InOrder(longer) && forall x :: x in longer <==> x in list || x == e
  {
    var k := |list|;
    while k > 0
      && (e.occurredAt < list[k - 1].occurredAt
          || (e.occurredAt == list[k - 1].occurredAt && Less(e.id, list[k - 1].id)))
      invariant 0 <= k <= |list| && forall j | k <= j < |list| :: Earlier(e, list[j])
    {
      k := k - 1;
    }
    longer := list[..k] + [e] + list[k..];
    assert list == list[..k] + list[k..];
    forall i, j | 0 <= i < j < |longer| ensures Earlier(longer[i], longer[j]) {
      if j == k {
        assert list[k - 1] in list;
        LessTotal(e.id, list[k - 1].id);
        assert Earlier(list[k - 1], e);
        if i < k - 1 {
          EarlierTransitive(list[i], list[k - 1], e);
        }
      }
    }
  }

  lemma EarlierTransitive(a: Event, b: Event, c: Event)
    requires Earlier(a, b) && Earlier(b, c)
    ensures Earlier(a, c)
  {
    if a.occurredAt == b.occurredAt == c.occurredAt {
      LessTransitive(a.id, b.id, c.id);
    }
  }

  lemma EarlierOneWay(a: Event, b: Event)
    ensures !(Earlier(a, b) && Earlier(b, a)) && !Earlier(a, a)
  {
    LessTotal(a.id, b.id);
    LessTotal(a.id, a.id);
  }

  // The list of a workflow is determined by what is stored.
  lemma {:induction false} ListingUnique(a: seq<Event>, b: seq<Event>)
    requires InOrder(a) && InOrder(b) && forall e :: e in a <==> e in b
    ensures a == b
    decreases |a|
  {
    assert a != [] ==> a[0] in a;
    assert b != [] ==> b[0] in b;
    if a != [] {
      assert a[0] in b && b[0] in b;
      var i :| 0 <= i < |b| && b[i] == a[0];
      var j :| 0 <= j < |a| && a[j] == b[0];
      EarlierOneWay(a[0], b[0]);
      assert a[0] == b[0];
      TailsAgree(a, b);
      ListingUnique(a[1..], b[1..]);
      assert a == [a[0]] + a[1..] && b == [b[0]] + b[1..];
    }
  }

  lemma TailsAgree(a: seq<Event>, b: seq<Event>)
    requires a != [] && b != [] && a[0] == b[0] && InOrder(a) && InOrder(b) && forall e :: e in a <==> e in b
    ensures InOrder(a[1..]) && InOrder(b[1..]) && forall e :: e in a[1..] <==> e in b[1..]
  {
    forall e ensures e in a[1..] <==> e in b[1..] {
      EarlierOneWay(a[0], a[0]);
      assert e in a <==> e == a[0] || e in a[1..];
      assert e in b <==> e == b[0] || e in b[1..];
      assert a[0] !in a[1..] && b[0] !in b[1..] by {
        assert forall k | 0 < k < |a| :: Earlier(a[0], a[k]);
        assert forall k | 0 < k < |b| :: Earlier(b[0], b[k]);
      }
    }
  }

  function AppendAll(events: Events, more: seq<(Event, int)>): Events
    decreases |more|
  {
    if more == [] then events
    else
      var last := more[|more| - 1];
      Appended(AppendAll(events, more[..|more| - 1]), last.0, last.1)
  }

  function EventsOf(more: seq<(Event, int)>): set<Event>
  {
    set i | 0 <= i < |more| :: more[i].0
  }

  // Events with deterministic ids: the same id is always the same event.
  ghost predicate Replayable(events: set<Event>)
  {
    forall a, b | a in events && b in events && a.id == b.id :: Fact(a) == Fact(b)
  }

  lemma {:induction false} AppendedFacts(more: seq<(Event, int)>)
    requires Replayable(EventsOf(more))
    ensures forall id | id in AppendAll(map[], more) :: exists e :: e in EventsOf(more) && e.id == id
    ensures forall e | e in EventsOf(more) ::
      e.id in AppendAll(map[], more) && Fact(AppendAll(map[], more)[e.id]) == Fact(e)
    decreases |more|
  {
    if more != [] {
      var init, last := more[..|more| - 1], more[|more| - 1];
      assert EventsOf(more) == EventsOf(init) + {last.0} by {
        forall e | e in EventsOf(more) ensures e in EventsOf(init) + {last.0} {
          var i :| 0 <= i < |more| && more[i].0 == e;
          assert i < |init| ==> init[i].0 == e;
        }
        forall e | e in EventsOf(init) ensures e in EventsOf(more) {
          var i :| 0 <= i < |init| && init[i].0 == e;
          assert more[i].0 == e;
        }
        assert more[|more| - 1].0 == last.0;
      }
      AppendedFacts(init);
      assert last.0 in EventsOf(more);
    }
  }

  // Replaying events, in any order and any number of times, records the same facts.
  lemma ReplayRecordsTheSame(left: seq<(Event, int)>, right: seq<(Event, int)>, id: string)
    requires EventsOf(left) == EventsOf(right) && Replayable(EventsOf(left))
    ensures id in AppendAll(map[], left) <==> id in AppendAll(map[], right)
    ensures id in AppendAll(map[], left) ==> Fact(AppendAll(map[], left)[id]) == Fact(AppendAll(map[], right)[id])
  {
    AppendedFacts(left);
    AppendedFacts(right);
    if id in AppendAll(map[], left) {
      var e :| e in EventsOf(left) && e.id == id;
      assert e in EventsOf(right);
    }
  }
}
