/**
  Versioned objects, as the API server keeps them.  Every write gives an object a version that no
  object ever had; an update names the version it was computed from.  An update that goes through
  therefore finds the very value that was read: the protocols in this project may say that a write
  takes effect only if the stored object still equals the copy.
*/
module ObjectStore {

  datatype Versioned<V> = Versioned(version: nat, value: V)

  datatype Store<V> = Store(objects: map<string, Versioned<V>>, next: nat)

  datatype Write<V> =
    | Create(name: string, value: V)
    | Update(name: string, version: nat, value: V)
    | Delete(name: string)

  predicate Accepts<V>(s: Store<V>, w: Write<V>)
  {
    match w
    case Create(name, _) => name !in s.objects
    case Update(name, version, _) => name in s.objects && s.objects[name].version == version
    case Delete(name) => true
  }

  function Apply<V>(s: Store<V>, w: Write<V>): Store<V>
  {
    if !Accepts(s, w) then s
    else if w.Delete? then s.(objects := s.objects - {w.name})
    else Store(s.objects[w.name := Versioned(s.next, w.value)], s.next + 1)
  }

  function Run<V>(s: Store<V>, writes: seq<Write<V>>): Store<V>
    decreases |writes|
  {
    if writes == [] then s else Apply(Run(s, writes[..|writes| - 1]), writes[|writes| - 1])
  }

  ghost predicate Valid<V>(s: Store<V>)
  {
    forall name | name in s.objects :: s.objects[name].version < s.next
  }

  // A version that was given out stands for one value for ever, also across deletion and recreation.
  lemma {:induction false} VersionMeansValue<V>(s: Store<V>, writes: seq<Write<V>>, name: string, later: string)
    requires Valid(s) && name in s.objects && later in Run(s, writes).objects
    requires Run(s, writes).objects[later].version == s.objects[name].version
    ensures later in s.objects && Run(s, writes).objects[later] == s.objects[later]
    decreases |writes|
  {
    if writes != [] {
      var init, w := writes[..|writes| - 1], writes[|writes| - 1];
      RunIsValid(s, init);
      assert later in Run(s, init).objects && Run(s, init).objects[later] == Run(s, writes).objects[later];
      VersionMeansValue(s, init, name, later);
    }
  }

  lemma {:induction false} RunIsValid<V>(s: Store<V>, writes: seq<Write<V>>)
    requires Valid(s)
    ensures Valid(Run(s, writes)) && s.next <= Run(s, writes).next
    decreases |writes|
  {
    if writes != [] {
      RunIsValid(s, writes[..|writes| - 1]);
    }
  }

  // Whatever happened since the copy was read: an update computed from it goes through only if the
  // stored object still is that copy.
  lemma AcceptedUpdateFindsTheCopy<V>(s: Store<V>, writes: seq<Write<V>>, name: string, value: V)
    requires Valid(s) && name in s.objects
    requires Accepts(Run(s, writes), Update(name, s.objects[name].version, value))
    ensures Run(s, writes).objects[name] == s.objects[name]
  {
    VersionMeansValue(s, writes, name, name);
  }
}
