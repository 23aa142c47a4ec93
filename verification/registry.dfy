/** DefaultSubscriberRegistry (bus/DefaultSubscriberRegistry): the table from
    event type to the insertion-ordered, duplicate-free set of subscribers
    registered for it, updated in place by register and unregister. */
module Registry {
  import opened JavaLang
  import opened OrderedSets
  import opened Types
  import opened Events
  import opened Subscribers
  import opened Strategy

  type Buckets = map<ClassId, seq<Subscriber>>

  /** subscribers.get(k), with a missing set read as empty. */
  function Bucket(m: Buckets, k: ClassId): seq<Subscriber> {
    if k in m then m[k] else []
  }

  predicate AllNoDup(m: Buckets) {
    forall k :: k in m ==> NoDup(m[k])
  }

  /** The set of type `k` once register has added the groups of the types
      in `done`: addAll of the new entries onto the old set (an empty one when
      absent). */
  function RegisteredSet(before: Buckets, found: Buckets, done: set<ClassId>, k: ClassId): seq<Subscriber> {
    if k in done && k in found then AddAll(Bucket(before, k), found[k]) else Bucket(before, k)
  }

  /** The table once the groups of the types in `done` have been added. */
  function RegisteredPart(before: Buckets, found: Buckets, done: set<ClassId>): (r: Buckets)
    ensures r.Keys == before.Keys + found.Keys * done
  {
    map k | k in before.Keys + found.Keys * done :: RegisteredSet(before, found, done, k)
  }

  /** The table after register has added `found`. */
  function Registered(before: Buckets, found: Buckets): (r: Buckets)
    ensures r.Keys == before.Keys + found.Keys
  {
    RegisteredPart(before, found, found.Keys)
  }

  /** After register, a set holds exactly its old members and the new ones,
      with the old ones first and in their old order, and without duplicates. */
  lemma RegisteredBuckets(before: Buckets, found: Buckets, k: ClassId)
    requires AllNoDup(before)
    ensures AllNoDup(Registered(before, found))
    ensures Bucket(before, k) <= Bucket(Registered(before, found), k)
    ensures forall s :: s in Bucket(Registered(before, found), k) <==>
      s in Bucket(before, k) || (k in found && s in found[k])
  {
    RegisteredNoDup(before, found);
  }

  /** unregister succeeds when every discovered type has a set and removeAll
      changes each of them. */
  predicate Removable(before: Buckets, found: Buckets) {
    forall k :: k in found ==> k in before && RemoveAll(before[k], found[k]) != before[k]
  }

  /** The set of type `k` once the entries of the types in `done` are removed. */
  function UnregisteredSet(before: Buckets, found: Buckets, done: set<ClassId>, k: ClassId): seq<Subscriber> {
    if k in done && k in found then RemoveAll(Bucket(before, k), found[k]) else Bucket(before, k)
  }

  /** The table after the entries of the types in `done` have been removed. */
  function Unregistered(before: Buckets, found: Buckets, done: set<ClassId>): (r: Buckets)
    ensures r.Keys == before.Keys
  {
    map k | k in before.Keys :: UnregisteredSet(before, found, done, k)
  }

  /** The registry: the one piece of state is the map from event type to
      subscriber set. Each set is kept free of duplicates. */
  class SubscriberRegistry {
    var subscribers: Buckets

    ghost predicate Valid()
      reads this
    {
      AllNoDup(subscribers)
    }

    constructor()
      ensures Valid() && subscribers == map[]
    {
      subscribers := map[];
    }

    /** register: discover the listener's subscribers and addAll each group to
        the set of its event type, creating the set when absent. The groups
        are taken in an unspecified order; the outcome does not depend on it. */
    method Register(t: ClassTable, listener: Option<Listener>) returns (r: Result<()>)
      requires ValidTable(t) && (listener.Some? ==> listener.value.cls in t)
      requires Valid()
      modifies this
      ensures Valid()
      ensures var f := FoundSubscribers(t, listener);
        (f.Err? ==> r == Err(f.error) && subscribers == old(subscribers)) &&
        (f.Ok? ==> r == Ok(()) && subscribers == Registered(old(subscribers), f.value))
    {
      var found := FindAllSubscribers(t, listener);
      if found.Err? {
        return Err(found.error);
      }
      AddGroups(found.value);
      RegisteredNoDup(old(subscribers), found.value);
      return Ok(());
    }

    /** The loop of register: addAll each group onto the set of its type. */
    method AddGroups(groups: Buckets)
      modifies this
      ensures subscribers == Registered(old(subscribers), groups)
    {
      var todo := groups.Keys;
      ghost var done: set<ClassId> := {};
      while todo != {}
        invariant todo !! done && todo + done == groups.Keys
        invariant subscribers == RegisteredPart(old(subscribers), groups, done)
        decreases |todo|
      {
        var k :| k in todo;
        RegisterStep(old(subscribers), groups, done, k);
        var current := if k in subscribers then subscribers[k] else [];
        subscribers := subscribers[k := AddAll(current, groups[k])];
        MoveKey(todo, done, groups.Keys, k);
        todo, done := todo - {k}, done + {k};
      }
    }

    /** unregister: discover the listener's subscribers and removeAll each
        group from the set of its event type. A type without a set, or whose
        set does not change, fails with IllegalArgumentException; removals
        already done stay done, and emptied sets stay in the table. */
    method Unregister(t: ClassTable, listener: Option<Listener>) returns (r: Result<()>)
      requires ValidTable(t) && (listener.Some? ==> listener.value.cls in t)
      requires Valid()
      modifies this
      ensures Valid()
      ensures subscribers.Keys == old(subscribers).Keys
      ensures var f := FoundSubscribers(t, listener);
        (f.Err? ==> r == Err(f.error) && subscribers == old(subscribers)) &&
        (f.Ok? ==> (r.Ok? <==> Removable(old(subscribers), f.value))) &&
        (f.Ok? && r.Ok? ==> subscribers == Unregistered(old(subscribers), f.value, f.value.Keys)) &&
        (f.Ok? && r.Err? ==>
          r.error == IllegalArgument &&
          exists done :: done <= f.value.Keys && subscribers == Unregistered(old(subscribers), f.value, done))
    {
      var found := FindAllSubscribers(t, listener);
      if found.Err? {
        return Err(found.error);
      }
      r := RemoveGroups(found.value);
    }

    /** The loop of unregister: removeAll each group from the set of its
        type, stopping at the first type without a set or whose set does not
        change. */
    method RemoveGroups(groups: Buckets) returns (r: Result<()>)
      requires Valid()
      modifies this
      ensures Valid()
      ensures r.Ok? <==> Removable(old(subscribers), groups)
      ensures r.Ok? ==> subscribers == Unregistered(old(subscribers), groups, groups.Keys)
      ensures r.Err? ==>
        r.error == IllegalArgument &&
        exists done :: done <= groups.Keys && subscribers == Unregistered(old(subscribers), groups, done)
    {
      var todo := groups.Keys;
      ghost var done: set<ClassId> := {};
      while todo != {}
        invariant todo !! done && todo + done == groups.Keys
        invariant subscribers == Unregistered(old(subscribers), groups, done)
        invariant forall k :: k in done ==>
          k in old(subscribers) && RemoveAll(old(subscribers)[k], groups[k]) != old(subscribers)[k]
        decreases |todo|
      {
        var k :| k in todo;
        UnregisteredNoDup(old(subscribers), groups, done);
        if k !in subscribers {
          return Err(IllegalArgument);
        }
        var current := subscribers[k];
        var remaining := RemoveAll(current, groups[k]);
        if remaining == current {
          return Err(IllegalArgument);
        }
        UnregisterStep(old(subscribers), groups, done, k);
        subscribers := subscribers[k := remaining];
        MoveKey(todo, done, groups.Keys, k);
        todo, done := todo - {k}, done + {k};
      }
      UnregisteredNoDup(old(subscribers), groups, groups.Keys);
      return Ok(());
    }

    /** subscribersFor: the sets of the event class's flattened hierarchy, in
        that order, skipping types without a set; a null event is refused.
        Each set is handed out as a snapshot of its current contents. */
    method SubscribersFor(t: ClassTable, deadClass: ClassId, event: Option<Event>)
      returns (r: Result<seq<seq<Subscriber>>>)
      requires ValidTable(t) && (event.Some? ==> WellTyped(t, deadClass, event.value))
      ensures event.None? ==> r == Err(NullPointer)
      ensures event.Some? ==> r == Ok(BucketsFor(t, subscribers, ClassOfEvent(event.value, deadClass)))
    {
      if event.None? {
        return Err(NullPointer);
      }
      var cls := ClassOfEvent(event.value, deadClass);
      var found := Classes(t, Some(cls));
      var eventTypes := found.value;
      var iterators: seq<seq<Subscriber>> := [];
      for i := 0 to |eventTypes|
        invariant iterators == SetsOf(subscribers, eventTypes[..i])
      {
        assert eventTypes[..i + 1][..i] == eventTypes[..i];
        var eventType := eventTypes[i];
        if eventType in subscribers {
          iterators := iterators + [subscribers[eventType]];
        }
      }
      assert eventTypes[..|eventTypes|] == eventTypes;
      return Ok(iterators);
    }
  }

  /** The sets of `types` that exist, in the order of `types`. */
  function SetsOf(m: Buckets, types: seq<ClassId>): (r: seq<seq<Subscriber>>)
    ensures |r| <= |types|
    decreases |types|
  {
    if types == [] then []
    else
      var k := types[|types| - 1];
      SetsOf(m, types[..|types| - 1]) + (if k in m then [m[k]] else [])
  }

  function BucketsFor(t: ClassTable, m: Buckets, cls: ClassId): seq<seq<Subscriber>>
    requires ValidTable(t) && cls in t
  {
    SetsOf(m, Flatten(t, cls))
  }

  /** The concatenation of a list of snapshots: what the iterator over them yields. */
  function Flat(sets: seq<seq<Subscriber>>): seq<Subscriber>
    decreases |sets|
  {
    if sets == [] then [] else Flat(sets[..|sets| - 1]) + sets[|sets| - 1]
  }

  /** A subscriber is offered an event exactly when it is registered for a
      type of the event class's hierarchy; types without a set contribute
      nothing, so the result is empty when none of them has one. */
  lemma {:induction false} SetsOfMembers(m: Buckets, types: seq<ClassId>, s: Subscriber)
    ensures s in Flat(SetsOf(m, types)) <==> exists k :: k in types && k in m && s in m[k]
    decreases |types|
  {
    if types != [] {
      var init, k := types[..|types| - 1], types[|types| - 1];
      SetsOfMembers(m, init, s);
      assert forall j :: j in types <==> j in init || j == k;
      if k in m {
        assert SetsOf(m, types) == SetsOf(m, init) + [m[k]];
        assert Flat(SetsOf(m, types)) == Flat(SetsOf(m, init)) + m[k];
      } else {
        assert SetsOf(m, types) == SetsOf(m, init);
      }
    }
  }

  /** The event class's own set, if any, comes first. */
  lemma OwnSetComesFirst(t: ClassTable, m: Buckets, cls: ClassId)
    requires ValidTable(t) && cls in t && cls in m
    ensures BucketsFor(t, m, cls) != [] && BucketsFor(t, m, cls)[0] == m[cls]
  {
    FlattenStartsWithStart(t, cls);
    var f := Flatten(t, cls);
    SetsOfPrefix(m, [cls], f[1..]);
    assert f == [cls] + f[1..];
    assert SetsOf(m, [cls]) == [m[cls]] by {
      assert [cls][..0] == [];
    }
  }

  lemma {:induction false} SetsOfPrefix(m: Buckets, a: seq<ClassId>, b: seq<ClassId>)
    ensures SetsOf(m, a + b) == SetsOf(m, a) + SetsOf(m, b)
    decreases |b|
  {
    if b == [] {
      assert a + b == a;
    } else {
      var b' := b[..|b| - 1];
      SetsOfPrefix(m, a, b');
      assert (a + b)[..|a + b| - 1] == a + b';
    }
  }

  /** After a successful unregister none of the listener's entries remain in
      the sets of their event types. */
  lemma UnregisterRemovesEveryEntry(before: Buckets, found: Buckets, k: ClassId, s: Subscriber)
    requires Removable(before, found)
    requires k in found && s in found[k]
    ensures k in Unregistered(before, found, found.Keys) && s !in Unregistered(before, found, found.Keys)[k]
  {
  }

  lemma RegisterStep(before: Buckets, groups: Buckets, done: set<ClassId>, k: ClassId)
    requires k in groups && k !in done
    ensures var cur := RegisteredPart(before, groups, done);
      cur[k := AddAll(Bucket(cur, k), groups[k])] == RegisteredPart(before, groups, done + {k})
  {
    var cur := RegisteredPart(before, groups, done);
    var lhs := cur[k := AddAll(Bucket(before, k), groups[k])];
    var rhs := RegisteredPart(before, groups, done + {k});
    forall j | j in lhs
      ensures j in rhs && lhs[j] == rhs[j]
    {
      RegisterStepAt(before, groups, done, k, j);
    }
  }

  lemma RegisterStepAt(before: Buckets, groups: Buckets, done: set<ClassId>, k: ClassId, j: ClassId)
    requires k in groups && k !in done
    requires j in RegisteredPart(before, groups, done) || j == k
    ensures j in RegisteredPart(before, groups, done + {k})
    ensures var cur := RegisteredPart(before, groups, done);
      cur[k := AddAll(Bucket(before, k), groups[k])][j] == RegisteredPart(before, groups, done + {k})[j]
  {
    if j != k {
      assert RegisteredSet(before, groups, done, j) == RegisteredSet(before, groups, done + {k}, j);
    }
  }

  /** Moving one key from the keys still to visit to the visited ones keeps
      the two a partition of all keys. */
  lemma MoveKey(todo: set<ClassId>, done: set<ClassId>, all: set<ClassId>, k: ClassId)
    requires todo !! done && todo + done == all && k in todo
    ensures (todo - {k}) !! (done + {k}) && (todo - {k}) + (done + {k}) == all
    ensures |todo - {k}| < |todo|
  {
  }

  lemma RegisteredNoDup(before: Buckets, found: Buckets)
    requires AllNoDup(before)
    ensures AllNoDup(Registered(before, found))
  {
    var r := Registered(before, found);
    forall j | j in r
      ensures NoDup(r[j])
    {
      assert NoDup(Bucket(before, j));
    }
  }

  lemma UnregisterStep(before: Buckets, groups: Buckets, done: set<ClassId>, k: ClassId)
    requires k in groups && k !in done && k in before
    ensures Unregistered(before, groups, done)[k := RemoveAll(before[k], groups[k])] ==
            Unregistered(before, groups, done + {k})
  {
    var lhs := Unregistered(before, groups, done)[k := RemoveAll(before[k], groups[k])];
    var rhs := Unregistered(before, groups, done + {k});
    assert lhs.Keys == rhs.Keys;
    forall j | j in lhs
      ensures lhs[j] == rhs[j]
    {
      if j != k {
        assert lhs[j] == UnregisteredSet(before, groups, done, j) == UnregisteredSet(before, groups, done + {k}, j);
      }
    }
  }

  lemma UnregisteredNoDup(before: Buckets, found: Buckets, done: set<ClassId>)
    requires AllNoDup(before)
    ensures AllNoDup(Unregistered(before, found, done))
  {
    var r := Unregistered(before, found, done);
    forall j | j in r
      ensures NoDup(r[j])
    {
      assert NoDup(Bucket(before, j));
    }
  }

  lemma RegisterThenUnregisterAt(before: Buckets, found: Buckets, k: ClassId)
    requires AllNoDup(before)
    requires k in found && found[k] != []
    requires forall s :: s in Bucket(before, k) ==> s !in found[k]
    ensures var reg := Registered(before, found);
      k in reg && RemoveAll(reg[k], found[k]) == Bucket(before, k) && Bucket(before, k) != reg[k]
  {
    var reg := Registered(before, found);
    assert reg[k] == RegisteredSet(before, found, found.Keys, k) == AddAll(Bucket(before, k), found[k]);
    RemoveAllUndoesAddAll(Bucket(before, k), found[k]);
    assert found[k][0] in reg[k];
    assert found[k][0] !in Bucket(before, k);
  }

  /** Unregistering a listener right after registering it succeeds and leaves
      every set as it was, except that sets register created stay behind
      empty, provided none of its entries was registered before. */
  lemma RegisterThenUnregister(before: Buckets, found: Buckets)
    requires AllNoDup(before)
    requires forall k :: k in found ==> found[k] != []
    requires forall k, s :: k in found && s in Bucket(before, k) ==> s !in found[k]
    ensures Removable(Registered(before, found), found)
    ensures Unregistered(Registered(before, found), found, found.Keys) ==
            map k | k in before.Keys + found.Keys :: Bucket(before, k)
  {
    var reg := Registered(before, found);
    forall k | k in found
      ensures k in reg && RemoveAll(reg[k], found[k]) == Bucket(before, k) != reg[k]
    {
      RegisterThenUnregisterAt(before, found, k);
    }
    UnregisterRestores(before, found);
  }

  lemma UnregisterRestores(before: Buckets, found: Buckets)
    requires forall k :: k in found ==> RemoveAll(Registered(before, found)[k], found[k]) == Bucket(before, k)
    ensures Unregistered(Registered(before, found), found, found.Keys) ==
            map k | k in before.Keys + found.Keys :: Bucket(before, k)
  {
    var reg := Registered(before, found);
    var lhs := Unregistered(reg, found, found.Keys);
    var rhs := map k | k in before.Keys + found.Keys :: Bucket(before, k);
    assert lhs.Keys == rhs.Keys;
    forall k | k in lhs
      ensures lhs[k] == rhs[k]
    {
      assert reg[k] == RegisteredSet(before, found, found.Keys, k);
      assert lhs[k] == UnregisteredSet(reg, found, found.Keys, k);
    }
  }
}
