/** AnnotatedSubscriberStrategy (bus/AnnotatedSubscriberStrategy): finding the
    subscriber methods of a listener's class hierarchy and binding them to the
    listener. Reflection is replaced by the class table of module Types; the
    method cache is a memo of CollectAnnotatedMethods and is not modelled. */
module Strategy {
  import opened JavaLang
  import opened OrderedSets
  import opened Types
  import opened Events
  import opened Subscribers

  /** What is handed to register/unregister: a Class object, whose static
      methods subscribe, or an instance (its reference and runtime class),
      whose instance methods subscribe. */
  datatype Listener = ClassListener(cls: ClassId) | Instance(ref: ObjRef, cls: ClassId)

  /** classOf: a Class listener stands for itself, an instance for its runtime
      class; a null listener fails on getClass(). */
  function ClassOf(listener: Option<Listener>): (r: Result<ClassId>)
    ensures r.Err? <==> listener.None?
    ensures r.Err? ==> r.error == NullPointer
    ensures listener.Some? && listener.value.ClassListener? ==> r == Ok(listener.value.cls)
    ensures listener.Some? && listener.value.Instance? ==> r == Ok(listener.value.cls)
  {
    if listener.None? then Err(NullPointer) else Ok(listener.value.cls)
  }

  /** threadSafe: the method carries the thread-safe annotation. */
  predicate ThreadSafe(m: MethodDecl) {
    m.threadSafe
  }

  /** makeSubscriber: static methods pair with Class listeners and instance
      methods with instances; any other pairing yields null. A Class listener
      becomes a null target. Thread-safe methods get the plain subscriber,
      the others the synchronised one. */
  function MakeSubscriber(listener: Listener, m: MethodDecl): (r: Option<Subscriber>)
    ensures r.Some? <==> (listener.ClassListener? <==> m.isStatic)
    ensures r.Some? ==> r.value.callee == m
    ensures r.Some? && listener.ClassListener? ==> r.value.target.None?
    ensures r.Some? && listener.Instance? ==> r.value.target == Some(listener.ref)
    ensures r.Some? ==> (r.value.kind == Plain <==> ThreadSafe(m))
  {
    var isClass := listener.ClassListener?;
    if isClass != m.isStatic then None
    else
      var target := if isClass then None else Some(listener.ref);
      Some(Subscriber(target, m, if ThreadSafe(m) then Plain else Synchronised))
  }

  /** The MethodEventSubscriber constructor that makeSubscriber calls never
      throws: the only null target it passes goes with a static method. */
  lemma MakeSubscriberConstructs(listener: Listener, m: MethodDecl)
    requires MakeSubscriber(listener, m).Some?
    ensures var s := MakeSubscriber(listener, m).value;
      NewSubscriber(s.target, Some(m), s.kind) == Ok(s)
  {
  }

  /** MethodIdentifier: a method's name and parameter types. */
  datatype MethodIdentifier = MethodIdentifier(name: string, params: seq<ClassId>)

  function IdentifierOf(m: MethodDecl): MethodIdentifier {
    MethodIdentifier(m.name, m.params)
  }

  /** MethodIdentifier.equals: equal names and element-wise equal parameter
      arrays (Arrays.equals). */
  predicate IdentifierEquals(a: MethodIdentifier, b: MethodIdentifier) {
    a.name == b.name && |a.params| == |b.params| &&
    forall i :: 0 <= i < |a.params| ==> a.params[i] == b.params[i]
  }

  /** MethodIdentifier.equals is exactly equality of identifiers. */
  lemma IdentifierEqualsIsEquality(a: MethodIdentifier, b: MethodIdentifier)
    ensures IdentifierEquals(a, b) <==> a == b
  {
    if IdentifierEquals(a, b) {
      assert a.params == b.params;
    }
  }

  /** MethodIdentifier.hashCode, one parameter at a time, in int arithmetic:
      start from 31 + name hash, then result = 31 * result + parameter hash.
      Class.hashCode is the identity hash given by `classHash`. */
  function IdentifierHash(name: string, params: seq<ClassId>, classHash: ClassId -> Int32): Int32
    decreases |params|
  {
    if params == [] then Wrap32(31 + StringHash(name))
    else Wrap32(31 * IdentifierHash(name, params[..|params| - 1], classHash) + classHash(params[|params| - 1]))
  }

  /** The same sum without int overflow. */
  function UnboundedIdentifierHash(name: string, params: seq<ClassId>, classHash: ClassId -> Int32): int
    decreases |params|
  {
    if params == [] then 31 + StringHash(name)
    else 31 * UnboundedIdentifierHash(name, params[..|params| - 1], classHash) + classHash(params[|params| - 1])
  }

  /** Overflowing at every step gives the same int as overflowing once at the end. */
  lemma {:induction false} IdentifierHashWrapsOnce(name: string, params: seq<ClassId>, classHash: ClassId -> Int32)
    ensures IdentifierHash(name, params, classHash) == Wrap32(UnboundedIdentifierHash(name, params, classHash))
    decreases |params|
  {
    if params != [] {
      var init := params[..|params| - 1];
      IdentifierHashWrapsOnce(name, init, classHash);
      Wrap32MulAdd(UnboundedIdentifierHash(name, init, classHash), 31, classHash(params[|params| - 1]));
    }
  }

  /** MethodIdentifier.hashCode: the accumulator loop. */
  method HashCode(id: MethodIdentifier, classHash: ClassId -> Int32) returns (result: Int32)
    ensures result == Wrap32(UnboundedIdentifierHash(id.name, id.params, classHash))
  {
    result := Wrap32(31 + StringHash(id.name));
    for i := 0 to |id.params|
      invariant result == IdentifierHash(id.name, id.params[..i], classHash)
    {
      assert id.params[..i + 1][..i] == id.params[..i];
      result := Wrap32(31 * result + classHash(id.params[i]));
    }
    assert id.params[..|id.params|] == id.params;
    IdentifierHashWrapsOnce(id.name, id.params, classHash);
  }

  /** Identifiers that are equal have equal hash codes. */
  lemma EqualIdentifiersHashEqual(a: MethodIdentifier, b: MethodIdentifier, classHash: ClassId -> Int32)
    requires IdentifierEquals(a, b)
    ensures IdentifierHash(a.name, a.params, classHash) == IdentifierHash(b.name, b.params, classHash)
  {
    IdentifierEqualsIsEquality(a, b);
  }

  /** The methods the collection looks at: annotated and not a bridge. */
  predicate Eligible(m: MethodDecl) {
    m.subscribe && !m.isBridge
  }

  /** getDeclaredMethods of each type, in the order of `types`. */
  function Candidates(t: ClassTable, types: seq<ClassId>): seq<MethodDecl>
    decreases |types|
  {
    if types == [] then []
    else
      var c := types[|types| - 1];
      Candidates(t, types[..|types| - 1]) + (if c in t then t[c].methods else [])
  }

  lemma {:induction false} CandidatesAppend(t: ClassTable, a: seq<ClassId>, b: seq<ClassId>)
    ensures Candidates(t, a + b) == Candidates(t, a) + Candidates(t, b)
    decreases |b|
  {
    if b == [] {
      assert a + b == a;
    } else {
      var b' := b[..|b| - 1];
      CandidatesAppend(t, a, b');
      assert (a + b)[..|a + b| - 1] == a + b';
    }
  }

  lemma CandidatesStep(t: ClassTable, types: seq<ClassId>, i: int)
    requires 0 <= i < |types| && types[i] in t
    ensures Candidates(t, types[..i + 1]) == Candidates(t, types[..i]) + t[types[i]].methods
  {
    assert types[..i + 1][..i] == types[..i];
  }

  /** A failure while visiting the types up to `types[i]` is the outcome of
      visiting all of them. */
  lemma CollectErrorAt(t: ClassTable, types: seq<ClassId>, i: int)
    requires 0 <= i < |types| && Collect(Candidates(t, types[..i + 1])).Err?
    ensures Collect(Candidates(t, types)) == Collect(Candidates(t, types[..i + 1]))
  {
    CandidatesAppend(t, types[..i + 1], types[i + 1..]);
    assert types[..i + 1] + types[i + 1..] == types;
    CollectErrorSticks(Candidates(t, types[..i + 1]), Candidates(t, types[i + 1..]));
  }

  /** containsKey on the identifier map: a kept method has this identifier. */
  predicate Known(kept: seq<MethodDecl>, id: MethodIdentifier) {
    exists k :: 0 <= k < |kept| && IdentifierOf(kept[k]) == id
  }

  /** One iteration of the inner loop of collectAnnotatedMethods. */
  function Visit(kept: seq<MethodDecl>, m: MethodDecl): Result<seq<MethodDecl>> {
    if !Eligible(m) then Ok(kept)
    else if |m.params| != 1 then Err(IllegalArgument)
    else if Known(kept, IdentifierOf(m)) then Ok(kept)
    else Ok(kept + [m])
  }

  /** The effect of collectAnnotatedMethods' loops on the methods they visit,
      in order: an eligible method whose arity is not 1 makes it throw, and
      only eligible methods of arity 1 are kept. */
  function Collect(ms: seq<MethodDecl>): (r: Result<seq<MethodDecl>>)
    decreases |ms|
    ensures r.Err? <==> exists i :: 0 <= i < |ms| && Eligible(ms[i]) && |ms[i].params| != 1
    ensures r.Err? ==> r.error == IllegalArgument
    ensures r.Ok? ==> forall k :: 0 <= k < |r.value| ==>
      r.value[k] in ms && Eligible(r.value[k]) && |r.value[k].params| == 1
  {
    if ms == [] then Ok([])
    else
      var init := ms[..|ms| - 1];
      assert forall i :: 0 <= i < |init| ==> init[i] == ms[i];
      assert forall x :: x in init ==> x in ms;
      match Collect(init)
      case Err(e) => Err(e)
      case Ok(kept) => Visit(kept, ms[|ms| - 1])
  }

  /** Of the eligible methods at most one per identifier is kept. */
  lemma {:induction false} CollectKeepsOnePerIdentifier(ms: seq<MethodDecl>)
    requires Collect(ms).Ok?
    ensures var kept := Collect(ms).value;
      forall j, k :: 0 <= j < k < |kept| ==> IdentifierOf(kept[j]) != IdentifierOf(kept[k])
    decreases |ms|
  {
    if ms != [] {
      var init, m := ms[..|ms| - 1], ms[|ms| - 1];
      CollectKeepsOnePerIdentifier(init);
      var prev := Collect(init).value;
      if Eligible(m) && !Known(prev, IdentifierOf(m)) {
        assert Collect(ms).value == prev + [m];
      }
    }
  }

  /** Every eligible method's identifier is represented among the kept ones. */
  lemma {:induction false} CollectCoversEveryIdentifier(ms: seq<MethodDecl>)
    requires Collect(ms).Ok?
    ensures var kept := Collect(ms).value;
      forall i :: 0 <= i < |ms| && Eligible(ms[i]) ==> Known(kept, IdentifierOf(ms[i]))
    decreases |ms|
  {
    if ms != [] {
      var init, m := ms[..|ms| - 1], ms[|ms| - 1];
      CollectCoversEveryIdentifier(init);
      var prev := Collect(init).value;
      var kept := Collect(ms).value;
      assert prev <= kept;
      forall i | 0 <= i < |ms| && Eligible(ms[i])
        ensures Known(kept, IdentifierOf(ms[i]))
      {
        if i < |init| {
          assert init[i] == ms[i];
          var k :| 0 <= k < |prev| && IdentifierOf(prev[k]) == IdentifierOf(init[i]);
          assert kept[k] == prev[k];
        } else if !Known(prev, IdentifierOf(m)) {
          assert kept[|prev|] == m;
        } else {
          var k :| 0 <= k < |prev| && IdentifierOf(prev[k]) == IdentifierOf(m);
          assert kept[k] == prev[k];
        }
      }
    }
  }

  /** The method kept for an identifier is the first eligible one visited: no
      other eligible method with its identifier comes before it. In hierarchy
      order that is the most derived declaration. */
  lemma {:induction false} CollectKeepsFirst(ms: seq<MethodDecl>)
    requires Collect(ms).Ok?
    ensures var kept := Collect(ms).value;
      forall k, i :: (0 <= k < |kept| && 0 <= i < |ms| && Eligible(ms[i]) &&
                      IdentifierOf(ms[i]) == IdentifierOf(kept[k])) ==> kept[k] in ms[..i + 1]
  {
    var kept := Collect(ms).value;
    forall k, i | 0 <= k < |kept| && 0 <= i < |ms| && Eligible(ms[i]) &&
        IdentifierOf(ms[i]) == IdentifierOf(kept[k])
      ensures kept[k] in ms[..i + 1]
    {
      CollectKeepsFirstAt(ms, k, i);
    }
  }

  /** CollectKeepsFirst for one kept method and one visited method. */
  lemma {:induction false} CollectKeepsFirstAt(ms: seq<MethodDecl>, k: int, i: int)
    requires Collect(ms).Ok?
    requires 0 <= k < |Collect(ms).value| && 0 <= i < |ms| && Eligible(ms[i])
    requires IdentifierOf(ms[i]) == IdentifierOf(Collect(ms).value[k])
    ensures Collect(ms).value[k] in ms[..i + 1]
    decreases |ms|
  {
    var init, m := ms[..|ms| - 1], ms[|ms| - 1];
    var prev := Collect(init).value;
    var kept := Collect(ms).value;
    assert prev <= kept;
    if i == |init| {
      assert init == ms[..i];
      if k < |prev| {
        assert kept[k] in init;
      } else {
        assert kept[k] == m && ms[..i + 1][i] == m;
      }
    } else {
      CollectCoversEveryIdentifier(init);
      CollectKeepsOnePerIdentifier(ms);
      assert init[i] == ms[i] && init[..i + 1] == ms[..i + 1];
      var k' :| 0 <= k' < |prev| && IdentifierOf(prev[k']) == IdentifierOf(init[i]);
      assert kept[k'] == prev[k'];
      assert k' == k;
      CollectKeepsFirstAt(init, k, i);
    }
  }

  /** Once the collection has failed, visiting more methods does not change it. */
  lemma {:induction false} CollectErrorSticks(a: seq<MethodDecl>, b: seq<MethodDecl>)
    requires Collect(a).Err?
    ensures Collect(a + b) == Collect(a)
    decreases |b|
  {
    if b != [] {
      var b' := b[..|b| - 1];
      CollectErrorSticks(a, b');
      assert (a + b)[..|a + b| - 1] == a + b';
    } else {
      assert a + b == a;
    }
  }

  /** collectAnnotatedMethods: walk Types.classes of the listener class and
      each type's declared methods, rejecting an eligible method whose arity
      is not 1 and keeping the first method per identifier. The identifier map
      hands its values back in the order they were first seen. */
  method CollectAnnotatedMethods(t: ClassTable, c: ClassId) returns (r: Result<seq<MethodDecl>>)
    requires ValidTable(t) && c in t
    ensures r == Collect(Candidates(t, Flatten(t, c)))
  {
    var found := Classes(t, Some(c));
    var types := found.value;
    FlattenInTable(t, c);
    var kept: seq<MethodDecl> := [];
    for i := 0 to |types|
      invariant Collect(Candidates(t, types[..i])) == Ok(kept)
    {
      CandidatesStep(t, types, i);
      var step := CollectDeclared(kept, Candidates(t, types[..i]), t[types[i]].methods);
      if step.Err? {
        CollectErrorAt(t, types, i);
        return step;
      }
      kept := step.value;
    }
    assert types[..|types|] == types;
    return Ok(kept);
  }

  /** The inner loop of collectAnnotatedMethods, over one type's declared
      methods; `before` are the methods visited so far. */
  method CollectDeclared(kept0: seq<MethodDecl>, ghost before: seq<MethodDecl>, ms: seq<MethodDecl>)
    returns (r: Result<seq<MethodDecl>>)
    requires Collect(before) == Ok(kept0)
    ensures r == Collect(before + ms)
  {
    var kept := kept0;
    assert before + ms[..0] == before;
    for j := 0 to |ms|
      invariant Collect(before + ms[..j]) == Ok(kept)
    {
      var m := ms[j];
      assert (before + ms[..j + 1])[..|before| + j] == before + ms[..j];
      assert (before + ms[..j + 1])[|before| + j] == m;
      if Eligible(m) {
        if |m.params| != 1 {
          assert before + ms == (before + ms[..j + 1]) + ms[j + 1..];
          CollectErrorSticks(before + ms[..j + 1], ms[j + 1..]);
          return Err(IllegalArgument);
        }
        if !Known(kept, IdentifierOf(m)) {
          kept := kept + [m];
        }
      }
    }
    assert ms[..|ms|] == ms;
    return Ok(kept);
  }

  /** Group `methods` by their single parameter type, binding each to the
      listener; methods makeSubscriber refuses are skipped. */
  function Group(listener: Listener, methods: seq<MethodDecl>): (r: map<ClassId, seq<Subscriber>>)
    requires forall i :: 0 <= i < |methods| ==> |methods[i].params| == 1
    decreases |methods|
    ensures forall k :: k in r ==> r[k] != []
  {
    if methods == [] then map[]
    else
      var init, m := methods[..|methods| - 1], methods[|methods| - 1];
      assert forall i :: 0 <= i < |init| ==> init[i] == methods[i];
      var prev := Group(listener, init);
      var s := MakeSubscriber(listener, m);
      if s.None? then prev
      else
        var key := m.params[0];
        prev[key := (if key in prev then prev[key] else []) + [s.value]]
  }

  /** Every subscriber of `r` is filed under its method's parameter type and
      is what makeSubscriber builds for one of `methods`. */
  predicate GroupedFrom(listener: Listener, methods: seq<MethodDecl>, r: map<ClassId, seq<Subscriber>>) {
    forall k, j :: k in r && 0 <= j < |r[k]| ==>
      r[k][j].callee in methods && |r[k][j].callee.params| == 1 && r[k][j].callee.params[0] == k &&
      MakeSubscriber(listener, r[k][j].callee) == Some(r[k][j])
  }

  /** Group files every subscriber under its method's parameter type, and
      each is what makeSubscriber builds for one of the methods. */
  lemma {:induction false} GroupEntries(listener: Listener, methods: seq<MethodDecl>)
    requires forall i :: 0 <= i < |methods| ==> |methods[i].params| == 1
    ensures GroupedFrom(listener, methods, Group(listener, methods))
    decreases |methods|
  {
    if methods != [] {
      var init, m := methods[..|methods| - 1], methods[|methods| - 1];
      assert forall i :: 0 <= i < |init| ==> init[i] == methods[i];
      GroupEntries(listener, init);
      var prev: map<ClassId, seq<Subscriber>> := Group(listener, init);
      var r: map<ClassId, seq<Subscriber>> := Group(listener, methods);
      var sub := MakeSubscriber(listener, m);
      assert GroupedFrom(listener, init, prev);
      forall k: ClassId, j: int | k in r && 0 <= j < |r[k]|
        ensures r[k][j].callee in methods && |r[k][j].callee.params| == 1 && r[k][j].callee.params[0] == k &&
          MakeSubscriber(listener, r[k][j].callee) == Some(r[k][j])
      {
        if sub.None? || k != m.params[0] {
          assert r[k] == prev[k];
          assert prev[k][j].callee in init;
        } else {
          var b := if k in prev then prev[k] else [];
          assert r[k] == b + [sub.value];
          if j < |b| {
            assert r[k][j] == prev[k][j];
            assert prev[k][j].callee in init;
          } else {
            assert r[k][j] == sub.value;
          }
        }
      }
    }
  }

  /** Every method that makeSubscriber accepts has its subscriber grouped
      under its parameter type. */
  lemma {:induction false} GroupCovers(listener: Listener, methods: seq<MethodDecl>)
    requires forall i :: 0 <= i < |methods| ==> |methods[i].params| == 1
    ensures var r := Group(listener, methods);
      forall i :: 0 <= i < |methods| && MakeSubscriber(listener, methods[i]).Some? ==>
        methods[i].params[0] in r && MakeSubscriber(listener, methods[i]).value in r[methods[i].params[0]]
    decreases |methods|
  {
    if methods != [] {
      var init, m := methods[..|methods| - 1], methods[|methods| - 1];
      assert forall i :: 0 <= i < |init| ==> init[i] == methods[i];
      GroupCovers(listener, init);
    }
  }

  /** The grouping loop of findAllSubscribers. */
  method GroupMethods(listener: Listener, ms: seq<MethodDecl>) returns (grouped: map<ClassId, seq<Subscriber>>)
    requires forall i :: 0 <= i < |ms| ==> |ms[i].params| == 1
    ensures grouped == Group(listener, ms)
  {
    grouped := map[];
    for i := 0 to |ms|
      invariant grouped == Group(listener, ms[..i])
    {
      assert ms[..i + 1][..i] == ms[..i];
      var s := MakeSubscriber(listener, ms[i]);
      if s.Some? {
        var key := ms[i].params[0];
        var bucket := if key in grouped then grouped[key] else [];
        grouped := grouped[key := bucket + [s.value]];
      }
    }
    assert ms[..|ms|] == ms;
  }

  /** findAllSubscribers: the listener's collected methods, bound to it and
      grouped by event type. */
  method FindAllSubscribers(t: ClassTable, listener: Option<Listener>) returns (r: Result<map<ClassId, seq<Subscriber>>>)
    requires ValidTable(t) && (listener.Some? ==> listener.value.cls in t)
    ensures r == FoundSubscribers(t, listener)
  {
    var cls := ClassOf(listener);
    if cls.Err? {
      return Err(cls.error);
    }
    var methods := CollectAnnotatedMethods(t, cls.value);
    if methods.Err? {
      return Err(methods.error);
    }
    var grouped := GroupMethods(listener.value, methods.value);
    return Ok(grouped);
  }

  /** What findAllSubscribers yields: a null listener fails in classOf, a
      malformed subscriber method in the collection. */
  function FoundSubscribers(t: ClassTable, listener: Option<Listener>): (r: Result<map<ClassId, seq<Subscriber>>>)
    requires ValidTable(t) && (listener.Some? ==> listener.value.cls in t)
    ensures r.Err? ==> r.error == (if listener.None? then NullPointer else IllegalArgument)
  {
    if listener.None? then Err(NullPointer)
    else
      var methods := Collect(Candidates(t, Flatten(t, listener.value.cls)));
      if methods.Err? then Err(methods.error) else Ok(Group(listener.value, methods.value))
  }

  /** Every subscriber findAllSubscribers yields is filed under its method's
      single parameter type, belongs to an annotated non-bridge method of the
      listener's hierarchy, and matches the listener: a Class listener gets
      only static methods with a null target, an instance only instance
      methods bound to itself. */
  lemma FoundSubscribersMatchListener(t: ClassTable, listener: Listener, k: ClassId, s: Subscriber)
    requires ValidTable(t) && listener.cls in t
    requires FoundSubscribers(t, Some(listener)).Ok?
    requires k in FoundSubscribers(t, Some(listener)).value && s in FoundSubscribers(t, Some(listener)).value[k]
    ensures |s.callee.params| == 1 && s.callee.params[0] == k
    ensures Eligible(s.callee) && s.callee in Candidates(t, Flatten(t, listener.cls))
    ensures listener.ClassListener? ==> s.callee.isStatic && s.target.None?
    ensures listener.Instance? ==> !s.callee.isStatic && s.target == Some(listener.ref)
  {
    var ms := Collect(Candidates(t, Flatten(t, listener.cls))).value;
    GroupEntries(listener, ms);
    var bucket := Group(listener, ms)[k];
    var j :| 0 <= j < |bucket| && bucket[j] == s;
    assert s.callee in ms;
  }
}
