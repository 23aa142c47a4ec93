/** The reflective class model the bus works against, and Types.classes, the
    flattening of a class's hierarchy (utils/Types).

    Classes are numbered so that a superclass always has a smaller number than
    its subclasses: any acyclic hierarchy can be numbered this way, and it makes
    the walk up the superclass chain visibly terminate. */
module Types {
  import opened JavaLang
  import opened OrderedSets

  type ClassId = nat

  /** A declared method, as java.lang.reflect.Method exposes it to the bus:
      where it is declared, its name, parameter and return types, whether it is
      static or a compiler-generated bridge, and whether it carries the
      subscriber annotation and the thread-safe annotation. */
  datatype MethodDecl = MethodDecl(
    declaring: ClassId,
    name: string,
    params: seq<ClassId>,
    returnType: ClassId,
    isStatic: bool,
    isBridge: bool,
    subscribe: bool,
    threadSafe: bool)

  /** What reflection reports about one class or interface: getSuperclass()
      (None for interfaces and Object), getInterfaces() and getDeclaredMethods(). */
  datatype ClassInfo = ClassInfo(superclass: Option<ClassId>, interfaces: seq<ClassId>, methods: seq<MethodDecl>)

  type ClassTable = map<ClassId, ClassInfo>

  /** Every class the table mentions is in it, superclasses come first in the
      numbering, and each class declares its own methods. */
  predicate ValidTable(t: ClassTable) {
    forall c :: c in t ==>
      (t[c].superclass.Some? ==> t[c].superclass.value < c && t[c].superclass.value in t) &&
      (forall k :: 0 <= k < |t[c].interfaces| ==> t[c].interfaces[k] in t) &&
      (forall k :: 0 <= k < |t[c].methods| ==> t[c].methods[k].declaring == c)
  }

  function Rank(cur: Option<ClassId>): nat {
    if cur.Some? then cur.value + 1 else 0
  }

  /** Everything the walk of Types.classes adds, in the order it adds it: each
      class of the superclass chain followed by its direct interfaces. */
  function Raw(t: ClassTable, cur: Option<ClassId>): seq<ClassId>
    requires ValidTable(t) && (cur.Some? ==> cur.value in t)
    decreases Rank(cur)
  {
    if cur.None? then [] else [cur.value] + t[cur.value].interfaces + Raw(t, t[cur.value].superclass)
  }

  /** The superclass chain from `c` up to the root. */
  function SuperChain(t: ClassTable, c: ClassId): (chain: seq<ClassId>)
    requires ValidTable(t) && c in t
    ensures |chain| > 0 && chain[0] == c
    ensures forall k :: 0 <= k < |chain| ==> chain[k] in t
    decreases c
  {
    if t[c].superclass.None? then [c] else [c] + SuperChain(t, t[c].superclass.value)
  }

  /** The set Types.classes returns, in its iteration order. */
  function Flatten(t: ClassTable, c: ClassId): (types: seq<ClassId>)
    requires ValidTable(t) && c in t
  {
    Dedup(Raw(t, Some(c)))
  }

  /** Types.classes(start): walks the superclass chain, adding each class and
      then its direct interfaces to an insertion-ordered set. */
  method Classes(t: ClassTable, start: Option<ClassId>) returns (r: Result<seq<ClassId>>)
    requires ValidTable(t) && (start.Some? ==> start.value in t)
    ensures start.None? ==> r == Err(NullPointer)
    ensures start.Some? ==> r == Ok(Flatten(t, start.value))
  {
    if start.None? {
      return Err(NullPointer);
    }
    var types: seq<ClassId> := [];
    ghost var seen: seq<ClassId> := [];
    var cur := start;
    while cur.Some?
      invariant cur.Some? ==> cur.value in t
      invariant seen + Raw(t, cur) == Raw(t, start)
      invariant types == Dedup(seen)
      decreases Rank(cur)
    {
      var c := cur.value;
      var interfaces := t[c].interfaces;
      WalkStep(t, start, seen, c);
      DedupStep(seen, c);
      types, seen := Add(types, c), seen + [c];
      types := AddInterfaces(types, seen, interfaces);
      seen := seen + interfaces;
      cur := t[c].superclass;
    }
    assert seen == Raw(t, start);
    return Ok(types);
  }

  /** The inner loop of Types.classes: adds each direct interface in turn. */
  method AddInterfaces(types0: seq<ClassId>, ghost seen0: seq<ClassId>, interfaces: seq<ClassId>)
    returns (types: seq<ClassId>)
    requires types0 == Dedup(seen0)
    ensures types == Dedup(seen0 + interfaces)
  {
    types := types0;
    assert seen0 + interfaces[..0] == seen0;
    for j := 0 to |interfaces|
      invariant types == Dedup(seen0 + interfaces[..j])
    {
      DedupExtend(seen0, interfaces, j);
      types := Add(types, interfaces[j]);
    }
    assert interfaces[..|interfaces|] == interfaces;
  }

  lemma DedupExtend(seen0: seq<ClassId>, interfaces: seq<ClassId>, j: int)
    requires 0 <= j < |interfaces|
    ensures Add(Dedup(seen0 + interfaces[..j]), interfaces[j]) == Dedup(seen0 + interfaces[..j + 1])
  {
    DedupStep(seen0 + interfaces[..j], interfaces[j]);
    assert seen0 + interfaces[..j + 1] == (seen0 + interfaces[..j]) + [interfaces[j]] by {
      assert interfaces[..j + 1] == interfaces[..j] + [interfaces[j]];
    }
  }

  /** One step up the chain: the class and its interfaces move from the walk
      still to do to the part already added. */
  lemma WalkStep(t: ClassTable, start: Option<ClassId>, seen: seq<ClassId>, c: ClassId)
    requires ValidTable(t) && c in t && (start.Some? ==> start.value in t)
    requires seen + Raw(t, Some(c)) == Raw(t, start)
    ensures (seen + [c] + t[c].interfaces) + Raw(t, t[c].superclass) == Raw(t, start)
  {
    var rest := Raw(t, t[c].superclass);
    assert Raw(t, Some(c)) == [c] + t[c].interfaces + rest;
    assert (seen + [c] + t[c].interfaces) + rest == seen + ([c] + t[c].interfaces + rest);
  }

  lemma DedupStep(seen: seq<ClassId>, x: ClassId)
    ensures Add(Dedup(seen), x) == Dedup(seen + [x])
  {
    AddAllSnoc([], seen, x);
  }

  /** The walk reaches exactly the classes of the superclass chain and the
      interfaces they declare directly. */
  lemma {:induction false} RawMembers(t: ClassTable, c: ClassId, x: ClassId)
    requires ValidTable(t) && c in t
    ensures x in Raw(t, Some(c)) <==>
            x in SuperChain(t, c) || exists d :: d in SuperChain(t, c) && x in t[d].interfaces
    decreases c
  {
    var s := t[c].superclass;
    if s.Some? {
      RawMembers(t, s.value, x);
      assert SuperChain(t, c) == [c] + SuperChain(t, s.value);
      if x in Raw(t, s) && !(x in SuperChain(t, s.value)) {
        var d :| d in SuperChain(t, s.value) && x in t[d].interfaces;
        assert d in SuperChain(t, c);
      }
    } else {
      assert SuperChain(t, c) == [c];
    }
  }

  /** Types.classes returns the start class and every transitive superclass,
      every interface one of them declares directly, and nothing else; each
      once, the start class first. */
  lemma FlattenMembers(t: ClassTable, c: ClassId)
    requires ValidTable(t) && c in t
    ensures forall x :: x in Flatten(t, c) <==>
              x in SuperChain(t, c) || exists d :: d in SuperChain(t, c) && x in t[d].interfaces
  {
    forall x ensures x in Flatten(t, c) <==>
              x in SuperChain(t, c) || exists d :: d in SuperChain(t, c) && x in t[d].interfaces
    {
      RawMembers(t, c, x);
    }
  }

  /** Every type Types.classes returns is one the class table knows. */
  lemma FlattenInTable(t: ClassTable, c: ClassId)
    requires ValidTable(t) && c in t
    ensures forall k :: 0 <= k < |Flatten(t, c)| ==> Flatten(t, c)[k] in t
  {
    FlattenMembers(t, c);
    forall k | 0 <= k < |Flatten(t, c)|
      ensures Flatten(t, c)[k] in t
    {
      var x := Flatten(t, c)[k];
      assert x in Flatten(t, c);
      if x !in SuperChain(t, c) {
        var d :| d in SuperChain(t, c) && x in t[d].interfaces;
        var i :| 0 <= i < |t[d].interfaces| && t[d].interfaces[i] == x;
      }
    }
  }

  /** Each class appears once, and the start class comes first. */
  lemma FlattenStartsWithStart(t: ClassTable, c: ClassId)
    requires ValidTable(t) && c in t
    ensures NoDup(Flatten(t, c))
    ensures |Flatten(t, c)| > 0 && Flatten(t, c)[0] == c
  {
    var raw := Raw(t, Some(c));
    assert raw == [c] + (t[c].interfaces + Raw(t, t[c].superclass));
    AddAllAppend([], [c], t[c].interfaces + Raw(t, t[c].superclass));
    assert AddAll([], [c]) == [c] by { AddAllSnoc([], [], c); }
  }

  /** Types.classes lists its classes in the order of their first addition:
      the class, its direct interfaces, the superclass, its interfaces, ... */
  lemma FlattenOrder(t: ClassTable, c: ClassId)
    requires ValidTable(t) && c in t
    ensures var f, raw := Flatten(t, c), Raw(t, Some(c));
            forall i, j :: 0 <= i < j < |f| ==> IndexOf(raw, f[i]) < IndexOf(raw, f[j])
  {
    DedupKeepsFirstOccurrenceOrder(Raw(t, Some(c)));
  }

  /** The superclass chain is acyclic: no class is its own proper ancestor. */
  lemma {:induction false} ChainIsStrictlyDescending(t: ClassTable, c: ClassId)
    requires ValidTable(t) && c in t
    ensures forall k :: 0 < k < |SuperChain(t, c)| ==> SuperChain(t, c)[k] < c
    decreases c
  {
    if t[c].superclass.Some? {
      ChainIsStrictlyDescending(t, t[c].superclass.value);
    }
  }
}
