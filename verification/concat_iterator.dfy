/** ConcatenatedIterator (utils/ConcatenatedIterator): an iterator over an
    iterator of iterators that yields their elements one after the other.
    When one of the inner iterators is itself a ConcatenatedIterator, its
    fields are taken over instead of iterating through it, and the deque of
    meta-iterators grows instead of the nesting. */
module ConcatIterator {
  import opened JavaLang

  /** An ordinary inner iterator: its identity and the elements it has yet to
      return. */
  datatype Cursor<T> = Cursor(id: nat, rest: seq<T>)

  /** What an inner iterator can be: an ordinary one, or a
      ConcatenatedIterator, given by the state of its fields. */
  datatype Inner<T> =
    | Plain(c: Cursor<T>)
    | Nested(cur: Cursor<T>, top: Option<Meta<T>>, metas: seq<Meta<T>>)

  /** A meta-iterator: the inner iterators it has yet to return. */
  datatype Meta<T> = Meta(items: seq<Inner<T>>)

  /** An element still to come, with the identity of the iterator that will
      return it (the one a later remove() is sent to). */
  datatype Item<T> = Item(source: nat, value: T)

  /** The identity of Collections.emptyIterator(), the initial `iterator`. */
  const EMPTY_ITERATOR: nat := 0

  function CursorItems<T>(c: Cursor<T>): (r: seq<Item<T>>)
    ensures |r| == |c.rest|
    ensures forall k :: 0 <= k < |r| ==> r[k] == Item(c.id, c.rest[k])
  {
    seq(|c.rest|, k requires 0 <= k < |c.rest| => Item(c.id, c.rest[k]))
  }

  /** The elements an inner iterator will still return, in order. */
  function Flat<T>(i: Inner<T>): seq<Item<T>> {
    match i
    case Plain(c) => CursorItems(c)
    case Nested(cur, top, metas) => CursorItems(cur) + FlatTop(top) + FlatMetas(metas)
  }

  function FlatTop<T>(top: Option<Meta<T>>): seq<Item<T>> {
    if top.Some? then FlatMeta(top.value) else []
  }

  function FlatMeta<T>(m: Meta<T>): seq<Item<T>> {
    FlatSeq(m.items)
  }

  function FlatSeq<T>(s: seq<Inner<T>>): seq<Item<T>> {
    if s == [] then [] else Flat(s[0]) + FlatSeq(s[1..])
  }

  function FlatMetas<T>(ms: seq<Meta<T>>): seq<Item<T>> {
    if ms == [] then [] else FlatMeta(ms[0]) + FlatMetas(ms[1..])
  }

  /** The number of inner iterators not yet taken out of a meta-iterator,
      counting those inside nested concatenations: each turn of hasNext's loop
      takes one out. */
  function Size<T>(i: Inner<T>): nat {
    match i
    case Plain(_) => 1
    case Nested(_, top, metas) => 1 + SizeTop(top) + SizeMetas(metas)
  }

  function SizeTop<T>(top: Option<Meta<T>>): nat {
    if top.Some? then SizeMeta(top.value) else 0
  }

  function SizeMeta<T>(m: Meta<T>): nat {
    SizeSeq(m.items)
  }

  function SizeSeq<T>(s: seq<Inner<T>>): nat {
    if s == [] then 0 else Size(s[0]) + SizeSeq(s[1..])
  }

  function SizeMetas<T>(ms: seq<Meta<T>>): nat {
    if ms == [] then 0 else SizeMeta(ms[0]) + SizeMetas(ms[1..])
  }

  /** The elements still to come, given the fields of a ConcatenatedIterator. */
  function PendingOf<T>(current: Cursor<T>, top: Option<Meta<T>>, metas: seq<Meta<T>>): seq<Item<T>> {
    CursorItems(current) + FlatTop(top) + FlatMetas(metas)
  }

  function NodesOf<T>(top: Option<Meta<T>>, metas: seq<Meta<T>>): nat {
    SizeTop(top) + SizeMetas(metas)
  }

  /** No meta-iterator has an inner iterator left. */
  predicate Exhausted<T>(top: Option<Meta<T>>, metas: seq<Meta<T>>) {
    (top.None? || top.value.items == []) && forall k :: 0 <= k < |metas| ==> metas[k].items == []
  }

  function Values<T>(items: seq<Item<T>>): (r: seq<T>)
    ensures |r| == |items|
    ensures forall k :: 0 <= k < |r| ==> r[k] == items[k].value
  {
    seq(|items|, k requires 0 <= k < |items| => items[k].value)
  }

  class ConcatenatedIterator<T> {
    /** The last iterator to return an element: remove() goes to it. */
    var toRemove: Option<nat>
    /** The iterator currently returning elements (the source's `iterator`). */
    var current: Cursor<T>
    /** The meta-iterator in use (null once all are found empty). */
    var topMeta: Option<Meta<T>>
    /** The deque of meta-iterators still to use, first one first; a null
        deque is the empty one. */
    var metas: seq<Meta<T>>

    /** The elements still to come, in order. */
    ghost function Pending(): seq<Item<T>>
      reads this
    {
      PendingOf(current, topMeta, metas)
    }

    ghost function Nodes(): nat
      reads this
    {
      NodesOf(topMeta, metas)
    }

    /** The private constructor: start with the empty iterator and the given
        meta-iterator. */
    constructor (metaIterator: Meta<T>)
      ensures current == Cursor(EMPTY_ITERATOR, []) && topMeta == Some(metaIterator) && metas == []
      ensures toRemove.None?
      ensures Pending() == FlatMeta(metaIterator)
    {
      current := Cursor(EMPTY_ITERATOR, []);
      topMeta := Some(metaIterator);
      metas := [];
      toRemove := None;
    }

    /** concat(inputs): a null meta-iterator is refused; otherwise the new
        iterator will yield exactly the elements of the inputs' iterators, in
        order. */
    static method Concat(inputs: Option<Meta<T>>) returns (r: Result<ConcatenatedIterator<T>>)
      ensures inputs.None? <==> r.Err?
      ensures r.Err? ==> r.error == NullPointer
      ensures r.Ok? ==> fresh(r.value) && r.value.Pending() == FlatMeta(inputs.value) && r.value.toRemove.None?
    {
      if inputs.None? {
        return Err(NullPointer);
      }
      var it := new ConcatenatedIterator(inputs.value);
      return Ok(it);
    }

    /** getTopMetaIterator: drop empty meta-iterators from the front of the
        deque until one has an inner iterator left; null when none has. No
        element is consumed. */
    method GetTopMetaIterator() returns (top: Option<Meta<T>>)
      modifies this
      ensures current == old(current) && toRemove == old(toRemove)
      ensures top.Some? ==> top == topMeta && top.value.items != []
      ensures top.None? <==> Exhausted(old(topMeta), old(metas))
      ensures top.None? ==> metas == []
      ensures Pending() == old(Pending()) && Nodes() == old(Nodes())
    {
      while topMeta.None? || topMeta.value.items == []
        invariant current == old(current) && toRemove == old(toRemove)
        invariant Exhausted(topMeta, metas) <==> Exhausted(old(topMeta), old(metas))
        invariant Pending() == old(Pending()) && Nodes() == old(Nodes())
        decreases |metas|
      {
        if metas != [] {
          SkipEmpty(current, topMeta, metas);
          topMeta, metas := Some(metas[0]), metas[1..];
        } else {
          return None;
        }
      }
      return topMeta;
    }

    /** hasNext: move on to the next inner iterator until one has an element,
        unpacking nested concatenations; the elements to come stay the same,
        and the result says whether there is one. */
    method HasNext() returns (b: bool)
      modifies this
      ensures Pending() == old(Pending())
      ensures b <==> Pending() != []
      ensures b ==> current.rest != []
      ensures toRemove == old(toRemove)
    {
      while current.rest == []
        invariant Pending() == old(Pending()) && toRemove == old(toRemove)
        decreases Nodes()
      {
        ghost var top0, metas0 := topMeta, metas;
        var top := GetTopMetaIterator();
        if top.None? {
          ExhaustedIsEmpty(current, top0, metas0);
          topMeta := top;
          return false;
        }
        UnpackKeepsOrder(current, top.value, metas);
        var items := top.value.items;
        var state := Unpack(items[0], Meta(items[1..]), metas);
        current, topMeta, metas := state.0, state.1, state.2;
      }
      return true;
    }

    /** next: the first element to come, from the iterator that returns it,
        which becomes the one remove() goes to; NoSuchElementException when
        there is none. */
    method Next() returns (r: Result<T>)
      modifies this
      ensures old(Pending()) == [] ==> r == Err(NoSuchElement) && Pending() == [] && toRemove == old(toRemove)
      ensures old(Pending()) != [] ==>
        r == Ok(old(Pending())[0].value) && Pending() == old(Pending())[1..] &&
        toRemove == Some(old(Pending())[0].source)
    {
      var more := HasNext();
      if more {
        toRemove := Some(current.id);
        var value := current.rest[0];
        assert Pending()[0] == Item(current.id, value);
        assert CursorItems(Cursor(current.id, current.rest[1..])) == CursorItems(current)[1..];
        current := Cursor(current.id, current.rest[1..]);
        return Ok(value);
      } else {
        return Err(NoSuchElement);
      }
    }

    /** remove: IllegalStateException when no next() came since the last
        remove(); otherwise the removal goes to the iterator that returned the
        last element, whose identity is the result, and is not possible again
        until the next next(). The elements to come do not change. */
    method Remove() returns (r: Result<nat>)
      modifies this
      ensures old(toRemove).None? ==> r == Err(IllegalState)
      ensures old(toRemove).Some? ==> r == Ok(old(toRemove).value)
      ensures toRemove.None?
      ensures current == old(current) && topMeta == old(topMeta) && metas == old(metas)
    {
      if toRemove.None? {
        return Err(IllegalState);
      }
      r := Ok(toRemove.value);
      toRemove := None;
    }
  }

  lemma ExhaustedIsEmpty<T>(current: Cursor<T>, top: Option<Meta<T>>, metas: seq<Meta<T>>)
    requires Exhausted(top, metas)
    ensures PendingOf(current, top, metas) == CursorItems(current)
  {
    ExhaustedMetasAreEmpty(metas);
    if top.Some? {
      assert FlatSeq(top.value.items) == [];
    }
    assert FlatTop(top) == [];
  }

  lemma {:induction false} ExhaustedMetasAreEmpty<T>(metas: seq<Meta<T>>)
    requires forall k :: 0 <= k < |metas| ==> metas[k].items == []
    ensures FlatMetas(metas) == []
    decreases |metas|
  {
    if metas != [] {
      assert forall k :: 0 <= k < |metas[1..]| ==> metas[1..][k] == metas[k + 1];
      ExhaustedMetasAreEmpty(metas[1..]);
      assert FlatSeq(metas[0].items) == [];
    }
  }

  /** The fields after hasNext has taken `next` out of the top meta-iterator,
      leaving `rest` in it: an ordinary iterator becomes the current one; a
      nested concatenation hands over its current iterator and its top
      meta-iterator, and its deque goes in front of `rest` and this deque. */
  function Unpack<T>(next: Inner<T>, rest: Meta<T>, metas: seq<Meta<T>>): (Cursor<T>, Option<Meta<T>>, seq<Meta<T>>) {
    match next
    case Plain(c) => (c, Some(rest), metas)
    case Nested(cur, nestedTop, nestedMetas) => (cur, nestedTop, nestedMetas + ([rest] + metas))
  }

  /** Unpacking keeps the elements to come and their order, and strictly
      lowers the number of inner iterators left. */
  lemma UnpackKeepsOrder<T>(current: Cursor<T>, top: Meta<T>, metas: seq<Meta<T>>)
    requires current.rest == [] && top.items != []
    ensures var u := Unpack(top.items[0], Meta(top.items[1..]), metas);
      PendingOf(u.0, u.1, u.2) == PendingOf(current, Some(top), metas) &&
      NodesOf(u.1, u.2) < NodesOf(Some(top), metas)
  {
    var next, rest := top.items[0], Meta(top.items[1..]);
    assert FlatMeta(top) == Flat(next) + FlatMeta(rest);
    assert SizeMeta(top) == Size(next) + SizeMeta(rest);
    assert CursorItems(current) == [];
    match next
    case Plain(c) =>
    case Nested(cur, nestedTop, nestedMetas) =>
      FlatMetasAppend(nestedMetas, [rest] + metas);
      SizeMetasAppend(nestedMetas, [rest] + metas);
      MetasCons(rest, metas);
  }

  /** Moving past an empty top meta-iterator to the first one of the deque
      changes neither the elements to come nor the count. */
  lemma SkipEmpty<T>(current: Cursor<T>, top: Option<Meta<T>>, metas: seq<Meta<T>>)
    requires top.None? || top.value.items == []
    requires metas != []
    ensures PendingOf(current, Some(metas[0]), metas[1..]) == PendingOf(current, top, metas)
    ensures NodesOf(Some(metas[0]), metas[1..]) == NodesOf(top, metas)
    ensures Exhausted(Some(metas[0]), metas[1..]) <==> Exhausted(top, metas)
  {
    assert forall k :: 0 < k < |metas| ==> metas[k] == metas[1..][k - 1];
    if top.Some? {
      assert FlatSeq(top.value.items) == [] && SizeSeq(top.value.items) == 0;
    }
    assert FlatTop(top) == [] && SizeTop(top) == 0;
    assert FlatMetas(metas) == FlatMeta(metas[0]) + FlatMetas(metas[1..]);
  }

  lemma MetasCons<T>(m: Meta<T>, metas: seq<Meta<T>>)
    ensures FlatMetas([m] + metas) == FlatMeta(m) + FlatMetas(metas)
    ensures SizeMetas([m] + metas) == SizeMeta(m) + SizeMetas(metas)
  {
    assert ([m] + metas)[1..] == metas;
  }

  lemma {:induction false} FlatMetasAppend<T>(a: seq<Meta<T>>, b: seq<Meta<T>>)
    ensures FlatMetas(a + b) == FlatMetas(a) + FlatMetas(b)
    decreases |a|
  {
    if a == [] {
      assert a + b == b;
    } else {
      assert (a + b)[1..] == a[1..] + b;
      FlatMetasAppend(a[1..], b);
    }
  }

  lemma {:induction false} SizeMetasAppend<T>(a: seq<Meta<T>>, b: seq<Meta<T>>)
    ensures SizeMetas(a + b) == SizeMetas(a) + SizeMetas(b)
    decreases |a|
  {
    if a == [] {
      assert a + b == b;
    } else {
      assert (a + b)[1..] == a[1..] + b;
      SizeMetasAppend(a[1..], b);
    }
  }

  /** The concatenation of the elements of ordinary iterators. */
  function Concatenation<T>(cs: seq<Cursor<T>>): seq<T> {
    if cs == [] then [] else cs[0].rest + Concatenation(cs[1..])
  }

  function Plains<T>(cs: seq<Cursor<T>>): (r: seq<Inner<T>>)
    ensures |r| == |cs|
    ensures forall k :: 0 <= k < |cs| ==> r[k] == Plain(cs[k])
  {
    seq(|cs|, k requires 0 <= k < |cs| => Plain(cs[k]))
  }

  /** Over ordinary inner iterators, the elements to come are their elements
      one iterator after the other. */
  lemma {:induction false} FlatOfPlains<T>(cs: seq<Cursor<T>>)
    ensures Values(FlatSeq(Plains(cs))) == Concatenation(cs)
    decreases |cs|
  {
    if cs != [] {
      assert Plains(cs)[1..] == Plains(cs[1..]);
      FlatOfPlains(cs[1..]);
      ValuesAppend(CursorItems(cs[0]), FlatSeq(Plains(cs[1..])));
    }
  }

  lemma ValuesAppend<T>(a: seq<Item<T>>, b: seq<Item<T>>)
    ensures Values(a + b) == Values(a) + Values(b)
  {
  }

  /** A nested concatenation that has not started yet yields what its own
      inputs would: wrapping inputs in a concat and iterating it as an inner
      iterator changes neither the elements nor their order. */
  lemma FreshNestedFlattens<T>(inputs: Meta<T>)
    ensures Flat(Nested(Cursor(EMPTY_ITERATOR, []), Some(inputs), [])) == FlatMeta(inputs)
  {
    var empty: Cursor<T> := Cursor(EMPTY_ITERATOR, []);
    assert CursorItems(empty) == [];
  }
}
