/** Insertion-ordered sets held as duplicate-free sequences: the behaviour of
    LinkedHashSet.add (Types.classes) and of CopyOnWriteArraySet.addAll and
    removeAll (the subscriber registry's buckets). */
module OrderedSets {

  predicate NoDup<T(==,!new)>(s: seq<T>) {
    forall i, j :: 0 <= i < j < |s| ==> s[i] != s[j]
  }

  /** Adding an element already present leaves the set, and its order, alone. */
  function Add<T(==,!new)>(s: seq<T>, x: T): (r: seq<T>)
    ensures x in r && s <= r
    ensures forall y :: y in r <==> y in s || y == x
    ensures NoDup(s) ==> NoDup(r)
  {
    if x in s then s else s + [x]
  }

  /** Adds every element of `xs`, in order, to `acc`: the elements new to
      `acc` are appended at their first occurrence in `xs`. */
  function AddAll<T(==,!new)>(acc: seq<T>, xs: seq<T>): (r: seq<T>)
    ensures acc <= r
    ensures forall y :: y in r <==> y in acc || y in xs
    ensures NoDup(acc) ==> NoDup(r)
    decreases |xs|
  {
    if xs == [] then acc else Add(AddAll(acc, xs[..|xs| - 1]), xs[|xs| - 1])
  }

  /** A duplicate-free copy of `xs` that keeps the first occurrence of each element. */
  function Dedup<T(==,!new)>(xs: seq<T>): (r: seq<T>)
    ensures NoDup(r)
    ensures forall y :: y in r <==> y in xs
  {
    AddAll([], xs)
  }

  lemma AddAllSnoc<T(!new)>(acc: seq<T>, xs: seq<T>, x: T)
    ensures AddAll(acc, xs + [x]) == Add(AddAll(acc, xs), x)
  {
    assert (xs + [x])[..|xs|] == xs;
  }

  /** Adding two batches one after the other is adding their concatenation. */
  lemma {:induction false} AddAllAppend<T(!new)>(acc: seq<T>, a: seq<T>, b: seq<T>)
    ensures AddAll(acc, a + b) == AddAll(AddAll(acc, a), b)
    decreases |b|
  {
    if b == [] {
      assert a + b == a;
    } else {
      var b', x := b[..|b| - 1], b[|b| - 1];
      calc {
        AddAll(acc, a + b);
        { assert a + b == (a + b') + [x]; }
        AddAll(acc, (a + b') + [x]);
        { AddAllSnoc(acc, a + b', x); }
        Add(AddAll(acc, a + b'), x);
        { AddAllAppend(acc, a, b'); }
        Add(AddAll(AddAll(acc, a), b'), x);
        { AddAllSnoc(AddAll(acc, a), b', x); }
        AddAll(AddAll(acc, a), b' + [x]);
        { assert b' + [x] == b; }
        AddAll(AddAll(acc, a), b);
      }
    }
  }

  /** Position of the first occurrence of `x` in `s`. */
  function IndexOf<T(==,!new)>(s: seq<T>, x: T): (i: nat)
    requires x in s
    ensures i < |s| && s[i] == x
    ensures forall j :: 0 <= j < i ==> s[j] != x
  {
    if s[0] == x then 0 else 1 + IndexOf(s[1..], x)
  }

  lemma IndexOfPrefix<T(!new)>(s: seq<T>, t: seq<T>, x: T)
    requires x in s
    ensures IndexOf(s + t, x) == IndexOf(s, x)
  {
    var i := IndexOf(s, x);
    assert (s + t)[i] == x;
    assert forall j :: 0 <= j < i ==> (s + t)[j] == s[j];
  }

  /** Dedup lists the elements in the order of their first occurrence. */
  lemma {:induction false} DedupKeepsFirstOccurrenceOrder<T(!new)>(xs: seq<T>)
    ensures forall i, j :: 0 <= i < j < |Dedup(xs)| ==> IndexOf(xs, Dedup(xs)[i]) < IndexOf(xs, Dedup(xs)[j])
    decreases |xs|
  {
    if xs != [] {
      var init, x := xs[..|xs| - 1], xs[|xs| - 1];
      assert xs == init + [x];
      DedupKeepsFirstOccurrenceOrder(init);
      var d := Dedup(init);
      assert Dedup(xs) == Add(d, x);
      forall y | y in d ensures IndexOf(xs, y) == IndexOf(init, y) {
        IndexOfPrefix(init, [x], y);
      }
      if x !in d {
        assert forall j :: 0 <= j < |init| ==> xs[j] == init[j] != x;
        assert IndexOf(xs, x) == |init|;
      }
    }
  }

  /** CopyOnWriteArraySet.removeAll: keeps, in order, the elements not in `xs`. */
  function RemoveAll<T(==,!new)>(s: seq<T>, xs: seq<T>): (r: seq<T>)
    ensures forall y :: y in r <==> y in s && y !in xs
    ensures NoDup(s) ==> NoDup(r)
    ensures |r| <= |s|
    ensures |r| == |s| ==> r == s
  {
    if s == [] then []
    else
      var rest := RemoveAll(s[1..], xs);
      assert NoDup(s) ==> s[0] !in s[1..] by {
        assert forall k :: 0 <= k < |s[1..]| ==> s[1..][k] == s[k + 1];
      }
      if s[0] in xs then rest else [s[0]] + rest
  }

  /** removeAll reports a change exactly when some element of the set is
      among those removed. */
  lemma RemoveAllChangesIff<T(!new)>(s: seq<T>, xs: seq<T>)
    ensures RemoveAll(s, xs) == s <==> forall y :: y in s ==> y !in xs
  {
  }

  lemma RemoveAllCons<T(!new)>(h: T, t: seq<T>, xs: seq<T>)
    ensures RemoveAll([h] + t, xs) == (if h in xs then [] else [h]) + RemoveAll(t, xs)
  {
    assert ([h] + t)[0] == h && ([h] + t)[1..] == t;
  }

  lemma {:induction false} RemoveAllAppend<T(!new)>(a: seq<T>, b: seq<T>, xs: seq<T>)
    ensures RemoveAll(a + b, xs) == RemoveAll(a, xs) + RemoveAll(b, xs)
    decreases |a|
  {
    if a == [] {
      assert a + b == b;
    } else {
      var h, t := a[0], a[1..];
      var rt, rb := RemoveAll(t, xs), RemoveAll(b, xs);
      calc {
        RemoveAll(a + b, xs);
        { assert a + b == [h] + (t + b); }
        RemoveAll([h] + (t + b), xs);
        { RemoveAllCons(h, t + b, xs); }
        (if h in xs then [] else [h]) + RemoveAll(t + b, xs);
        { RemoveAllAppend(t, b, xs); }
        (if h in xs then [] else [h]) + (rt + rb);
        ((if h in xs then [] else [h]) + rt) + rb;
        { assert a == [h] + t; RemoveAllCons(h, t, xs); }
        RemoveAll(a, xs) + rb;
      }
    }
  }

  lemma {:induction false} RemoveAllOfSubset<T(!new)>(b: seq<T>, xs: seq<T>)
    requires forall y :: y in b ==> y in xs
    ensures RemoveAll(b, xs) == []
    decreases |b|
  {
    if b != [] {
      assert forall y :: y in b[1..] ==> y in b;
      RemoveAllOfSubset(b[1..], xs);
    }
  }

  /** Removing what addAll added gives back the set, when none of the added
      elements was already in it. */
  lemma RemoveAllUndoesAddAll<T(!new)>(s: seq<T>, xs: seq<T>)
    requires NoDup(s) && forall y :: y in s ==> y !in xs
    ensures RemoveAll(AddAll(s, xs), xs) == s
  {
    var r := AddAll(s, xs);
    var tail := r[|s|..];
    assert r == s + tail;
    forall y | y in tail
      ensures y in xs
    {
      var i :| 0 <= i < |tail| && tail[i] == y;
      assert r[|s| + i] == y;
      assert forall j :: 0 <= j < |s| ==> s[j] == r[j] != r[|s| + i];
      assert y !in s;
    }
    RemoveAllAppend(s, tail, xs);
    RemoveAllOfSubset(tail, xs);
    var gone := RemoveAll(tail, xs);
    calc {
      RemoveAll(r, xs);
      RemoveAll(s, xs) + gone;
      { RemoveAllChangesIff(s, xs); }
      s + [];
      s;
    }
  }
}
