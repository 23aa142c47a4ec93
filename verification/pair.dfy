/** Pair (utils/Pair): an immutable pair of possibly-null components, with
    null-safe equality and a hash code computed on first use and cached in a
    mutable field. Components compare by value, and each side has a
    hash function standing for its hashCode. */
module Pairs {
  import opened JavaLang

  /** The hash a component contributes: its hashCode, or 0 for null. */
  function ComponentHash<T>(x: Option<T>, hash: T -> Int32): (h: Int32)
    ensures x.None? ==> h == 0
    ensures x.Some? ==> h == hash(x.value)
  {
    if x.Some? then hash(x.value) else 0
  }

  /** The pair's hash from its components' hashes: 17 * 37 + h1, then times 37
      plus h2, in int arithmetic. */
  function PairHash(h1: Int32, h2: Int32): Int32 {
    Wrap32(Wrap32(17 * 37 + h1) * 37 + h2)
  }

  /** Wrapping after every step is wrapping once at the end: the pair's hash
      is (17 * 37 + h1) * 37 + h2 modulo 2^32. */
  lemma PairHashIsPolynomial(h1: Int32, h2: Int32)
    ensures PairHash(h1, h2) == Wrap32((17 * 37 + h1) * 37 + h2)
    ensures (PairHash(h1, h2) - ((17 * 37 + h1) * 37 + h2)) % TWO_32 == 0
  {
    Wrap32MulAdd(17 * 37 + h1, 37, h2);
    assert Wrap32(17 * 37 + h1) * 37 == 37 * Wrap32(17 * 37 + h1);
    assert (17 * 37 + h1) * 37 == 37 * (17 * 37 + h1);
  }

  /** What equals can be given: null, an object that is not a Pair, or a Pair. */
  datatype Other<A, B> = Null | NotAPair | APair(pair: Pair<A, B>)

  class Pair<A(==), B(==)> {
    const first: Option<A>
    const second: Option<B>
    /** The components' hashCode methods. */
    const hashFirst: A -> Int32
    const hashSecond: B -> Int32
    /** The cache: 0 until hashCode has computed the hash. */
    var hashcode: Int32

    /** The cache holds either nothing yet or the hash. */
    ghost predicate Valid()
      reads this
    {
      hashcode == 0 || hashcode == Hash()
    }

    /** The hash hashCode returns. */
    function Hash(): Int32 {
      PairHash(ComponentHash(first, hashFirst), ComponentHash(second, hashSecond))
    }

    /** The package-private constructor: the components as given, nothing cached. */
    constructor (first: Option<A>, second: Option<B>, hashFirst: A -> Int32, hashSecond: B -> Int32)
      ensures Valid()
      ensures this.first == first && this.second == second && hashcode == 0
      ensures this.hashFirst == hashFirst && this.hashSecond == hashSecond
    {
      this.first, this.second := first, second;
      this.hashFirst, this.hashSecond := hashFirst, hashSecond;
      hashcode := 0;
    }

    /** equals: the same pair, or another pair whose components are each
        null on both sides or equal. */
    function Equals(obj: Other<A, B>): (r: bool)
      ensures obj == APair(this) ==> r
      ensures obj.Null? || obj.NotAPair? ==> !r
      ensures obj.APair? ==> (r <==> first == obj.pair.first && second == obj.pair.second)
    {
      if obj.APair? && obj.pair == this then true
      else if !obj.APair? then false
      else
        var other := obj.pair;
        if first != other.first && (first.None? || other.first.None? || first.value != other.first.value) then false
        else if second != other.second && (second.None? || other.second.None? || second.value != other.second.value) then false
        else true
    }

    /** hashCode: compute the hash when the cache is empty and store it; the
        value returned is the same on every call. */
    method HashCode() returns (h: Int32)
      requires Valid()
      modifies this
      ensures Valid()
      ensures h == Hash()
      ensures hashcode == old(hashcode) || (old(hashcode) == 0 && hashcode == Hash())
    {
      if hashcode == 0 {
        var hash: Int32 := 17;
        hash := Wrap32(hash * 37 + ComponentHash(first, hashFirst));
        hash := Wrap32(hash * 37 + ComponentHash(second, hashSecond));
        hashcode := hash;
      }
      return hashcode;
    }
  }

  /** Pair equality is an equivalence. */
  lemma PairEqualsIsEquivalence<A, B>(p: Pair<A, B>, q: Pair<A, B>, s: Pair<A, B>)
    ensures p.Equals(APair(p))
    ensures p.Equals(APair(q)) ==> q.Equals(APair(p))
    ensures p.Equals(APair(q)) && q.Equals(APair(s)) ==> p.Equals(APair(s))
  {
  }

  /** hashCode is consistent with equals: pairs whose components hash by the
      same hashCode methods and that are equal have the same hash. */
  lemma EqualPairsHashAlike<A, B>(p: Pair<A, B>, q: Pair<A, B>)
    requires p.hashFirst == q.hashFirst && p.hashSecond == q.hashSecond
    ensures p.Equals(APair(q)) ==> p.Hash() == q.Hash()
  {
  }

  /** The class's static state: the components' hashCode methods, which are
      the same for every pair of these types, and the shared EMPTY pair. */
  class PairClass<A(==), B(==)> {
    const hashFirst: A -> Int32
    const hashSecond: B -> Int32
    const EMPTY: Pair<A, B>

    /** EMPTY holds two nulls and hashes its components as every pair does. */
    ghost predicate Valid() {
      EMPTY.first.None? && EMPTY.second.None?
      && EMPTY.hashFirst == hashFirst && EMPTY.hashSecond == hashSecond
    }

    /** Class initialisation creates EMPTY, with both components null. */
    constructor (hashFirst: A -> Int32, hashSecond: B -> Int32)
      ensures this.hashFirst == hashFirst && this.hashSecond == hashSecond
      ensures fresh(EMPTY) && EMPTY.Valid() && EMPTY.hashcode == 0
      ensures Valid()
    {
      this.hashFirst, this.hashSecond := hashFirst, hashSecond;
      EMPTY := new Pair(None, None, hashFirst, hashSecond);
    }

    /** Pair.of(first, second): a new pair of exactly these components, with
        nothing cached, hashing its components as every pair does. */
    method Of(first: Option<A>, second: Option<B>) returns (p: Pair<A, B>)
      ensures fresh(p) && p.Valid() && p.hashcode == 0
      ensures p.first == first && p.second == second
      ensures p.hashFirst == hashFirst && p.hashSecond == hashSecond
    {
      p := new Pair(first, second, hashFirst, hashSecond);
    }

    /** Pair.empty(): always the one shared pair of two nulls. */
    method Empty() returns (p: Pair<A, B>)
      requires Valid()
      ensures p == EMPTY
      ensures p.first.None? && p.second.None?
      ensures p.hashFirst == hashFirst && p.hashSecond == hashSecond
    {
      return EMPTY;
    }
  }
}
