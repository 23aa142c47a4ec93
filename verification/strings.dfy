/** Derivation of a cluster's multicast group from its name (utils/Strings).
    The class's static state, LOWER, UPPER and RANGE, is the `Bounds` value the
    static initialiser produces; `normalise` maps a name's String.hashCode onto
    an address byte by byte against it. */
module Strings {
  import opened JavaLang

  /** InetAddress.isMulticastAddress on the raw address: IPv4 224.0.0.0/4
      (the top four bits are 1110) or IPv6 ff00::/8. */
  predicate IsMulticast(address: seq<Byte>) {
    (|address| == 4 && address[0] / 16 == 14) || (|address| == 16 && address[0] == 0xFF)
  }

  /** The defaults used when the system properties are not set: 224.0.0.1 and 239.255.255.255. */
  const DEFAULT_LOWER: seq<Byte> := [224, 0, 0, 1]
  const DEFAULT_UPPER: seq<Byte> := [239, 255, 255, 255]

  /** LOWER, UPPER and RANGE once the static initialiser has finished. */
  datatype Bounds = Bounds(lower: seq<Byte>, upper: seq<Byte>, range: seq<Byte>)

  /** Per-byte width of the range, compared as unsigned bytes. */
  function RangeByte(up: Byte, low: Byte): Byte {
    if up > low then up - low else 0
  }

  function RangeOf(lower: seq<Byte>, upper: seq<Byte>): (range: seq<Byte>)
    requires |upper| <= |lower|
    ensures |range| == |upper|
    ensures forall i :: 0 <= i < |upper| ==> range[i] == RangeByte(upper[i], lower[i])
  {
    seq(|upper|, i requires 0 <= i < |upper| => RangeByte(upper[i], lower[i]))
  }

  predicate AllZero(bytes: seq<Byte>) {
    forall i :: 0 <= i < |bytes| ==> bytes[i] == 0
  }

  /** What the static initialiser leaves behind, or throws: a bound that is not
      multicast is an IllegalArgumentException, a lower bound shorter than the
      upper one makes the range loop read past its end, and a range without a
      single positive byte is an IllegalArgumentException. */
  function Configure(lower: seq<Byte>, upper: seq<Byte>): (r: Result<Bounds>)
    ensures r.Ok? <==> IsMulticast(lower) && IsMulticast(upper) && |upper| <= |lower|
                       && exists i :: 0 <= i < |upper| && upper[i] > lower[i]
    ensures !IsMulticast(lower) || !IsMulticast(upper) ==> r == Err(IllegalArgument)
    ensures IsMulticast(lower) && IsMulticast(upper) && |upper| > |lower| ==> r == Err(IndexOutOfBounds)
    ensures IsMulticast(lower) && IsMulticast(upper) && |upper| <= |lower| && AllZero(RangeOf(lower, upper))
            ==> r == Err(IllegalArgument)
    ensures r.Ok? ==> r.value.lower == lower && r.value.upper == upper
                      && r.value.range == RangeOf(lower, upper)
  {
    if !IsMulticast(lower) || !IsMulticast(upper) then Err(IllegalArgument)
    else if |upper| > |lower| then Err(IndexOutOfBounds)
    else
      var range := RangeOf(lower, upper);
      if AllZero(range) then Err(IllegalArgument)
      else
        assert exists i :: 0 <= i < |upper| && range[i] != 0;
        Ok(Bounds(lower, upper, range))
  }

  /** The state the static initialiser guarantees to every later call. */
  predicate ValidBounds(b: Bounds) {
    Configure(b.lower, b.upper) == Ok(b)
  }

  lemma ValidBoundsShape(b: Bounds)
    requires ValidBounds(b)
    ensures |b.range| == |b.upper| <= |b.lower|
    ensures |b.range| == 4 || |b.range| == 16
  {
  }

  /** The range loop of the static initialiser. */
  method ComputeRange(lower: seq<Byte>, upper: seq<Byte>) returns (result: Result<array<Byte>>)
    ensures result.Ok? <==> |upper| <= |lower|
    ensures result.Err? ==> result.error == IndexOutOfBounds
    ensures result.Ok? ==> fresh(result.value) && result.value[..] == RangeOf(lower, upper)
  {
    var l := |upper|;
    var a := new Byte[l];
    for i := 0 to l
      invariant i <= |lower|
      invariant forall k :: 0 <= k < i ==> a[k] == RangeByte(upper[k], lower[k])
    {
      if i >= |lower| {
        return Err(IndexOutOfBounds);
      }
      var up, low := upper[i], lower[i];
      a[i] := if up > low then up - low else 0;
    }
    return Ok(a);
  }

  /** assertArray: true when every byte is zero; stops at the first non-zero one. */
  method AssertArray(bytes: array<Byte>) returns (allZero: bool)
    ensures allZero <==> AllZero(bytes[..])
  {
    for i := 0 to bytes.Length
      invariant AllZero(bytes[..i])
    {
      if bytes[i] != 0 {
        assert bytes[..][i] != 0;
        return false;
      }
    }
    assert bytes[..bytes.Length] == bytes[..];
    return true;
  }

  /** The static initialiser, with the two system properties already resolved
      to raw addresses. */
  method StaticInit(lower: seq<Byte>, upper: seq<Byte>) returns (r: Result<Bounds>)
    ensures r == Configure(lower, upper)
  {
    if !IsMulticast(lower) {
      return Err(IllegalArgument);
    }
    if !IsMulticast(upper) {
      return Err(IllegalArgument);
    }
    var range := ComputeRange(lower, upper);
    if range.Err? {
      return Err(range.error);
    }
    var zero := AssertArray(range.value);
    if zero {
      return Err(IllegalArgument);
    }
    return Ok(Bounds(lower, upper, range.value[..]));
  }

  /** The hash buffer: `length` bytes holding the big-endian String.hashCode at
      positions 0..3 and zero after them. */
  function HashBytes(h: Int32, length: nat): (bits: seq<Byte>)
    requires length >= 4
    ensures |bits| == length
  {
    seq(length, i requires 0 <= i < length => if i < 4 then IntByte(h, i) else 0)
  }

  /** The hash buffer keeps the whole hash code: its first four bytes read back
      as the int that was written, and the rest are zero. */
  lemma HashBytesHoldHash(h: Int32, length: nat)
    requires length >= 4
    ensures var bits := HashBytes(h, length);
            Wrap32((bits[0] as int) * 0x100_0000 + (bits[1] as int) * 0x1_0000 + (bits[2] as int) * 0x100 + bits[3] as int) == h
            && forall i :: 4 <= i < length ==> bits[i] == 0
  {
    IntBytesRoundTrip(h);
  }

  /** hash(name, length): ByteBuffer.allocate(length).putInt(name.hashCode()).array().
      A null name throws NullPointerException at hashCode. Callers pass the
      address length, 4 or 16, so the int always fits. */
  method Hash(name: Option<string>, length: nat) returns (r: Result<array<Byte>>)
    requires length >= 4
    ensures name.None? ==> r == Err(NullPointer)
    ensures name.Some? ==> r.Ok? && fresh(r.value)
                           && r.value[..] == HashBytes(StringHash(name.value), length)
  {
    if name.None? {
      return Err(NullPointer);
    }
    var h := StringHash(name.value);
    var bits := new Byte[length];
    for i := 0 to length
      invariant forall k :: 0 <= k < i ==> bits[k] == HashBytes(h, length)[k]
    {
      bits[i] := if i < 4 then IntByte(h, i) else 0;
    }
    return Ok(bits);
  }

  /** One output byte of normalise: `bit` is the hash byte, `r` the range byte
      and `low` the lower-bound byte. */
  function NormalisedByte(r: Byte, bit: Byte, low: Byte): Byte {
    if r == 0 then low
    else if bit >= r then ToByte(JavaRem(bit, Signed(r)) + Signed(low))
    else bit
  }

  /** The address normalise derives from a hash code. */
  function Normalised(b: Bounds, h: Int32): (address: seq<Byte>)
    requires ValidBounds(b)
    ensures |address| == |b.range|
  {
    ValidBoundsShape(b);
    var bits := HashBytes(h, |b.range|);
    seq(|b.range|, i requires 0 <= i < |b.range| => NormalisedByte(b.range[i], bits[i], b.lower[i]))
  }

  /** normalise(name), filling the result from the last byte down to the first;
      a null name throws NullPointerException when it is hashed. */
  method Normalise(b: Bounds, name: Option<string>) returns (result: Result<seq<Byte>>)
    requires ValidBounds(b)
    ensures name.None? ==> result == Err(NullPointer)
    ensures name.Some? ==> result.Ok? && |result.value| == |b.range|
    ensures name.Some? ==> forall i :: 0 <= i < |result.value| ==>
              var r, bit, low := b.range[i], HashBytes(StringHash(name.value), |b.range|)[i], b.lower[i];
              (r == 0 ==> result.value[i] == low) &&
              (r != 0 && bit >= r ==> result.value[i] == ToByte(JavaRem(bit, Signed(r)) + Signed(low))) &&
              (r != 0 && bit < r ==> result.value[i] == bit)
    ensures name.Some? ==> result == Ok(Normalised(b, StringHash(name.value)))
  {
    ValidBoundsShape(b);
    result := NormaliseBytes(b.range, name, b.lower);
    if name.Some? {
      assert result.value == Normalised(b, StringHash(name.value));
    }
  }

  /** The loop of normalise over the raw arrays. */
  method NormaliseBytes(range: seq<Byte>, name: Option<string>, lower: seq<Byte>) returns (result: Result<seq<Byte>>)
    requires 4 <= |range| <= |lower|
    ensures name.None? ==> result == Err(NullPointer)
    ensures name.Some? ==> result.Ok? && |result.value| == |range|
    ensures name.Some? ==> forall i :: 0 <= i < |range| ==>
              result.value[i] == NormalisedByte(range[i], HashBytes(StringHash(name.value), |range|)[i], lower[i])
  {
    var l := |range|;
    var hashed := Hash(name, l);
    if hashed.Err? {
      return Err(hashed.error);
    }
    var bits := hashed.value;
    ghost var expected := HashBytes(StringHash(name.value), l);
    assert forall k :: 0 <= k < l ==> bits[k] == expected[k];
    var address := new Byte[l];
    var i := l - 1;
    while i >= 0
      invariant -1 <= i < l
      invariant forall k :: i < k < l ==> address[k] == NormalisedByte(range[k], expected[k], lower[k])
      invariant forall k :: 0 <= k < l ==> bits[k] == expected[k]
    {
      var r, bit := range[i], bits[i];
      if r == 0 {
        address[i] := lower[i];
      } else if bit >= r {
        address[i] := ToByte(JavaRem(bit, Signed(r)) + Signed(lower[i]));
      } else {
        address[i] := bit;
      }
      i := i - 1;
    }
    return Ok(address[..]);
  }

  /** The modulus divides by the signed range byte, so a range byte above 127
      reduces the hash byte modulo 256 - r instead of r. */
  lemma DivisorIsSignedRange(r: Byte, bit: Byte, low: Byte)
    requires r != 0 && bit >= r
    ensures r <= 127 ==> NormalisedByte(r, bit, low) == (bit % r + low) % 256
    ensures r > 127 ==> NormalisedByte(r, bit, low) == (bit % (256 - r) + low) % 256
  {
    var s := Signed(r);
    assert Abs(s) == if r <= 127 then r else 256 - r;
    var q := JavaRem(bit, s) + Signed(low);
    assert (q - (JavaRem(bit, s) + low)) % 256 == 0 by {
      assert q - (JavaRem(bit, s) + low) == Signed(low) - low;
    }
    SameResidue(q, JavaRem(bit, s) + low);
  }

  lemma SameResidue(x: int, y: int)
    requires (x - y) % 256 == 0
    ensures x % 256 == y % 256
  {
    var k := (x - y) / 256;
    assert x - y == 256 * k;
    assert x == y + 256 * k;
  }

  /** A hash byte below a non-zero range byte is copied unchanged: the lower
      bound is not added, so the byte can fall outside [lower, upper]. */
  lemma SmallHashByteIsCopied(r: Byte, bit: Byte, low: Byte)
    requires r != 0 && bit < r
    ensures NormalisedByte(r, bit, low) == bit
  {
  }

  function DefaultBounds(): (b: Bounds)
    ensures ValidBounds(b)
  {
    assert DEFAULT_UPPER[0] > DEFAULT_LOWER[0];
    Bounds(DEFAULT_LOWER, DEFAULT_UPPER, RangeOf(DEFAULT_LOWER, DEFAULT_UPPER))
  }

  /** With the default bounds the name "a" (hash code 97) derives 0.0.0.97,
      which is not a multicast address at all. */
  lemma DefaultBoundsDeriveNonMulticast()
    ensures StringHash("a") == 97
    ensures Normalised(DefaultBounds(), StringHash("a")) == [0, 0, 0, 97]
    ensures !IsMulticast(Normalised(DefaultBounds(), StringHash("a")))
  {
    assert "a"[..0] == [];
    var b := DefaultBounds();
    assert b.range == [15, 255, 255, 254];
    var bits := HashBytes(97, 4);
    assert Pow256(3) == 0x100_0000 && Pow256(2) == 0x1_0000 && Pow256(1) == 0x100 && Pow256(0) == 1;
    assert bits == [0, 0, 0, 97];
  }

  /** The derivation evidently intended: reduce the hash byte modulo the
      unsigned range byte and always add the lower bound. */
  function CorrectedByte(r: Byte, bit: Byte, low: Byte): int {
    if r == 0 then low else bit % r + low
  }

  function CorrectedNormalised(b: Bounds, h: Int32): (address: seq<int>)
    requires ValidBounds(b)
    ensures |address| == |b.range|
  {
    ValidBoundsShape(b);
    var bits := HashBytes(h, |b.range|);
    seq(|b.range|, i requires 0 <= i < |b.range| => CorrectedByte(b.range[i], bits[i], b.lower[i]))
  }

  /** For bounds of one address family the corrected derivation keeps every
      byte between the bounds and always yields a multicast address. */
  lemma CorrectedStaysWithinBounds(b: Bounds, h: Int32)
    requires ValidBounds(b) && |b.lower| == |b.upper|
    ensures var a := CorrectedNormalised(b, h);
            (forall i :: 0 <= i < |a| ==> 0 <= a[i] < 256) &&
            (forall i :: 0 <= i < |a| ==> b.lower[i] <= a[i]) &&
            (forall i :: 0 <= i < |a| && b.upper[i] > b.lower[i] ==> a[i] < b.upper[i]) &&
            (forall i :: 0 <= i < |a| && b.upper[i] <= b.lower[i] ==> a[i] == b.lower[i]) &&
            IsMulticast(a)
  {
    var a := CorrectedNormalised(b, h);
    var bits := HashBytes(h, |b.range|);
    forall i | 0 <= i < |a|
      ensures b.lower[i] <= a[i] && (b.upper[i] > b.lower[i] ==> a[i] < b.upper[i])
              && (b.upper[i] <= b.lower[i] ==> a[i] == b.lower[i])
    {
      assert b.range[i] == RangeByte(b.upper[i], b.lower[i]);
    }
  }
}
