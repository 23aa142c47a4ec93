/** The cluster builder's own copy of the address derivation
    (cluster/IonClusterBuilder). Its static state has the same shape as that of
    Strings; its range loop subtracts signed bytes, and its normalise uses a
    strict comparison where Strings uses `>=`. */
module IonClusterBuilder {
  import opened JavaLang
  import Strings

  /** The range loop of the builder's static initialiser, on signed bytes. */
  method ComputeRange(lower: seq<Byte>, upper: seq<Byte>) returns (result: Result<array<Byte>>)
    ensures result.Ok? <==> |upper| <= |lower|
    ensures result.Err? ==> result.error == IndexOutOfBounds
    ensures result.Ok? ==> fresh(result.value) && result.value[..] == Strings.RangeOf(lower, upper)
  {
    var l := |upper|;
    var a := new Byte[l];
    for i := 0 to l
      invariant i <= |lower|
      invariant forall k :: 0 <= k < i ==> a[k] == Strings.RangeByte(upper[k], lower[k])
    {
      if i >= |lower| {
        return Err(IndexOutOfBounds);
      }
      var up, low := upper[i], lower[i];
      a[i] := if up > low then ToByte(Signed(up) - Signed(low)) else 0;
      if up > low {
        SignedDifference(up, low);
      }
    }
    return Ok(a);
  }

  /** Subtracting the signed views and casting back to a byte gives the unsigned
      difference whenever the unsigned upper byte is the larger. */
  lemma SignedDifference(up: Byte, low: Byte)
    requires up > low
    ensures ToByte(Signed(up) - Signed(low)) == up - low
  {
    Strings.SameResidue(Signed(up) - Signed(low), up - low);
  }

  /** The builder's static initialiser: the same checks and the same state as
      that of Strings. */
  method StaticInit(lower: seq<Byte>, upper: seq<Byte>) returns (r: Result<Strings.Bounds>)
    ensures r == Strings.Configure(lower, upper)
  {
    if !Strings.IsMulticast(lower) {
      return Err(IllegalArgument);
    }
    if !Strings.IsMulticast(upper) {
      return Err(IllegalArgument);
    }
    var range := ComputeRange(lower, upper);
    if range.Err? {
      return Err(range.error);
    }
    var zero := Strings.AssertArray(range.value);
    if zero {
      return Err(IllegalArgument);
    }
    return Ok(Strings.Bounds(lower, upper, range.value[..]));
  }

  /** One output byte of the builder's normalise: equality with the range byte
      copies the hash byte. */
  function BuilderByte(r: Byte, bit: Byte, low: Byte): Byte {
    if r == 0 then low
    else if bit > r then ToByte(JavaRem(bit, Signed(r)) + Signed(low))
    else bit
  }

  function BuilderNormalised(b: Strings.Bounds, h: Int32): (address: seq<Byte>)
    requires Strings.ValidBounds(b)
    ensures |address| == |b.range|
  {
    Strings.ValidBoundsShape(b);
    var bits := Strings.HashBytes(h, |b.range|);
    seq(|b.range|, i requires 0 <= i < |b.range| => BuilderByte(b.range[i], bits[i], b.lower[i]))
  }

  /** The builder's normalise; a null name throws NullPointerException when it
      is hashed. */
  method Normalise(b: Strings.Bounds, name: Option<string>) returns (result: Result<seq<Byte>>)
    requires Strings.ValidBounds(b)
    ensures name.None? ==> result == Err(NullPointer)
    ensures name.Some? ==> result.Ok? && |result.value| == |b.range|
    ensures name.Some? ==> forall i :: 0 <= i < |result.value| ==>
              var r, bit, low := b.range[i], Strings.HashBytes(StringHash(name.value), |b.range|)[i], b.lower[i];
              (r == 0 ==> result.value[i] == low) &&
              (r != 0 && bit > r ==> result.value[i] == ToByte(JavaRem(bit, Signed(r)) + Signed(low))) &&
              (r != 0 && bit <= r ==> result.value[i] == bit)
    ensures name.Some? ==> result == Ok(BuilderNormalised(b, StringHash(name.value)))
  {
    Strings.ValidBoundsShape(b);
    result := NormaliseBytes(b.range, name, b.lower);
    if name.Some? {
      assert result.value == BuilderNormalised(b, StringHash(name.value));
    }
  }

  /** The loop of the builder's normalise, from the last byte down to the first. */
  method NormaliseBytes(range: seq<Byte>, name: Option<string>, lower: seq<Byte>) returns (result: Result<seq<Byte>>)
    requires 4 <= |range| <= |lower|
    ensures name.None? ==> result == Err(NullPointer)
    ensures name.Some? ==> result.Ok? && |result.value| == |range|
    ensures name.Some? ==> forall i :: 0 <= i < |range| ==>
              result.value[i] == BuilderByte(range[i], Strings.HashBytes(StringHash(name.value), |range|)[i], lower[i])
  {
    var l := |range|;
    var hashed := Strings.Hash(name, l);
    if hashed.Err? {
      return Err(hashed.error);
    }
    var bits := hashed.value;
    ghost var expected := Strings.HashBytes(StringHash(name.value), l);
    assert forall k :: 0 <= k < l ==> bits[k] == expected[k];
    var address := new Byte[l];
    var i := l - 1;
    while i >= 0
      invariant -1 <= i < l
      invariant forall k :: i < k < l ==> address[k] == BuilderByte(range[k], expected[k], lower[k])
      invariant forall k :: 0 <= k < l ==> bits[k] == expected[k]
    {
      var r, bit := range[i], bits[i];
      if r == 0 {
        address[i] := lower[i];
      } else if bit > r {
        address[i] := ToByte(JavaRem(bit, Signed(r)) + Signed(lower[i]));
      } else {
        address[i] := bit;
      }
      i := i - 1;
    }
    return Ok(address[..]);
  }

  /** The two derivations agree on every byte except where a hash byte equals a
      non-zero range byte. */
  lemma AgreesWithStringsExceptAtEquality(b: Strings.Bounds, h: Int32)
    requires Strings.ValidBounds(b)
    ensures var ours, theirs, bits := BuilderNormalised(b, h), Strings.Normalised(b, h), Strings.HashBytes(h, |b.range|);
            forall i :: 0 <= i < |b.range| ==>
              (ours[i] != theirs[i] ==> b.range[i] != 0 && bits[i] == b.range[i])
  {
  }

  /** ... and at such a byte they can differ: range byte 15 and hash byte 15
      with lower byte 224 give 15 here and 224 in Strings. */
  lemma EqualityCaseDiffers()
    ensures BuilderByte(15, 15, 224) == 15
    ensures Strings.NormalisedByte(15, 15, 224) == 224
  {
  }

  /** The builder: the cluster name and the address derived from it once, at
      construction, from the name and the static bounds alone. */
  class Builder {
    const name: string
    const normalised: seq<Byte>

    constructor (b: Strings.Bounds, name: string)
      requires Strings.ValidBounds(b)
      ensures this.name == name
      ensures normalised == BuilderNormalised(b, StringHash(name))
    {
      this.name := name;
      var address := Normalise(b, Some(name));
      this.normalised := address.value;
    }

    /** new IonClusterBuilder(name): a null name throws NullPointerException
        while the address is derived, so no builder is made. */
    static method New(b: Strings.Bounds, name: Option<string>) returns (r: Result<Builder>)
      requires Strings.ValidBounds(b)
      ensures name.None? ==> r == Err(NullPointer)
      ensures name.Some? ==> r.Ok? && fresh(r.value) && r.value.name == name.value
                             && r.value.normalised == BuilderNormalised(b, StringHash(name.value))
    {
      if name.None? {
        return Err(NullPointer);
      }
      var builder := new Builder(b, name.value);
      return Ok(builder);
    }
  }
}
