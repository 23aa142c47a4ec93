/** The slice of the Java platform the Ion core relies on, written out so that
    the rest of the model can state Java's arithmetic and failure behaviour
    exactly: the exceptions the core throws, signed bytes, 32-bit int
    wrap-around, the truncating remainder and String.hashCode. */
module JavaLang {

  datatype Option<T> = None | Some(value: T)

  /** The exceptions the core throws or lets through. */
  datatype Exception =
    | NullPointer           // Objects.requireNonNull and dereferencing null
    | IllegalArgument       // bad configuration, bad subscriber arity, unregister of a stranger
    | IllegalState          // remove() without next(), reflective failures of the static initialisers
    | NoSuchElement         // next() on an exhausted iterator
    | IndexOutOfBounds      // an array read past its end

  /** A computation that either returns a value or throws one of `Exception`. */
  datatype Result<T> = Ok(value: T) | Err(error: Exception)

  const TWO_32: int := 0x1_0000_0000
  const TWO_31: int := 0x8000_0000

  /** A Java `int`. */
  type Int32 = x: int | -TWO_31 <= x < TWO_31

  /** Java's `int` arithmetic keeps the value modulo 2^32, read as two's complement. */
  function Wrap32(x: int): (r: Int32)
    ensures (r - x) % TWO_32 == 0
    ensures -TWO_31 <= x < TWO_31 ==> r == x
  {
    var u := x % TWO_32;
    if u >= TWO_31 then u - TWO_32 else u
  }

  /** Wrapping before or after a further multiply-and-add gives the same int. */
  lemma {:induction false} Wrap32MulAdd(x: int, m: int, c: int)
    ensures Wrap32(m * Wrap32(x) + c) == Wrap32(m * x + c)
  {
    var d := Wrap32(x) - x;
    assert d % TWO_32 == 0;
    var k := d / TWO_32;
    assert d == k * TWO_32;
    assert m * Wrap32(x) + c == (m * x + c) + (m * k) * TWO_32;
    ModShift(m * x + c, m * k);
  }

  lemma {:induction false} ModShift(a: int, k: int)
    ensures (a + k * TWO_32) % TWO_32 == a % TWO_32
    decreases Abs(k)
  {
    if k > 0 {
      ModShift(a, k - 1);
      assert a + k * TWO_32 == (a + (k - 1) * TWO_32) + TWO_32;
    } else if k < 0 {
      ModShift(a, k + 1);
      assert a + k * TWO_32 == (a + (k + 1) * TWO_32) - TWO_32;
    }
  }

  /** A Java `byte`, held in its unsigned view `b & 0xFF`. */
  type Byte = x: int | 0 <= x < 256

  /** The signed value Java sees when a byte takes part in arithmetic. */
  function Signed(b: Byte): (r: int)
    ensures -128 <= r < 128
    ensures (r - b) % 256 == 0
  {
    if b < 128 then b else b - 256
  }

  /** The `(byte)` cast of an int, in the unsigned view. */
  function ToByte(x: int): (r: Byte)
    ensures (r - x) % 256 == 0
  {
    x % 256
  }

  function Abs(x: int): nat { if x < 0 then -x else x }

  /** Java's `%` on ints: the remainder truncates toward zero, so it takes
      the sign of the dividend and ignores the sign of the divisor. */
  function JavaRem(a: int, b: int): (r: int)
    requires b != 0
    ensures Abs(r) < Abs(b)
    ensures (a - r) % Abs(b) == 0
    ensures a >= 0 ==> r >= 0
    ensures a < 0 ==> r <= 0
  {
    var n := Abs(b);
    if a >= 0 then
      ModOfMultiple(a - a % n, n, a / n);
      a % n
    else
      ModOfMultiple(a + (-a) % n, n, -((-a) / n));
      -((-a) % n)
  }

  /** A multiple of n leaves no remainder. */
  lemma ModOfMultiple(x: int, n: int, k: int)
    requires n > 0 && x == n * k
    ensures x % n == 0
  {
    var d := k - x / n;
    assert n * d == x % n by {
      assert x == n * (x / n) + x % n;
      assert n * d == n * k - n * (x / n);
    }
  }

  /** String.hashCode as the JDK computes it: h = 31 * h + c over the chars,
      in 32-bit arithmetic. */
  function StringHash(s: string): Int32
    decreases |s|
  {
    if s == [] then 0 else Wrap32(31 * StringHash(s[..|s| - 1]) + s[|s| - 1] as int)
  }

  function Pow31(n: nat): nat { if n == 0 then 1 else 31 * Pow31(n - 1) }

  /** The documented formula s[0]*31^(n-1) + s[1]*31^(n-2) + ... + s[n-1], unbounded. */
  function Polynomial(s: string): int
    decreases |s|
  {
    if s == [] then 0 else 31 * Polynomial(s[..|s| - 1]) + s[|s| - 1] as int
  }

  function PolynomialFromFront(s: string): int
    decreases |s|
  {
    if s == [] then 0 else (s[0] as int) * Pow31(|s| - 1) + PolynomialFromFront(s[1..])
  }

  /** The Horner form and the documented sum of powers agree. */
  lemma {:induction false} PolynomialForms(s: string)
    ensures Polynomial(s) == PolynomialFromFront(s)
    decreases |s|
  {
    if |s| > 1 {
      var init := s[..|s| - 1];
      PolynomialForms(init);
      PolynomialForms(s[1..]);
      PolynomialForms(init[1..]);
      assert s[1..][..|s[1..]| - 1] == init[1..];
      var c0, cn := s[0] as int, s[|s| - 1] as int;
      assert init[0] == s[0];
      assert s[1..][|s[1..]| - 1] == s[|s| - 1];
      assert Polynomial(init) == c0 * Pow31(|s| - 2) + Polynomial(init[1..]);
      assert Polynomial(s[1..]) == 31 * Polynomial(init[1..]) + cn;
      HornerStep(c0, cn, Pow31(|s| - 2), Polynomial(init[1..]));
    } else if |s| == 1 {
      assert s[..0] == [] && s[1..] == [];
    }
  }

  lemma HornerStep(c0: int, cn: int, p: int, x: int)
    ensures 31 * (c0 * p + x) + cn == c0 * (31 * p) + (31 * x + cn)
  {
  }

  /** String.hashCode is the documented polynomial reduced to 32 bits. */
  lemma {:induction false} StringHashIsPolynomial(s: string)
    ensures StringHash(s) == Wrap32(PolynomialFromFront(s))
    decreases |s|
  {
    PolynomialForms(s);
    StringHashHorner(s);
  }

  lemma {:induction false} StringHashHorner(s: string)
    ensures StringHash(s) == Wrap32(Polynomial(s))
    decreases |s|
  {
    if s != [] {
      StringHashHorner(s[..|s| - 1]);
      Wrap32MulAdd(Polynomial(s[..|s| - 1]), 31, s[|s| - 1] as int);
    }
  }

  /** Big-endian byte `k` (0 = most significant) of an int, as ByteBuffer.putInt writes it. */
  function IntByte(h: Int32, k: nat): (b: Byte)
    requires k < 4
  {
    var u := if h < 0 then h + TWO_32 else h;
    (u / Pow256(3 - k)) % 256
  }

  function Pow256(n: nat): (r: nat)
    ensures r > 0
  {
    if n == 0 then 1 else 256 * Pow256(n - 1)
  }

  /** Reading four big-endian bytes back gives the int that was written. */
  lemma IntBytesRoundTrip(h: Int32)
    ensures Wrap32(IntByte(h, 0) * 0x100_0000 + IntByte(h, 1) * 0x1_0000 + IntByte(h, 2) * 0x100 + IntByte(h, 3)) == h
  {
    var u := if h < 0 then h + TWO_32 else h;
    assert Pow256(3) == 0x100_0000 && Pow256(2) == 0x1_0000 && Pow256(1) == 0x100 && Pow256(0) == 1;
    var b0, b1, b2, b3 := (u / 0x100_0000) % 256, (u / 0x1_0000) % 256, (u / 0x100) % 256, u % 256;
    assert u / 0x100_0000 < 256;
    assert b0 * 0x100_0000 + b1 * 0x1_0000 + b2 * 0x100 + b3 == u;
  }
}
