/**
 FNV-1a, 64 bits: the wrapping form of the build script and the masked form of
 the soak runner.

 Both are stated over unbounded integers with the bit operations written out, so
 that wrap-around is visible.
 */
module Fnv {
  import opened Hexadecimal
  import opened Utf8

  const OFFSET: nat := 0xcbf29ce484222325
  const PRIME: nat := 0x100000001b3
  const TWO64: nat := 0x1_0000_0000_0000_0000
  const MASK: nat := 0xFFFF_FFFF_FFFF_FFFF

  // ---- bit operations on integers -----------------------------------------

  /** `^` on two numbers that are not negative. */
  function Xor(x: nat, y: nat): nat
    decreases x + y
  {
    if x == 0 then y else if y == 0 then x
    else 2 * Xor(x / 2, y / 2) + (if x % 2 == y % 2 then 0 else 1)
  }

  /** `&` on two numbers that are not negative. */
  function And(x: nat, y: nat): nat {
    if x == 0 || y == 0 then 0
    else 2 * And(x / 2, y / 2) + (if x % 2 == 1 && y % 2 == 1 then 1 else 0)
  }

  lemma {:induction false} XorBits(x: nat, y: nat)
    ensures Xor(x, y) % 2 == (if x % 2 == y % 2 then 0 else 1)
    ensures Xor(x, y) / 2 == Xor(x / 2, y / 2)
  {
    if x == 0 {
      assert x / 2 == 0 && Xor(x, y) == y;
    } else if y == 0 {
      assert y / 2 == 0 && Xor(x, y) == x;
    } else {
      var z, bit := Xor(x / 2, y / 2), if x % 2 == y % 2 then 0 else 1;
      assert Xor(x, y) == 2 * z + bit;
      hide Xor;
      AppendedBit(z, bit);
    }
  }

  lemma AppendedBit(z: nat, bit: nat)
    requires bit < 2
    ensures (2 * z + bit) % 2 == bit && (2 * z + bit) / 2 == z
  {
  }

  /** Exclusive or with a fixed number loses nothing. */
  lemma {:induction false} XorUndoes(x: nat, y: nat)
    ensures Xor(Xor(x, y), y) == x
    decreases x + y
  {
    XorBits(x, y);
    XorBits(Xor(x, y), y);
    if x != 0 || y != 0 {
      XorUndoes(x / 2, y / 2);
    }
  }

  lemma {:induction false} XorSymmetric(x: nat, y: nat)
    ensures Xor(x, y) == Xor(y, x)
    decreases x + y
  {
    if x != 0 && y != 0 {
      XorSymmetric(x / 2, y / 2);
    }
  }

  function Pow2(k: nat): (p: nat)
    ensures p > 0
  {
    if k == 0 then 1 else 2 * Pow2(k - 1)
  }

  lemma {:induction false} XorBound(x: nat, y: nat, k: nat)
    requires x < Pow2(k) && y < Pow2(k)
    ensures Xor(x, y) < Pow2(k)
  {
    if k > 0 {
      XorBound(x / 2, y / 2, k - 1);
      XorBits(x, y);
    }
  }

  /** Masking with 2^k - 1 is the remainder modulo 2^k. */
  lemma {:induction false} MaskIsRemainder(x: nat, k: nat)
    ensures And(x, Pow2(k) - 1) == x % Pow2(k)
  {
    if k == 0 || x == 0 {
      MaskOfNothing(x, k);
    } else {
      var p := Pow2(k - 1);
      assert Pow2(k) == 2 * p;
      MaskIsRemainder(x / 2, k - 1);
      MaskStep(x, p);
    }
  }

  lemma {:induction false} MaskOfNothing(x: nat, k: nat)
    requires k == 0 || x == 0
    ensures And(x, Pow2(k) - 1) == x % Pow2(k)
  {
    if k == 0 {
      assert Pow2(k) == 1;
    } else {
      RemainderUnique(0, Pow2(k), 0, 0);
    }
  }

  lemma {:induction false} MaskStep(x: nat, p: nat)
    requires x > 0 && p > 0 && And(x / 2, p - 1) == x / 2 % p
    ensures And(x, 2 * p - 1) == x % (2 * p)
  {
    AndOddMask(x, p - 1);
    hide And;
    assert 2 * (p - 1) + 1 == 2 * p - 1;
    HalfRemainder(x, p);
  }

  lemma AndOddMask(x: nat, m: nat)
    requires x > 0
    ensures And(x, 2 * m + 1) == 2 * And(x / 2, m) + x % 2
  {
    assert (2 * m + 1) / 2 == m;
  }

  lemma HalfRemainder(x: nat, p: nat)
    requires p > 0
    ensures x % (2 * p) == 2 * (x / 2 % p) + x % 2
  {
    var q, r := x / 2 / p, x / 2 % p;
    assert x / 2 == q * p + r;
    assert x == 2 * (q * p + r) + x % 2 == q * (2 * p) + (2 * r + x % 2);
    RemainderUnique(x, 2 * p, q, 2 * r + x % 2);
  }

  lemma RemainderUnique(x: nat, m: nat, q: nat, r: nat)
    requires x == q * m + r && r < m
    ensures x % m == r
  {
    var q2, r2 := x / m, x % m;
    assert x == q2 * m + r2;
    Distribute(q, q2, m);
    SmallMultiple(q - q2, m, r2 - r);
  }

  lemma Distribute(a: int, b: int, m: int)
    ensures (a - b) * m == a * m - b * m
  {
  }

  lemma SmallMultiple(d: int, m: int, e: int)
    requires d * m == e && -m < e < m
    ensures d == 0
  {
    if d >= 1 {
      LargeMultiple(d, m);
    } else if d <= -1 {
      LargeMultiple(-d, m);
    }
  }

  lemma LargeMultiple(d: int, m: int)
    requires d >= 1 && m > 0
    ensures d * m >= m && (-d) * m <= -m
  {
    assert (d - 1) * m >= 0;
  }

  lemma {:induction false} SixtyFour()
    ensures Pow2(64) == TWO64
  {
    hide Pow2;
    PowTwo();
    Doubling(2, 2);
    Doubling(4, 4);
    Doubling(8, 8);
    Doubling(16, 16);
    Doubling(32, 32);
    assert Pow2(16) == 0x1_0000;
    assert Pow2(32) == 0x1_0000_0000;
  }

  lemma {:induction false} PowTwo()
    ensures Pow2(2) == 4
  {
    assert Pow2(1) == 2;
  }

  lemma {:induction false} Doubling(a: nat, b: nat)
    ensures Pow2(a + b) == Pow2(a) * Pow2(b)
  {
    if b > 0 {
      Doubling(a, b - 1);
    }
  }

  // ---- the two forms ------------------------------------------------------

  /** `u64::wrapping_mul`. */
  function WrappingMul(x: nat, y: nat): (r: nat)
    ensures r < TWO64
  {
    x * y % TWO64
  }

  /** One byte of the hash, with the 64-bit wrap-around as a remainder. */
  function Step(hash: nat, b: Byte): (r: nat)
    ensures r < TWO64
  {
    WrappingMul(Xor(hash, b), PRIME)
  }

  function Hash(start: nat, bytes: seq<Byte>): nat
    decreases |bytes|
  {
    if bytes == [] then start else Hash(Step(start, bytes[0]), bytes[1..])
  }

  /** The build script's loop. */
  method Fnv1a(bytes: seq<Byte>) returns (hash: nat)
    ensures hash == Hash(OFFSET, bytes) && hash < TWO64
  {
    hash := OFFSET;
    for i := 0 to |bytes|
      invariant hash < TWO64
      invariant Hash(hash, bytes[i..]) == Hash(OFFSET, bytes)
    {
      assert bytes[i..][1..] == bytes[i + 1..];
      hash := Xor(hash, bytes[i]);
      hash := WrappingMul(hash, PRIME);
    }
  }

  /** The soak runner's loop, which multiplies without bound and then masks. */
  method LabelValue(home: string) returns (value: nat)
    ensures value == Hash(OFFSET, Encode(home)) && value < TWO64
  {
    var bytes := Encode(home);
    value := OFFSET;
    SixtyFour();
    for i := 0 to |bytes|
      invariant value < TWO64
      invariant Hash(value, bytes[i..]) == Hash(OFFSET, bytes)
    {
      assert bytes[i..][1..] == bytes[i + 1..];
      value := Xor(value, bytes[i]);
      MaskIsRemainder(value * PRIME, 64);
      value := And(value * PRIME, MASK);
    }
  }

  // ---- no two differ in one byte ------------------------------------------

  /** The inverse of the multiplier modulo 2^64; it exists because the multiplier is odd. */
  const INVERSE: nat := 0xce965057aff6957b

  lemma MulUndoes(x: nat)
    requires x < TWO64
    ensures WrappingMul(WrappingMul(x, PRIME), INVERSE) == x
  {
    var k := x * PRIME / TWO64;
    var r := x * PRIME % TWO64;
    assert x * PRIME == k * TWO64 + r;
    assert PRIME * INVERSE == 887285111055 * TWO64 + 1;
    assert r * INVERSE == x + TWO64 * (887285111055 * x - k * INVERSE);
    ShiftedRemainder(r * INVERSE, x, 887285111055 * x - k * INVERSE);
  }

  lemma ShiftedRemainder(y: int, x: nat, k: int)
    requires x < TWO64 && y == x + TWO64 * k
    ensures y % TWO64 == x
  {
  }

  /** Each byte permutes the 64-bit states. */
  lemma StepInjective(x: nat, y: nat, b: Byte)
    requires x < TWO64 && y < TWO64 && Step(x, b) == Step(y, b)
    ensures x == y
  {
    SixtyFour();
    ByteBound(b);
    XorBound(x, b, 64);
    XorBound(y, b, 64);
    MulUndoes(Xor(x, b));
    MulUndoes(Xor(y, b));
    XorUndoes(x, b);
    XorUndoes(y, b);
  }

  lemma ByteBound(b: Byte)
    ensures b < Pow2(64)
  {
    SixtyFour();
  }

  /** From one state, different bytes lead to different states. */
  lemma ByteInjective(x: nat, a: Byte, b: Byte)
    requires x < TWO64 && Step(x, a) == Step(x, b)
    ensures a == b
  {
    SixtyFour();
    XorBound(x, a, 64);
    XorBound(x, b, 64);
    MulUndoes(Xor(x, a));
    MulUndoes(Xor(x, b));
    XorSymmetric(x, a);
    XorSymmetric(x, b);
    XorUndoes(a, x);
    XorUndoes(b, x);
  }

  lemma {:induction false} HashInjective(x: nat, y: nat, bytes: seq<Byte>)
    requires x < TWO64 && y < TWO64 && Hash(x, bytes) == Hash(y, bytes)
    ensures x == y
    decreases |bytes|
  {
    if bytes != [] {
      HashInjective(Step(x, bytes[0]), Step(y, bytes[0]), bytes[1..]);
      StepInjective(x, y, bytes[0]);
    }
  }

  lemma {:induction false} HashConcat(start: nat, a: seq<Byte>, b: seq<Byte>)
    requires start < TWO64
    ensures Hash(start, a + b) == Hash(Hash(start, a), b)
    ensures Hash(start, a) < TWO64
    decreases |a|
  {
    if a == [] {
      assert a + b == b;
    } else {
      assert (a + b)[1..] == a[1..] + b;
      HashConcat(Step(start, a[0]), a[1..], b);
    }
  }

  /** Byte strings that differ in exactly one position have different hashes. */
  lemma OneByteShows(s: seq<Byte>, t: seq<Byte>, k: nat)
    requires |s| == |t| && k < |s| && s[k] != t[k]
    requires s[..k] == t[..k] && s[k + 1..] == t[k + 1..]
    ensures Hash(OFFSET, s) != Hash(OFFSET, t)
  {
    var head, tail := s[..k], s[k + 1..];
    assert s == head + ([s[k]] + tail) && t == head + ([t[k]] + tail);
    HashConcat(OFFSET, head, [s[k]] + tail);
    HashConcat(OFFSET, head, [t[k]] + tail);
    var mid := Hash(OFFSET, head);
    assert ([s[k]] + tail)[1..] == tail && ([t[k]] + tail)[1..] == tail;
    if Hash(OFFSET, s) == Hash(OFFSET, t) {
      HashInjective(Step(mid, s[k]), Step(mid, t[k]), tail);
      ByteInjective(mid, s[k], t[k]);
    }
  }

  // ---- the label ----------------------------------------------------------

  const PREFIX := "com.leveler.schedule."

  /** The last `k` hex digits of a number, padded with zeros. */
  function Hex(n: nat, k: nat): (s: string)
    ensures |s| == k
  {
    if k == 0 then "" else Hex(n / 16, k - 1) + [HexChar(n % 16)]
  }

  function Pow16(k: nat): (p: nat)
    ensures p > 0
  {
    if k == 0 then 1 else 16 * Pow16(k - 1)
  }

  lemma {:induction false} HexInjective(m: nat, n: nat, k: nat)
    requires m < Pow16(k) && n < Pow16(k) && Hex(m, k) == Hex(n, k)
    ensures m == n
  {
    if k > 0 {
      var x, y := Hex(m / 16, k - 1), Hex(n / 16, k - 1);
      assert x == Hex(m, k)[..k - 1] && y == Hex(n, k)[..k - 1];
      assert HexChar(m % 16) == Hex(m, k)[k - 1] && HexChar(n % 16) == Hex(n, k)[k - 1];
      hide Hex, HexChar;
      HexInjective(m / 16, n / 16, k - 1);
      HexCharInjective(m % 16, n % 16);
      assert m == 16 * (m / 16) + m % 16 && n == 16 * (n / 16) + n % 16;
    }
  }

  lemma {:induction false} Pow16Is(k: nat)
    ensures Pow16(k) == Pow2(4 * k)
  {
    if k > 0 {
      Pow16Is(k - 1);
      Doubling(4 * (k - 1), 4);
      PowTwo();
      Doubling(2, 2);
    }
  }

  /** The label of a home directory: a fixed prefix and the hash in 16 hex digits. */
  function Label(value: nat): string {
    PREFIX + Hex(value, 16)
  }

  method LabelFor(home: string) returns (name: string)
    ensures name == Label(Hash(OFFSET, Encode(home)))
  {
    var value := LabelValue(home);
    name := PREFIX + Hex(value, 16);
  }

  /** Equal labels come from equal hashes. */
  lemma {:induction false} LabelInjective(x: nat, y: nat)
    requires x < TWO64 && y < TWO64 && Label(x) == Label(y)
    ensures x == y
  {
    assert Label(x)[|PREFIX|..] == Hex(x, 16) && Label(y)[|PREFIX|..] == Hex(y, 16);
    SixtyFour();
    Pow16Is(16);
    hide Hex, Pow16, Pow2;
    HexInjective(x, y, 16);
  }

  /** Homes whose UTF-8 forms differ in exactly one position have different labels. */
  lemma {:induction false} LabelsDiffer(home: string, other: string, k: nat)
    requires var s, t := Encode(home), Encode(other);
      |s| == |t| && k < |s| && s[k] != t[k] && s[..k] == t[..k] && s[k + 1..] == t[k + 1..]
    ensures Label(Hash(OFFSET, Encode(home))) != Label(Hash(OFFSET, Encode(other)))
  {
    var s, t := Encode(home), Encode(other);
    OneByteShows(s, t, k);
    HashBound(s);
    HashBound(t);
    hide Hash, Label, Encode;
    if Label(Hash(OFFSET, s)) == Label(Hash(OFFSET, t)) {
      LabelInjective(Hash(OFFSET, s), Hash(OFFSET, t));
    }
  }

  lemma {:induction false} HashBound(bytes: seq<Byte>)
    ensures Hash(OFFSET, bytes) < TWO64
  {
    assert bytes + [] == bytes;
    HashConcat(OFFSET, bytes, []);
  }
}
