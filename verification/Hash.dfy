/**
 Streaming SHA-256 against FIPS 180-4.

 `Digest` is the standard's one-shot definition: pad the message (section
 5.1.1), cut it into 64-byte blocks (5.2.1), fold the compression function over
 them (6.2.2). The class is the buffered hasher; its methods are proved to keep
 exactly the fold over the complete blocks of everything fed so far.
 */
module Hash {
  import opened Hexadecimal
  import opened Utf8

  type Word = bv32
  type Bytes = seq<Byte>

  // ---- section 4: functions and constants ---------------------------------

  /** Addition modulo 2^32 (`u32::wrapping_add`). */
  function Plus(x: Word, y: Word): Word {
    x + y
  }

  function Sum4(a: Word, b: Word, c: Word, d: Word): Word {
    a + b + c + d
  }

  function Ch(x: Word, y: Word, z: Word): Word {
    (x & y) ^ (!x & z)
  }

  function Maj(x: Word, y: Word, z: Word): Word {
    (x & y) ^ (x & z) ^ (y & z)
  }

  // The sigma functions, with ROTR written out as two shifts (section 3.2).

  function BigSigma0(x: Word): Word {
    ((x >> 2) | (x << 30)) ^ ((x >> 13) | (x << 19)) ^ ((x >> 22) | (x << 10))
  }

  function BigSigma1(x: Word): Word {
    ((x >> 6) | (x << 26)) ^ ((x >> 11) | (x << 21)) ^ ((x >> 25) | (x << 7))
  }

  function SmallSigma0(x: Word): Word {
    ((x >> 7) | (x << 25)) ^ ((x >> 18) | (x << 14)) ^ (x >> 3)
  }

  function SmallSigma1(x: Word): Word {
    ((x >> 17) | (x << 15)) ^ ((x >> 19) | (x << 13)) ^ (x >> 10)
  }

  // The same four as the program computes them, with `rotate_right`.

  function RotatedBig0(x: Word): (r: Word)
    ensures r == BigSigma0(x)
  {
    x.RotateRight(2) ^ x.RotateRight(13) ^ x.RotateRight(22)
  }

  function RotatedBig1(x: Word): (r: Word)
    ensures r == BigSigma1(x)
  {
    x.RotateRight(6) ^ x.RotateRight(11) ^ x.RotateRight(25)
  }

  function RotatedSmall0(x: Word): (r: Word)
    ensures r == SmallSigma0(x)
  {
    x.RotateRight(7) ^ x.RotateRight(18) ^ (x >> 3)
  }

  function RotatedSmall1(x: Word): (r: Word)
    ensures r == SmallSigma1(x)
  {
    x.RotateRight(17) ^ x.RotateRight(19) ^ (x >> 10)
  }

  const K: seq<Word> := [
    0x428a2f98, 0x71374491, 0xb5c0fbcf, 0xe9b5dba5, 0x3956c25b, 0x59f111f1, 0x923f82a4, 0xab1c5ed5,
    0xd807aa98, 0x12835b01, 0x243185be, 0x550c7dc3, 0x72be5d74, 0x80deb1fe, 0x9bdc06a7, 0xc19bf174
  ] + [
    0xe49b69c1, 0xefbe4786, 0x0fc19dc6, 0x240ca1cc, 0x2de92c6f, 0x4a7484aa, 0x5cb0a9dc, 0x76f988da,
    0x983e5152, 0xa831c66d, 0xb00327c8, 0xbf597fc7, 0xc6e00bf3, 0xd5a79147, 0x06ca6351, 0x14292967
  ] + [
    0x27b70a85, 0x2e1b2138, 0x4d2c6dfc, 0x53380d13, 0x650a7354, 0x766a0abb, 0x81c2c92e, 0x92722c85,
    0xa2bfe8a1, 0xa81a664b, 0xc24b8b70, 0xc76c51a3, 0xd192e819, 0xd6990624, 0xf40e3585, 0x106aa070
  ] + [
    0x19a4c116, 0x1e376c08, 0x2748774c, 0x34b0bcb5, 0x391c0cb3, 0x4ed8aa4a, 0x5b9cca4f, 0x682e6ff3,
    0x748f82ee, 0x78a5636f, 0x84c87814, 0x8cc70208, 0x90befffa, 0xa4506ceb, 0xbef9a3f7, 0xc67178f2
  ]

  const H0: seq<Word> := [
    0x6a09e667, 0xbb67ae85, 0x3c6ef372, 0xa54ff53a, 0x510e527f, 0x9b05688c, 0x1f83d9ab, 0x5be0cd19
  ]

  /** `Ch` chooses between its second and third argument, bit by bit. */
  lemma ChChooses(x: Word, y: Word, z: Word)
    ensures Ch(x, y, z) & x == y & x && Ch(x, y, z) & !x == z & !x
  {
  }

  /** `Maj` is the majority, bit by bit: what the first two agree on, and where they differ the third decides. */
  lemma MajDecides(x: Word, y: Word, z: Word)
    ensures Maj(x, y, z) & !(x ^ y) == x & !(x ^ y)
    ensures Maj(x, y, z) & (x ^ y) == z & (x ^ y)
  {
    MajIs(x, y, z);
  }

  lemma MajIs(x: Word, y: Word, z: Word)
    ensures Maj(x, y, z) == (x & y) | (z & (x ^ y))
  {
  }

  // ---- section 6.2.2: one block -------------------------------------------

  type Block = b: Bytes | |b| == 64 witness seq(64, _ => 0)

  /** Four bytes, most significant first (`u32::from_be_bytes`). */
  function Be32(a: Byte, b: Byte, c: Byte, d: Byte): Word {
    (a as bv32 << 24) | (b as bv32 << 16) | (c as bv32 << 8) | d as bv32
  }

  /** The message schedule, word `t`. */
  function W(block: Block, t: nat): Word
    requires t < 64
    decreases t, |block|
  {
    if t < 16 then Be32(block[4 * t], block[4 * t + 1], block[4 * t + 2], block[4 * t + 3])
    else
      Sum4(SmallSigma1(W(block, t - 2)), W(block, t - 7), SmallSigma0(W(block, t - 15)), W(block, t - 16))
  }

  datatype Vars = Vars(a: Word, b: Word, c: Word, d: Word, e: Word, f: Word, g: Word, h: Word)

  function Round(v: Vars, k: Word, w: Word): Vars {
    var t1 := Plus(Plus(Plus(Plus(v.h, BigSigma1(v.e)), Ch(v.e, v.f, v.g)), k), w);
    var t2 := Plus(BigSigma0(v.a), Maj(v.a, v.b, v.c));
    Vars(Plus(t1, t2), v.a, v.b, v.c, Plus(v.d, t1), v.e, v.f, v.g)
  }

  function Rounds(v: Vars, block: Block, t: nat): Vars
    requires t <= 64
    decreases t, |block|
  {
    if t == 0 then v else Round(Rounds(v, block, t - 1), K[t - 1], W(block, t - 1))
  }

  type State = s: seq<Word> | |s| == 8 witness H0

  function ToVars(s: State): Vars {
    Vars(s[0], s[1], s[2], s[3], s[4], s[5], s[6], s[7])
  }

  function FromVars(v: Vars): State {
    [v.a, v.b, v.c, v.d, v.e, v.f, v.g, v.h]
  }

  function AddWords(s: State, t: State): State {
    seq(8, i requires 0 <= i < 8 => Plus(s[i], t[i]))
  }

  function Compress(s: State, block: Block): State {
    AddWords(s, FromVars(Rounds(ToVars(s), block, |K|)))
  }

  // ---- the whole message --------------------------------------------------

  /** Folds the compression over the complete blocks of a message; a short tail is ignored. */
  function Fold(s: State, m: Bytes): State
    decreases |m|
  {
    if |m| < 64 then s else Fold(Compress(s, m[..64]), m[64..])
  }

  function Zeros(n: nat): (z: Bytes)
    ensures |z| == n
  {
    seq(n, _ => 0)
  }

  /** The number of zero bytes between the marker byte and the length. */
  function PadZeros(n: nat): nat {
    if n % 64 < 56 then 55 - n % 64 else 119 - n % 64
  }

  /** A 64-bit number, most significant byte first (`u64::to_be_bytes`). */
  function Be64(n: nat): (b: Bytes)
    requires n < 0x1_0000_0000_0000_0000
    ensures |b| == 8
  {
    BigEndian(n, 8)
  }

  function BigEndian(n: nat, k: nat): (b: Bytes)
    ensures |b| == k
  {
    if k == 0 then [] else BigEndian(n / 256, k - 1) + [n % 256]
  }

  /** Section 5.1.1, for a message of `n` bytes. */
  function Padding(n: nat): Bytes
  {
    [0x80] + Zeros(PadZeros(n)) + Be64(8 * n % 0x1_0000_0000_0000_0000)
  }

  function Pad(m: Bytes): Bytes {
    m + Padding(|m|)
  }

  function Digest(m: Bytes): State {
    Fold(H0, Pad(m))
  }

  lemma {:induction false} FoldConcat(s: State, a: Bytes, b: Bytes)
    requires |a| % 64 == 0
    ensures Fold(s, a + b) == Fold(Fold(s, a), b)
    decreases |a|
  {
    if a == [] {
      assert a + b == b;
    } else {
      assert (a + b)[..64] == a[..64] && (a + b)[64..] == a[64..] + b;
      FoldConcat(Compress(s, a[..64]), a[64..], b);
    }
  }

  /** The complete blocks of a message, and the tail after them. */
  function Whole(m: Bytes): nat {
    |m| - |m| % 64
  }

  lemma PadTotal(n: nat)
    ensures |Padding(n)| == 9 + PadZeros(n)
    ensures (n + |Padding(n)|) % 64 == 0
  {
    var k := n / 64 + if n % 64 < 56 then 1 else 2;
    assert n == 64 * (n / 64) + n % 64;
    assert n + 9 + PadZeros(n) == 64 * k;
    Multiple64(k);
  }

  lemma Multiple64(k: int)
    ensures 64 * k % 64 == 0
  {
  }

  /** Padding gives whole blocks with at most 72 added bytes: no shorter padding would do. */
  lemma PadShape(m: Bytes)
    ensures |Pad(m)| % 64 == 0
    ensures |m| + 9 <= |Pad(m)| < |m| + 9 + 64
  {
    PadTotal(|m|);
    hide Padding;
  }

  lemma {:induction false} BigEndianInjective(x: nat, y: nat, k: nat, bound: nat)
    requires BigEndian(x, k) == BigEndian(y, k)
    requires x < bound && y < bound && bound == Power256(k)
    ensures x == y
  {
    if k > 0 {
      var p, q := BigEndian(x, k), BigEndian(y, k);
      assert p[..k - 1] == BigEndian(x / 256, k - 1) && q[..k - 1] == BigEndian(y / 256, k - 1);
      assert p[k - 1] == x % 256 && q[k - 1] == y % 256;
      BigEndianInjective(x / 256, y / 256, k - 1, Power256(k - 1));
    }
  }

  function Power256(k: nat): nat {
    if k == 0 then 1 else 256 * Power256(k - 1)
  }

  lemma EndsOfConcat(a: Bytes, b: Bytes, c: Bytes)
    ensures var all := a + (b + c);
      all[..|a|] == a && all[|all| - |c|..] == c
  {
  }

  lemma PadEnds(m: Bytes)
    requires |m| < 0x2000_0000_0000_0000
    ensures Pad(m)[..|m|] == m
    ensures |Pad(m)| >= 8 && Pad(m)[|Pad(m)| - 8..] == BigEndian(8 * |m|, 8)
  {
    var tail := BigEndian(8 * |m|, 8);
    assert 8 * |m| % 0x1_0000_0000_0000_0000 == 8 * |m|;
    EndsOfConcat(m, [0x80] + Zeros(PadZeros(|m|)), tail);
  }

  /** Different messages have different padded forms (messages under 2^61 bytes). */
  lemma PadInjective(m: Bytes, n: Bytes)
    requires |m| < 0x2000_0000_0000_0000 && |n| < 0x2000_0000_0000_0000
    requires Pad(m) == Pad(n)
    ensures m == n
  {
    PadEnds(m);
    PadEnds(n);
    assert Power256(8) == 0x1_0000_0000_0000_0000 by {
      assert Power256(4) == 0x1_0000_0000;
    }
    BigEndianInjective(8 * |m|, 8 * |n|, 8, 0x1_0000_0000_0000_0000);
  }

  /** One more complete block is one more compression. */
  lemma FoldBlock(m: Bytes, block: Block)
    requires |m| % 64 == 0
    ensures Whole(m + block) == |m + block|
    ensures Fold(H0, m + block) == Compress(Fold(H0, m), block)
  {
    FoldConcat(H0, m, block);
    FoldOne(Fold(H0, m), block);
  }

  lemma FoldOne(s: State, block: Block)
    ensures Fold(s, block) == Compress(s, block)
  {
    assert block[..64] == block;
    assert |block[64..]| < 64;
  }

  lemma WholeOfBlocks(m: Bytes)
    requires |m| % 64 == 0
    ensures Whole(m) == |m| && m[..Whole(m)] == m && m[Whole(m)..] == []
  {
  }

  lemma WholeOfTail(blocks: Bytes, tail: Bytes)
    requires |blocks| % 64 == 0 && |tail| < 64
    ensures var m := blocks + tail;
      Whole(m) == |blocks| && m[..Whole(m)] == blocks && m[Whole(m)..] == tail && |m| % 64 == |tail|
  {
  }

  /** A tail that reaches 64 bytes is one more block. */
  lemma BlockCompleted(m: Bytes, part: Bytes)
    requires |m| % 64 + |part| == 64
    ensures var all := m + part;
      Whole(all) == |all| && all[..Whole(all)] == all && all[Whole(all)..] == [] && |all| % 64 == 0
    ensures var block := m[Whole(m)..] + part;
      |block| == 64 && Fold(H0, m + part) == Compress(Fold(H0, m[..Whole(m)]), block)
  {
    var blocks, block := m[..Whole(m)], m[Whole(m)..] + part;
    assert m + part == blocks + block;
    FoldBlock(blocks, block);
    WholeOfBlocks(m + part);
  }

  lemma TailGrown(m: Bytes, part: Bytes)
    requires |m| % 64 + |part| < 64
    ensures var all := m + part;
      Whole(all) == Whole(m) && all[..Whole(all)] == m[..Whole(m)] && all[Whole(all)..] == m[Whole(m)..] + part &&
      |all| % 64 == |m| % 64 + |part|
  {
    assert m + part == m[..Whole(m)] + (m[Whole(m)..] + part);
    WholeOfTail(m[..Whole(m)], m[Whole(m)..] + part);
  }

  lemma LengthAdds(a: nat, b: nat)
    ensures (a % 0x1_0000_0000_0000_0000 + b) % 0x1_0000_0000_0000_0000 == (a + b) % 0x1_0000_0000_0000_0000
  {
    var q := a / 0x1_0000_0000_0000_0000;
    assert a == q * 0x1_0000_0000_0000_0000 + a % 0x1_0000_0000_0000_0000;
  }

  /** The wrapped length gives the wrapped bit count and the right remainder. */
  lemma BitsOfLength(n: nat)
    ensures var length := n % 0x1_0000_0000_0000_0000;
      length * 8 % 0x1_0000_0000_0000_0000 == 8 * n % 0x1_0000_0000_0000_0000 && length % 64 == n % 64
  {
    var q, length := n / 0x1_0000_0000_0000_0000, n % 0x1_0000_0000_0000_0000;
    assert n == q * 0x1_0000_0000_0000_0000 + length;
    assert 8 * n == 8 * length + (8 * q) * 0x1_0000_0000_0000_0000;
    assert n == length + 64 * (q * 0x400_0000_0000_0000);
  }

  lemma PadZerosReached(n: nat, zeros: nat)
    requires zeros <= PadZeros(n)
    ensures (n % 0x1_0000_0000_0000_0000 + 1 + zeros) % 64 == 56 <==> zeros == PadZeros(n)
  {
    BitsOfLength(n);
    var r := n % 64;
    var k := n % 0x1_0000_0000_0000_0000 / 64;
    assert n % 0x1_0000_0000_0000_0000 + 1 + zeros == 64 * k + (r + 1 + zeros);
    assert r + 1 + zeros < 128;
  }

  // ---- the printed digest -------------------------------------------------

  function HexNibble(x: Word): char
    requires x <= 15
  {
    HexChar(x as nat)
  }

  /** Hex digit `i` of a word, most significant first. */
  function Nibble(w: Word, i: nat): (x: Word)
    requires i < 8
    ensures x <= 15
  {
    (match i
     case 0 => w >> 28
     case 1 => w >> 24
     case 2 => w >> 20
     case 3 => w >> 16
     case 4 => w >> 12
     case 5 => w >> 8
     case 6 => w >> 4
     case _ => w) & 0xF
  }

  /** `format!("{word:08x}")`. */
  function HexWord(w: Word): (s: string)
    ensures |s| == 8
  {
    seq(8, i requires 0 <= i < 8 => HexNibble(Nibble(w, i)))
  }

  function HexPrefix(s: State, n: nat): (h: string)
    requires n <= 8
    ensures |h| == 8 * n
  {
    if n == 0 then "" else HexPrefix(s, n - 1) + HexWord(s[n - 1])
  }

  function HexText(s: State): (h: string)
    ensures |h| == 64
  {
    HexPrefix(s, 8)
  }

  lemma NibbleInjective(x: Word, y: Word)
    requires x <= 15 && y <= 15 && HexNibble(x) == HexNibble(y)
    ensures x == y
  {
    HexCharInjective(x as nat, y as nat);
  }

  lemma NibblesDetermine(x: Word, y: Word)
    requires Nibble(x, 0) == Nibble(y, 0) && Nibble(x, 1) == Nibble(y, 1)
    requires Nibble(x, 2) == Nibble(y, 2) && Nibble(x, 3) == Nibble(y, 3)
    requires Nibble(x, 4) == Nibble(y, 4) && Nibble(x, 5) == Nibble(y, 5)
    requires Nibble(x, 6) == Nibble(y, 6) && Nibble(x, 7) == Nibble(y, 7)
    ensures x == y
  {
  }

  lemma SameNibble(x: Word, y: Word, i: nat)
    requires i < 8 && HexWord(x) == HexWord(y)
    ensures Nibble(x, i) == Nibble(y, i)
  {
    assert HexWord(x)[i] == HexWord(y)[i];
    NibbleInjective(Nibble(x, i), Nibble(y, i));
  }

  lemma HexWordInjective(x: Word, y: Word)
    requires HexWord(x) == HexWord(y)
    ensures x == y
  {
    SameNibble(x, y, 0);
    SameNibble(x, y, 1);
    SameNibble(x, y, 2);
    SameNibble(x, y, 3);
    SameNibble(x, y, 4);
    SameNibble(x, y, 5);
    SameNibble(x, y, 6);
    SameNibble(x, y, 7);
    NibblesDetermine(x, y);
  }

  /** The printed digest identifies the state: equal text only for equal states. */
  lemma HexTextInjective(s: State, t: State)
    requires HexText(s) == HexText(t)
    ensures s == t
  {
    HexPrefixInjective(s, t, 8);
  }

  lemma {:induction false} HexPrefixInjective(s: State, t: State, n: nat)
    requires n <= 8 && HexPrefix(s, n) == HexPrefix(t, n)
    ensures s[..n] == t[..n]
  {
    if n > 0 {
      var p, q := HexPrefix(s, n), HexPrefix(t, n);
      assert p[..8 * (n - 1)] == HexPrefix(s, n - 1) && q[..8 * (n - 1)] == HexPrefix(t, n - 1);
      assert p[8 * (n - 1)..] == HexWord(s[n - 1]) && q[8 * (n - 1)..] == HexWord(t[n - 1]);
      HexPrefixInjective(s, t, n - 1);
      HexWordInjective(s[n - 1], t[n - 1]);
    }
  }

  /** `copy_from_slice` into a part of a fixed array. */
  method CopyInto(target: array<Byte>, at: nat, source: Bytes)
    requires at + |source| <= target.Length
    modifies target
    ensures target[..at + |source|] == old(target[..at]) + source
    ensures target[at + |source|..] == old(target[at + |source|..])
  {
    for i := 0 to |source|
      invariant target[..at] == old(target[..at])
      invariant target[at..at + i] == source[..i]
      invariant target[at + i..] == old(target[at + i..])
    {
      target[at + i] := source[i];
    }
  }

  /** The bytes `finish` feeds itself, from the wrapped length of a message of `n` bytes. */
  method PaddingBytes(length: nat, ghost n: nat) returns (padding: Bytes)
    requires length == n % 0x1_0000_0000_0000_0000
    ensures padding == Padding(n)
  {
    var bits := length * 8 % 0x1_0000_0000_0000_0000;
    BitsOfLength(n);
    padding := [0x80];
    ghost var zeros := 0;
    PadZerosReached(n, zeros);
    while (length + |padding|) % 64 != 56
      invariant padding == [0x80] + Zeros(zeros)
      invariant zeros <= PadZeros(n)
      invariant (length + |padding|) % 64 == 56 <==> zeros == PadZeros(n)
      decreases PadZeros(n) - zeros
    {
      padding := padding + [0];
      zeros := zeros + 1;
      PadZerosReached(n, zeros);
    }
    padding := padding + Be64(bits);
  }

  /** The digest as lower-case hex. */
  method HexState(state: array<Word>) returns (out: string)
    requires state.Length == 8
    ensures out == HexText(state[..])
  {
    out := "";
    for i := 0 to 8
      invariant out == HexPrefix(state[..], i)
    {
      out := out + HexWord(state[i]);
    }
  }

  // ---- the hasher ---------------------------------------------------------

  class Sha256 {
    const state: array<Word>
    const buffer: array<Byte>
    var buffered: nat
    var length: nat
    ghost var fed: Bytes

    /** `state` covers the complete blocks of `fed`, and the buffer holds the tail. */
    ghost predicate Holds()
      reads this, state, buffer
    {
      state.Length == 8 && buffer.Length == 64 &&
      buffered == |fed| % 64 &&
      buffer[..buffered] == fed[Whole(fed)..] &&
      state[..] == Fold(H0, fed[..Whole(fed)])
    }

    ghost predicate Valid()
      reads this, state, buffer
    {
      Holds() && length == |fed| % 0x1_0000_0000_0000_0000
    }

    constructor ()
      ensures Valid() && fresh(state) && fresh(buffer) && fed == []
    {
      state := new Word[8](i requires 0 <= i < 8 => H0[i]);
      buffer := new Byte[64](_ => 0);
      buffered := 0;
      length := 0;
      fed := [];
      new;
      assert state[..] == H0;
    }

    method Update(bytes: Bytes)
      requires Valid()
      modifies this, state, buffer
      ensures Valid() && fed == old(fed) + bytes
    {
      hide Fold, Whole;
      LengthAdds(|fed|, |bytes|);
      length := (length + |bytes|) % 0x1_0000_0000_0000_0000;
      Absorb(bytes);
    }

    /** The part of `update` after the length is counted. */
    method Absorb(bytes: Bytes)
      requires Holds()
      modifies this`buffered, this`fed, state, buffer
      ensures Holds() && fed == old(fed) + bytes
    {
      hide Fold, Whole;
      ghost var all := fed + bytes;
      var rest := bytes;
      if buffered > 0 {
        rest := TopUp(bytes);
      }
      assert fed + rest == all;
      while |rest| >= 64
        invariant Holds() && fed + rest == all
        invariant buffered == 0 || rest == []
      {
        assert fed + rest == fed + rest[..64] + rest[64..];
        FeedBlock(rest[..64]);
        rest := rest[64..];
      }
      if rest != [] {
        FeedTail(rest);
      }
    }

    /** One pass of the block loop: nothing is buffered before or after. */
    method FeedBlock(block: Block)
      requires Holds() && buffered == 0
      modifies this`fed, state
      ensures Holds() && fed == old(fed) + block
    {
      hide Fold, Compress;
      WholeOfBlocks(fed);
      FoldBlock(fed, block);
      CompressBlock(block);
      fed := fed + block;
      WholeOfBlocks(fed);
    }

    /** Buffers what is left, less than a block. */
    method FeedTail(rest: Bytes)
      requires Holds() && buffered == 0 && |rest| < 64
      modifies this`fed, this`buffered, buffer
      ensures Holds() && fed == old(fed) + rest
    {
      WholeOfBlocks(fed);
      WholeOfTail(fed, rest);
      CopyInto(buffer, 0, rest);
      buffered := |rest|;
      fed := fed + rest;
    }

    /** Fills the partial block; what it does not take is returned. */
    method TopUp(bytes: Bytes) returns (rest: Bytes)
      requires Holds() && 0 < buffered
      modifies this`buffered, this`fed, state, buffer
      ensures Holds() && fed + rest == old(fed) + bytes
      ensures buffered == 0 || rest == []
    {
      hide Fold;
      var take := if 64 - buffered < |bytes| then 64 - buffered else |bytes|;
      ghost var before := fed;
      var part := bytes[..take];
      CopyInto(buffer, buffered, part);
      buffered := buffered + take;
      rest := bytes[take..];
      fed := fed + part;
      assert bytes == part + rest && before + (part + rest) == fed + rest;
      if buffered == 64 {
        var block := buffer[..];
        assert block == buffer[..buffered];
        BlockCompleted(before, part);
        CompressBlock(block);
        buffered := 0;
      } else {
        TailGrown(before, part);
      }
    }

    /**
     Consumes the hasher: pads by feeding itself, then prints the state. Nothing
     may be fed to it afterwards.
     */
    method Finish() returns (out: string)
      requires Valid()
      modifies this, state, buffer
      ensures out == HexText(Digest(old(fed)))
    {
      ghost var message := fed;
      var padding := PaddingBytes(length, |fed|);
      Update(padding);
      PadShape(message);
      WholeOfBlocks(fed);
      out := HexState(state);
    }

    /** The in-place schedule and the eight rotating variables compute section 6.2.2. */
    method CompressBlock(block: Block)
      requires state.Length == 8
      modifies state
      ensures state[..] == Compress(old(state[..]), block)
    {
      var w := Schedule(block);
      ghost var start := state[..];
      var v := AllRounds(block, w, state[0], state[1], state[2], state[3], state[4], state[5], state[6], state[7]);
      AddInto(state, FromVars(v));
      assert v == Rounds(ToVars(start), block, |K|);
    }
  }

  /** The round loop over the eight variables. */
  method AllRounds(block: Block, w: array<Word>, a0: Word, b0: Word, c0: Word, d0: Word, e0: Word, f0: Word, g0: Word,
                   h0: Word)
    returns (v: Vars)
    requires w.Length == 64
    requires forall t :: 0 <= t < 64 ==> w[t] == W(block, t)
    ensures v == Rounds(Vars(a0, b0, c0, d0, e0, f0, g0, h0), block, |K|)
  {
    ghost var start := Vars(a0, b0, c0, d0, e0, f0, g0, h0);
    var a, b, c, d, e, f, g, h := a0, b0, c0, d0, e0, f0, g0, h0;
    for index := 0 to |K|
      invariant Vars(a, b, c, d, e, f, g, h) == Rounds(start, block, index)
    {
      a, b, c, d, e, f, g, h := Rotate(a, b, c, d, e, f, g, h, K[index], w[index]);
    }
    v := Vars(a, b, c, d, e, f, g, h);
  }

  /** One pass of the round loop over the eight variables. */
  method Rotate(a0: Word, b0: Word, c0: Word, d0: Word, e0: Word, f0: Word, g0: Word, h0: Word, k: Word, w: Word)
    returns (a: Word, b: Word, c: Word, d: Word, e: Word, f: Word, g: Word, h: Word)
    ensures Vars(a, b, c, d, e, f, g, h) == Round(Vars(a0, b0, c0, d0, e0, f0, g0, h0), k, w)
  {
    a, b, c, d, e, f, g, h := a0, b0, c0, d0, e0, f0, g0, h0;
    var s1 := RotatedBig1(e);
    var ch := Ch(e, f, g);
    var t1 := Plus(Plus(Plus(Plus(h, s1), ch), k), w);
    var s0 := RotatedBig0(a);
    var maj := Maj(a, b, c);
    var t2 := Plus(s0, maj);
    h := g;
    g := f;
    f := e;
    e := Plus(d, t1);
    d := c;
    c := b;
    b := a;
    a := Plus(t1, t2);
  }

  /** Adds the round result to the state word by word. */
  method AddInto(state: array<Word>, round: State)
    requires state.Length == 8
    modifies state
    ensures state[..] == AddWords(old(state[..]), round)
  {
    for i := 0 to 8
      invariant forall j :: 0 <= j < i ==> state[j] == Plus(old(state[j]), round[j])
      invariant forall j :: i <= j < 8 ==> state[j] == old(state[j])
    {
      state[i] := Plus(state[i], round[i]);
    }
  }

  /** The program adds the four terms of a schedule word in the opposite order. */
  lemma SumReversed(a: Word, b: Word, c: Word, d: Word)
    ensures Sum4(a, b, c, d) == Sum4(d, c, b, a)
  {
  }

  lemma ScheduleStep(block: Block, t: nat, w16: Word, w15: Word, w7: Word, w2: Word)
    requires 16 <= t < 64
    requires w16 == W(block, t - 16) && w15 == W(block, t - 15) && w7 == W(block, t - 7) && w2 == W(block, t - 2)
    ensures W(block, t) == Sum4(w16, SmallSigma0(w15), w7, SmallSigma1(w2))
  {
    SumReversed(SmallSigma1(w2), w7, SmallSigma0(w15), w16);
  }

  /** Fills the 64 schedule words in place. */
  method Schedule(block: Block) returns (w: array<Word>)
    ensures fresh(w) && w.Length == 64
    ensures forall t :: 0 <= t < 64 ==> w[t] == W(block, t)
  {
    w := new Word[64](_ => 0);
    for index := 0 to 16
      invariant forall t :: 0 <= t < index ==> w[t] == W(block, t)
    {
      w[index] := Be32(block[4 * index], block[4 * index + 1], block[4 * index + 2], block[4 * index + 3]);
    }
    Extend(block, w);
  }

  /** The second loop of the schedule. */
  method Extend(block: Block, w: array<Word>)
    requires w.Length == 64
    requires forall t :: 0 <= t < 16 ==> w[t] == W(block, t)
    modifies w
    ensures forall t :: 0 <= t < 64 ==> w[t] == W(block, t)
  {
    hide W, SmallSigma0, SmallSigma1, Sum4, RotatedSmall0, RotatedSmall1;
    for index := 16 to 64
      invariant forall t :: 0 <= t < index ==> w[t] == W(block, t)
    {
      ScheduleStep(block, index, w[index - 16], w[index - 15], w[index - 7], w[index - 2]);
      var s0 := RotatedSmall0(w[index - 15]);
      var s1 := RotatedSmall1(w[index - 2]);
      w[index] := Sum4(w[index - 16], s0, w[index - 7], s1);
    }
  }

  /** `sha256_text`: the printed digest of a text's UTF-8 bytes. */
  method Sha256Text(text: string) returns (out: string)
    ensures out == HexText(Digest(Encode(text)))
  {
    var hasher := new Sha256();
    hasher.Update(Encode(text));
    assert [] + Encode(text) == Encode(text);
    out := hasher.Finish();
  }
}
