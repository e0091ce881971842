/** Published values of FNV-1a with 64 bits, worked out from the definitions of `Fnv`. */
module FnvVectors {
  import opened Fnv
  import opened Hexadecimal
  import opened Utf8

  lemma {:induction false} XorBit(q: nat, r: nat, p: nat, b: nat)
    requires r < 2 && b < 2
    ensures Xor(2 * q + r, 2 * p + b) == 2 * Xor(q, p) + (if r == b then 0 else 1)
  {
    hide Xor;
    AppendedBit(q, r);
    AppendedBit(p, b);
    XorBits(2 * q + r, 2 * p + b);
  }

  lemma {:induction false} XorOne(r: nat, b: nat)
    requires r < 2 && b < 2
    ensures Xor(r, b) == if r == b then 0 else 1
  {
  }

  lemma {:induction false} XorBits2(q: nat, r1: nat, r0: nat, p: nat, b1: nat, b0: nat)
    requires r1 < 2 && r0 < 2 && b1 < 2 && b0 < 2
    ensures Xor(2 * (2 * q + r1) + r0, 2 * (2 * p + b1) + b0) == 4 * Xor(q, p) + Xor(2 * r1 + r0, 2 * b1 + b0)
  {
    hide Xor;
    XorBit(2 * q + r1, r0, 2 * p + b1, b0);
    XorBit(q, r1, p, b1);
    XorBit(r1, r0, b1, b0);
    XorOne(r1, b1);
  }

  lemma {:induction false} XorTwoBits(q: nat, r: nat, p: nat, b: nat)
    requires r < 4 && b < 4
    ensures Xor(4 * q + r, 4 * p + b) == 4 * Xor(q, p) + Xor(r, b)
  {
    hide Xor;
    XorBits2(q, r / 2, r % 2, p, b / 2, b % 2);
  }

  /** The last four bits of two numbers are combined among themselves. */
  lemma {:induction false} XorNibble(q: nat, r: nat, p: nat, b: nat)
    requires r < 16 && b < 16
    ensures Xor(16 * q + r, 16 * p + b) == 16 * Xor(q, p) + Xor(r, b)
  {
    hide Xor;
    XorTwoBits(4 * q + r / 4, r % 4, 4 * p + b / 4, b % 4);
    XorTwoBits(q, r / 4, p, b / 4);
    XorTwoBits(r / 4, r % 4, b / 4, b % 4);
  }

  /** One byte of the hash, by the last two hex digits of the state. */
  lemma {:induction false} StepIs(q: nat, rh: nat, rl: nat, bh: nat, bl: nat, nh: nat, nl: nat, y: nat)
    requires rh < 16 && rl < 16 && bh < 16 && bl < 16 && Xor(rh, bh) == nh && Xor(rl, bl) == nl
    requires (256 * q + 16 * nh + nl) * PRIME % TWO64 == y
    ensures Step(256 * q + 16 * rh + rl, 16 * bh + bl) == y
  {
    assert Xor(q, 0) == q;
    hide Xor;
    XorNibble(16 * q + rh, rl, bh, bl);
    XorNibble(q, rh, 0, bh);
  }

  lemma {:induction false} Nibbles()
    ensures Xor(0, 7) == 7 && Xor(2, 6) == 4 && Xor(2, 15) == 13
    ensures Xor(4, 6) == 2 && Xor(5, 6) == 3 && Xor(7, 2) == 5
    ensures Xor(7, 6) == 1 && Xor(9, 15) == 6 && Xor(10, 2) == 8
    ensures Xor(10, 6) == 12 && Xor(13, 6) == 11 && Xor(15, 1) == 14
  {
    assert Xor(1, 1) == 0;
    assert Xor(1, 3) == 2;
    assert Xor(2, 1) == 3;
    assert Xor(2, 3) == 1;
    assert Xor(3, 1) == 2;
    assert Xor(3, 3) == 0;
    assert Xor(1, 7) == 6;
    assert Xor(2, 6) == 4;
    assert Xor(4, 6) == 2;
    assert Xor(4, 7) == 3;
    assert Xor(5, 1) == 4;
    assert Xor(5, 3) == 6;
    assert Xor(5, 6) == 3;
    assert Xor(6, 3) == 5;
    assert Xor(7, 2) == 5;
    assert Xor(7, 6) == 1;
    assert Xor(2, 15) == 13;
    assert Xor(9, 15) == 6;
    assert Xor(10, 2) == 8;
    assert Xor(10, 6) == 12;
    assert Xor(13, 6) == 11;
    assert Xor(15, 1) == 14;
  }

  lemma {:induction false} AfterF()
    ensures Step(0xcbf29ce484222325, 0x66) == 0xaf63db4c8601ead9
  {
    Nibbles();
    hide Xor, Step;
    StepIs(0xcbf29ce4842223, 2, 5, 6, 6, 4, 3, 0xaf63db4c8601ead9);
  }

  lemma {:induction false} AfterFo()
    ensures Step(0xaf63db4c8601ead9, 0x6f) == 0x08985907b541d342
  {
    Nibbles();
    hide Xor, Step;
    StepIs(0xaf63db4c8601ea, 13, 9, 6, 15, 11, 6, 0x08985907b541d342);
  }

  lemma {:induction false} AfterFoo()
    ensures Step(0x08985907b541d342, 0x6f) == 0xdcb27518fed9d577
  {
    Nibbles();
    hide Xor, Step;
    StepIs(0x8985907b541d3, 4, 2, 6, 15, 2, 13, 0xdcb27518fed9d577);
  }

  lemma {:induction false} AfterFoob()
    ensures Step(0xdcb27518fed9d577, 0x62) == 0xdd120e790c2512af
  {
    Nibbles();
    hide Xor, Step;
    StepIs(0xdcb27518fed9d5, 7, 7, 6, 2, 1, 5, 0xdd120e790c2512af);
  }

  lemma {:induction false} AfterFooba()
    ensures Step(0xdd120e790c2512af, 0x61) == 0xcac165afa2fef40a
  {
    Nibbles();
    hide Xor, Step;
    StepIs(0xdd120e790c2512, 10, 15, 6, 1, 12, 14, 0xcac165afa2fef40a);
  }

  lemma {:induction false} AfterFoobar()
    ensures Step(0xcac165afa2fef40a, 0x72) == 0x85944171f73967e8
  {
    Nibbles();
    hide Xor, Step;
    StepIs(0xcac165afa2fef4, 0, 10, 7, 2, 7, 8, 0x85944171f73967e8);
  }

  const FOOBAR: seq<Byte> := [0x66, 0x6f, 0x6f, 0x62, 0x61, 0x72]

  /** The published value for "foobar". */
  lemma {:induction false} HashOfFoobar()
    ensures Hash(OFFSET, FOOBAR) == 0x85944171f73967e8
  {
    AfterF();
    AfterFo();
    AfterFoo();
    AfterFoob();
    AfterFooba();
    AfterFoobar();
    hide Step;
    assert FOOBAR[1..] == [0x6f, 0x6f, 0x62, 0x61, 0x72] && FOOBAR[1..][1..] == [0x6f, 0x62, 0x61, 0x72];
    assert [0x6f, 0x62, 0x61, 0x72][1..] == [0x62, 0x61, 0x72] && [0x62, 0x61, 0x72][1..] == [0x61, 0x72];
    assert [0x61, 0x72][1..] == [0x72] && [0x72][1..] == [];
    var d: seq<Byte> := [0x61, 0x72];
    assert Hash(0xdd120e790c2512af, d) == Hash(Step(0xdd120e790c2512af, 0x61), [0x72]) == 0x85944171f73967e8;
    var c: seq<Byte> := [0x6f, 0x62, 0x61, 0x72];
    assert Hash(0x08985907b541d342, c) == Hash(Step(0x08985907b541d342, 0x6f), [0x62, 0x61, 0x72]);
    assert Hash(OFFSET, FOOBAR) == Hash(Step(OFFSET, 0x66), FOOBAR[1..]);
  }

  /** The label's form: the prefix, and sixteen hex digits with the most significant first. */
  lemma {:induction false} LabelOfFoobar()
    ensures Label(0x85944171f73967e8) == "com.leveler.schedule." + "85944171" + "f73967e8"
  {
    HexFirst();
    HexSecond();
    hide Hex;
  }

  lemma {:induction false} HexFirst()
    ensures Hex(0x85944171, 8) == "85944171"
  {
    assert Hex(0x8, 1) == Hex(0x0, 0) + [HexChar(8)] == "8";
    assert Hex(0x85, 2) == Hex(0x8, 1) + [HexChar(5)] == "85";
    assert Hex(0x859, 3) == Hex(0x85, 2) + [HexChar(9)] == "859";
    assert Hex(0x8594, 4) == Hex(0x859, 3) + [HexChar(4)] == "8594";
    assert Hex(0x85944, 5) == Hex(0x8594, 4) + [HexChar(4)] == "85944";
    assert Hex(0x859441, 6) == Hex(0x85944, 5) + [HexChar(1)] == "859441";
    assert Hex(0x8594417, 7) == Hex(0x859441, 6) + [HexChar(7)] == "8594417";
    assert Hex(0x85944171, 8) == Hex(0x8594417, 7) + [HexChar(1)] == "85944171";
  }

  lemma {:induction false} HexSecond()
    ensures Hex(0x85944171f73967e8, 16) == "85944171" + "f73967e8"
  {
    HexFirst();
    assert Hex(0x85944171f, 9) == Hex(0x85944171, 8) + [HexChar(15)] == "85944171" + "f";
    assert Hex(0x85944171f7, 10) == Hex(0x85944171f, 9) + [HexChar(7)] == "85944171" + "f7";
    assert Hex(0x85944171f73, 11) == Hex(0x85944171f7, 10) + [HexChar(3)] == "85944171" + "f73";
    assert Hex(0x85944171f739, 12) == Hex(0x85944171f73, 11) + [HexChar(9)] == "85944171" + "f739";
    assert Hex(0x85944171f7396, 13) == Hex(0x85944171f739, 12) + [HexChar(6)] == "85944171" + "f7396";
    assert Hex(0x85944171f73967, 14) == Hex(0x85944171f7396, 13) + [HexChar(7)] == "85944171" + "f73967";
    assert Hex(0x85944171f73967e, 15) == Hex(0x85944171f73967, 14) + [HexChar(14)] == "85944171" + "f73967e";
    assert Hex(0x85944171f73967e8, 16) == Hex(0x85944171f73967e, 15) + [HexChar(8)] == "85944171" + "f73967e8";
  }
}
