/**
 A published digest, worked out from the definitions of `Hash` step by step: the
 one-block message "abc" of the examples that go with FIPS 180-4. It fixes every
 constant, rotation, index and byte order that the hasher and its specification
 share.
 */
module HashVectors {
  import opened Hash
  import opened HashConstants
  import opened Utf8

  const ABC: Bytes := [0x61, 0x62, 0x63]

  // ---- the block ----------------------------------------------------------

  function AbcBlock(): Block {
    PadShape(ABC);
    PadOfAbc();
    Pad(ABC)
  }

  function AbcWord(t: nat): Word
    requires t < 64
  {
    W(AbcBlock(), t)
  }

  lemma {:induction false} LengthOfAbc()
    ensures Be64(24) == [0, 0, 0, 0, 0, 0, 0, 24]
  {
    assert BigEndian(0, 1) == [0];
    assert BigEndian(0, 2) == [0, 0];
    assert BigEndian(0, 4) == [0, 0, 0, 0] by {
      assert BigEndian(0, 3) == [0, 0, 0];
    }
    assert BigEndian(0, 7) == [0, 0, 0, 0, 0, 0, 0] by {
      assert BigEndian(0, 6) == [0, 0, 0, 0, 0, 0];
      assert BigEndian(0, 5) == [0, 0, 0, 0, 0];
    }
  }

  lemma {:induction false} PadOfAbc()
    ensures |Pad(ABC)| == 64
    ensures Pad(ABC)[..4] == [0x61, 0x62, 0x63, 0x80] && Pad(ABC)[4..56] == Zeros(52)
    ensures Pad(ABC)[56..] == [0, 0, 0, 0, 0, 0, 0, 24]
  {
    LengthOfAbc();
    hide BigEndian, Be64;
    assert Pad(ABC) == ABC + ([0x80] + Zeros(52) + Be64(24));
  }

  /** The published schedule, in rows of eight words. */
  const WORDS0: seq<Word> := [
    0x61626380, 0x00000000, 0x00000000, 0x00000000, 0x00000000, 0x00000000, 0x00000000, 0x00000000
  ]

  const WORDS1: seq<Word> := [
    0x00000000, 0x00000000, 0x00000000, 0x00000000, 0x00000000, 0x00000000, 0x00000000, 0x00000018
  ]

  const WORDS2: seq<Word> := [
    0x61626380, 0x000f0000, 0x7da86405, 0x600003c6, 0x3e9d7b78, 0x0183fc00, 0x12dcbfdb, 0xe2e2c38e
  ]

  const WORDS3: seq<Word> := [
    0xc8215c1a, 0xb73679a2, 0xe5bc3909, 0x32663c5b, 0x9d209d67, 0xec8726cb, 0x702138a4, 0xd3b7973b
  ]

  const WORDS4: seq<Word> := [
    0x93f5997f, 0x3b68ba73, 0xaff4ffc1, 0xf10a5c62, 0x0a8b3996, 0x72af830a, 0x9409e33e, 0x24641522
  ]

  const WORDS5: seq<Word> := [
    0x9f47bf94, 0xf0a64f5a, 0x3e246a79, 0x27333ba3, 0x0c4763f2, 0x840abf27, 0x7a290d5d, 0x065c43da
  ]

  const WORDS6: seq<Word> := [
    0xfb3e89cb, 0xcc7617db, 0xb9e66c34, 0xa9993667, 0x84badedd, 0xc21462bc, 0x1487472c, 0xb20f7a99
  ]

  const WORDS7: seq<Word> := [
    0xef57b9cd, 0xebe6b238, 0x9fe3095e, 0x78bc8d4b, 0xa43fcf15, 0x668b2ff8, 0xeeaba2cc, 0x12b1edeb
  ]

  /** The words of the block's schedule from `8 * row` on are these. */
  predicate Row(row: nat, words: seq<Word>)
    requires row < 8
  {
    |words| == 8 && forall i :: 0 <= i < 8 ==> AbcWord(8 * row + i) == words[i]
  }

  lemma {:induction false} WordsOfBytes()
    ensures AbcWord(0) == 0x61626380 && AbcWord(15) == 0x18
    ensures forall t :: 1 <= t < 15 ==> AbcWord(t) == 0
  {
    PadOfAbc();
    var block := AbcBlock();
    assert block == Pad(ABC);
    hide Pad, AbcBlock, Be32;
    assert forall i :: 0 <= i < 4 ==> block[i] == block[..4][i];
    assert forall i :: 4 <= i < 56 ==> block[i] == block[4..56][i - 4] == 0;
    assert forall i :: 56 <= i < 64 ==> block[i] == block[56..][i - 56];
    WordOfBytes();
    forall t | 1 <= t < 15
      ensures AbcWord(t) == 0
    {
      assert block[4 * t] == block[4 * t + 1] == block[4 * t + 2] == block[4 * t + 3] == 0;
    }
  }

  lemma {:induction false} FirstWords()
    ensures Row(0, WORDS0) && Row(1, WORDS1)
  {
    hide AbcWord;
    WordsOfBytes();
    assert forall i :: 1 <= i < 8 ==> WORDS0[i] == 0;
    assert forall i :: 0 <= i < 7 ==> WORDS1[i] == 0;
  }

  lemma {:induction false} WordOfBytes()
    ensures Be32(0x61, 0x62, 0x63, 0x80) == 0x61626380 && Be32(0, 0, 0, 24) == 0x18 && Be32(0, 0, 0, 0) == 0
  {
  }

  // ---- the schedule -------------------------------------------------------

  lemma {:induction false} NextWord(t: nat, w2: Word, w7: Word, w15: Word, w16: Word, w: Word)
    requires 16 <= t < 64
    requires AbcWord(t - 2) == w2 && AbcWord(t - 7) == w7
    requires AbcWord(t - 15) == w15 && AbcWord(t - 16) == w16
    requires Sum4(SmallSigma1(w2), w7, SmallSigma0(w15), w16) == w
    ensures AbcWord(t) == w
  {
  }

  lemma {:induction false} Words16()
    ensures Row(2, WORDS2)
  {
    FirstWords();
    hide AbcWord;
    NextWord(16, WORDS1[6], WORDS1[1], WORDS0[1], WORDS0[0], WORDS2[0]);
    NextWord(17, WORDS1[7], WORDS1[2], WORDS0[2], WORDS0[1], WORDS2[1]);
    NextWord(18, WORDS2[0], WORDS1[3], WORDS0[3], WORDS0[2], WORDS2[2]);
    NextWord(19, WORDS2[1], WORDS1[4], WORDS0[4], WORDS0[3], WORDS2[3]);
    NextWord(20, WORDS2[2], WORDS1[5], WORDS0[5], WORDS0[4], WORDS2[4]);
    NextWord(21, WORDS2[3], WORDS1[6], WORDS0[6], WORDS0[5], WORDS2[5]);
    NextWord(22, WORDS2[4], WORDS1[7], WORDS0[7], WORDS0[6], WORDS2[6]);
    NextWord(23, WORDS2[5], WORDS2[0], WORDS1[0], WORDS0[7], WORDS2[7]);
  }

  lemma {:induction false} Words24()
    ensures Row(3, WORDS3)
  {
    Words16();
    FirstWords();
    hide AbcWord;
    NextWord(24, WORDS2[6], WORDS2[1], WORDS1[1], WORDS1[0], WORDS3[0]);
    NextWord(25, WORDS2[7], WORDS2[2], WORDS1[2], WORDS1[1], WORDS3[1]);
    NextWord(26, WORDS3[0], WORDS2[3], WORDS1[3], WORDS1[2], WORDS3[2]);
    NextWord(27, WORDS3[1], WORDS2[4], WORDS1[4], WORDS1[3], WORDS3[3]);
    NextWord(28, WORDS3[2], WORDS2[5], WORDS1[5], WORDS1[4], WORDS3[4]);
    NextWord(29, WORDS3[3], WORDS2[6], WORDS1[6], WORDS1[5], WORDS3[5]);
    NextWord(30, WORDS3[4], WORDS2[7], WORDS1[7], WORDS1[6], WORDS3[6]);
    NextWord(31, WORDS3[5], WORDS3[0], WORDS2[0], WORDS1[7], WORDS3[7]);
  }

  lemma {:induction false} Words32()
    ensures Row(4, WORDS4)
  {
    Words24();
    Words16();
    hide AbcWord;
    NextWord(32, WORDS3[6], WORDS3[1], WORDS2[1], WORDS2[0], WORDS4[0]);
    NextWord(33, WORDS3[7], WORDS3[2], WORDS2[2], WORDS2[1], WORDS4[1]);
    NextWord(34, WORDS4[0], WORDS3[3], WORDS2[3], WORDS2[2], WORDS4[2]);
    NextWord(35, WORDS4[1], WORDS3[4], WORDS2[4], WORDS2[3], WORDS4[3]);
    NextWord(36, WORDS4[2], WORDS3[5], WORDS2[5], WORDS2[4], WORDS4[4]);
    NextWord(37, WORDS4[3], WORDS3[6], WORDS2[6], WORDS2[5], WORDS4[5]);
    NextWord(38, WORDS4[4], WORDS3[7], WORDS2[7], WORDS2[6], WORDS4[6]);
    NextWord(39, WORDS4[5], WORDS4[0], WORDS3[0], WORDS2[7], WORDS4[7]);
  }

  lemma {:induction false} Words40()
    ensures Row(5, WORDS5)
  {
    Words32();
    Words24();
    hide AbcWord;
    NextWord(40, WORDS4[6], WORDS4[1], WORDS3[1], WORDS3[0], WORDS5[0]);
    NextWord(41, WORDS4[7], WORDS4[2], WORDS3[2], WORDS3[1], WORDS5[1]);
    NextWord(42, WORDS5[0], WORDS4[3], WORDS3[3], WORDS3[2], WORDS5[2]);
    NextWord(43, WORDS5[1], WORDS4[4], WORDS3[4], WORDS3[3], WORDS5[3]);
    NextWord(44, WORDS5[2], WORDS4[5], WORDS3[5], WORDS3[4], WORDS5[4]);
    NextWord(45, WORDS5[3], WORDS4[6], WORDS3[6], WORDS3[5], WORDS5[5]);
    NextWord(46, WORDS5[4], WORDS4[7], WORDS3[7], WORDS3[6], WORDS5[6]);
    NextWord(47, WORDS5[5], WORDS5[0], WORDS4[0], WORDS3[7], WORDS5[7]);
  }

  lemma {:induction false} Words48()
    ensures Row(6, WORDS6)
  {
    Words40();
    Words32();
    hide AbcWord;
    NextWord(48, WORDS5[6], WORDS5[1], WORDS4[1], WORDS4[0], WORDS6[0]);
    NextWord(49, WORDS5[7], WORDS5[2], WORDS4[2], WORDS4[1], WORDS6[1]);
    NextWord(50, WORDS6[0], WORDS5[3], WORDS4[3], WORDS4[2], WORDS6[2]);
    NextWord(51, WORDS6[1], WORDS5[4], WORDS4[4], WORDS4[3], WORDS6[3]);
    NextWord(52, WORDS6[2], WORDS5[5], WORDS4[5], WORDS4[4], WORDS6[4]);
    NextWord(53, WORDS6[3], WORDS5[6], WORDS4[6], WORDS4[5], WORDS6[5]);
    NextWord(54, WORDS6[4], WORDS5[7], WORDS4[7], WORDS4[6], WORDS6[6]);
    NextWord(55, WORDS6[5], WORDS6[0], WORDS5[0], WORDS4[7], WORDS6[7]);
  }

  lemma {:induction false} Words56()
    ensures Row(7, WORDS7)
  {
    Words48();
    Words40();
    hide AbcWord;
    NextWord(56, WORDS6[6], WORDS6[1], WORDS5[1], WORDS5[0], WORDS7[0]);
    NextWord(57, WORDS6[7], WORDS6[2], WORDS5[2], WORDS5[1], WORDS7[1]);
    NextWord(58, WORDS7[0], WORDS6[3], WORDS5[3], WORDS5[2], WORDS7[2]);
    NextWord(59, WORDS7[1], WORDS6[4], WORDS5[4], WORDS5[3], WORDS7[3]);
    NextWord(60, WORDS7[2], WORDS6[5], WORDS5[5], WORDS5[4], WORDS7[4]);
    NextWord(61, WORDS7[3], WORDS6[6], WORDS5[6], WORDS5[5], WORDS7[5]);
    NextWord(62, WORDS7[4], WORDS6[7], WORDS5[7], WORDS5[6], WORDS7[6]);
    NextWord(63, WORDS7[5], WORDS7[0], WORDS6[0], WORDS5[7], WORDS7[7]);
  }

  // ---- the rounds ---------------------------------------------------------

  /** The variables before the first round and after each of the 64. */
  ghost predicate Trace(r: seq<Vars>) {
    |r| == 65 && r[0] == ToVars(H0) &&
    forall t {:trigger AbcWord(t)} :: 0 <= t < 64 ==> r[t + 1] == Round(r[t], K[t], AbcWord(t))
  }

  lemma {:induction false} NextRound(r: seq<Vars>, t: nat, v: Vars, k: Word, w: Word, u: Vars)
    requires Trace(r) && t < 64 && r[t] == v && K[t] == k && AbcWord(t) == w && Round(v, k, w) == u
    ensures r[t + 1] == u
  {
    hide AbcWord, Round, K;
  }

  lemma {:induction false} Literals0()
    ensures WORDS0[0] == 0x61626380 && WORDS0[1] == 0x00000000 && WORDS0[2] == 0x00000000 && WORDS0[3] == 0x00000000
    ensures WORDS0[4] == 0x00000000 && WORDS0[5] == 0x00000000 && WORDS0[6] == 0x00000000 && WORDS0[7] == 0x00000000
  {
  }

  lemma {:induction false} InitialVars(r: seq<Vars>)
    requires Trace(r)
    ensures r[0] ==
      Vars(0x6a09e667, 0xbb67ae85, 0x3c6ef372, 0xa54ff53a, 0x510e527f, 0x9b05688c, 0x1f83d9ab, 0x5be0cd19)
  {
  }

  lemma {:induction false} Rounds0(r: seq<Vars>)
    requires Trace(r)
    ensures r[8] ==
      Vars(0x85a07b5f, 0xe5030380, 0x2b4209f5, 0x04409a6a, 0x0c657a79, 0x9b27a401, 0x714260ad, 0x43ada245)
  {
    hide Trace, AbcWord, K, WORDS0;
    InitialVars(r);
    FirstWords();
    Keys0();
    var v0 := Vars(0x6a09e667, 0xbb67ae85, 0x3c6ef372, 0xa54ff53a, 0x510e527f, 0x9b05688c, 0x1f83d9ab, 0x5be0cd19);
    Literals0();
    var v1 := Vars(0x5d6aebcd, 0x6a09e667, 0xbb67ae85, 0x3c6ef372, 0xfa2a4622, 0x510e527f, 0x9b05688c, 0x1f83d9ab);
    NextRound(r, 0, v0, 0x428a2f98, 0x61626380, v1);
    var v2 := Vars(0x5a6ad9ad, 0x5d6aebcd, 0x6a09e667, 0xbb67ae85, 0x78ce7989, 0xfa2a4622, 0x510e527f, 0x9b05688c);
    NextRound(r, 1, v1, 0x71374491, 0x00000000, v2);
    var v3 := Vars(0xc8c347a7, 0x5a6ad9ad, 0x5d6aebcd, 0x6a09e667, 0xf92939eb, 0x78ce7989, 0xfa2a4622, 0x510e527f);
    NextRound(r, 2, v2, 0xb5c0fbcf, 0x00000000, v3);
    var v4 := Vars(0xd550f666, 0xc8c347a7, 0x5a6ad9ad, 0x5d6aebcd, 0x24e00850, 0xf92939eb, 0x78ce7989, 0xfa2a4622);
    NextRound(r, 3, v3, 0xe9b5dba5, 0x00000000, v4);
    var v5 := Vars(0x04409a6a, 0xd550f666, 0xc8c347a7, 0x5a6ad9ad, 0x43ada245, 0x24e00850, 0xf92939eb, 0x78ce7989);
    NextRound(r, 4, v4, 0x3956c25b, 0x00000000, v5);
    var v6 := Vars(0x2b4209f5, 0x04409a6a, 0xd550f666, 0xc8c347a7, 0x714260ad, 0x43ada245, 0x24e00850, 0xf92939eb);
    NextRound(r, 5, v5, 0x59f111f1, 0x00000000, v6);
    var v7 := Vars(0xe5030380, 0x2b4209f5, 0x04409a6a, 0xd550f666, 0x9b27a401, 0x714260ad, 0x43ada245, 0x24e00850);
    NextRound(r, 6, v6, 0x923f82a4, 0x00000000, v7);
    var v8 := Vars(0x85a07b5f, 0xe5030380, 0x2b4209f5, 0x04409a6a, 0x0c657a79, 0x9b27a401, 0x714260ad, 0x43ada245);
    NextRound(r, 7, v7, 0xab1c5ed5, 0x00000000, v8);
  }

  lemma {:induction false} Literals8()
    ensures WORDS1[0] == 0x00000000 && WORDS1[1] == 0x00000000 && WORDS1[2] == 0x00000000 && WORDS1[3] == 0x00000000
    ensures WORDS1[4] == 0x00000000 && WORDS1[5] == 0x00000000 && WORDS1[6] == 0x00000000 && WORDS1[7] == 0x00000018
  {
  }

  lemma {:induction false} Rounds8(r: seq<Vars>)
    requires Trace(r)
    ensures r[16] ==
      Vars(0xb0fa238e, 0xc0645fde, 0xd932eb16, 0x87912990, 0x07590dcd, 0x0b92f20c, 0x745a48de, 0x1e578218)
  {
    hide Trace, AbcWord, K, WORDS1;
    Rounds0(r);
    FirstWords();
    Keys8();
    var v8 := Vars(0x85a07b5f, 0xe5030380, 0x2b4209f5, 0x04409a6a, 0x0c657a79, 0x9b27a401, 0x714260ad, 0x43ada245);
    Literals8();
    var v9 := Vars(0x8e04ecb9, 0x85a07b5f, 0xe5030380, 0x2b4209f5, 0x32ca2d8c, 0x0c657a79, 0x9b27a401, 0x714260ad);
    NextRound(r, 8, v8, 0xd807aa98, 0x00000000, v9);
    var v10 := Vars(0x8c87346b, 0x8e04ecb9, 0x85a07b5f, 0xe5030380, 0x1cc92596, 0x32ca2d8c, 0x0c657a79, 0x9b27a401);
    NextRound(r, 9, v9, 0x12835b01, 0x00000000, v10);
    var v11 := Vars(0x4798a3f4, 0x8c87346b, 0x8e04ecb9, 0x85a07b5f, 0x436b23e8, 0x1cc92596, 0x32ca2d8c, 0x0c657a79);
    NextRound(r, 10, v10, 0x243185be, 0x00000000, v11);
    var v12 := Vars(0xf71fc5a9, 0x4798a3f4, 0x8c87346b, 0x8e04ecb9, 0x816fd6e9, 0x436b23e8, 0x1cc92596, 0x32ca2d8c);
    NextRound(r, 11, v11, 0x550c7dc3, 0x00000000, v12);
    var v13 := Vars(0x87912990, 0xf71fc5a9, 0x4798a3f4, 0x8c87346b, 0x1e578218, 0x816fd6e9, 0x436b23e8, 0x1cc92596);
    NextRound(r, 12, v12, 0x72be5d74, 0x00000000, v13);
    var v14 := Vars(0xd932eb16, 0x87912990, 0xf71fc5a9, 0x4798a3f4, 0x745a48de, 0x1e578218, 0x816fd6e9, 0x436b23e8);
    NextRound(r, 13, v13, 0x80deb1fe, 0x00000000, v14);
    var v15 := Vars(0xc0645fde, 0xd932eb16, 0x87912990, 0xf71fc5a9, 0x0b92f20c, 0x745a48de, 0x1e578218, 0x816fd6e9);
    NextRound(r, 14, v14, 0x9bdc06a7, 0x00000000, v15);
    var v16 := Vars(0xb0fa238e, 0xc0645fde, 0xd932eb16, 0x87912990, 0x07590dcd, 0x0b92f20c, 0x745a48de, 0x1e578218);
    NextRound(r, 15, v15, 0xc19bf174, 0x00000018, v16);
  }

  lemma {:induction false} Literals16()
    ensures WORDS2[0] == 0x61626380 && WORDS2[1] == 0x000f0000 && WORDS2[2] == 0x7da86405 && WORDS2[3] == 0x600003c6
    ensures WORDS2[4] == 0x3e9d7b78 && WORDS2[5] == 0x0183fc00 && WORDS2[6] == 0x12dcbfdb && WORDS2[7] == 0xe2e2c38e
  {
  }

  lemma {:induction false} Rounds16(r: seq<Vars>)
    requires Trace(r)
    ensures r[24] ==
      Vars(0xc5d53d8d, 0xa7a3623f, 0xc2606d6d, 0x9dc68b63, 0xaa47c347, 0x49f5114a, 0xe1257970, 0x8ada8930)
  {
    hide Trace, AbcWord, K, WORDS2;
    Rounds8(r);
    Words16();
    Keys16();
    var v16 := Vars(0xb0fa238e, 0xc0645fde, 0xd932eb16, 0x87912990, 0x07590dcd, 0x0b92f20c, 0x745a48de, 0x1e578218);
    Literals16();
    var v17 := Vars(0x21da9a9b, 0xb0fa238e, 0xc0645fde, 0xd932eb16, 0x8034229c, 0x07590dcd, 0x0b92f20c, 0x745a48de);
    NextRound(r, 16, v16, 0xe49b69c1, 0x61626380, v17);
    var v18 := Vars(0xc2fbd9d1, 0x21da9a9b, 0xb0fa238e, 0xc0645fde, 0x846ee454, 0x8034229c, 0x07590dcd, 0x0b92f20c);
    NextRound(r, 17, v17, 0xefbe4786, 0x000f0000, v18);
    var v19 := Vars(0xfe777bbf, 0xc2fbd9d1, 0x21da9a9b, 0xb0fa238e, 0xcc899961, 0x846ee454, 0x8034229c, 0x07590dcd);
    NextRound(r, 18, v18, 0x0fc19dc6, 0x7da86405, v19);
    var v20 := Vars(0xe1f20c33, 0xfe777bbf, 0xc2fbd9d1, 0x21da9a9b, 0xb0638179, 0xcc899961, 0x846ee454, 0x8034229c);
    NextRound(r, 19, v19, 0x240ca1cc, 0x600003c6, v20);
    var v21 := Vars(0x9dc68b63, 0xe1f20c33, 0xfe777bbf, 0xc2fbd9d1, 0x8ada8930, 0xb0638179, 0xcc899961, 0x846ee454);
    NextRound(r, 20, v20, 0x2de92c6f, 0x3e9d7b78, v21);
    var v22 := Vars(0xc2606d6d, 0x9dc68b63, 0xe1f20c33, 0xfe777bbf, 0xe1257970, 0x8ada8930, 0xb0638179, 0xcc899961);
    NextRound(r, 21, v21, 0x4a7484aa, 0x0183fc00, v22);
    var v23 := Vars(0xa7a3623f, 0xc2606d6d, 0x9dc68b63, 0xe1f20c33, 0x49f5114a, 0xe1257970, 0x8ada8930, 0xb0638179);
    NextRound(r, 22, v22, 0x5cb0a9dc, 0x12dcbfdb, v23);
    var v24 := Vars(0xc5d53d8d, 0xa7a3623f, 0xc2606d6d, 0x9dc68b63, 0xaa47c347, 0x49f5114a, 0xe1257970, 0x8ada8930);
    NextRound(r, 23, v23, 0x76f988da, 0xe2e2c38e, v24);
  }

  lemma {:induction false} Literals24()
    ensures WORDS3[0] == 0xc8215c1a && WORDS3[1] == 0xb73679a2 && WORDS3[2] == 0xe5bc3909 && WORDS3[3] == 0x32663c5b
    ensures WORDS3[4] == 0x9d209d67 && WORDS3[5] == 0xec8726cb && WORDS3[6] == 0x702138a4 && WORDS3[7] == 0xd3b7973b
  {
  }

  lemma {:induction false} Rounds24(r: seq<Vars>)
    requires Trace(r)
    ensures r[32] ==
      Vars(0x73b33bf5, 0xea992a22, 0xa0060b30, 0x363482c9, 0xba591112, 0x0109ab3a, 0xade79437, 0x6112a3b7)
  {
    hide Trace, AbcWord, K, WORDS3;
    Rounds16(r);
    Words24();
    Keys24();
    var v24 := Vars(0xc5d53d8d, 0xa7a3623f, 0xc2606d6d, 0x9dc68b63, 0xaa47c347, 0x49f5114a, 0xe1257970, 0x8ada8930);
    Literals24();
    var v25 := Vars(0x1c2c2838, 0xc5d53d8d, 0xa7a3623f, 0xc2606d6d, 0x2823ef91, 0xaa47c347, 0x49f5114a, 0xe1257970);
    NextRound(r, 24, v24, 0x983e5152, 0xc8215c1a, v25);
    var v26 := Vars(0xcde8037d, 0x1c2c2838, 0xc5d53d8d, 0xa7a3623f, 0x14383d8e, 0x2823ef91, 0xaa47c347, 0x49f5114a);
    NextRound(r, 25, v25, 0xa831c66d, 0xb73679a2, v26);
    var v27 := Vars(0xb62ec4bc, 0xcde8037d, 0x1c2c2838, 0xc5d53d8d, 0xc74c6516, 0x14383d8e, 0x2823ef91, 0xaa47c347);
    NextRound(r, 26, v26, 0xb00327c8, 0xe5bc3909, v27);
    var v28 := Vars(0x77d37528, 0xb62ec4bc, 0xcde8037d, 0x1c2c2838, 0xedffbff8, 0xc74c6516, 0x14383d8e, 0x2823ef91);
    NextRound(r, 27, v27, 0xbf597fc7, 0x32663c5b, v28);
    var v29 := Vars(0x363482c9, 0x77d37528, 0xb62ec4bc, 0xcde8037d, 0x6112a3b7, 0xedffbff8, 0xc74c6516, 0x14383d8e);
    NextRound(r, 28, v28, 0xc6e00bf3, 0x9d209d67, v29);
    var v30 := Vars(0xa0060b30, 0x363482c9, 0x77d37528, 0xb62ec4bc, 0xade79437, 0x6112a3b7, 0xedffbff8, 0xc74c6516);
    NextRound(r, 29, v29, 0xd5a79147, 0xec8726cb, v30);
    var v31 := Vars(0xea992a22, 0xa0060b30, 0x363482c9, 0x77d37528, 0x0109ab3a, 0xade79437, 0x6112a3b7, 0xedffbff8);
    NextRound(r, 30, v30, 0x06ca6351, 0x702138a4, v31);
    var v32 := Vars(0x73b33bf5, 0xea992a22, 0xa0060b30, 0x363482c9, 0xba591112, 0x0109ab3a, 0xade79437, 0x6112a3b7);
    NextRound(r, 31, v31, 0x14292967, 0xd3b7973b, v32);
  }

  lemma {:induction false} Literals32()
    ensures WORDS4[0] == 0x93f5997f && WORDS4[1] == 0x3b68ba73 && WORDS4[2] == 0xaff4ffc1 && WORDS4[3] == 0xf10a5c62
    ensures WORDS4[4] == 0x0a8b3996 && WORDS4[5] == 0x72af830a && WORDS4[6] == 0x9409e33e && WORDS4[7] == 0x24641522
  {
  }

  lemma {:induction false} Rounds32(r: seq<Vars>)
    requires Trace(r)
    ensures r[40] ==
      Vars(0x79ea687a, 0x6dc57a8a, 0x34df1604, 0x41a65cb1, 0x1efbc0a0, 0xf0781bc8, 0xa507a53d, 0x0772a26b)
  {
    hide Trace, AbcWord, K, WORDS4;
    Rounds24(r);
    Words32();
    Keys32();
    var v32 := Vars(0x73b33bf5, 0xea992a22, 0xa0060b30, 0x363482c9, 0xba591112, 0x0109ab3a, 0xade79437, 0x6112a3b7);
    Literals32();
    var v33 := Vars(0x98e12507, 0x73b33bf5, 0xea992a22, 0xa0060b30, 0x9cd9f5f6, 0xba591112, 0x0109ab3a, 0xade79437);
    NextRound(r, 32, v32, 0x27b70a85, 0x93f5997f, v33);
    var v34 := Vars(0xfe604df5, 0x98e12507, 0x73b33bf5, 0xea992a22, 0x59249dd3, 0x9cd9f5f6, 0xba591112, 0x0109ab3a);
    NextRound(r, 33, v33, 0x2e1b2138, 0x3b68ba73, v34);
    var v35 := Vars(0xa9a7738c, 0xfe604df5, 0x98e12507, 0x73b33bf5, 0x085f3833, 0x59249dd3, 0x9cd9f5f6, 0xba591112);
    NextRound(r, 34, v34, 0x4d2c6dfc, 0xaff4ffc1, v35);
    var v36 := Vars(0x65a0cfe4, 0xa9a7738c, 0xfe604df5, 0x98e12507, 0xf4b002d6, 0x085f3833, 0x59249dd3, 0x9cd9f5f6);
    NextRound(r, 35, v35, 0x53380d13, 0xf10a5c62, v36);
    var v37 := Vars(0x41a65cb1, 0x65a0cfe4, 0xa9a7738c, 0xfe604df5, 0x0772a26b, 0xf4b002d6, 0x085f3833, 0x59249dd3);
    NextRound(r, 36, v36, 0x650a7354, 0x0a8b3996, v37);
    var v38 := Vars(0x34df1604, 0x41a65cb1, 0x65a0cfe4, 0xa9a7738c, 0xa507a53d, 0x0772a26b, 0xf4b002d6, 0x085f3833);
    NextRound(r, 37, v37, 0x766a0abb, 0x72af830a, v38);
    var v39 := Vars(0x6dc57a8a, 0x34df1604, 0x41a65cb1, 0x65a0cfe4, 0xf0781bc8, 0xa507a53d, 0x0772a26b, 0xf4b002d6);
    NextRound(r, 38, v38, 0x81c2c92e, 0x9409e33e, v39);
    var v40 := Vars(0x79ea687a, 0x6dc57a8a, 0x34df1604, 0x41a65cb1, 0x1efbc0a0, 0xf0781bc8, 0xa507a53d, 0x0772a26b);
    NextRound(r, 39, v39, 0x92722c85, 0x24641522, v40);
  }

  lemma {:induction false} Literals40()
    ensures WORDS5[0] == 0x9f47bf94 && WORDS5[1] == 0xf0a64f5a && WORDS5[2] == 0x3e246a79 && WORDS5[3] == 0x27333ba3
    ensures WORDS5[4] == 0x0c4763f2 && WORDS5[5] == 0x840abf27 && WORDS5[6] == 0x7a290d5d && WORDS5[7] == 0x065c43da
  {
  }

  lemma {:induction false} Rounds40(r: seq<Vars>)
    requires Trace(r)
    ensures r[48] ==
      Vars(0x4172328d, 0xa14c14b0, 0x72ab4b91, 0x26628815, 0xfecf0bc6, 0xd57b94a9, 0xb7755da1, 0xa80f11f0)
  {
    hide Trace, AbcWord, K, WORDS5;
    Rounds32(r);
    Words40();
    Keys40();
    var v40 := Vars(0x79ea687a, 0x6dc57a8a, 0x34df1604, 0x41a65cb1, 0x1efbc0a0, 0xf0781bc8, 0xa507a53d, 0x0772a26b);
    Literals40();
    var v41 := Vars(0xd6670766, 0x79ea687a, 0x6dc57a8a, 0x34df1604, 0x26352d63, 0x1efbc0a0, 0xf0781bc8, 0xa507a53d);
    NextRound(r, 40, v40, 0xa2bfe8a1, 0x9f47bf94, v41);
    var v42 := Vars(0xdf46652f, 0xd6670766, 0x79ea687a, 0x6dc57a8a, 0x838b2711, 0x26352d63, 0x1efbc0a0, 0xf0781bc8);
    NextRound(r, 41, v41, 0xa81a664b, 0xf0a64f5a, v42);
    var v43 := Vars(0x17aa0dfe, 0xdf46652f, 0xd6670766, 0x79ea687a, 0xdecd4715, 0x838b2711, 0x26352d63, 0x1efbc0a0);
    NextRound(r, 42, v42, 0xc24b8b70, 0x3e246a79, v43);
    var v44 := Vars(0x9d4baf93, 0x17aa0dfe, 0xdf46652f, 0xd6670766, 0xfda24c2e, 0xdecd4715, 0x838b2711, 0x26352d63);
    NextRound(r, 43, v43, 0xc76c51a3, 0x27333ba3, v44);
    var v45 := Vars(0x26628815, 0x9d4baf93, 0x17aa0dfe, 0xdf46652f, 0xa80f11f0, 0xfda24c2e, 0xdecd4715, 0x838b2711);
    NextRound(r, 44, v44, 0xd192e819, 0x0c4763f2, v45);
    var v46 := Vars(0x72ab4b91, 0x26628815, 0x9d4baf93, 0x17aa0dfe, 0xb7755da1, 0xa80f11f0, 0xfda24c2e, 0xdecd4715);
    NextRound(r, 45, v45, 0xd6990624, 0x840abf27, v46);
    var v47 := Vars(0xa14c14b0, 0x72ab4b91, 0x26628815, 0x9d4baf93, 0xd57b94a9, 0xb7755da1, 0xa80f11f0, 0xfda24c2e);
    NextRound(r, 46, v46, 0xf40e3585, 0x7a290d5d, v47);
    var v48 := Vars(0x4172328d, 0xa14c14b0, 0x72ab4b91, 0x26628815, 0xfecf0bc6, 0xd57b94a9, 0xb7755da1, 0xa80f11f0);
    NextRound(r, 47, v47, 0x106aa070, 0x065c43da, v48);
  }

  lemma {:induction false} Literals48()
    ensures WORDS6[0] == 0xfb3e89cb && WORDS6[1] == 0xcc7617db && WORDS6[2] == 0xb9e66c34 && WORDS6[3] == 0xa9993667
    ensures WORDS6[4] == 0x84badedd && WORDS6[5] == 0xc21462bc && WORDS6[6] == 0x1487472c && WORDS6[7] == 0xb20f7a99
  {
  }

  lemma {:induction false} Rounds48(r: seq<Vars>)
    requires Trace(r)
    ensures r[56] ==
      Vars(0x38cc9913, 0x3ec45cdb, 0xf5702fdb, 0x101fd28f, 0x54cb266b, 0xe50e1b4f, 0x9f4787c3, 0x529e7d00)
  {
    hide Trace, AbcWord, K, WORDS6;
    Rounds40(r);
    Words48();
    Keys48();
    var v48 := Vars(0x4172328d, 0xa14c14b0, 0x72ab4b91, 0x26628815, 0xfecf0bc6, 0xd57b94a9, 0xb7755da1, 0xa80f11f0);
    Literals48();
    var v49 := Vars(0x05757ceb, 0x4172328d, 0xa14c14b0, 0x72ab4b91, 0xbd714038, 0xfecf0bc6, 0xd57b94a9, 0xb7755da1);
    NextRound(r, 48, v48, 0x19a4c116, 0xfb3e89cb, v49);
    var v50 := Vars(0xf11bfaa8, 0x05757ceb, 0x4172328d, 0xa14c14b0, 0x6e5c390c, 0xbd714038, 0xfecf0bc6, 0xd57b94a9);
    NextRound(r, 49, v49, 0x1e376c08, 0xcc7617db, v50);
    var v51 := Vars(0x7a0508a1, 0xf11bfaa8, 0x05757ceb, 0x4172328d, 0x52f1ccf7, 0x6e5c390c, 0xbd714038, 0xfecf0bc6);
    NextRound(r, 50, v50, 0x2748774c, 0xb9e66c34, v51);
    var v52 := Vars(0x886e7a22, 0x7a0508a1, 0xf11bfaa8, 0x05757ceb, 0x49231c1e, 0x52f1ccf7, 0x6e5c390c, 0xbd714038);
    NextRound(r, 51, v51, 0x34b0bcb5, 0xa9993667, v52);
    var v53 := Vars(0x101fd28f, 0x886e7a22, 0x7a0508a1, 0xf11bfaa8, 0x529e7d00, 0x49231c1e, 0x52f1ccf7, 0x6e5c390c);
    NextRound(r, 52, v52, 0x391c0cb3, 0x84badedd, v53);
    var v54 := Vars(0xf5702fdb, 0x101fd28f, 0x886e7a22, 0x7a0508a1, 0x9f4787c3, 0x529e7d00, 0x49231c1e, 0x52f1ccf7);
    NextRound(r, 53, v53, 0x4ed8aa4a, 0xc21462bc, v54);
    var v55 := Vars(0x3ec45cdb, 0xf5702fdb, 0x101fd28f, 0x886e7a22, 0xe50e1b4f, 0x9f4787c3, 0x529e7d00, 0x49231c1e);
    NextRound(r, 54, v54, 0x5b9cca4f, 0x1487472c, v55);
    var v56 := Vars(0x38cc9913, 0x3ec45cdb, 0xf5702fdb, 0x101fd28f, 0x54cb266b, 0xe50e1b4f, 0x9f4787c3, 0x529e7d00);
    NextRound(r, 55, v55, 0x682e6ff3, 0xb20f7a99, v56);
  }

  lemma {:induction false} Literals56()
    ensures WORDS7[0] == 0xef57b9cd && WORDS7[1] == 0xebe6b238 && WORDS7[2] == 0x9fe3095e && WORDS7[3] == 0x78bc8d4b
    ensures WORDS7[4] == 0xa43fcf15 && WORDS7[5] == 0x668b2ff8 && WORDS7[6] == 0xeeaba2cc && WORDS7[7] == 0x12b1edeb
  {
  }

  lemma {:induction false} Rounds56(r: seq<Vars>)
    requires Trace(r)
    ensures r[64] ==
      Vars(0x506e3058, 0xd39a2165, 0x04d24d6c, 0xb85e2ce9, 0x5ef50f24, 0xfb121210, 0x948d25b6, 0x961f4894)
  {
    hide Trace, AbcWord, K, WORDS7;
    Rounds48(r);
    Words56();
    Keys56();
    var v56 := Vars(0x38cc9913, 0x3ec45cdb, 0xf5702fdb, 0x101fd28f, 0x54cb266b, 0xe50e1b4f, 0x9f4787c3, 0x529e7d00);
    Literals56();
    var v57 := Vars(0xfcd1887b, 0x38cc9913, 0x3ec45cdb, 0xf5702fdb, 0x9b5e906c, 0x54cb266b, 0xe50e1b4f, 0x9f4787c3);
    NextRound(r, 56, v56, 0x748f82ee, 0xef57b9cd, v57);
    var v58 := Vars(0xc062d46f, 0xfcd1887b, 0x38cc9913, 0x3ec45cdb, 0x7e44008e, 0x9b5e906c, 0x54cb266b, 0xe50e1b4f);
    NextRound(r, 57, v57, 0x78a5636f, 0xebe6b238, v58);
    var v59 := Vars(0xffb70472, 0xc062d46f, 0xfcd1887b, 0x38cc9913, 0x6d83bfc6, 0x7e44008e, 0x9b5e906c, 0x54cb266b);
    NextRound(r, 58, v58, 0x84c87814, 0x9fe3095e, v59);
    var v60 := Vars(0xb6ae8fff, 0xffb70472, 0xc062d46f, 0xfcd1887b, 0xb21bad3d, 0x6d83bfc6, 0x7e44008e, 0x9b5e906c);
    NextRound(r, 59, v59, 0x8cc70208, 0x78bc8d4b, v60);
    var v61 := Vars(0xb85e2ce9, 0xb6ae8fff, 0xffb70472, 0xc062d46f, 0x961f4894, 0xb21bad3d, 0x6d83bfc6, 0x7e44008e);
    NextRound(r, 60, v60, 0x90befffa, 0xa43fcf15, v61);
    var v62 := Vars(0x04d24d6c, 0xb85e2ce9, 0xb6ae8fff, 0xffb70472, 0x948d25b6, 0x961f4894, 0xb21bad3d, 0x6d83bfc6);
    NextRound(r, 61, v61, 0xa4506ceb, 0x668b2ff8, v62);
    var v63 := Vars(0xd39a2165, 0x04d24d6c, 0xb85e2ce9, 0xb6ae8fff, 0xfb121210, 0x948d25b6, 0x961f4894, 0xb21bad3d);
    NextRound(r, 62, v62, 0xbef9a3f7, 0xeeaba2cc, v63);
    var v64 := Vars(0x506e3058, 0xd39a2165, 0x04d24d6c, 0xb85e2ce9, 0x5ef50f24, 0xfb121210, 0x948d25b6, 0x961f4894);
    NextRound(r, 63, v63, 0xc67178f2, 0x12b1edeb, v64);
  }

  // ---- the digest ---------------------------------------------------------

  /** The rounds of the block are such a trace. */
  lemma {:induction false} TraceOfRounds() returns (r: seq<Vars>)
    ensures Trace(r) && r[64] == Rounds(ToVars(H0), AbcBlock(), 64)
  {
    hide AbcBlock, Round, K, W;
    r := seq(65, t requires 0 <= t < 65 => Rounds(ToVars(H0), AbcBlock(), t));
  }

  lemma {:induction false} LastRound(block: Block, v: Vars)
    requires Rounds(ToVars(H0), block, 64) == v
    ensures Compress(H0, block) == AddWords(H0, FromVars(v))
  {
    KeyCount();
    hide K, Rounds, AddWords;
  }

  lemma {:induction false} KeyCount()
    ensures |K| == 64
  {
  }

  lemma {:induction false} AbcSum(v: Vars)
    requires v ==
      Vars(0x506e3058, 0xd39a2165, 0x04d24d6c, 0xb85e2ce9, 0x5ef50f24, 0xfb121210, 0x948d25b6, 0x961f4894)
    ensures AddWords(H0, FromVars(v)) == [
      0xba7816bf, 0x8f01cfea, 0x414140de, 0x5dae2223, 0xb00361a3, 0x96177a9c, 0xb410ff61, 0xf20015ad
    ]
  {
  }

  lemma {:induction false} HexOf0()
    ensures HexWord(0xba7816bf) == "ba7816bf"
  {
  }

  lemma {:induction false} HexOf1()
    ensures HexWord(0x8f01cfea) == "8f01cfea"
  {
  }

  lemma {:induction false} HexOf2()
    ensures HexWord(0x414140de) == "414140de"
  {
  }

  lemma {:induction false} HexOf3()
    ensures HexWord(0x5dae2223) == "5dae2223"
  {
  }

  lemma {:induction false} HexOf4()
    ensures HexWord(0xb00361a3) == "b00361a3"
  {
  }

  lemma {:induction false} HexOf5()
    ensures HexWord(0x96177a9c) == "96177a9c"
  {
  }

  lemma {:induction false} HexOf6()
    ensures HexWord(0xb410ff61) == "b410ff61"
  {
  }

  lemma {:induction false} HexOf7()
    ensures HexWord(0xf20015ad) == "f20015ad"
  {
  }

  /** The program prints the published digest of "abc". */
  method DigestOfAbc() returns (out: string)
    ensures out ==
      "ba7816bf" + "8f01cfea" + "414140de" + "5dae2223" + "b00361a3" + "96177a9c" + "b410ff61" + "f20015ad"
  {
    hide HexWord, HexText, Encode, Rounds, Compress, AddWords, Pad, W, Round, K, Fold;
    out := Sha256Text("abc");
    AbcBytes();
    PadOfAbc();
    ghost var block := AbcBlock();
    FoldOne(H0, block);
    ghost var r := TraceOfRounds();
    Rounds56(r);
    LastRound(block, r[64]);
    AbcSum(r[64]);
    ghost var s := Digest(ABC);
    EightWords(s);
    HexOf0();
    HexOf1();
    HexOf2();
    HexOf3();
    HexOf4();
    HexOf5();
    HexOf6();
    HexOf7();
  }

  lemma {:induction false} AbcBytes()
    ensures Encode("abc") == ABC
  {
    assert "abc"[1..] == "bc" && "bc"[1..] == "c" && "c"[1..] == "";
    assert Encode("c") == EncodeChar('c') + Encode("") == [0x63];
    assert Encode("bc") == EncodeChar('b') + Encode("c") == [0x62, 0x63];
    hide Encode;
  }

  lemma {:induction false} EightWords(s: State)
    ensures HexText(s) == HexWord(s[0]) + HexWord(s[1]) + HexWord(s[2]) + HexWord(s[3]) + HexWord(s[4]) +
      HexWord(s[5]) + HexWord(s[6]) + HexWord(s[7])
  {
    hide HexWord;
    assert HexPrefix(s, 1) == HexPrefix(s, 0) + HexWord(s[0]) == HexWord(s[0]);
    assert HexPrefix(s, 2) == HexPrefix(s, 1) + HexWord(s[1]);
    assert HexPrefix(s, 3) == HexPrefix(s, 2) + HexWord(s[2]);
    assert HexPrefix(s, 4) == HexPrefix(s, 3) + HexWord(s[3]);
    assert HexPrefix(s, 5) == HexPrefix(s, 4) + HexWord(s[4]);
    assert HexPrefix(s, 6) == HexPrefix(s, 5) + HexWord(s[5]);
    assert HexPrefix(s, 7) == HexPrefix(s, 6) + HexWord(s[6]);
    assert HexPrefix(s, 8) == HexPrefix(s, 7) + HexWord(s[7]);
  }
}
