/** Where the constants of `Hash` come from (sections 4.2.2 and 5.3.3 of FIPS 180-4). */
module HashConstants {
  import opened Hash

  /** `w` holds the first 32 bits of the fraction of the square root of `p`, and `whole` is its whole part. */
  predicate SquareRoot(p: nat, whole: nat, w: Word) {
    var c := whole * 0x1_0000_0000 + w as int;
    c * c <= p * 0x1_0000_0000_0000_0000 < (c + 1) * (c + 1)
  }

  /** The same for the cube root. */
  predicate CubeRoot(p: nat, whole: nat, w: Word) {
    var c := whole * 0x1_0000_0000 + w as int;
    c * c * c <= p * 0x1_0000_0000_0000_0000_0000_0000 < (c + 1) * (c + 1) * (c + 1)
  }

  /** The initial state comes from the square roots of the first eight primes. */
  lemma {:induction false} InitialState()
    ensures SquareRoot(2, 1, H0[0]) && SquareRoot(3, 1, H0[1])
    ensures SquareRoot(5, 2, H0[2]) && SquareRoot(7, 2, H0[3])
    ensures SquareRoot(11, 3, H0[4]) && SquareRoot(13, 3, H0[5])
    ensures SquareRoot(17, 4, H0[6]) && SquareRoot(19, 4, H0[7])
  {
    InitialWords();
    hide H0;
  }

  lemma {:induction false} InitialWords()
    ensures H0[0] == 0x6a09e667 && H0[1] == 0xbb67ae85 && H0[2] == 0x3c6ef372 && H0[3] == 0xa54ff53a
    ensures H0[4] == 0x510e527f && H0[5] == 0x9b05688c && H0[6] == 0x1f83d9ab && H0[7] == 0x5be0cd19
  {
  }

  // The round constants come from the cube roots of the first 64 primes.

  lemma {:induction false} Roots0()
    ensures CubeRoot(2, 1, K[0]) && CubeRoot(3, 1, K[1])
    ensures CubeRoot(5, 1, K[2]) && CubeRoot(7, 1, K[3])
    ensures CubeRoot(11, 2, K[4]) && CubeRoot(13, 2, K[5])
    ensures CubeRoot(17, 2, K[6]) && CubeRoot(19, 2, K[7])
  {
    Keys0();
    hide K;
  }

  lemma {:induction false} Keys0()
    ensures K[0] == 0x428a2f98 && K[1] == 0x71374491 && K[2] == 0xb5c0fbcf && K[3] == 0xe9b5dba5
    ensures K[4] == 0x3956c25b && K[5] == 0x59f111f1 && K[6] == 0x923f82a4 && K[7] == 0xab1c5ed5
  {
  }

  lemma {:induction false} Roots8()
    ensures CubeRoot(23, 2, K[8]) && CubeRoot(29, 3, K[9])
    ensures CubeRoot(31, 3, K[10]) && CubeRoot(37, 3, K[11])
    ensures CubeRoot(41, 3, K[12]) && CubeRoot(43, 3, K[13])
    ensures CubeRoot(47, 3, K[14]) && CubeRoot(53, 3, K[15])
  {
    Keys8();
    hide K;
  }

  lemma {:induction false} Keys8()
    ensures K[8] == 0xd807aa98 && K[9] == 0x12835b01 && K[10] == 0x243185be && K[11] == 0x550c7dc3
    ensures K[12] == 0x72be5d74 && K[13] == 0x80deb1fe && K[14] == 0x9bdc06a7 && K[15] == 0xc19bf174
  {
  }

  lemma {:induction false} Roots16()
    ensures CubeRoot(59, 3, K[16]) && CubeRoot(61, 3, K[17])
    ensures CubeRoot(67, 4, K[18]) && CubeRoot(71, 4, K[19])
    ensures CubeRoot(73, 4, K[20]) && CubeRoot(79, 4, K[21])
    ensures CubeRoot(83, 4, K[22]) && CubeRoot(89, 4, K[23])
  {
    Keys16();
    hide K;
  }

  lemma {:induction false} Keys16()
    ensures K[16] == 0xe49b69c1 && K[17] == 0xefbe4786 && K[18] == 0x0fc19dc6 && K[19] == 0x240ca1cc
    ensures K[20] == 0x2de92c6f && K[21] == 0x4a7484aa && K[22] == 0x5cb0a9dc && K[23] == 0x76f988da
  {
  }

  lemma {:induction false} Roots24()
    ensures CubeRoot(97, 4, K[24]) && CubeRoot(101, 4, K[25])
    ensures CubeRoot(103, 4, K[26]) && CubeRoot(107, 4, K[27])
    ensures CubeRoot(109, 4, K[28]) && CubeRoot(113, 4, K[29])
    ensures CubeRoot(127, 5, K[30]) && CubeRoot(131, 5, K[31])
  {
    Keys24();
    hide K;
  }

  lemma {:induction false} Keys24()
    ensures K[24] == 0x983e5152 && K[25] == 0xa831c66d && K[26] == 0xb00327c8 && K[27] == 0xbf597fc7
    ensures K[28] == 0xc6e00bf3 && K[29] == 0xd5a79147 && K[30] == 0x06ca6351 && K[31] == 0x14292967
  {
  }

  lemma {:induction false} Roots32()
    ensures CubeRoot(137, 5, K[32]) && CubeRoot(139, 5, K[33])
    ensures CubeRoot(149, 5, K[34]) && CubeRoot(151, 5, K[35])
    ensures CubeRoot(157, 5, K[36]) && CubeRoot(163, 5, K[37])
    ensures CubeRoot(167, 5, K[38]) && CubeRoot(173, 5, K[39])
  {
    Keys32();
    hide K;
  }

  lemma {:induction false} Keys32()
    ensures K[32] == 0x27b70a85 && K[33] == 0x2e1b2138 && K[34] == 0x4d2c6dfc && K[35] == 0x53380d13
    ensures K[36] == 0x650a7354 && K[37] == 0x766a0abb && K[38] == 0x81c2c92e && K[39] == 0x92722c85
  {
  }

  lemma {:induction false} Roots40()
    ensures CubeRoot(179, 5, K[40]) && CubeRoot(181, 5, K[41])
    ensures CubeRoot(191, 5, K[42]) && CubeRoot(193, 5, K[43])
    ensures CubeRoot(197, 5, K[44]) && CubeRoot(199, 5, K[45])
    ensures CubeRoot(211, 5, K[46]) && CubeRoot(223, 6, K[47])
  {
    Keys40();
    hide K;
  }

  lemma {:induction false} Keys40()
    ensures K[40] == 0xa2bfe8a1 && K[41] == 0xa81a664b && K[42] == 0xc24b8b70 && K[43] == 0xc76c51a3
    ensures K[44] == 0xd192e819 && K[45] == 0xd6990624 && K[46] == 0xf40e3585 && K[47] == 0x106aa070
  {
  }

  lemma {:induction false} Roots48()
    ensures CubeRoot(227, 6, K[48]) && CubeRoot(229, 6, K[49])
    ensures CubeRoot(233, 6, K[50]) && CubeRoot(239, 6, K[51])
    ensures CubeRoot(241, 6, K[52]) && CubeRoot(251, 6, K[53])
    ensures CubeRoot(257, 6, K[54]) && CubeRoot(263, 6, K[55])
  {
    Keys48();
    hide K;
  }

  lemma {:induction false} Keys48()
    ensures K[48] == 0x19a4c116 && K[49] == 0x1e376c08 && K[50] == 0x2748774c && K[51] == 0x34b0bcb5
    ensures K[52] == 0x391c0cb3 && K[53] == 0x4ed8aa4a && K[54] == 0x5b9cca4f && K[55] == 0x682e6ff3
  {
  }

  lemma {:induction false} Roots56()
    ensures CubeRoot(269, 6, K[56]) && CubeRoot(271, 6, K[57])
    ensures CubeRoot(277, 6, K[58]) && CubeRoot(281, 6, K[59])
    ensures CubeRoot(283, 6, K[60]) && CubeRoot(293, 6, K[61])
    ensures CubeRoot(307, 6, K[62]) && CubeRoot(311, 6, K[63])
  {
    Keys56();
    hide K;
  }

  lemma {:induction false} Keys56()
    ensures K[56] == 0x748f82ee && K[57] == 0x78a5636f && K[58] == 0x84c87814 && K[59] == 0x8cc70208
    ensures K[60] == 0x90befffa && K[61] == 0xa4506ceb && K[62] == 0xbef9a3f7 && K[63] == 0xc67178f2
  {
  }
}
