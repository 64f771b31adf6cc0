// The digest of "abc", one of the test suite in section A.5 of RFC 1321, step by step.
module Rfc1321Examples {
  import opened Words
  import opened Rfc1321
  import opened Md5

  const ABC: seq<bv8> := [0x61, 0x62, 0x63]

  // The padded message: one block, of which three words are not zero.
  function Block(): (b: seq<bv8>)
    ensures |b| == 64
  {
    [0x61, 0x62, 0x63, 0x80] + Zeros(52) + [0x18, 0, 0, 0, 0, 0, 0, 0]
  }

  predicate IsBlockOfAbc(m: seq<bv32>) {
    |m| == 16 && m[0] == 0x80636261 && m[14] == 24 && m[15] == 0 && forall k :: 1 <= k < 14 ==> m[k] == 0
  }

  lemma PaddedAbc()
    ensures Pad(ABC) == Block()
  {
    hide LittleEndian;
    LengthOfAbc();
    assert PaddedHead(ABC) == [0x61, 0x62, 0x63, 0x80] + Zeros(52);
  }

  lemma LengthOfAbc()
    ensures LittleEndian(BitLength(ABC), 8) == [0x18, 0, 0, 0, 0, 0, 0, 0]
  {
    hide LittleEndian;
    assert BitLength(ABC) == 24;
    LittleEndianWords(24, 0);
    FourBytes(24);
    FourBytes(0);
  }

  lemma WordsOfAbc()
    ensures IsBlockOfAbc(BlockWords(Block()))
  {
    hide LittleEndianWord;
    FourWords();
    var b := Block();
    forall k | 1 <= k < 14
      ensures BlockWords(b)[k] == 0
    {
      assert b[4 * k] == 0 && b[4 * k + 1] == 0 && b[4 * k + 2] == 0 && b[4 * k + 3] == 0;
    }
    assert b[0] == 0x61 && b[1] == 0x62 && b[2] == 0x63 && b[3] == 0x80;
    assert b[56] == 0x18 && b[57] == 0 && b[58] == 0 && b[59] == 0;
    assert b[60] == 0 && b[61] == 0 && b[62] == 0 && b[63] == 0;
  }

  lemma FourWords()
    ensures LittleEndianWord(0x61, 0x62, 0x63, 0x80) == 0x80636261
    ensures LittleEndianWord(0x18, 0, 0, 0) == 24
    ensures LittleEndianWord(0, 0, 0, 0) == 0
  {
  }

  // Step i, on the registers that the steps before have left.
  lemma NextStep(m: seq<bv32>, i: nat, k: nat, t: bv32, s: nat, a: bv32, b: bv32, c: bv32, d: bv32, x: bv32, next: bv32)
    requires |m| == 16 && Constants(i, k, t, s) && m[k] == x
    requires Steps(INITIAL, m, i) == Quad(a, b, c, d)
    requires 0 < s < 32 && NewRegister(Auxiliary(i, b, c, d), a, b, x, t, s) == next
    ensures Steps(INITIAL, m, i + 1) == Quad(d, next, b, c)
  {
    hide NewRegister, Auxiliary, Sine, Shift, WordIndex;
  }

  lemma Registers0()
    ensures NewRegister(F(0xefcdab89, 0x98badcfe, 0x10325476), 0x67452301, 0xefcdab89, 0x80636261, 0xd76aa478, 7) == 0xd6d117b4
    ensures NewRegister(F(0xd6d117b4, 0xefcdab89, 0x98badcfe), 0x10325476, 0xd6d117b4, 0x00000000, 0xe8c7b756, 12) == 0x344a8432
    ensures NewRegister(F(0x344a8432, 0xd6d117b4, 0xefcdab89), 0x98badcfe, 0x344a8432, 0x00000000, 0x242070db, 17) == 0x2f6fbd72
    ensures NewRegister(F(0x2f6fbd72, 0x344a8432, 0xd6d117b4), 0xefcdab89, 0x2f6fbd72, 0x00000000, 0xc1bdceee, 22) == 0x7ad956f2
    ensures NewRegister(F(0x7ad956f2, 0x2f6fbd72, 0x344a8432), 0xd6d117b4, 0x7ad956f2, 0x00000000, 0xf57c0faf, 7) == 0xc73741ef
    ensures NewRegister(F(0xc73741ef, 0x7ad956f2, 0x2f6fbd72), 0x344a8432, 0xc73741ef, 0x00000000, 0x4787c62a, 12) == 0x8bac3051
    ensures NewRegister(F(0x8bac3051, 0xc73741ef, 0x7ad956f2), 0x2f6fbd72, 0x8bac3051, 0x00000000, 0xa8304613, 17) == 0x207dc67b
    ensures NewRegister(F(0x207dc67b, 0x8bac3051, 0xc73741ef), 0x7ad956f2, 0x207dc67b, 0x00000000, 0xfd469501, 22) == 0x928d99f6
  {
  }

  lemma Registers8()
    ensures NewRegister(F(0x928d99f6, 0x207dc67b, 0x8bac3051), 0xc73741ef, 0x928d99f6, 0x00000000, 0x698098d8, 7) == 0x854b3712
    ensures NewRegister(F(0x854b3712, 0x928d99f6, 0x207dc67b), 0x8bac3051, 0x854b3712, 0x00000000, 0x8b44f7af, 12) == 0x74e2f284
    ensures NewRegister(F(0x74e2f284, 0x854b3712, 0x928d99f6), 0x207dc67b, 0x74e2f284, 0x00000000, 0xffff5bb1, 17) == 0x3020401c
    ensures NewRegister(F(0x3020401c, 0x74e2f284, 0x854b3712), 0x928d99f6, 0x3020401c, 0x00000000, 0x895cd7be, 22) == 0x5ed49596
    ensures NewRegister(F(0x5ed49596, 0x3020401c, 0x74e2f284), 0x854b3712, 0x5ed49596, 0x00000000, 0x6b901122, 7) == 0xdda9b9a6
    ensures NewRegister(F(0xdda9b9a6, 0x5ed49596, 0x3020401c), 0x74e2f284, 0xdda9b9a6, 0x00000000, 0xfd987193, 12) == 0xa1051895
    ensures NewRegister(F(0xa1051895, 0xdda9b9a6, 0x5ed49596), 0x3020401c, 0xa1051895, 0x00000018, 0xa679438e, 17) == 0xe396856b
    ensures NewRegister(F(0xe396856b, 0xa1051895, 0xdda9b9a6), 0x5ed49596, 0xe396856b, 0x00000000, 0x49b40821, 22) == 0x72aff2e0
  {
  }

  lemma Registers16()
    ensures NewRegister(G(0x72aff2e0, 0xe396856b, 0xa1051895), 0xdda9b9a6, 0x72aff2e0, 0x00000000, 0xf61e2562, 5) == 0x3e9e9126
    ensures NewRegister(G(0x3e9e9126, 0x72aff2e0, 0xe396856b), 0xa1051895, 0x3e9e9126, 0x00000000, 0xc040b340, 9) == 0x4a1d804e
    ensures NewRegister(G(0x4a1d804e, 0x3e9e9126, 0x72aff2e0), 0xe396856b, 0x4a1d804e, 0x00000000, 0x265e5a51, 14) == 0xe25e1652
    ensures NewRegister(G(0xe25e1652, 0x4a1d804e, 0x3e9e9126), 0x72aff2e0, 0xe25e1652, 0x80636261, 0xe9b6c7aa, 20) == 0xb5b204e4
    ensures NewRegister(G(0xb5b204e4, 0xe25e1652, 0x4a1d804e), 0x3e9e9126, 0xb5b204e4, 0x00000000, 0xd62f105d, 5) == 0x59a8ffda
    ensures NewRegister(G(0x59a8ffda, 0xb5b204e4, 0xe25e1652), 0x4a1d804e, 0x59a8ffda, 0x00000000, 0x02441453, 9) == 0x6d002f1e
    ensures NewRegister(G(0x6d002f1e, 0x59a8ffda, 0xb5b204e4), 0xe25e1652, 0x6d002f1e, 0x00000000, 0xd8a1e681, 14) == 0xabfc7920
    ensures NewRegister(G(0xabfc7920, 0x6d002f1e, 0x59a8ffda), 0xb5b204e4, 0xabfc7920, 0x00000000, 0xe7d3fbc8, 20) == 0x47092c07
  {
  }

  lemma Registers24()
    ensures NewRegister(G(0x47092c07, 0xabfc7920, 0x6d002f1e), 0x59a8ffda, 0x47092c07, 0x00000000, 0x21e1cde6, 5) == 0xb7f268cf
    ensures NewRegister(G(0xb7f268cf, 0x47092c07, 0xabfc7920), 0x6d002f1e, 0xb7f268cf, 0x00000018, 0xc33707d6, 9) == 0x09388eff
    ensures NewRegister(G(0x09388eff, 0xb7f268cf, 0x47092c07), 0xabfc7920, 0x09388eff, 0x00000000, 0xf4d50d87, 14) == 0xfe1623b1
    ensures NewRegister(G(0xfe1623b1, 0x09388eff, 0xb7f268cf), 0x47092c07, 0xfe1623b1, 0x00000000, 0x455a14ed, 20) == 0x786acb8f
    ensures NewRegister(G(0x786acb8f, 0xfe1623b1, 0x09388eff), 0xb7f268cf, 0x786acb8f, 0x00000000, 0xa9e3e905, 5) == 0x790a77fb
    ensures NewRegister(G(0x790a77fb, 0x786acb8f, 0xfe1623b1), 0x09388eff, 0x790a77fb, 0x00000000, 0xfcefa3f8, 9) == 0x9f47e4f8
    ensures NewRegister(G(0x9f47e4f8, 0x790a77fb, 0x786acb8f), 0xfe1623b1, 0x9f47e4f8, 0x00000000, 0x676f02d9, 14) == 0xa62884aa
    ensures NewRegister(G(0xa62884aa, 0x9f47e4f8, 0x790a77fb), 0x786acb8f, 0xa62884aa, 0x00000000, 0x8d2a4c8a, 20) == 0x726342d3
  {
  }

  lemma Registers32()
    ensures NewRegister(H(0x726342d3, 0xa62884aa, 0x9f47e4f8), 0x790a77fb, 0x726342d3, 0x00000000, 0xfffa3942, 4) == 0xb3707ebf
    ensures NewRegister(H(0xb3707ebf, 0x726342d3, 0xa62884aa), 0x9f47e4f8, 0xb3707ebf, 0x00000000, 0x8771f681, 11) == 0x60127b2e
    ensures NewRegister(H(0x60127b2e, 0xb3707ebf, 0x726342d3), 0xa62884aa, 0x60127b2e, 0x00000000, 0x6d9d6122, 16) == 0x8d212ff5
    ensures NewRegister(H(0x8d212ff5, 0x60127b2e, 0xb3707ebf), 0x726342d3, 0x8d212ff5, 0x00000018, 0xfde5380c, 23) == 0x3b0875c7
    ensures NewRegister(H(0x3b0875c7, 0x8d212ff5, 0x60127b2e), 0xb3707ebf, 0x3b0875c7, 0x00000000, 0xa4beea44, 4) == 0x21b117b9
    ensures NewRegister(H(0x21b117b9, 0x3b0875c7, 0x8d212ff5), 0x60127b2e, 0x21b117b9, 0x00000000, 0x4bdecfa9, 11) == 0x6e7429d5
    ensures NewRegister(H(0x6e7429d5, 0x21b117b9, 0x3b0875c7), 0x8d212ff5, 0x6e7429d5, 0x00000000, 0xf6bb4b60, 16) == 0x3575227e
    ensures NewRegister(H(0x3575227e, 0x6e7429d5, 0x21b117b9), 0x3b0875c7, 0x3575227e, 0x00000000, 0xbebfbc70, 23) == 0x5a2f5ea5
  {
  }

  lemma Registers40()
    ensures NewRegister(H(0x5a2f5ea5, 0x3575227e, 0x6e7429d5), 0x21b117b9, 0x5a2f5ea5, 0x00000000, 0x289b7ec6, 4) == 0x11de1779
    ensures NewRegister(H(0x11de1779, 0x5a2f5ea5, 0x3575227e), 0x6e7429d5, 0x11de1779, 0x80636261, 0xeaa127fa, 11) == 0xfadcaa38
    ensures NewRegister(H(0xfadcaa38, 0x11de1779, 0x5a2f5ea5), 0x3575227e, 0xfadcaa38, 0x00000000, 0xd4ef3085, 16) == 0x31c465ca
    ensures NewRegister(H(0x31c465ca, 0xfadcaa38, 0x11de1779), 0x5a2f5ea5, 0x31c465ca, 0x00000000, 0x04881d05, 23) == 0x4c6124f4
    ensures NewRegister(H(0x4c6124f4, 0x31c465ca, 0xfadcaa38), 0x11de1779, 0x4c6124f4, 0x00000000, 0xd9d4d039, 4) == 0x7f2e507b
    ensures NewRegister(H(0x7f2e507b, 0x4c6124f4, 0x31c465ca), 0xfadcaa38, 0x7f2e507b, 0x00000000, 0xe6db99e5, 11) == 0x99d9679d
    ensures NewRegister(H(0x99d9679d, 0x7f2e507b, 0x4c6124f4), 0x31c465ca, 0x99d9679d, 0x00000000, 0x1fa27cf8, 16) == 0x8fae6399
    ensures NewRegister(H(0x8fae6399, 0x99d9679d, 0x7f2e507b), 0x4c6124f4, 0x8fae6399, 0x00000000, 0xc4ac5665, 23) == 0x7beb9700
  {
  }

  lemma Registers48()
    ensures NewRegister(I(0x7beb9700, 0x8fae6399, 0x99d9679d), 0x7f2e507b, 0x7beb9700, 0x80636261, 0xf4292244, 6) == 0x7b201df8
    ensures NewRegister(I(0x7b201df8, 0x7beb9700, 0x8fae6399), 0x99d9679d, 0x7b201df8, 0x00000000, 0x432aff97, 10) == 0xf4e8e96e
    ensures NewRegister(I(0xf4e8e96e, 0x7b201df8, 0x7beb9700), 0x8fae6399, 0xf4e8e96e, 0x00000018, 0xab9423a7, 15) == 0xb298cefd
    ensures NewRegister(I(0xb298cefd, 0xf4e8e96e, 0x7b201df8), 0x7beb9700, 0xb298cefd, 0x00000000, 0xfc93a039, 21) == 0x8bf025c4
    ensures NewRegister(I(0x8bf025c4, 0xb298cefd, 0xf4e8e96e), 0x7b201df8, 0x8bf025c4, 0x00000000, 0x655b59c3, 6) == 0x06cc5e8a
    ensures NewRegister(I(0x06cc5e8a, 0x8bf025c4, 0xb298cefd), 0xf4e8e96e, 0x06cc5e8a, 0x00000000, 0x8f0ccc92, 10) == 0x5b0d97aa
    ensures NewRegister(I(0x5b0d97aa, 0x06cc5e8a, 0x8bf025c4), 0xb298cefd, 0x5b0d97aa, 0x00000000, 0xffeff47d, 15) == 0x7d632dd0
    ensures NewRegister(I(0x7d632dd0, 0x5b0d97aa, 0x06cc5e8a), 0x8bf025c4, 0x7d632dd0, 0x00000000, 0x85845dd1, 21) == 0x3bfa2c27
  {
  }

  lemma Registers56()
    ensures NewRegister(I(0x3bfa2c27, 0x7d632dd0, 0x5b0d97aa), 0x06cc5e8a, 0x3bfa2c27, 0x00000000, 0x6fa87e4f, 6) == 0x7f81cc35
    ensures NewRegister(I(0x7f81cc35, 0x3bfa2c27, 0x7d632dd0), 0x5b0d97aa, 0x7f81cc35, 0x00000000, 0xfe2ce6e0, 10) == 0x094454ab
    ensures NewRegister(I(0x094454ab, 0x7f81cc35, 0x3bfa2c27), 0x7d632dd0, 0x094454ab, 0x00000000, 0xa3014314, 15) == 0x4f9dbe3f
    ensures NewRegister(I(0x4f9dbe3f, 0x094454ab, 0x7f81cc35), 0x3bfa2c27, 0x4f9dbe3f, 0x00000000, 0x4e0811a1, 21) == 0x7327d604
    ensures NewRegister(I(0x7327d604, 0x4f9dbe3f, 0x094454ab), 0x7f81cc35, 0x7327d604, 0x00000000, 0xf7537e82, 6) == 0x310ade8f
    ensures NewRegister(I(0x310ade8f, 0x7327d604, 0x4f9dbe3f), 0x094454ab, 0x310ade8f, 0x00000000, 0xbd3af235, 10) == 0x624d8cb2
    ensures NewRegister(I(0x624d8cb2, 0x310ade8f, 0x7327d604), 0x4f9dbe3f, 0x624d8cb2, 0x00000000, 0x2ad7d2bb, 15) == 0xe484b9d8
    ensures NewRegister(I(0xe484b9d8, 0x624d8cb2, 0x310ade8f), 0x7327d604, 0xe484b9d8, 0x00000000, 0xeb86d391, 21) == 0xc08226b3
  {
  }

  lemma Steps0(m: seq<bv32>)
    requires IsBlockOfAbc(m)
    ensures Steps(INITIAL, m, 8) == Quad(0xc73741ef, 0x928d99f6, 0x207dc67b, 0x8bac3051)
  {
    hide Steps, Constants, NewRegister, F, G, H, I;
    NoSteps(INITIAL, m);
    ConstantsFrom0();
    Registers0();
    NextStep(m, 0, 0, 0xd76aa478, 7, 0x67452301, 0xefcdab89, 0x98badcfe, 0x10325476, 0x80636261, 0xd6d117b4);
    NextStep(m, 1, 1, 0xe8c7b756, 12, 0x10325476, 0xd6d117b4, 0xefcdab89, 0x98badcfe, 0x00000000, 0x344a8432);
    NextStep(m, 2, 2, 0x242070db, 17, 0x98badcfe, 0x344a8432, 0xd6d117b4, 0xefcdab89, 0x00000000, 0x2f6fbd72);
    NextStep(m, 3, 3, 0xc1bdceee, 22, 0xefcdab89, 0x2f6fbd72, 0x344a8432, 0xd6d117b4, 0x00000000, 0x7ad956f2);
    NextStep(m, 4, 4, 0xf57c0faf, 7, 0xd6d117b4, 0x7ad956f2, 0x2f6fbd72, 0x344a8432, 0x00000000, 0xc73741ef);
    NextStep(m, 5, 5, 0x4787c62a, 12, 0x344a8432, 0xc73741ef, 0x7ad956f2, 0x2f6fbd72, 0x00000000, 0x8bac3051);
    NextStep(m, 6, 6, 0xa8304613, 17, 0x2f6fbd72, 0x8bac3051, 0xc73741ef, 0x7ad956f2, 0x00000000, 0x207dc67b);
    NextStep(m, 7, 7, 0xfd469501, 22, 0x7ad956f2, 0x207dc67b, 0x8bac3051, 0xc73741ef, 0x00000000, 0x928d99f6);
  }

  lemma Steps8(m: seq<bv32>)
    requires IsBlockOfAbc(m)
    ensures Steps(INITIAL, m, 16) == Quad(0xdda9b9a6, 0x72aff2e0, 0xe396856b, 0xa1051895)
  {
    hide Steps, Constants, NewRegister, F, G, H, I;
    Steps0(m);
    ConstantsFrom8();
    Registers8();
    NextStep(m, 8, 8, 0x698098d8, 7, 0xc73741ef, 0x928d99f6, 0x207dc67b, 0x8bac3051, 0x00000000, 0x854b3712);
    NextStep(m, 9, 9, 0x8b44f7af, 12, 0x8bac3051, 0x854b3712, 0x928d99f6, 0x207dc67b, 0x00000000, 0x74e2f284);
    NextStep(m, 10, 10, 0xffff5bb1, 17, 0x207dc67b, 0x74e2f284, 0x854b3712, 0x928d99f6, 0x00000000, 0x3020401c);
    NextStep(m, 11, 11, 0x895cd7be, 22, 0x928d99f6, 0x3020401c, 0x74e2f284, 0x854b3712, 0x00000000, 0x5ed49596);
    NextStep(m, 12, 12, 0x6b901122, 7, 0x854b3712, 0x5ed49596, 0x3020401c, 0x74e2f284, 0x00000000, 0xdda9b9a6);
    NextStep(m, 13, 13, 0xfd987193, 12, 0x74e2f284, 0xdda9b9a6, 0x5ed49596, 0x3020401c, 0x00000000, 0xa1051895);
    NextStep(m, 14, 14, 0xa679438e, 17, 0x3020401c, 0xa1051895, 0xdda9b9a6, 0x5ed49596, 0x00000018, 0xe396856b);
    NextStep(m, 15, 15, 0x49b40821, 22, 0x5ed49596, 0xe396856b, 0xa1051895, 0xdda9b9a6, 0x00000000, 0x72aff2e0);
  }

  lemma Steps16(m: seq<bv32>)
    requires IsBlockOfAbc(m)
    ensures Steps(INITIAL, m, 24) == Quad(0x59a8ffda, 0x47092c07, 0xabfc7920, 0x6d002f1e)
  {
    hide Steps, Constants, NewRegister, F, G, H, I;
    Steps8(m);
    ConstantsFrom16();
    Registers16();
    NextStep(m, 16, 1, 0xf61e2562, 5, 0xdda9b9a6, 0x72aff2e0, 0xe396856b, 0xa1051895, 0x00000000, 0x3e9e9126);
    NextStep(m, 17, 6, 0xc040b340, 9, 0xa1051895, 0x3e9e9126, 0x72aff2e0, 0xe396856b, 0x00000000, 0x4a1d804e);
    NextStep(m, 18, 11, 0x265e5a51, 14, 0xe396856b, 0x4a1d804e, 0x3e9e9126, 0x72aff2e0, 0x00000000, 0xe25e1652);
    NextStep(m, 19, 0, 0xe9b6c7aa, 20, 0x72aff2e0, 0xe25e1652, 0x4a1d804e, 0x3e9e9126, 0x80636261, 0xb5b204e4);
    NextStep(m, 20, 5, 0xd62f105d, 5, 0x3e9e9126, 0xb5b204e4, 0xe25e1652, 0x4a1d804e, 0x00000000, 0x59a8ffda);
    NextStep(m, 21, 10, 0x02441453, 9, 0x4a1d804e, 0x59a8ffda, 0xb5b204e4, 0xe25e1652, 0x00000000, 0x6d002f1e);
    NextStep(m, 22, 15, 0xd8a1e681, 14, 0xe25e1652, 0x6d002f1e, 0x59a8ffda, 0xb5b204e4, 0x00000000, 0xabfc7920);
    NextStep(m, 23, 4, 0xe7d3fbc8, 20, 0xb5b204e4, 0xabfc7920, 0x6d002f1e, 0x59a8ffda, 0x00000000, 0x47092c07);
  }

  lemma Steps24(m: seq<bv32>)
    requires IsBlockOfAbc(m)
    ensures Steps(INITIAL, m, 32) == Quad(0x790a77fb, 0x726342d3, 0xa62884aa, 0x9f47e4f8)
  {
    hide Steps, Constants, NewRegister, F, G, H, I;
    Steps16(m);
    ConstantsFrom24();
    Registers24();
    NextStep(m, 24, 9, 0x21e1cde6, 5, 0x59a8ffda, 0x47092c07, 0xabfc7920, 0x6d002f1e, 0x00000000, 0xb7f268cf);
    NextStep(m, 25, 14, 0xc33707d6, 9, 0x6d002f1e, 0xb7f268cf, 0x47092c07, 0xabfc7920, 0x00000018, 0x09388eff);
    NextStep(m, 26, 3, 0xf4d50d87, 14, 0xabfc7920, 0x09388eff, 0xb7f268cf, 0x47092c07, 0x00000000, 0xfe1623b1);
    NextStep(m, 27, 8, 0x455a14ed, 20, 0x47092c07, 0xfe1623b1, 0x09388eff, 0xb7f268cf, 0x00000000, 0x786acb8f);
    NextStep(m, 28, 13, 0xa9e3e905, 5, 0xb7f268cf, 0x786acb8f, 0xfe1623b1, 0x09388eff, 0x00000000, 0x790a77fb);
    NextStep(m, 29, 2, 0xfcefa3f8, 9, 0x09388eff, 0x790a77fb, 0x786acb8f, 0xfe1623b1, 0x00000000, 0x9f47e4f8);
    NextStep(m, 30, 7, 0x676f02d9, 14, 0xfe1623b1, 0x9f47e4f8, 0x790a77fb, 0x786acb8f, 0x00000000, 0xa62884aa);
    NextStep(m, 31, 12, 0x8d2a4c8a, 20, 0x786acb8f, 0xa62884aa, 0x9f47e4f8, 0x790a77fb, 0x00000000, 0x726342d3);
  }

  lemma Steps32(m: seq<bv32>)
    requires IsBlockOfAbc(m)
    ensures Steps(INITIAL, m, 40) == Quad(0x21b117b9, 0x5a2f5ea5, 0x3575227e, 0x6e7429d5)
  {
    hide Steps, Constants, NewRegister, F, G, H, I;
    Steps24(m);
    ConstantsFrom32();
    Registers32();
    NextStep(m, 32, 5, 0xfffa3942, 4, 0x790a77fb, 0x726342d3, 0xa62884aa, 0x9f47e4f8, 0x00000000, 0xb3707ebf);
    NextStep(m, 33, 8, 0x8771f681, 11, 0x9f47e4f8, 0xb3707ebf, 0x726342d3, 0xa62884aa, 0x00000000, 0x60127b2e);
    NextStep(m, 34, 11, 0x6d9d6122, 16, 0xa62884aa, 0x60127b2e, 0xb3707ebf, 0x726342d3, 0x00000000, 0x8d212ff5);
    NextStep(m, 35, 14, 0xfde5380c, 23, 0x726342d3, 0x8d212ff5, 0x60127b2e, 0xb3707ebf, 0x00000018, 0x3b0875c7);
    NextStep(m, 36, 1, 0xa4beea44, 4, 0xb3707ebf, 0x3b0875c7, 0x8d212ff5, 0x60127b2e, 0x00000000, 0x21b117b9);
    NextStep(m, 37, 4, 0x4bdecfa9, 11, 0x60127b2e, 0x21b117b9, 0x3b0875c7, 0x8d212ff5, 0x00000000, 0x6e7429d5);
    NextStep(m, 38, 7, 0xf6bb4b60, 16, 0x8d212ff5, 0x6e7429d5, 0x21b117b9, 0x3b0875c7, 0x00000000, 0x3575227e);
    NextStep(m, 39, 10, 0xbebfbc70, 23, 0x3b0875c7, 0x3575227e, 0x6e7429d5, 0x21b117b9, 0x00000000, 0x5a2f5ea5);
  }

  lemma Steps40(m: seq<bv32>)
    requires IsBlockOfAbc(m)
    ensures Steps(INITIAL, m, 48) == Quad(0x7f2e507b, 0x7beb9700, 0x8fae6399, 0x99d9679d)
  {
    hide Steps, Constants, NewRegister, F, G, H, I;
    Steps32(m);
    ConstantsFrom40();
    Registers40();
    NextStep(m, 40, 13, 0x289b7ec6, 4, 0x21b117b9, 0x5a2f5ea5, 0x3575227e, 0x6e7429d5, 0x00000000, 0x11de1779);
    NextStep(m, 41, 0, 0xeaa127fa, 11, 0x6e7429d5, 0x11de1779, 0x5a2f5ea5, 0x3575227e, 0x80636261, 0xfadcaa38);
    NextStep(m, 42, 3, 0xd4ef3085, 16, 0x3575227e, 0xfadcaa38, 0x11de1779, 0x5a2f5ea5, 0x00000000, 0x31c465ca);
    NextStep(m, 43, 6, 0x04881d05, 23, 0x5a2f5ea5, 0x31c465ca, 0xfadcaa38, 0x11de1779, 0x00000000, 0x4c6124f4);
    NextStep(m, 44, 9, 0xd9d4d039, 4, 0x11de1779, 0x4c6124f4, 0x31c465ca, 0xfadcaa38, 0x00000000, 0x7f2e507b);
    NextStep(m, 45, 12, 0xe6db99e5, 11, 0xfadcaa38, 0x7f2e507b, 0x4c6124f4, 0x31c465ca, 0x00000000, 0x99d9679d);
    NextStep(m, 46, 15, 0x1fa27cf8, 16, 0x31c465ca, 0x99d9679d, 0x7f2e507b, 0x4c6124f4, 0x00000000, 0x8fae6399);
    NextStep(m, 47, 2, 0xc4ac5665, 23, 0x4c6124f4, 0x8fae6399, 0x99d9679d, 0x7f2e507b, 0x00000000, 0x7beb9700);
  }

  lemma Steps48(m: seq<bv32>)
    requires IsBlockOfAbc(m)
    ensures Steps(INITIAL, m, 56) == Quad(0x06cc5e8a, 0x3bfa2c27, 0x7d632dd0, 0x5b0d97aa)
  {
    hide Steps, Constants, NewRegister, F, G, H, I;
    Steps40(m);
    ConstantsFrom48();
    Registers48();
    NextStep(m, 48, 0, 0xf4292244, 6, 0x7f2e507b, 0x7beb9700, 0x8fae6399, 0x99d9679d, 0x80636261, 0x7b201df8);
    NextStep(m, 49, 7, 0x432aff97, 10, 0x99d9679d, 0x7b201df8, 0x7beb9700, 0x8fae6399, 0x00000000, 0xf4e8e96e);
    NextStep(m, 50, 14, 0xab9423a7, 15, 0x8fae6399, 0xf4e8e96e, 0x7b201df8, 0x7beb9700, 0x00000018, 0xb298cefd);
    NextStep(m, 51, 5, 0xfc93a039, 21, 0x7beb9700, 0xb298cefd, 0xf4e8e96e, 0x7b201df8, 0x00000000, 0x8bf025c4);
    NextStep(m, 52, 12, 0x655b59c3, 6, 0x7b201df8, 0x8bf025c4, 0xb298cefd, 0xf4e8e96e, 0x00000000, 0x06cc5e8a);
    NextStep(m, 53, 3, 0x8f0ccc92, 10, 0xf4e8e96e, 0x06cc5e8a, 0x8bf025c4, 0xb298cefd, 0x00000000, 0x5b0d97aa);
    NextStep(m, 54, 10, 0xffeff47d, 15, 0xb298cefd, 0x5b0d97aa, 0x06cc5e8a, 0x8bf025c4, 0x00000000, 0x7d632dd0);
    NextStep(m, 55, 1, 0x85845dd1, 21, 0x8bf025c4, 0x7d632dd0, 0x5b0d97aa, 0x06cc5e8a, 0x00000000, 0x3bfa2c27);
  }

  lemma Steps56(m: seq<bv32>)
    requires IsBlockOfAbc(m)
    ensures Steps(INITIAL, m, 64) == Quad(0x310ade8f, 0xc08226b3, 0xe484b9d8, 0x624d8cb2)
  {
    hide Steps, Constants, NewRegister, F, G, H, I;
    Steps48(m);
    ConstantsFrom56();
    Registers56();
    NextStep(m, 56, 8, 0x6fa87e4f, 6, 0x06cc5e8a, 0x3bfa2c27, 0x7d632dd0, 0x5b0d97aa, 0x00000000, 0x7f81cc35);
    NextStep(m, 57, 15, 0xfe2ce6e0, 10, 0x5b0d97aa, 0x7f81cc35, 0x3bfa2c27, 0x7d632dd0, 0x00000000, 0x094454ab);
    NextStep(m, 58, 6, 0xa3014314, 15, 0x7d632dd0, 0x094454ab, 0x7f81cc35, 0x3bfa2c27, 0x00000000, 0x4f9dbe3f);
    NextStep(m, 59, 13, 0x4e0811a1, 21, 0x3bfa2c27, 0x4f9dbe3f, 0x094454ab, 0x7f81cc35, 0x00000000, 0x7327d604);
    NextStep(m, 60, 4, 0xf7537e82, 6, 0x7f81cc35, 0x7327d604, 0x4f9dbe3f, 0x094454ab, 0x00000000, 0x310ade8f);
    NextStep(m, 61, 11, 0xbd3af235, 10, 0x094454ab, 0x310ade8f, 0x7327d604, 0x4f9dbe3f, 0x00000000, 0x624d8cb2);
    NextStep(m, 62, 2, 0x2ad7d2bb, 15, 0x4f9dbe3f, 0x624d8cb2, 0x310ade8f, 0x7327d604, 0x00000000, 0xe484b9d8);
    NextStep(m, 63, 9, 0xeb86d391, 21, 0x7327d604, 0xe484b9d8, 0x624d8cb2, 0x310ade8f, 0x00000000, 0xc08226b3);
  }

  lemma Sums()
    ensures AddWord(0x67452301, 0x310ade8f) == 0x98500190 && AddWord(0xefcdab89, 0xc08226b3) == 0xb04fd23c
    ensures AddWord(0x98badcfe, 0xe484b9d8) == 0x7d3f96d6 && AddWord(0x10325476, 0x624d8cb2) == 0x727fe128
  {
  }

  lemma Bytes()
    ensures QuadBytes(Quad(0x98500190, 0xb04fd23c, 0x7d3f96d6, 0x727fe128)) ==
      [0x90, 0x01, 0x50, 0x98, 0x3c, 0xd2, 0x4f, 0xb0, 0xd6, 0x96, 0x3f, 0x7d, 0x28, 0xe1, 0x7f, 0x72]
  {
  }

  lemma DigestOfAbc()
    ensures Digest(ABC) ==
      [0x90, 0x01, 0x50, 0x98, 0x3c, 0xd2, 0x4f, 0xb0, 0xd6, 0x96, 0x3f, 0x7d, 0x28, 0xe1, 0x7f, 0x72]
  {
    hide Steps, BlockWords, AddWord, Pad, Absorb, QuadBytes;
    PaddedAbc();
    WordsOfAbc();
    Steps56(BlockWords(Block()));
    Sums();
    AbsorbOneBlock(INITIAL, Block());
    Bytes();
  }
}
