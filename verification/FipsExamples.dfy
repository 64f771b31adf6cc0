// The example vectors of appendix C of FIPS 197: the block 00112233..ff under the keys 00 01 02 ..
// of 128 and 256 bits, with every round and every word of the schedules.
module FipsExamples {
  import opened Words
  import opened GaloisField
  import opened AesTables
  import opened Fips197
  import opened AesCore

  // The first 4 * nk bytes are the key of nk words.
  const KEY: seq<bv8> := [
    0x00, 0x01, 0x02, 0x03, 0x04, 0x05, 0x06, 0x07, 0x08, 0x09, 0x0a, 0x0b, 0x0c, 0x0d, 0x0e, 0x0f,
    0x10, 0x11, 0x12, 0x13, 0x14, 0x15, 0x16, 0x17, 0x18, 0x19, 0x1a, 0x1b, 0x1c, 0x1d, 0x1e, 0x1f]

  const PLAIN: seq<bv8> := [
    0x00, 0x11, 0x22, 0x33, 0x44, 0x55, 0x66, 0x77, 0x88, 0x99, 0xaa, 0xbb, 0xcc, 0xdd, 0xee, 0xff]

  // ---------- One word of a schedule, one round ----------

  // step is what is added to word i - nk.
  lemma NextWord(key: seq<bv8>, nk: nat, i: nat, temp: bv32, step: bv32, before: bv32, word: bv32)
    requires 1 <= nk <= i && |key| >= 4 * nk
    requires ScheduleWord(key, nk, i - 1) == temp && ScheduleStep(temp, nk, i) == step
    requires ScheduleWord(key, nk, i - nk) == before && before ^ step == word
    ensures ScheduleWord(key, nk, i) == word
  {
    hide ScheduleStep, KeyWord;
  }

  lemma PlainStep(temp: bv32, nk: nat, i: nat)
    requires 1 <= nk <= i && i % nk != 0 && !(nk > 6 && i % nk == 4)
    ensures ScheduleStep(temp, nk, i) == temp
  {
    hide SubWord, RotWord, RoundConstant;
  }

  lemma KeyWords(nk: nat, i: nat)
    requires nk <= 8 && i < nk
    ensures ScheduleWord(KEY[..4 * nk], nk, i) == Word(KEY[4 * i], KEY[4 * i + 1], KEY[4 * i + 2], KEY[4 * i + 3])
  {
    hide Word;
  }

  lemma WordsOfKey()
    ensures Word(0x00, 0x01, 0x02, 0x03) == 0x00010203
    ensures Word(0x04, 0x05, 0x06, 0x07) == 0x04050607
    ensures Word(0x08, 0x09, 0x0a, 0x0b) == 0x08090a0b
    ensures Word(0x0c, 0x0d, 0x0e, 0x0f) == 0x0c0d0e0f
    ensures Word(0x10, 0x11, 0x12, 0x13) == 0x10111213
    ensures Word(0x14, 0x15, 0x16, 0x17) == 0x14151617
    ensures Word(0x18, 0x19, 0x1a, 0x1b) == 0x18191a1b
    ensures Word(0x1c, 0x1d, 0x1e, 0x1f) == 0x1c1d1e1f
  {
  }

  lemma FirstEightWords()
    ensures Word(KEY[0], KEY[1], KEY[2], KEY[3]) == 0x00010203
    ensures Word(KEY[4], KEY[5], KEY[6], KEY[7]) == 0x04050607
    ensures Word(KEY[8], KEY[9], KEY[10], KEY[11]) == 0x08090a0b
    ensures Word(KEY[12], KEY[13], KEY[14], KEY[15]) == 0x0c0d0e0f
    ensures Word(KEY[16], KEY[17], KEY[18], KEY[19]) == 0x10111213
    ensures Word(KEY[20], KEY[21], KEY[22], KEY[23]) == 0x14151617
    ensures Word(KEY[24], KEY[25], KEY[26], KEY[27]) == 0x18191a1b
    ensures Word(KEY[28], KEY[29], KEY[30], KEY[31]) == 0x1c1d1e1f
  {
    hide Word;
    WordsOfKey();
  }

  lemma ExpandedRoundKey(key: seq<bv8>, nk: nat, r: nat, k: Block)
    requires 1 <= nk && 4 * nk <= |key| && r <= nk + 6
    requires Block(ScheduleWord(key, nk, 4 * r), ScheduleWord(key, nk, 4 * r + 1),
                   ScheduleWord(key, nk, 4 * r + 2), ScheduleWord(key, nk, 4 * r + 3)) == k
    ensures RoundKey(KeyExpansion(key, nk), r) == k
  {
    hide ScheduleWord;
  }

  function FullRound(s: Block, k: Block): Block { XorBlock(MixColumns(ShiftRows(SubBytes(s))), k) }
  function LastRound(s: Block, k: Block): Block { XorBlock(ShiftRows(SubBytes(s)), k) }

  lemma NextRound(start: Block, w: seq<bv32>, r: nat, s: Block, k: Block, next: Block)
    requires 1 <= r && 4 * r + 4 <= |w|
    requires Rounds(start, w, r - 1) == s && RoundKey(w, r) == k && FullRound(s, k) == next
    ensures Rounds(start, w, r) == next
  {
    hide XorBlock, MixColumns, ShiftRows, SubBytes, RoundKey;
  }

  lemma FinalRound(start: Block, w: seq<bv32>, nr: nat, s: Block, k: Block, last: Block)
    requires 1 <= nr && 4 * nr + 4 <= |w|
    requires Rounds(start, w, nr - 1) == s && RoundKey(w, nr) == k && LastRound(s, k) == last
    ensures Cipher(start, w, nr) == last
  {
    hide XorBlock, ShiftRows, SubBytes, RoundKey, Rounds;
  }

  lemma StartRound(start: Block, w: seq<bv32>, k: Block, next: Block)
    requires 4 <= |w| && RoundKey(w, 0) == k && XorBlock(start, k) == next
    ensures Rounds(start, w, 0) == next
  {
    hide XorBlock, RoundKey;
  }

  lemma PlainBlock()
    ensures LoadBlock(PLAIN, 0) == Block(0x00112233, 0x44556677, 0x8899aabb, 0xccddeeff)
  {
  }

  // ---------- 128 bits ----------

  lemma Steps128From4()
    ensures ScheduleStep(0x0c0d0e0f, 4, 4) == 0xd6ab76fe
    ensures ScheduleStep(0xd6ab76fe, 4, 8) == 0x6038bbf6
    ensures ScheduleStep(0x6830b3fe, 4, 12) == 0x006dbb45
    ensures ScheduleStep(0x0469bf41, 4, 16) == 0xf10883f2
  {
    hide RoundConstant;
    RoundConstants();
  }

  lemma Steps128From20()
    ensures ScheduleStep(0xfd058dfd, 4, 20) == 0x7b5d5454
    ensures ScheduleStep(0xadf622aa, 4, 24) == 0x6293ac95
    ensures ScheduleStep(0x0aa31f6b, 4, 28) == 0x4ac07f67
    ensures ScheduleStep(0x4ea9c026, 4, 32) == 0x53baf72f
  {
    hide RoundConstant;
    RoundConstants();
  }

  lemma Steps128From36()
    ensures ScheduleStep(0xaebf7ad2, 4, 36) == 0x13dab5e4
    ensures ScheduleStep(0xbe2c974e, 4, 40) == 0x47882fae
  {
    hide RoundConstant;
    RoundConstants();
  }

  lemma Words128From0()
    ensures ScheduleWord(KEY[..16], 4, 0) == 0x00010203 && ScheduleWord(KEY[..16], 4, 1) == 0x04050607
    ensures ScheduleWord(KEY[..16], 4, 2) == 0x08090a0b && ScheduleWord(KEY[..16], 4, 3) == 0x0c0d0e0f
    ensures ScheduleWord(KEY[..16], 4, 4) == 0xd6aa74fd && ScheduleWord(KEY[..16], 4, 5) == 0xd2af72fa
    ensures ScheduleWord(KEY[..16], 4, 6) == 0xdaa678f1 && ScheduleWord(KEY[..16], 4, 7) == 0xd6ab76fe
  {
    hide ScheduleWord, ScheduleStep, Word;
    FirstEightWords();
    Steps128From4();
    KeyWords(4, 0);
    KeyWords(4, 1);
    KeyWords(4, 2);
    KeyWords(4, 3);
    NextWord(KEY[..16], 4, 4, 0x0c0d0e0f, 0xd6ab76fe, 0x00010203, 0xd6aa74fd);
    PlainStep(0xd6aa74fd, 4, 5);
    NextWord(KEY[..16], 4, 5, 0xd6aa74fd, 0xd6aa74fd, 0x04050607, 0xd2af72fa);
    PlainStep(0xd2af72fa, 4, 6);
    NextWord(KEY[..16], 4, 6, 0xd2af72fa, 0xd2af72fa, 0x08090a0b, 0xdaa678f1);
    PlainStep(0xdaa678f1, 4, 7);
    NextWord(KEY[..16], 4, 7, 0xdaa678f1, 0xdaa678f1, 0x0c0d0e0f, 0xd6ab76fe);
  }

  lemma Words128From8()
    ensures ScheduleWord(KEY[..16], 4, 8) == 0xb692cf0b && ScheduleWord(KEY[..16], 4, 9) == 0x643dbdf1
    ensures ScheduleWord(KEY[..16], 4, 10) == 0xbe9bc500 && ScheduleWord(KEY[..16], 4, 11) == 0x6830b3fe
    ensures ScheduleWord(KEY[..16], 4, 12) == 0xb6ff744e && ScheduleWord(KEY[..16], 4, 13) == 0xd2c2c9bf
    ensures ScheduleWord(KEY[..16], 4, 14) == 0x6c590cbf && ScheduleWord(KEY[..16], 4, 15) == 0x0469bf41
  {
    hide ScheduleWord, ScheduleStep, Word;
    Words128From0();
    Steps128From4();
    NextWord(KEY[..16], 4, 8, 0xd6ab76fe, 0x6038bbf6, 0xd6aa74fd, 0xb692cf0b);
    PlainStep(0xb692cf0b, 4, 9);
    NextWord(KEY[..16], 4, 9, 0xb692cf0b, 0xb692cf0b, 0xd2af72fa, 0x643dbdf1);
    PlainStep(0x643dbdf1, 4, 10);
    NextWord(KEY[..16], 4, 10, 0x643dbdf1, 0x643dbdf1, 0xdaa678f1, 0xbe9bc500);
    PlainStep(0xbe9bc500, 4, 11);
    NextWord(KEY[..16], 4, 11, 0xbe9bc500, 0xbe9bc500, 0xd6ab76fe, 0x6830b3fe);
    NextWord(KEY[..16], 4, 12, 0x6830b3fe, 0x006dbb45, 0xb692cf0b, 0xb6ff744e);
    PlainStep(0xb6ff744e, 4, 13);
    NextWord(KEY[..16], 4, 13, 0xb6ff744e, 0xb6ff744e, 0x643dbdf1, 0xd2c2c9bf);
    PlainStep(0xd2c2c9bf, 4, 14);
    NextWord(KEY[..16], 4, 14, 0xd2c2c9bf, 0xd2c2c9bf, 0xbe9bc500, 0x6c590cbf);
    PlainStep(0x6c590cbf, 4, 15);
    NextWord(KEY[..16], 4, 15, 0x6c590cbf, 0x6c590cbf, 0x6830b3fe, 0x0469bf41);
  }

  lemma Words128From16()
    ensures ScheduleWord(KEY[..16], 4, 16) == 0x47f7f7bc && ScheduleWord(KEY[..16], 4, 17) == 0x95353e03
    ensures ScheduleWord(KEY[..16], 4, 18) == 0xf96c32bc && ScheduleWord(KEY[..16], 4, 19) == 0xfd058dfd
    ensures ScheduleWord(KEY[..16], 4, 20) == 0x3caaa3e8 && ScheduleWord(KEY[..16], 4, 21) == 0xa99f9deb
    ensures ScheduleWord(KEY[..16], 4, 22) == 0x50f3af57 && ScheduleWord(KEY[..16], 4, 23) == 0xadf622aa
  {
    hide ScheduleWord, ScheduleStep, Word;
    Words128From8();
    Steps128From4();
    Steps128From20();
    NextWord(KEY[..16], 4, 16, 0x0469bf41, 0xf10883f2, 0xb6ff744e, 0x47f7f7bc);
    PlainStep(0x47f7f7bc, 4, 17);
    NextWord(KEY[..16], 4, 17, 0x47f7f7bc, 0x47f7f7bc, 0xd2c2c9bf, 0x95353e03);
    PlainStep(0x95353e03, 4, 18);
    NextWord(KEY[..16], 4, 18, 0x95353e03, 0x95353e03, 0x6c590cbf, 0xf96c32bc);
    PlainStep(0xf96c32bc, 4, 19);
    NextWord(KEY[..16], 4, 19, 0xf96c32bc, 0xf96c32bc, 0x0469bf41, 0xfd058dfd);
    NextWord(KEY[..16], 4, 20, 0xfd058dfd, 0x7b5d5454, 0x47f7f7bc, 0x3caaa3e8);
    PlainStep(0x3caaa3e8, 4, 21);
    NextWord(KEY[..16], 4, 21, 0x3caaa3e8, 0x3caaa3e8, 0x95353e03, 0xa99f9deb);
    PlainStep(0xa99f9deb, 4, 22);
    NextWord(KEY[..16], 4, 22, 0xa99f9deb, 0xa99f9deb, 0xf96c32bc, 0x50f3af57);
    PlainStep(0x50f3af57, 4, 23);
    NextWord(KEY[..16], 4, 23, 0x50f3af57, 0x50f3af57, 0xfd058dfd, 0xadf622aa);
  }

  lemma Words128From24()
    ensures ScheduleWord(KEY[..16], 4, 24) == 0x5e390f7d && ScheduleWord(KEY[..16], 4, 25) == 0xf7a69296
    ensures ScheduleWord(KEY[..16], 4, 26) == 0xa7553dc1 && ScheduleWord(KEY[..16], 4, 27) == 0x0aa31f6b
    ensures ScheduleWord(KEY[..16], 4, 28) == 0x14f9701a && ScheduleWord(KEY[..16], 4, 29) == 0xe35fe28c
    ensures ScheduleWord(KEY[..16], 4, 30) == 0x440adf4d && ScheduleWord(KEY[..16], 4, 31) == 0x4ea9c026
  {
    hide ScheduleWord, ScheduleStep, Word;
    Words128From16();
    Steps128From20();
    NextWord(KEY[..16], 4, 24, 0xadf622aa, 0x6293ac95, 0x3caaa3e8, 0x5e390f7d);
    PlainStep(0x5e390f7d, 4, 25);
    NextWord(KEY[..16], 4, 25, 0x5e390f7d, 0x5e390f7d, 0xa99f9deb, 0xf7a69296);
    PlainStep(0xf7a69296, 4, 26);
    NextWord(KEY[..16], 4, 26, 0xf7a69296, 0xf7a69296, 0x50f3af57, 0xa7553dc1);
    PlainStep(0xa7553dc1, 4, 27);
    NextWord(KEY[..16], 4, 27, 0xa7553dc1, 0xa7553dc1, 0xadf622aa, 0x0aa31f6b);
    NextWord(KEY[..16], 4, 28, 0x0aa31f6b, 0x4ac07f67, 0x5e390f7d, 0x14f9701a);
    PlainStep(0x14f9701a, 4, 29);
    NextWord(KEY[..16], 4, 29, 0x14f9701a, 0x14f9701a, 0xf7a69296, 0xe35fe28c);
    PlainStep(0xe35fe28c, 4, 30);
    NextWord(KEY[..16], 4, 30, 0xe35fe28c, 0xe35fe28c, 0xa7553dc1, 0x440adf4d);
    PlainStep(0x440adf4d, 4, 31);
    NextWord(KEY[..16], 4, 31, 0x440adf4d, 0x440adf4d, 0x0aa31f6b, 0x4ea9c026);
  }

  lemma Words128From32()
    ensures ScheduleWord(KEY[..16], 4, 32) == 0x47438735 && ScheduleWord(KEY[..16], 4, 33) == 0xa41c65b9
    ensures ScheduleWord(KEY[..16], 4, 34) == 0xe016baf4 && ScheduleWord(KEY[..16], 4, 35) == 0xaebf7ad2
    ensures ScheduleWord(KEY[..16], 4, 36) == 0x549932d1 && ScheduleWord(KEY[..16], 4, 37) == 0xf0855768
    ensures ScheduleWord(KEY[..16], 4, 38) == 0x1093ed9c && ScheduleWord(KEY[..16], 4, 39) == 0xbe2c974e
  {
    hide ScheduleWord, ScheduleStep, Word;
    Words128From24();
    Steps128From20();
    Steps128From36();
    NextWord(KEY[..16], 4, 32, 0x4ea9c026, 0x53baf72f, 0x14f9701a, 0x47438735);
    PlainStep(0x47438735, 4, 33);
    NextWord(KEY[..16], 4, 33, 0x47438735, 0x47438735, 0xe35fe28c, 0xa41c65b9);
    PlainStep(0xa41c65b9, 4, 34);
    NextWord(KEY[..16], 4, 34, 0xa41c65b9, 0xa41c65b9, 0x440adf4d, 0xe016baf4);
    PlainStep(0xe016baf4, 4, 35);
    NextWord(KEY[..16], 4, 35, 0xe016baf4, 0xe016baf4, 0x4ea9c026, 0xaebf7ad2);
    NextWord(KEY[..16], 4, 36, 0xaebf7ad2, 0x13dab5e4, 0x47438735, 0x549932d1);
    PlainStep(0x549932d1, 4, 37);
    NextWord(KEY[..16], 4, 37, 0x549932d1, 0x549932d1, 0xa41c65b9, 0xf0855768);
    PlainStep(0xf0855768, 4, 38);
    NextWord(KEY[..16], 4, 38, 0xf0855768, 0xf0855768, 0xe016baf4, 0x1093ed9c);
    PlainStep(0x1093ed9c, 4, 39);
    NextWord(KEY[..16], 4, 39, 0x1093ed9c, 0x1093ed9c, 0xaebf7ad2, 0xbe2c974e);
  }

  lemma Words128From40()
    ensures ScheduleWord(KEY[..16], 4, 40) == 0x13111d7f && ScheduleWord(KEY[..16], 4, 41) == 0xe3944a17
    ensures ScheduleWord(KEY[..16], 4, 42) == 0xf307a78b && ScheduleWord(KEY[..16], 4, 43) == 0x4d2b30c5
  {
    hide ScheduleWord, ScheduleStep, Word;
    Words128From32();
    Steps128From36();
    NextWord(KEY[..16], 4, 40, 0xbe2c974e, 0x47882fae, 0x549932d1, 0x13111d7f);
    PlainStep(0x13111d7f, 4, 41);
    NextWord(KEY[..16], 4, 41, 0x13111d7f, 0x13111d7f, 0xf0855768, 0xe3944a17);
    PlainStep(0xe3944a17, 4, 42);
    NextWord(KEY[..16], 4, 42, 0xe3944a17, 0xe3944a17, 0x1093ed9c, 0xf307a78b);
    PlainStep(0xf307a78b, 4, 43);
    NextWord(KEY[..16], 4, 43, 0xf307a78b, 0xf307a78b, 0xbe2c974e, 0x4d2b30c5);
  }

  lemma Round128_1()
    ensures FullRound(Block(0x00102030, 0x40506070, 0x8090a0b0, 0xc0d0e0f0), Block(0xd6aa74fd, 0xd2af72fa, 0xdaa678f1, 0xd6ab76fe))
         == Block(0x89d810e8, 0x855ace68, 0x2d1843d8, 0xcb128fe4)
  {
  }

  lemma Round128_2()
    ensures FullRound(Block(0x89d810e8, 0x855ace68, 0x2d1843d8, 0xcb128fe4), Block(0xb692cf0b, 0x643dbdf1, 0xbe9bc500, 0x6830b3fe))
         == Block(0x4915598f, 0x55e5d7a0, 0xdaca94fa, 0x1f0a63f7)
  {
  }

  lemma Round128_3()
    ensures FullRound(Block(0x4915598f, 0x55e5d7a0, 0xdaca94fa, 0x1f0a63f7), Block(0xb6ff744e, 0xd2c2c9bf, 0x6c590cbf, 0x0469bf41))
         == Block(0xfa636a28, 0x25b339c9, 0x40668a31, 0x57244d17)
  {
  }

  lemma Round128_4()
    ensures FullRound(Block(0xfa636a28, 0x25b339c9, 0x40668a31, 0x57244d17), Block(0x47f7f7bc, 0x95353e03, 0xf96c32bc, 0xfd058dfd))
         == Block(0x24724023, 0x6966b3fa, 0x6ed27532, 0x88425b6c)
  {
  }

  lemma Round128_5()
    ensures FullRound(Block(0x24724023, 0x6966b3fa, 0x6ed27532, 0x88425b6c), Block(0x3caaa3e8, 0xa99f9deb, 0x50f3af57, 0xadf622aa))
         == Block(0xc81677bc, 0x9b7ac93b, 0x25027992, 0xb0261996)
  {
  }

  lemma Round128_6()
    ensures FullRound(Block(0xc81677bc, 0x9b7ac93b, 0x25027992, 0xb0261996), Block(0x5e390f7d, 0xf7a69296, 0xa7553dc1, 0x0aa31f6b))
         == Block(0xc62fe109, 0xf75eedc3, 0xcc79395d, 0x84f9cf5d)
  {
  }

  lemma Round128_7()
    ensures FullRound(Block(0xc62fe109, 0xf75eedc3, 0xcc79395d, 0x84f9cf5d), Block(0x14f9701a, 0xe35fe28c, 0x440adf4d, 0x4ea9c026))
         == Block(0xd1876c0f, 0x79c4300a, 0xb45594ad, 0xd66ff41f)
  {
  }

  lemma Round128_8()
    ensures FullRound(Block(0xd1876c0f, 0x79c4300a, 0xb45594ad, 0xd66ff41f), Block(0x47438735, 0xa41c65b9, 0xe016baf4, 0xaebf7ad2))
         == Block(0xfde3bad2, 0x05e5d0d7, 0x3547964e, 0xf1fe37f1)
  {
  }

  lemma Round128_9()
    ensures FullRound(Block(0xfde3bad2, 0x05e5d0d7, 0x3547964e, 0xf1fe37f1), Block(0x549932d1, 0xf0855768, 0x1093ed9c, 0xbe2c974e))
         == Block(0xbd6e7c3d, 0xf2b5779e, 0x0b61216e, 0x8b10b689)
  {
  }

  lemma Round128_10()
    ensures LastRound(Block(0xbd6e7c3d, 0xf2b5779e, 0x0b61216e, 0x8b10b689), Block(0x13111d7f, 0xe3944a17, 0xf307a78b, 0x4d2b30c5))
         == Block(0x69c4e0d8, 0x6a7b0430, 0xd8cdb780, 0x70b4c55a)
  {
  }

  lemma Cipher128()
    ensures Cipher(Block(0x00112233, 0x44556677, 0x8899aabb, 0xccddeeff), KeyExpansion(KEY[..16], 4), 10)
         == Block(0x69c4e0d8, 0x6a7b0430, 0xd8cdb780, 0x70b4c55a)
  {
    hide ScheduleWord, KeyExpansion, FullRound, LastRound, XorBlock, RoundKey, Rounds, Cipher;
    var key, start := KEY[..16], Block(0x00112233, 0x44556677, 0x8899aabb, 0xccddeeff);
    var w := KeyExpansion(key, 4);
    Words128From0();
    Words128From8();
    Words128From16();
    Words128From24();
    Words128From32();
    Words128From40();
    ExpandedRoundKey(key, 4, 0, Block(0x00010203, 0x04050607, 0x08090a0b, 0x0c0d0e0f));
    ExpandedRoundKey(key, 4, 1, Block(0xd6aa74fd, 0xd2af72fa, 0xdaa678f1, 0xd6ab76fe));
    ExpandedRoundKey(key, 4, 2, Block(0xb692cf0b, 0x643dbdf1, 0xbe9bc500, 0x6830b3fe));
    ExpandedRoundKey(key, 4, 3, Block(0xb6ff744e, 0xd2c2c9bf, 0x6c590cbf, 0x0469bf41));
    ExpandedRoundKey(key, 4, 4, Block(0x47f7f7bc, 0x95353e03, 0xf96c32bc, 0xfd058dfd));
    ExpandedRoundKey(key, 4, 5, Block(0x3caaa3e8, 0xa99f9deb, 0x50f3af57, 0xadf622aa));
    ExpandedRoundKey(key, 4, 6, Block(0x5e390f7d, 0xf7a69296, 0xa7553dc1, 0x0aa31f6b));
    ExpandedRoundKey(key, 4, 7, Block(0x14f9701a, 0xe35fe28c, 0x440adf4d, 0x4ea9c026));
    ExpandedRoundKey(key, 4, 8, Block(0x47438735, 0xa41c65b9, 0xe016baf4, 0xaebf7ad2));
    ExpandedRoundKey(key, 4, 9, Block(0x549932d1, 0xf0855768, 0x1093ed9c, 0xbe2c974e));
    ExpandedRoundKey(key, 4, 10, Block(0x13111d7f, 0xe3944a17, 0xf307a78b, 0x4d2b30c5));
    assert XorBlock(start, Block(0x00010203, 0x04050607, 0x08090a0b, 0x0c0d0e0f)) == Block(0x00102030, 0x40506070, 0x8090a0b0, 0xc0d0e0f0) by { Start128(); }
    StartRound(start, w, Block(0x00010203, 0x04050607, 0x08090a0b, 0x0c0d0e0f), Block(0x00102030, 0x40506070, 0x8090a0b0, 0xc0d0e0f0));
    Round128_1();
    NextRound(start, w, 1, Block(0x00102030, 0x40506070, 0x8090a0b0, 0xc0d0e0f0),
      Block(0xd6aa74fd, 0xd2af72fa, 0xdaa678f1, 0xd6ab76fe), Block(0x89d810e8, 0x855ace68, 0x2d1843d8, 0xcb128fe4));
    Round128_2();
    NextRound(start, w, 2, Block(0x89d810e8, 0x855ace68, 0x2d1843d8, 0xcb128fe4),
      Block(0xb692cf0b, 0x643dbdf1, 0xbe9bc500, 0x6830b3fe), Block(0x4915598f, 0x55e5d7a0, 0xdaca94fa, 0x1f0a63f7));
    Round128_3();
    NextRound(start, w, 3, Block(0x4915598f, 0x55e5d7a0, 0xdaca94fa, 0x1f0a63f7),
      Block(0xb6ff744e, 0xd2c2c9bf, 0x6c590cbf, 0x0469bf41), Block(0xfa636a28, 0x25b339c9, 0x40668a31, 0x57244d17));
    Round128_4();
    NextRound(start, w, 4, Block(0xfa636a28, 0x25b339c9, 0x40668a31, 0x57244d17),
      Block(0x47f7f7bc, 0x95353e03, 0xf96c32bc, 0xfd058dfd), Block(0x24724023, 0x6966b3fa, 0x6ed27532, 0x88425b6c));
    Round128_5();
    NextRound(start, w, 5, Block(0x24724023, 0x6966b3fa, 0x6ed27532, 0x88425b6c),
      Block(0x3caaa3e8, 0xa99f9deb, 0x50f3af57, 0xadf622aa), Block(0xc81677bc, 0x9b7ac93b, 0x25027992, 0xb0261996));
    Round128_6();
    NextRound(start, w, 6, Block(0xc81677bc, 0x9b7ac93b, 0x25027992, 0xb0261996),
      Block(0x5e390f7d, 0xf7a69296, 0xa7553dc1, 0x0aa31f6b), Block(0xc62fe109, 0xf75eedc3, 0xcc79395d, 0x84f9cf5d));
    Round128_7();
    NextRound(start, w, 7, Block(0xc62fe109, 0xf75eedc3, 0xcc79395d, 0x84f9cf5d),
      Block(0x14f9701a, 0xe35fe28c, 0x440adf4d, 0x4ea9c026), Block(0xd1876c0f, 0x79c4300a, 0xb45594ad, 0xd66ff41f));
    Round128_8();
    NextRound(start, w, 8, Block(0xd1876c0f, 0x79c4300a, 0xb45594ad, 0xd66ff41f),
      Block(0x47438735, 0xa41c65b9, 0xe016baf4, 0xaebf7ad2), Block(0xfde3bad2, 0x05e5d0d7, 0x3547964e, 0xf1fe37f1));
    Round128_9();
    NextRound(start, w, 9, Block(0xfde3bad2, 0x05e5d0d7, 0x3547964e, 0xf1fe37f1),
      Block(0x549932d1, 0xf0855768, 0x1093ed9c, 0xbe2c974e), Block(0xbd6e7c3d, 0xf2b5779e, 0x0b61216e, 0x8b10b689));
    Round128_10();
    FinalRound(start, w, 10, Block(0xbd6e7c3d, 0xf2b5779e, 0x0b61216e, 0x8b10b689),
      Block(0x13111d7f, 0xe3944a17, 0xf307a78b, 0x4d2b30c5), Block(0x69c4e0d8, 0x6a7b0430, 0xd8cdb780, 0x70b4c55a));
  }

  lemma Start128()
    ensures XorBlock(Block(0x00112233, 0x44556677, 0x8899aabb, 0xccddeeff), Block(0x00010203, 0x04050607, 0x08090a0b, 0x0c0d0e0f)) == Block(0x00102030, 0x40506070, 0x8090a0b0, 0xc0d0e0f0)
  {
  }

  lemma Bytes128()
    ensures BlockBytes(Block(0x69c4e0d8, 0x6a7b0430, 0xd8cdb780, 0x70b4c55a)) ==
      [0x69, 0xc4, 0xe0, 0xd8, 0x6a, 0x7b, 0x04, 0x30, 0xd8, 0xcd, 0xb7, 0x80, 0x70, 0xb4, 0xc5, 0x5a]
  {
  }

  lemma Encrypt128()
    ensures EncryptBlock(KEY[..16], 4, PLAIN) ==
      [0x69, 0xc4, 0xe0, 0xd8, 0x6a, 0x7b, 0x04, 0x30, 0xd8, 0xcd, 0xb7, 0x80, 0x70, 0xb4, 0xc5, 0x5a]
  {
    hide Cipher, KeyExpansion, LoadBlock, BlockBytes;
    PlainBlock();
    Cipher128();
    Bytes128();
  }

  // ---------- 256 bits ----------

  lemma Steps256From8()
    ensures ScheduleStep(0x1c1d1e1f, 8, 8) == 0xa572c09c
    ensures ScheduleStep(0xa572c09c, 8, 12) == 0x0640bade
    ensures ScheduleStep(0x0640bade, 8, 16) == 0x0bf41d6f
    ensures ScheduleStep(0x03fc1567, 8, 20) == 0x7bb05985
  {
    hide RoundConstant;
    RoundConstants();
  }

  lemma Steps256From24()
    ensures ScheduleStep(0x73b8518d, 8, 24) == 0x68d15d8f
    ensures ScheduleStep(0x6cd5598b, 8, 28) == 0x5003cb3d
    ensures ScheduleStep(0x5407cf39, 8, 32) == 0xcd8a1220
    ensures ScheduleStep(0xc1871c2f, 8, 36) == 0x78179c15
  {
    hide RoundConstant;
    RoundConstants();
  }

  lemma Steps256From40()
    ensures ScheduleStep(0x640a820a, 8, 40) == 0x77136743
    ensures ScheduleStep(0xd261a7df, 8, 44) == 0xb5ef5c9e
    ensures ScheduleStep(0xb3afe640, 8, 48) == 0x598e096d
    ensures ScheduleStep(0x5a721c0a, 8, 52) == 0xbe409c67
  {
    hide RoundConstant;
    RoundConstants();
  }

  lemma Steps256From56()
    ensures ScheduleStep(0xcdf8cdea, 8, 56) == 0x01bd87bd
  {
    hide RoundConstant;
    RoundConstants();
  }

  lemma Words256From0()
    ensures ScheduleWord(KEY[..32], 8, 0) == 0x00010203 && ScheduleWord(KEY[..32], 8, 1) == 0x04050607
    ensures ScheduleWord(KEY[..32], 8, 2) == 0x08090a0b && ScheduleWord(KEY[..32], 8, 3) == 0x0c0d0e0f
    ensures ScheduleWord(KEY[..32], 8, 4) == 0x10111213 && ScheduleWord(KEY[..32], 8, 5) == 0x14151617
    ensures ScheduleWord(KEY[..32], 8, 6) == 0x18191a1b && ScheduleWord(KEY[..32], 8, 7) == 0x1c1d1e1f
  {
    hide ScheduleWord, ScheduleStep, Word;
    FirstEightWords();
    KeyWords(8, 0);
    KeyWords(8, 1);
    KeyWords(8, 2);
    KeyWords(8, 3);
    KeyWords(8, 4);
    KeyWords(8, 5);
    KeyWords(8, 6);
    KeyWords(8, 7);
  }

  lemma Words256From8()
    ensures ScheduleWord(KEY[..32], 8, 8) == 0xa573c29f && ScheduleWord(KEY[..32], 8, 9) == 0xa176c498
    ensures ScheduleWord(KEY[..32], 8, 10) == 0xa97fce93 && ScheduleWord(KEY[..32], 8, 11) == 0xa572c09c
    ensures ScheduleWord(KEY[..32], 8, 12) == 0x1651a8cd && ScheduleWord(KEY[..32], 8, 13) == 0x0244beda
    ensures ScheduleWord(KEY[..32], 8, 14) == 0x1a5da4c1 && ScheduleWord(KEY[..32], 8, 15) == 0x0640bade
  {
    hide ScheduleWord, ScheduleStep, Word;
    Words256From0();
    Steps256From8();
    NextWord(KEY[..32], 8, 8, 0x1c1d1e1f, 0xa572c09c, 0x00010203, 0xa573c29f);
    PlainStep(0xa573c29f, 8, 9);
    NextWord(KEY[..32], 8, 9, 0xa573c29f, 0xa573c29f, 0x04050607, 0xa176c498);
    PlainStep(0xa176c498, 8, 10);
    NextWord(KEY[..32], 8, 10, 0xa176c498, 0xa176c498, 0x08090a0b, 0xa97fce93);
    PlainStep(0xa97fce93, 8, 11);
    NextWord(KEY[..32], 8, 11, 0xa97fce93, 0xa97fce93, 0x0c0d0e0f, 0xa572c09c);
    NextWord(KEY[..32], 8, 12, 0xa572c09c, 0x0640bade, 0x10111213, 0x1651a8cd);
    PlainStep(0x1651a8cd, 8, 13);
    NextWord(KEY[..32], 8, 13, 0x1651a8cd, 0x1651a8cd, 0x14151617, 0x0244beda);
    PlainStep(0x0244beda, 8, 14);
    NextWord(KEY[..32], 8, 14, 0x0244beda, 0x0244beda, 0x18191a1b, 0x1a5da4c1);
    PlainStep(0x1a5da4c1, 8, 15);
    NextWord(KEY[..32], 8, 15, 0x1a5da4c1, 0x1a5da4c1, 0x1c1d1e1f, 0x0640bade);
  }

  lemma Words256From16()
    ensures ScheduleWord(KEY[..32], 8, 16) == 0xae87dff0 && ScheduleWord(KEY[..32], 8, 17) == 0x0ff11b68
    ensures ScheduleWord(KEY[..32], 8, 18) == 0xa68ed5fb && ScheduleWord(KEY[..32], 8, 19) == 0x03fc1567
    ensures ScheduleWord(KEY[..32], 8, 20) == 0x6de1f148 && ScheduleWord(KEY[..32], 8, 21) == 0x6fa54f92
    ensures ScheduleWord(KEY[..32], 8, 22) == 0x75f8eb53 && ScheduleWord(KEY[..32], 8, 23) == 0x73b8518d
  {
    hide ScheduleWord, ScheduleStep, Word;
    Words256From8();
    Steps256From8();
    NextWord(KEY[..32], 8, 16, 0x0640bade, 0x0bf41d6f, 0xa573c29f, 0xae87dff0);
    PlainStep(0xae87dff0, 8, 17);
    NextWord(KEY[..32], 8, 17, 0xae87dff0, 0xae87dff0, 0xa176c498, 0x0ff11b68);
    PlainStep(0x0ff11b68, 8, 18);
    NextWord(KEY[..32], 8, 18, 0x0ff11b68, 0x0ff11b68, 0xa97fce93, 0xa68ed5fb);
    PlainStep(0xa68ed5fb, 8, 19);
    NextWord(KEY[..32], 8, 19, 0xa68ed5fb, 0xa68ed5fb, 0xa572c09c, 0x03fc1567);
    NextWord(KEY[..32], 8, 20, 0x03fc1567, 0x7bb05985, 0x1651a8cd, 0x6de1f148);
    PlainStep(0x6de1f148, 8, 21);
    NextWord(KEY[..32], 8, 21, 0x6de1f148, 0x6de1f148, 0x0244beda, 0x6fa54f92);
    PlainStep(0x6fa54f92, 8, 22);
    NextWord(KEY[..32], 8, 22, 0x6fa54f92, 0x6fa54f92, 0x1a5da4c1, 0x75f8eb53);
    PlainStep(0x75f8eb53, 8, 23);
    NextWord(KEY[..32], 8, 23, 0x75f8eb53, 0x75f8eb53, 0x0640bade, 0x73b8518d);
  }

  lemma Words256From24()
    ensures ScheduleWord(KEY[..32], 8, 24) == 0xc656827f && ScheduleWord(KEY[..32], 8, 25) == 0xc9a79917
    ensures ScheduleWord(KEY[..32], 8, 26) == 0x6f294cec && ScheduleWord(KEY[..32], 8, 27) == 0x6cd5598b
    ensures ScheduleWord(KEY[..32], 8, 28) == 0x3de23a75 && ScheduleWord(KEY[..32], 8, 29) == 0x524775e7
    ensures ScheduleWord(KEY[..32], 8, 30) == 0x27bf9eb4 && ScheduleWord(KEY[..32], 8, 31) == 0x5407cf39
  {
    hide ScheduleWord, ScheduleStep, Word;
    Words256From16();
    Steps256From24();
    NextWord(KEY[..32], 8, 24, 0x73b8518d, 0x68d15d8f, 0xae87dff0, 0xc656827f);
    PlainStep(0xc656827f, 8, 25);
    NextWord(KEY[..32], 8, 25, 0xc656827f, 0xc656827f, 0x0ff11b68, 0xc9a79917);
    PlainStep(0xc9a79917, 8, 26);
    NextWord(KEY[..32], 8, 26, 0xc9a79917, 0xc9a79917, 0xa68ed5fb, 0x6f294cec);
    PlainStep(0x6f294cec, 8, 27);
    NextWord(KEY[..32], 8, 27, 0x6f294cec, 0x6f294cec, 0x03fc1567, 0x6cd5598b);
    NextWord(KEY[..32], 8, 28, 0x6cd5598b, 0x5003cb3d, 0x6de1f148, 0x3de23a75);
    PlainStep(0x3de23a75, 8, 29);
    NextWord(KEY[..32], 8, 29, 0x3de23a75, 0x3de23a75, 0x6fa54f92, 0x524775e7);
    PlainStep(0x524775e7, 8, 30);
    NextWord(KEY[..32], 8, 30, 0x524775e7, 0x524775e7, 0x75f8eb53, 0x27bf9eb4);
    PlainStep(0x27bf9eb4, 8, 31);
    NextWord(KEY[..32], 8, 31, 0x27bf9eb4, 0x27bf9eb4, 0x73b8518d, 0x5407cf39);
  }

  lemma Words256From32()
    ensures ScheduleWord(KEY[..32], 8, 32) == 0x0bdc905f && ScheduleWord(KEY[..32], 8, 33) == 0xc27b0948
    ensures ScheduleWord(KEY[..32], 8, 34) == 0xad5245a4 && ScheduleWord(KEY[..32], 8, 35) == 0xc1871c2f
    ensures ScheduleWord(KEY[..32], 8, 36) == 0x45f5a660 && ScheduleWord(KEY[..32], 8, 37) == 0x17b2d387
    ensures ScheduleWord(KEY[..32], 8, 38) == 0x300d4d33 && ScheduleWord(KEY[..32], 8, 39) == 0x640a820a
  {
    hide ScheduleWord, ScheduleStep, Word;
    Words256From24();
    Steps256From24();
    NextWord(KEY[..32], 8, 32, 0x5407cf39, 0xcd8a1220, 0xc656827f, 0x0bdc905f);
    PlainStep(0x0bdc905f, 8, 33);
    NextWord(KEY[..32], 8, 33, 0x0bdc905f, 0x0bdc905f, 0xc9a79917, 0xc27b0948);
    PlainStep(0xc27b0948, 8, 34);
    NextWord(KEY[..32], 8, 34, 0xc27b0948, 0xc27b0948, 0x6f294cec, 0xad5245a4);
    PlainStep(0xad5245a4, 8, 35);
    NextWord(KEY[..32], 8, 35, 0xad5245a4, 0xad5245a4, 0x6cd5598b, 0xc1871c2f);
    NextWord(KEY[..32], 8, 36, 0xc1871c2f, 0x78179c15, 0x3de23a75, 0x45f5a660);
    PlainStep(0x45f5a660, 8, 37);
    NextWord(KEY[..32], 8, 37, 0x45f5a660, 0x45f5a660, 0x524775e7, 0x17b2d387);
    PlainStep(0x17b2d387, 8, 38);
    NextWord(KEY[..32], 8, 38, 0x17b2d387, 0x17b2d387, 0x27bf9eb4, 0x300d4d33);
    PlainStep(0x300d4d33, 8, 39);
    NextWord(KEY[..32], 8, 39, 0x300d4d33, 0x300d4d33, 0x5407cf39, 0x640a820a);
  }

  lemma Words256From40()
    ensures ScheduleWord(KEY[..32], 8, 40) == 0x7ccff71c && ScheduleWord(KEY[..32], 8, 41) == 0xbeb4fe54
    ensures ScheduleWord(KEY[..32], 8, 42) == 0x13e6bbf0 && ScheduleWord(KEY[..32], 8, 43) == 0xd261a7df
    ensures ScheduleWord(KEY[..32], 8, 44) == 0xf01afafe && ScheduleWord(KEY[..32], 8, 45) == 0xe7a82979
    ensures ScheduleWord(KEY[..32], 8, 46) == 0xd7a5644a && ScheduleWord(KEY[..32], 8, 47) == 0xb3afe640
  {
    hide ScheduleWord, ScheduleStep, Word;
    Words256From32();
    Steps256From40();
    NextWord(KEY[..32], 8, 40, 0x640a820a, 0x77136743, 0x0bdc905f, 0x7ccff71c);
    PlainStep(0x7ccff71c, 8, 41);
    NextWord(KEY[..32], 8, 41, 0x7ccff71c, 0x7ccff71c, 0xc27b0948, 0xbeb4fe54);
    PlainStep(0xbeb4fe54, 8, 42);
    NextWord(KEY[..32], 8, 42, 0xbeb4fe54, 0xbeb4fe54, 0xad5245a4, 0x13e6bbf0);
    PlainStep(0x13e6bbf0, 8, 43);
    NextWord(KEY[..32], 8, 43, 0x13e6bbf0, 0x13e6bbf0, 0xc1871c2f, 0xd261a7df);
    NextWord(KEY[..32], 8, 44, 0xd261a7df, 0xb5ef5c9e, 0x45f5a660, 0xf01afafe);
    PlainStep(0xf01afafe, 8, 45);
    NextWord(KEY[..32], 8, 45, 0xf01afafe, 0xf01afafe, 0x17b2d387, 0xe7a82979);
    PlainStep(0xe7a82979, 8, 46);
    NextWord(KEY[..32], 8, 46, 0xe7a82979, 0xe7a82979, 0x300d4d33, 0xd7a5644a);
    PlainStep(0xd7a5644a, 8, 47);
    NextWord(KEY[..32], 8, 47, 0xd7a5644a, 0xd7a5644a, 0x640a820a, 0xb3afe640);
  }

  lemma Words256From48()
    ensures ScheduleWord(KEY[..32], 8, 48) == 0x2541fe71 && ScheduleWord(KEY[..32], 8, 49) == 0x9bf50025
    ensures ScheduleWord(KEY[..32], 8, 50) == 0x8813bbd5 && ScheduleWord(KEY[..32], 8, 51) == 0x5a721c0a
    ensures ScheduleWord(KEY[..32], 8, 52) == 0x4e5a6699 && ScheduleWord(KEY[..32], 8, 53) == 0xa9f24fe0
    ensures ScheduleWord(KEY[..32], 8, 54) == 0x7e572baa && ScheduleWord(KEY[..32], 8, 55) == 0xcdf8cdea
  {
    hide ScheduleWord, ScheduleStep, Word;
    Words256From40();
    Steps256From40();
    NextWord(KEY[..32], 8, 48, 0xb3afe640, 0x598e096d, 0x7ccff71c, 0x2541fe71);
    PlainStep(0x2541fe71, 8, 49);
    NextWord(KEY[..32], 8, 49, 0x2541fe71, 0x2541fe71, 0xbeb4fe54, 0x9bf50025);
    PlainStep(0x9bf50025, 8, 50);
    NextWord(KEY[..32], 8, 50, 0x9bf50025, 0x9bf50025, 0x13e6bbf0, 0x8813bbd5);
    PlainStep(0x8813bbd5, 8, 51);
    NextWord(KEY[..32], 8, 51, 0x8813bbd5, 0x8813bbd5, 0xd261a7df, 0x5a721c0a);
    NextWord(KEY[..32], 8, 52, 0x5a721c0a, 0xbe409c67, 0xf01afafe, 0x4e5a6699);
    PlainStep(0x4e5a6699, 8, 53);
    NextWord(KEY[..32], 8, 53, 0x4e5a6699, 0x4e5a6699, 0xe7a82979, 0xa9f24fe0);
    PlainStep(0xa9f24fe0, 8, 54);
    NextWord(KEY[..32], 8, 54, 0xa9f24fe0, 0xa9f24fe0, 0xd7a5644a, 0x7e572baa);
    PlainStep(0x7e572baa, 8, 55);
    NextWord(KEY[..32], 8, 55, 0x7e572baa, 0x7e572baa, 0xb3afe640, 0xcdf8cdea);
  }

  lemma Words256From56()
    ensures ScheduleWord(KEY[..32], 8, 56) == 0x24fc79cc && ScheduleWord(KEY[..32], 8, 57) == 0xbf0979e9
    ensures ScheduleWord(KEY[..32], 8, 58) == 0x371ac23c && ScheduleWord(KEY[..32], 8, 59) == 0x6d68de36
  {
    hide ScheduleWord, ScheduleStep, Word;
    Words256From48();
    Steps256From56();
    NextWord(KEY[..32], 8, 56, 0xcdf8cdea, 0x01bd87bd, 0x2541fe71, 0x24fc79cc);
    PlainStep(0x24fc79cc, 8, 57);
    NextWord(KEY[..32], 8, 57, 0x24fc79cc, 0x24fc79cc, 0x9bf50025, 0xbf0979e9);
    PlainStep(0xbf0979e9, 8, 58);
    NextWord(KEY[..32], 8, 58, 0xbf0979e9, 0xbf0979e9, 0x8813bbd5, 0x371ac23c);
    PlainStep(0x371ac23c, 8, 59);
    NextWord(KEY[..32], 8, 59, 0x371ac23c, 0x371ac23c, 0x5a721c0a, 0x6d68de36);
  }

  lemma Round256_1()
    ensures FullRound(Block(0x00102030, 0x40506070, 0x8090a0b0, 0xc0d0e0f0), Block(0x10111213, 0x14151617, 0x18191a1b, 0x1c1d1e1f))
         == Block(0x4f637606, 0x43e0aa85, 0xefa72132, 0x01a4e705)
  {
  }

  lemma Round256_2()
    ensures FullRound(Block(0x4f637606, 0x43e0aa85, 0xefa72132, 0x01a4e705), Block(0xa573c29f, 0xa176c498, 0xa97fce93, 0xa572c09c))
         == Block(0x1859fbc2, 0x8a1c00a0, 0x78ed8aad, 0xc42f6109)
  {
  }

  lemma Round256_3()
    ensures FullRound(Block(0x1859fbc2, 0x8a1c00a0, 0x78ed8aad, 0xc42f6109), Block(0x1651a8cd, 0x0244beda, 0x1a5da4c1, 0x0640bade))
         == Block(0x975c66c1, 0xcb9f3fa8, 0xa93a28df, 0x8ee10f63)
  {
  }

  lemma Round256_4()
    ensures FullRound(Block(0x975c66c1, 0xcb9f3fa8, 0xa93a28df, 0x8ee10f63), Block(0xae87dff0, 0x0ff11b68, 0xa68ed5fb, 0x03fc1567))
         == Block(0x1c05f271, 0xa417e04f, 0xf921c5c1, 0x04701554)
  {
  }

  lemma Round256_5()
    ensures FullRound(Block(0x1c05f271, 0xa417e04f, 0xf921c5c1, 0x04701554), Block(0x6de1f148, 0x6fa54f92, 0x75f8eb53, 0x73b8518d))
         == Block(0xc357aae1, 0x1b45b7b0, 0xa2c7bd28, 0xa8dc99fa)
  {
  }

  lemma Round256_6()
    ensures FullRound(Block(0xc357aae1, 0x1b45b7b0, 0xa2c7bd28, 0xa8dc99fa), Block(0xc656827f, 0xc9a79917, 0x6f294cec, 0x6cd5598b))
         == Block(0x7f074143, 0xcb4e243e, 0xc10c815d, 0x8375d54c)
  {
  }

  lemma Round256_7()
    ensures FullRound(Block(0x7f074143, 0xcb4e243e, 0xc10c815d, 0x8375d54c), Block(0x3de23a75, 0x524775e7, 0x27bf9eb4, 0x5407cf39))
         == Block(0xd653a469, 0x6ca0bc0f, 0x5acaab5d, 0xb96c5e7d)
  {
  }

  lemma Round256_8()
    ensures FullRound(Block(0xd653a469, 0x6ca0bc0f, 0x5acaab5d, 0xb96c5e7d), Block(0x0bdc905f, 0xc27b0948, 0xad5245a4, 0xc1871c2f))
         == Block(0x5aa85839, 0x5fd28d7d, 0x05e1a388, 0x68f3b9c5)
  {
  }

  lemma Round256_9()
    ensures FullRound(Block(0x5aa85839, 0x5fd28d7d, 0x05e1a388, 0x68f3b9c5), Block(0x45f5a660, 0x17b2d387, 0x300d4d33, 0x640a820a))
         == Block(0x4a824851, 0xc57e7e47, 0x643de50c, 0x2af3e8c9)
  {
  }

  lemma Round256_10()
    ensures FullRound(Block(0x4a824851, 0xc57e7e47, 0x643de50c, 0x2af3e8c9), Block(0x7ccff71c, 0xbeb4fe54, 0x13e6bbf0, 0xd261a7df))
         == Block(0xc14907f6, 0xca3b3aa0, 0x70e9aa31, 0x3b52b5ec)
  {
  }

  lemma Round256_11()
    ensures FullRound(Block(0xc14907f6, 0xca3b3aa0, 0x70e9aa31, 0x3b52b5ec), Block(0xf01afafe, 0xe7a82979, 0xd7a5644a, 0xb3afe640))
         == Block(0x5f9c6abf, 0xbac634aa, 0x50409fa7, 0x66677653)
  {
  }

  lemma Round256_12()
    ensures FullRound(Block(0x5f9c6abf, 0xbac634aa, 0x50409fa7, 0x66677653), Block(0x2541fe71, 0x9bf50025, 0x8813bbd5, 0x5a721c0a))
         == Block(0x51660495, 0x43539503, 0x14fb86e4, 0x01922521)
  {
  }

  lemma Round256_13()
    ensures FullRound(Block(0x51660495, 0x43539503, 0x14fb86e4, 0x01922521), Block(0x4e5a6699, 0xa9f24fe0, 0x7e572baa, 0xcdf8cdea))
         == Block(0x627bceb9, 0x999d5aaa, 0xc945ecf4, 0x23f56da5)
  {
  }

  lemma Round256_14()
    ensures LastRound(Block(0x627bceb9, 0x999d5aaa, 0xc945ecf4, 0x23f56da5), Block(0x24fc79cc, 0xbf0979e9, 0x371ac23c, 0x6d68de36))
         == Block(0x8ea2b7ca, 0x516745bf, 0xeafc4990, 0x4b496089)
  {
  }

  lemma Cipher256()
    ensures Cipher(Block(0x00112233, 0x44556677, 0x8899aabb, 0xccddeeff), KeyExpansion(KEY[..32], 8), 14)
         == Block(0x8ea2b7ca, 0x516745bf, 0xeafc4990, 0x4b496089)
  {
    hide ScheduleWord, KeyExpansion, FullRound, LastRound, XorBlock, RoundKey, Rounds, Cipher;
    var key, start := KEY[..32], Block(0x00112233, 0x44556677, 0x8899aabb, 0xccddeeff);
    var w := KeyExpansion(key, 8);
    Words256From0();
    Words256From8();
    Words256From16();
    Words256From24();
    Words256From32();
    Words256From40();
    Words256From48();
    Words256From56();
    ExpandedRoundKey(key, 8, 0, Block(0x00010203, 0x04050607, 0x08090a0b, 0x0c0d0e0f));
    ExpandedRoundKey(key, 8, 1, Block(0x10111213, 0x14151617, 0x18191a1b, 0x1c1d1e1f));
    ExpandedRoundKey(key, 8, 2, Block(0xa573c29f, 0xa176c498, 0xa97fce93, 0xa572c09c));
    ExpandedRoundKey(key, 8, 3, Block(0x1651a8cd, 0x0244beda, 0x1a5da4c1, 0x0640bade));
    ExpandedRoundKey(key, 8, 4, Block(0xae87dff0, 0x0ff11b68, 0xa68ed5fb, 0x03fc1567));
    ExpandedRoundKey(key, 8, 5, Block(0x6de1f148, 0x6fa54f92, 0x75f8eb53, 0x73b8518d));
    ExpandedRoundKey(key, 8, 6, Block(0xc656827f, 0xc9a79917, 0x6f294cec, 0x6cd5598b));
    ExpandedRoundKey(key, 8, 7, Block(0x3de23a75, 0x524775e7, 0x27bf9eb4, 0x5407cf39));
    ExpandedRoundKey(key, 8, 8, Block(0x0bdc905f, 0xc27b0948, 0xad5245a4, 0xc1871c2f));
    ExpandedRoundKey(key, 8, 9, Block(0x45f5a660, 0x17b2d387, 0x300d4d33, 0x640a820a));
    ExpandedRoundKey(key, 8, 10, Block(0x7ccff71c, 0xbeb4fe54, 0x13e6bbf0, 0xd261a7df));
    ExpandedRoundKey(key, 8, 11, Block(0xf01afafe, 0xe7a82979, 0xd7a5644a, 0xb3afe640));
    ExpandedRoundKey(key, 8, 12, Block(0x2541fe71, 0x9bf50025, 0x8813bbd5, 0x5a721c0a));
    ExpandedRoundKey(key, 8, 13, Block(0x4e5a6699, 0xa9f24fe0, 0x7e572baa, 0xcdf8cdea));
    ExpandedRoundKey(key, 8, 14, Block(0x24fc79cc, 0xbf0979e9, 0x371ac23c, 0x6d68de36));
    assert XorBlock(start, Block(0x00010203, 0x04050607, 0x08090a0b, 0x0c0d0e0f)) == Block(0x00102030, 0x40506070, 0x8090a0b0, 0xc0d0e0f0) by { Start256(); }
    StartRound(start, w, Block(0x00010203, 0x04050607, 0x08090a0b, 0x0c0d0e0f), Block(0x00102030, 0x40506070, 0x8090a0b0, 0xc0d0e0f0));
    Round256_1();
    NextRound(start, w, 1, Block(0x00102030, 0x40506070, 0x8090a0b0, 0xc0d0e0f0),
      Block(0x10111213, 0x14151617, 0x18191a1b, 0x1c1d1e1f), Block(0x4f637606, 0x43e0aa85, 0xefa72132, 0x01a4e705));
    Round256_2();
    NextRound(start, w, 2, Block(0x4f637606, 0x43e0aa85, 0xefa72132, 0x01a4e705),
      Block(0xa573c29f, 0xa176c498, 0xa97fce93, 0xa572c09c), Block(0x1859fbc2, 0x8a1c00a0, 0x78ed8aad, 0xc42f6109));
    Round256_3();
    NextRound(start, w, 3, Block(0x1859fbc2, 0x8a1c00a0, 0x78ed8aad, 0xc42f6109),
      Block(0x1651a8cd, 0x0244beda, 0x1a5da4c1, 0x0640bade), Block(0x975c66c1, 0xcb9f3fa8, 0xa93a28df, 0x8ee10f63));
    Round256_4();
    NextRound(start, w, 4, Block(0x975c66c1, 0xcb9f3fa8, 0xa93a28df, 0x8ee10f63),
      Block(0xae87dff0, 0x0ff11b68, 0xa68ed5fb, 0x03fc1567), Block(0x1c05f271, 0xa417e04f, 0xf921c5c1, 0x04701554));
    Round256_5();
    NextRound(start, w, 5, Block(0x1c05f271, 0xa417e04f, 0xf921c5c1, 0x04701554),
      Block(0x6de1f148, 0x6fa54f92, 0x75f8eb53, 0x73b8518d), Block(0xc357aae1, 0x1b45b7b0, 0xa2c7bd28, 0xa8dc99fa));
    Round256_6();
    NextRound(start, w, 6, Block(0xc357aae1, 0x1b45b7b0, 0xa2c7bd28, 0xa8dc99fa),
      Block(0xc656827f, 0xc9a79917, 0x6f294cec, 0x6cd5598b), Block(0x7f074143, 0xcb4e243e, 0xc10c815d, 0x8375d54c));
    Round256_7();
    NextRound(start, w, 7, Block(0x7f074143, 0xcb4e243e, 0xc10c815d, 0x8375d54c),
      Block(0x3de23a75, 0x524775e7, 0x27bf9eb4, 0x5407cf39), Block(0xd653a469, 0x6ca0bc0f, 0x5acaab5d, 0xb96c5e7d));
    Round256_8();
    NextRound(start, w, 8, Block(0xd653a469, 0x6ca0bc0f, 0x5acaab5d, 0xb96c5e7d),
      Block(0x0bdc905f, 0xc27b0948, 0xad5245a4, 0xc1871c2f), Block(0x5aa85839, 0x5fd28d7d, 0x05e1a388, 0x68f3b9c5));
    Round256_9();
    NextRound(start, w, 9, Block(0x5aa85839, 0x5fd28d7d, 0x05e1a388, 0x68f3b9c5),
      Block(0x45f5a660, 0x17b2d387, 0x300d4d33, 0x640a820a), Block(0x4a824851, 0xc57e7e47, 0x643de50c, 0x2af3e8c9));
    Round256_10();
    NextRound(start, w, 10, Block(0x4a824851, 0xc57e7e47, 0x643de50c, 0x2af3e8c9),
      Block(0x7ccff71c, 0xbeb4fe54, 0x13e6bbf0, 0xd261a7df), Block(0xc14907f6, 0xca3b3aa0, 0x70e9aa31, 0x3b52b5ec));
    Round256_11();
    NextRound(start, w, 11, Block(0xc14907f6, 0xca3b3aa0, 0x70e9aa31, 0x3b52b5ec),
      Block(0xf01afafe, 0xe7a82979, 0xd7a5644a, 0xb3afe640), Block(0x5f9c6abf, 0xbac634aa, 0x50409fa7, 0x66677653));
    Round256_12();
    NextRound(start, w, 12, Block(0x5f9c6abf, 0xbac634aa, 0x50409fa7, 0x66677653),
      Block(0x2541fe71, 0x9bf50025, 0x8813bbd5, 0x5a721c0a), Block(0x51660495, 0x43539503, 0x14fb86e4, 0x01922521));
    Round256_13();
    NextRound(start, w, 13, Block(0x51660495, 0x43539503, 0x14fb86e4, 0x01922521),
      Block(0x4e5a6699, 0xa9f24fe0, 0x7e572baa, 0xcdf8cdea), Block(0x627bceb9, 0x999d5aaa, 0xc945ecf4, 0x23f56da5));
    Round256_14();
    FinalRound(start, w, 14, Block(0x627bceb9, 0x999d5aaa, 0xc945ecf4, 0x23f56da5),
      Block(0x24fc79cc, 0xbf0979e9, 0x371ac23c, 0x6d68de36), Block(0x8ea2b7ca, 0x516745bf, 0xeafc4990, 0x4b496089));
  }

  lemma Start256()
    ensures XorBlock(Block(0x00112233, 0x44556677, 0x8899aabb, 0xccddeeff), Block(0x00010203, 0x04050607, 0x08090a0b, 0x0c0d0e0f)) == Block(0x00102030, 0x40506070, 0x8090a0b0, 0xc0d0e0f0)
  {
  }

  lemma Bytes256()
    ensures BlockBytes(Block(0x8ea2b7ca, 0x516745bf, 0xeafc4990, 0x4b496089)) ==
      [0x8e, 0xa2, 0xb7, 0xca, 0x51, 0x67, 0x45, 0xbf, 0xea, 0xfc, 0x49, 0x90, 0x4b, 0x49, 0x60, 0x89]
  {
  }

  lemma Encrypt256()
    ensures EncryptBlock(KEY[..32], 8, PLAIN) ==
      [0x8e, 0xa2, 0xb7, 0xca, 0x51, 0x67, 0x45, 0xbf, 0xea, 0xfc, 0x49, 0x90, 0x4b, 0x49, 0x60, 0x89]
  {
    hide Cipher, KeyExpansion, LoadBlock, BlockBytes;
    PlainBlock();
    Cipher256();
    Bytes256();
  }
}
