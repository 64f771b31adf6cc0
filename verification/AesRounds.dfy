// The column expressions of the AES core (common/libtools/AesCore.cpp): one word of a
// round out of four table lookups and a round key word. Each one is shown to be what
// FIPS 197 asks of that round.
module AesRounds {
  import opened Words
  import opened GaloisField
  import opened AesTables
  import opened Fips197

  // The source's a ^ b ^ c ^ d ^ k, in its order of evaluation.
  function Xor5(a: bv32, b: bv32, c: bv32, d: bv32, k: bv32): bv32 { Xor(Xor4(a, b, c, d), k) }
  function Xor4(a: bv32, b: bv32, c: bv32, d: bv32): bv32 { Xor(Xor(Xor(a, b), c), d) }

  // ---------- The expressions ----------

  // A full round (lines 878-901): t0 is EncryptColumn(s0, s1, s2, s3, rk[4]), and so on.
  function EncryptColumn(a: bv32, b: bv32, c: bv32, d: bv32, k: bv32): bv32 {
    Xor5(Te0(Byte0(a)), Te1(Byte1(b)), Te2(Byte2(c)), Te3(Byte3(d)), k)
  }

  // Four substituted bytes as a word, cut out of the T-tables with masks: the pattern of
  // the last round (lines 938-965) and of key expansion.
  function MaskedWord(x0: bv8, x1: bv8, x2: bv8, x3: bv8): bv32 {
    Xor4(Te2(x0) & 0xff000000, Te3(x1) & 0x00ff0000, Te0(x2) & 0x0000ff00, Te1(x3) & 0x000000ff)
  }

  function LastEncryptColumn(a: bv32, b: bv32, c: bv32, d: bv32, k: bv32): bv32 {
    Xor(MaskedWord(Byte0(a), Byte1(b), Byte2(c), Byte3(d)), k)
  }

  // A full decryption round (lines 1069-1092) and the last one (lines 1129-1156).
  function DecryptColumn(a: bv32, b: bv32, c: bv32, d: bv32, k: bv32): bv32 {
    Xor5(Td0(Byte0(a)), Td1(Byte1(b)), Td2(Byte2(c)), Td3(Byte3(d)), k)
  }

  function ShiftedWord(x0: bv8, x1: bv8, x2: bv8, x3: bv8): bv32 {
    Xor4(Td4(x0) << 24, Td4(x1) << 16, Td4(x2) << 8, Td4(x3))
  }

  function LastDecryptColumn(a: bv32, b: bv32, c: bv32, d: bv32, k: bv32): bv32 {
    Xor(ShiftedWord(Byte0(a), Byte1(b), Byte2(c), Byte3(d)), k)
  }

  // The nonlinear step of key expansion: with the rotation (lines 657-660, and alike at
  // 677-680 and 699-702) and without it (lines 712-715).
  function RotatedSubstitution(temp: bv32): bv32 {
    MaskedWord(Byte1(temp), Byte2(temp), Byte3(temp), Byte0(temp))
  }

  function Substitution(temp: bv32): bv32 {
    MaskedWord(Byte0(temp), Byte1(temp), Byte2(temp), Byte3(temp))
  }

  // A round key word of the decryption schedule (lines 753-757, and alike for the other three words).
  function InvMixKeyWord(w: bv32): bv32 {
    Xor4(Td0(Byte3(Te1(Byte0(w)))), Td1(Byte3(Te1(Byte1(w)))),
         Td2(Byte3(Te1(Byte2(w)))), Td3(Byte3(Te1(Byte3(w)))))
  }

  // ---------- Sums of words, byte by byte ----------

  lemma AddRotates(a: bv8, b: bv8, c: bv8, d: bv8)
    ensures Add(Add(a, b), Add(c, d)) == Add(Add(b, c), Add(d, a))
  {
    hide Add;
    AddCommutes(a, b);
    AddSwap(b, a, c, d);
    AddCommutes(a, d);
  }

  lemma AddRotatesTwice(a: bv8, b: bv8, c: bv8, d: bv8)
    ensures Add(Add(a, b), Add(c, d)) == Add(Add(c, d), Add(a, b))
  {
    hide Add;
    AddCommutes(Add(a, b), Add(c, d));
  }

  // Each byte of a sum of four words, with the terms starting at that byte's own row.
  lemma Xor4OfWords(a0: bv8, a1: bv8, a2: bv8, a3: bv8, b0: bv8, b1: bv8, b2: bv8, b3: bv8,
                    c0: bv8, c1: bv8, c2: bv8, c3: bv8, d0: bv8, d1: bv8, d2: bv8, d3: bv8)
    ensures Xor4(Word(a0, a1, a2, a3), Word(b0, b1, b2, b3), Word(c0, c1, c2, c3), Word(d0, d1, d2, d3))
         == Word(Add(Add(a0, b0), Add(c0, d0)), Add(Add(b1, c1), Add(d1, a1)),
                 Add(Add(c2, d2), Add(a2, b2)), Add(Add(d3, a3), Add(b3, c3)))
  {
    hide Word, Xor, Add;
    XorAssociates(Xor(Word(a0, a1, a2, a3), Word(b0, b1, b2, b3)), Word(c0, c1, c2, c3), Word(d0, d1, d2, d3));
    WordDistributes(a0, a1, a2, a3, b0, b1, b2, b3);
    WordDistributes(c0, c1, c2, c3, d0, d1, d2, d3);
    WordDistributes(Add(a0, b0), Add(a1, b1), Add(a2, b2), Add(a3, b3),
                    Add(c0, d0), Add(c1, d1), Add(c2, d2), Add(c3, d3));
    AddRotates(a1, b1, c1, d1);
    AddRotatesTwice(a2, b2, c2, d2);
    AddRotates(d3, a3, b3, c3);
  }

  // ---------- Encryption ----------

  // The source's round on columns a, b, c, d of the state computes MixColumns of the
  // substituted diagonal, plus the key.
  lemma EncryptColumnIsRound(a: bv32, b: bv32, c: bv32, d: bv32, k: bv32)
    ensures EncryptColumn(a, b, c, d, k)
         == Xor(MixColumn(Diagonal(SubWord(a), SubWord(b), SubWord(c), SubWord(d))), k)
  {
    hide *;
    var p, q, r, t := SubByte(Byte0(a)), SubByte(Byte1(b)), SubByte(Byte2(c)), SubByte(Byte3(d));
    Te0Equation(Byte0(a));
    Te1Equation(Byte1(b));
    Te2Equation(Byte2(c));
    Te3Equation(Byte3(d));
    EncryptColumnUnfolds(a, b, c, d, k);
    EncColumnsMix(p, q, r, t);
    SubstitutedDiagonal(a, b, c, d);
  }

  lemma EncryptColumnUnfolds(a: bv32, b: bv32, c: bv32, d: bv32, k: bv32)
    ensures EncryptColumn(a, b, c, d, k)
         == Xor(Xor4(Te0(Byte0(a)), Te1(Byte1(b)), Te2(Byte2(c)), Te3(Byte3(d))), k)
  {
    hide Te0, Te1, Te2, Te3, Byte0, Byte1, Byte2, Byte3, Xor, Xor4;
  }

  lemma EncColumnsMix(p: bv8, q: bv8, r: bv8, t: bv8)
    ensures Xor4(EncColumn0(p), EncColumn1(q), EncColumn2(r), EncColumn3(t)) == MixColumn(Word(p, q, r, t))
  {
    hide Word, Xor4, Add, Times2, Times3, Byte0, Byte1, Byte2, Byte3;
    BytesOfWord(p, q, r, t);
    Xor4OfWords(Times2(p), p, p, Times3(p), Times3(q), Times2(q), q, q,
                r, Times3(r), Times2(r), r, t, t, Times3(t), Times2(t));
  }

  lemma SubstitutedDiagonal(a: bv32, b: bv32, c: bv32, d: bv32)
    ensures Diagonal(SubWord(a), SubWord(b), SubWord(c), SubWord(d))
         == Word(SubByte(Byte0(a)), SubByte(Byte1(b)), SubByte(Byte2(c)), SubByte(Byte3(d)))
  {
    hide Word, SubByte, Byte0, Byte1, Byte2, Byte3;
    SubWordAt(a);
    SubWordAt(b);
    SubWordAt(c);
    SubWordAt(d);
  }

  // The masks of the last round keep the unscaled copy of the substituted byte.
  lemma MaskedColumns(s: bv8)
    ensures EncColumn2(s) & 0xff000000 == Word(s, 0, 0, 0)
    ensures EncColumn3(s) & 0x00ff0000 == Word(0, s, 0, 0)
    ensures EncColumn0(s) & 0x0000ff00 == Word(0, 0, s, 0)
    ensures EncColumn1(s) & 0x000000ff == Word(0, 0, 0, s)
  {
    hide Times2, Times3;
  }

  lemma Xor4OfBytes(p: bv8, q: bv8, r: bv8, t: bv8)
    ensures Xor4(Word(p, 0, 0, 0), Word(0, q, 0, 0), Word(0, 0, r, 0), Word(0, 0, 0, t)) == Word(p, q, r, t)
  {
    hide Word, Xor;
    WordIsSum(p, q, r, t);
    XorAssociates(Xor(Word(p, 0, 0, 0), Word(0, q, 0, 0)), Word(0, 0, r, 0), Word(0, 0, 0, t));
  }

  lemma MaskedLookups(x0: bv8, x1: bv8, x2: bv8, x3: bv8)
    ensures MaskedWord(x0, x1, x2, x3)
         == Word(SubByte(x0), SubByte(x1), SubByte(x2), SubByte(x3))
  {
    hide Te0, Te1, Te2, Te3, EncColumn0, EncColumn1, EncColumn2, EncColumn3, Word, SubByte, Xor4;
    Te2Equation(x0);
    Te3Equation(x1);
    Te0Equation(x2);
    Te1Equation(x3);
    MaskedColumns(SubByte(x0));
    MaskedColumns(SubByte(x1));
    MaskedColumns(SubByte(x2));
    MaskedColumns(SubByte(x3));
    Xor4OfBytes(SubByte(x0), SubByte(x1), SubByte(x2), SubByte(x3));
  }

  lemma LastEncryptColumnIsRound(a: bv32, b: bv32, c: bv32, d: bv32, k: bv32)
    ensures LastEncryptColumn(a, b, c, d, k) == Xor(Diagonal(SubWord(a), SubWord(b), SubWord(c), SubWord(d)), k)
  {
    hide MaskedWord, Byte0, Byte1, Byte2, Byte3, Xor, SubWord, Diagonal;
    MaskedLookups(Byte0(a), Byte1(b), Byte2(c), Byte3(d));
    SubstitutedDiagonal(a, b, c, d);
  }

  // ---------- Key expansion ----------

  lemma RotatedSubstitutionIsSubWord(temp: bv32)
    ensures RotatedSubstitution(temp) == SubWord(RotWord(temp))
  {
    hide MaskedWord, Word, SubByte, Byte0, Byte1, Byte2, Byte3;
    MaskedLookups(Byte1(temp), Byte2(temp), Byte3(temp), Byte0(temp));
    BytesOfWord(Byte1(temp), Byte2(temp), Byte3(temp), Byte0(temp));
  }

  lemma SubstitutionIsSubWord(temp: bv32)
    ensures Substitution(temp) == SubWord(temp)
  {
    hide MaskedWord, Word, SubByte, Byte0, Byte1, Byte2, Byte3;
    MaskedLookups(Byte0(temp), Byte1(temp), Byte2(temp), Byte3(temp));
  }

  // The ten table entries are the powers of x.
  lemma RconIsRoundConstant(i: nat)
    requires i < 10
    ensures RconTable(i) == Word(RoundConstant(i + 1), 0, 0, 0)
  {
    assert RoundConstant(1) == 0x01;
    assert RoundConstant(2) == 0x02;
    assert RoundConstant(3) == 0x04;
    assert RoundConstant(4) == 0x08;
    assert RoundConstant(5) == 0x10;
    assert RoundConstant(6) == 0x20;
    assert RoundConstant(7) == 0x40;
    assert RoundConstant(8) == 0x80;
    assert RoundConstant(9) == 0x1b;
    assert RoundConstant(10) == 0x36;
  }

  // ---------- Decryption ----------

  lemma DecryptColumnIsRound(a: bv32, b: bv32, c: bv32, d: bv32, k: bv32)
    ensures DecryptColumn(a, b, c, d, k)
         == Xor(InvMixColumn(Diagonal(InvSubWord(a), InvSubWord(b), InvSubWord(c), InvSubWord(d))), k)
  {
    hide *;
    Td0Equation(Byte0(a));
    Td1Equation(Byte1(b));
    Td2Equation(Byte2(c));
    Td3Equation(Byte3(d));
    DecryptColumnUnfolds(a, b, c, d, k);
    DecColumnsMix(InvSubByte(Byte0(a)), InvSubByte(Byte1(b)), InvSubByte(Byte2(c)), InvSubByte(Byte3(d)));
    InvSubstitutedDiagonal(a, b, c, d);
  }

  lemma DecryptColumnUnfolds(a: bv32, b: bv32, c: bv32, d: bv32, k: bv32)
    ensures DecryptColumn(a, b, c, d, k)
         == Xor(Xor4(Td0(Byte0(a)), Td1(Byte1(b)), Td2(Byte2(c)), Td3(Byte3(d))), k)
  {
    hide Td0, Td1, Td2, Td3, Byte0, Byte1, Byte2, Byte3, Xor, Xor4;
  }

  lemma DecColumnsMix(p: bv8, q: bv8, r: bv8, t: bv8)
    ensures Xor4(DecColumn0(p), DecColumn1(q), DecColumn2(r), DecColumn3(t)) == InvMixColumn(Word(p, q, r, t))
  {
    hide Word, Xor4, Add, Times9, TimesB, TimesD, TimesE, Byte0, Byte1, Byte2, Byte3;
    BytesOfWord(p, q, r, t);
    Xor4OfWords(TimesE(p), Times9(p), TimesD(p), TimesB(p), TimesB(q), TimesE(q), Times9(q), TimesD(q),
                TimesD(r), TimesB(r), TimesE(r), Times9(r), Times9(t), TimesD(t), TimesB(t), TimesE(t));
  }

  lemma InvSubstitutedDiagonal(a: bv32, b: bv32, c: bv32, d: bv32)
    ensures Diagonal(InvSubWord(a), InvSubWord(b), InvSubWord(c), InvSubWord(d))
         == Word(InvSubByte(Byte0(a)), InvSubByte(Byte1(b)), InvSubByte(Byte2(c)), InvSubByte(Byte3(d)))
  {
    hide Word, InvSubByte, Byte0, Byte1, Byte2, Byte3;
    InvSubWordBytes(a);
    InvSubWordBytes(b);
    InvSubWordBytes(c);
    InvSubWordBytes(d);
  }

  lemma ShiftedByte(s: bv8)
    ensures Word(0, 0, 0, s) << 24 == Word(s, 0, 0, 0)
    ensures Word(0, 0, 0, s) << 16 == Word(0, s, 0, 0)
    ensures Word(0, 0, 0, s) << 8 == Word(0, 0, s, 0)
  {
  }

  lemma ShiftedLookups(x0: bv8, x1: bv8, x2: bv8, x3: bv8)
    ensures ShiftedWord(x0, x1, x2, x3)
         == Word(InvSubByte(x0), InvSubByte(x1), InvSubByte(x2), InvSubByte(x3))
  {
    hide Td4, Word, InvSubByte, Xor4;
    Td4IsByte(x0);
    Td4IsByte(x1);
    Td4IsByte(x2);
    Td4IsByte(x3);
    ShiftedByte(InvSubByte(x0));
    ShiftedByte(InvSubByte(x1));
    ShiftedByte(InvSubByte(x2));
    Xor4OfBytes(InvSubByte(x0), InvSubByte(x1), InvSubByte(x2), InvSubByte(x3));
  }

  lemma LastDecryptColumnIsRound(a: bv32, b: bv32, c: bv32, d: bv32, k: bv32)
    ensures LastDecryptColumn(a, b, c, d, k)
         == Xor(Diagonal(InvSubWord(a), InvSubWord(b), InvSubWord(c), InvSubWord(d)), k)
  {
    hide ShiftedWord, Byte0, Byte1, Byte2, Byte3, Xor, InvSubWord, Diagonal;
    ShiftedLookups(Byte0(a), Byte1(b), Byte2(c), Byte3(d));
    InvSubstitutedDiagonal(a, b, c, d);
  }

  // The substitution inside the key transformation cancels the one inside the Td tables.
  lemma InvMixKeyWordIsInvMixColumn(w: bv32)
    ensures InvMixKeyWord(w) == InvMixColumn(w)
  {
    hide *;
    var b0, b1, b2, b3 := Byte0(w), Byte1(w), Byte2(w), Byte3(w);
    InvMixKeyWordUnfolds(w);
    Td0Equation(SubByte(b0));
    Td1Equation(SubByte(b1));
    Td2Equation(SubByte(b2));
    Td3Equation(SubByte(b3));
    InvSubByteSubByte(b0);
    InvSubByteSubByte(b1);
    InvSubByteSubByte(b2);
    InvSubByteSubByte(b3);
    DecColumnsMix(b0, b1, b2, b3);
    WordOfBytes(w);
  }

  lemma InvMixKeyWordUnfolds(w: bv32)
    ensures InvMixKeyWord(w) == Xor4(Td0(SubByte(Byte0(w))), Td1(SubByte(Byte1(w))),
                                     Td2(SubByte(Byte2(w))), Td3(SubByte(Byte3(w))))
  {
    hide Xor4, Td0, Td1, Td2, Td3, Te1, Byte0, Byte1, Byte2, Byte3;
  }
}
