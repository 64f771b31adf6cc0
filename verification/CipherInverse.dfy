// Why decryption undoes encryption: the inverse cipher of section 5.3 of FIPS 197
// inverts the cipher under any schedule, and the equivalent inverse cipher of section
// 5.3.5 computes the same block from the transformed schedule.
module CipherInverse {
  import opened Words
  import opened AesTables
  import opened Fips197

  // ---------- The inverse cipher ----------

  // An inverse round turns the last two layers of one round into those of the round before.
  lemma InvRoundUndoesRound(s: Block, w: seq<bv32>, r: nat)
    requires 4 * r + 4 <= |w|
    ensures InvRound(ShiftRows(SubBytes(Round(s, w, r))), w, r) == ShiftRows(SubBytes(s))
  {
    hide SubBytes, InvSubBytes, ShiftRows, InvShiftRows, MixColumns, InvMixColumns, AddRoundKey;
    var next := Round(s, w, r);
    InvShiftRowsShiftRows(SubBytes(next));
    InvSubBytesSubBytes(next);
    AddRoundKeyTwice(MixColumns(ShiftRows(SubBytes(s))), w, r);
    InvMixColumnsMixColumns(ShiftRows(SubBytes(s)));
  }

  lemma {:induction false} InvRoundsUndoRounds(s: Block, w: seq<bv32>, nr: nat, i: nat)
    requires i < nr && 4 * nr + 4 <= |w|
    ensures InvRounds(Cipher(s, w, nr), w, nr, i) == ShiftRows(SubBytes(Rounds(s, w, nr - 1 - i)))
  {
    hide SubBytes, ShiftRows, AddRoundKey, InvRound, Round;
    if i == 0 {
      AddRoundKeyTwice(ShiftRows(SubBytes(Rounds(s, w, nr - 1))), w, nr);
    } else {
      InvRoundsUndoRounds(s, w, nr, i - 1);
      InvRoundUndoesRound(Rounds(s, w, nr - 1 - i), w, nr - i);
    }
  }

  lemma InvCipherCipher(s: Block, w: seq<bv32>, nr: nat)
    requires 1 <= nr && 4 * nr + 4 <= |w|
    ensures InvCipher(Cipher(s, w, nr), w, nr) == s
  {
    hide SubBytes, InvSubBytes, ShiftRows, InvShiftRows, AddRoundKey, InvRounds, Cipher;
    var first := AddRoundKey(s, w, 0);
    InvRoundsUndoRounds(s, w, nr, nr - 1);
    assert Rounds(s, w, 0) == first;
    InvShiftRowsShiftRows(SubBytes(first));
    InvSubBytesSubBytes(first);
    AddRoundKeyTwice(s, w, 0);
  }

  // ---------- The equivalent inverse cipher ----------

  // InvSubBytes works byte by byte, so it does not matter whether rows shift before or after.
  lemma InvSubWordOfDiagonal(a: bv32, b: bv32, c: bv32, d: bv32)
    ensures InvSubWord(Diagonal(a, b, c, d))
         == Diagonal(InvSubWord(a), InvSubWord(b), InvSubWord(c), InvSubWord(d))
  {
    hide Word, Byte0, Byte1, Byte2, Byte3, InvSubByte;
    BytesOfWord(Byte0(a), Byte1(b), Byte2(c), Byte3(d));
    InvSubWordBytes(a);
    InvSubWordBytes(b);
    InvSubWordBytes(c);
    InvSubWordBytes(d);
  }

  lemma InvLayersCommute(s: Block)
    ensures InvSubBytes(InvShiftRows(s)) == InvShiftRows(InvSubBytes(s))
  {
    hide InvSubWord, Diagonal;
    InvSubWordOfDiagonal(s.w0, s.w3, s.w2, s.w1);
    InvSubWordOfDiagonal(s.w1, s.w0, s.w3, s.w2);
    InvSubWordOfDiagonal(s.w2, s.w1, s.w0, s.w3);
    InvSubWordOfDiagonal(s.w3, s.w2, s.w1, s.w0);
  }

  // Round r of the decryption schedule is round nr - r of the encryption schedule,
  // through InvMixColumns unless it is the first or the last one.
  lemma DecryptionRoundKey(w: seq<bv32>, nr: nat, r: nat)
    requires r <= nr && 4 * nr + 4 <= |w|
    ensures RoundKey(DecryptionSchedule(w, nr), r)
         == if r == 0 || r == nr then RoundKey(w, nr - r) else InvMixColumns(RoundKey(w, nr - r))
  {
    hide InvMixColumn;
    assert (4 * r + 1) / 4 == r && (4 * r + 2) / 4 == r && (4 * r + 3) / 4 == r;
  }

  lemma InvMixColumnsOfSum(s: Block, k: Block)
    ensures InvMixColumns(XorBlock(s, k)) == XorBlock(InvMixColumns(s), InvMixColumns(k))
  {
    hide InvMixColumn, Xor;
    InvMixColumnDistributes(s.w0, k.w0);
    InvMixColumnDistributes(s.w1, k.w1);
    InvMixColumnDistributes(s.w2, k.w2);
    InvMixColumnDistributes(s.w3, k.w3);
  }

  lemma {:induction false} EqInvRoundsAreInvRounds(s: Block, w: seq<bv32>, nr: nat, i: nat)
    requires i < nr && 4 * nr + 4 <= |w|
    ensures EqInvRounds(s, DecryptionSchedule(w, nr), i) == InvRounds(s, w, nr, i)
  {
    hide InvSubBytes, InvShiftRows, InvMixColumns, XorBlock, RoundKey, DecryptionSchedule;
    DecryptionRoundKey(w, nr, i);
    if i > 0 {
      EqInvRoundsAreInvRounds(s, w, nr, i - 1);
      var before := InvRounds(s, w, nr, i - 1);
      InvLayersCommute(before);
      InvMixColumnsOfSum(InvSubBytes(InvShiftRows(before)), RoundKey(w, nr - i));
    }
  }

  lemma EqInvCipherIsInvCipher(s: Block, w: seq<bv32>, nr: nat)
    requires 1 <= nr && 4 * nr + 4 <= |w|
    ensures EqInvCipher(s, DecryptionSchedule(w, nr), nr) == InvCipher(s, w, nr)
  {
    hide InvSubBytes, InvShiftRows, XorBlock, RoundKey, DecryptionSchedule, InvRounds, EqInvRounds;
    EqInvRoundsAreInvRounds(s, w, nr, nr - 1);
    InvLayersCommute(InvRounds(s, w, nr, nr - 1));
    DecryptionRoundKey(w, nr, nr);
  }

  // Decryption with the transformed schedule returns the encrypted block.
  lemma DecryptionUndoesEncryption(s: Block, w: seq<bv32>, nr: nat)
    requires 1 <= nr && 4 * nr + 4 <= |w|
    ensures EqInvCipher(Cipher(s, w, nr), DecryptionSchedule(w, nr), nr) == s
  {
    hide Cipher, InvCipher, EqInvCipher, DecryptionSchedule;
    EqInvCipherIsInvCipher(Cipher(s, w, nr), w, nr);
    InvCipherCipher(s, w, nr);
  }
}
