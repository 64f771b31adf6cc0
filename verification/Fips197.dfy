// The block cipher of FIPS 197, stated on columns: a block is four 32-bit words, each
// one holding a column of the state with row 0 in its most significant byte.
module Fips197 {
  import opened Words
  import opened GaloisField
  import opened AesTables

  datatype Block = Block(w0: bv32, w1: bv32, w2: bv32, w3: bv32)

  // ---------- The layers on one column ----------

  function SubWord(w: bv32): bv32 {
    Word(SubByte(Byte0(w)), SubByte(Byte1(w)), SubByte(Byte2(w)), SubByte(Byte3(w)))
  }

  function InvSubWord(w: bv32): bv32 {
    Word(InvSubByte(Byte0(w)), InvSubByte(Byte1(w)), InvSubByte(Byte2(w)), InvSubByte(Byte3(w)))
  }

  function RotWord(w: bv32): bv32 { Word(Byte1(w), Byte2(w), Byte3(w), Byte0(w)) }

  function MixBytes(b0: bv8, b1: bv8, b2: bv8, b3: bv8): bv32 {
    Word(MixByte(b0, b1, b2, b3), MixByte(b1, b2, b3, b0), MixByte(b2, b3, b0, b1), MixByte(b3, b0, b1, b2))
  }

  function InvMixBytes(b0: bv8, b1: bv8, b2: bv8, b3: bv8): bv32 {
    Word(InvMixByte(b0, b1, b2, b3), InvMixByte(b1, b2, b3, b0),
         InvMixByte(b2, b3, b0, b1), InvMixByte(b3, b0, b1, b2))
  }

  function MixColumn(w: bv32): bv32 { MixBytes(Byte0(w), Byte1(w), Byte2(w), Byte3(w)) }

  function InvMixColumn(w: bv32): bv32 { InvMixBytes(Byte0(w), Byte1(w), Byte2(w), Byte3(w)) }

  // ---------- The layers on a block ----------

  function SubBytes(s: Block): Block {
    Block(SubWord(s.w0), SubWord(s.w1), SubWord(s.w2), SubWord(s.w3))
  }

  function InvSubBytes(s: Block): Block {
    Block(InvSubWord(s.w0), InvSubWord(s.w1), InvSubWord(s.w2), InvSubWord(s.w3))
  }

  // Row r moves r columns to the left, and back.
  function Diagonal(a: bv32, b: bv32, c: bv32, d: bv32): bv32 {
    Word(Byte0(a), Byte1(b), Byte2(c), Byte3(d))
  }

  function ShiftRows(s: Block): Block {
    Block(Diagonal(s.w0, s.w1, s.w2, s.w3), Diagonal(s.w1, s.w2, s.w3, s.w0),
          Diagonal(s.w2, s.w3, s.w0, s.w1), Diagonal(s.w3, s.w0, s.w1, s.w2))
  }

  function InvShiftRows(s: Block): Block {
    Block(Diagonal(s.w0, s.w3, s.w2, s.w1), Diagonal(s.w1, s.w0, s.w3, s.w2),
          Diagonal(s.w2, s.w1, s.w0, s.w3), Diagonal(s.w3, s.w2, s.w1, s.w0))
  }

  function MixColumns(s: Block): Block {
    Block(MixColumn(s.w0), MixColumn(s.w1), MixColumn(s.w2), MixColumn(s.w3))
  }

  function InvMixColumns(s: Block): Block {
    Block(InvMixColumn(s.w0), InvMixColumn(s.w1), InvMixColumn(s.w2), InvMixColumn(s.w3))
  }

  function XorBlock(s: Block, k: Block): Block {
    Block(Xor(s.w0, k.w0), Xor(s.w1, k.w1), Xor(s.w2, k.w2), Xor(s.w3, k.w3))
  }

  // A key schedule is a sequence of words; round r uses words 4r .. 4r+3.
  function RoundKey(w: seq<bv32>, r: nat): Block
    requires 4 * r + 4 <= |w|
  {
    Block(w[4 * r], w[4 * r + 1], w[4 * r + 2], w[4 * r + 3])
  }

  function AddRoundKey(s: Block, w: seq<bv32>, r: nat): Block
    requires 4 * r + 4 <= |w|
  {
    XorBlock(s, RoundKey(w, r))
  }

  // ---------- Section 5.1: the cipher ----------

  function Round(s: Block, w: seq<bv32>, r: nat): Block
    requires 4 * r + 4 <= |w|
  {
    AddRoundKey(MixColumns(ShiftRows(SubBytes(s))), w, r)
  }

  // The state after the initial key and the first r full rounds.
  function Rounds(s: Block, w: seq<bv32>, r: nat): Block
    requires 4 * r + 4 <= |w|
  {
    if r == 0 then AddRoundKey(s, w, 0) else Round(Rounds(s, w, r - 1), w, r)
  }

  function Cipher(s: Block, w: seq<bv32>, nr: nat): Block
    requires 1 <= nr && 4 * nr + 4 <= |w|
  {
    AddRoundKey(ShiftRows(SubBytes(Rounds(s, w, nr - 1))), w, nr)
  }

  // ---------- Section 5.3: the inverse cipher ----------

  function InvRound(s: Block, w: seq<bv32>, r: nat): Block
    requires 4 * r + 4 <= |w|
  {
    InvMixColumns(AddRoundKey(InvSubBytes(InvShiftRows(s)), w, r))
  }

  // The state after the last round key and the inverse rounds nr-1, .., nr-i.
  function InvRounds(s: Block, w: seq<bv32>, nr: nat, i: nat): Block
    requires i <= nr && 4 * nr + 4 <= |w|
  {
    if i == 0 then AddRoundKey(s, w, nr) else InvRound(InvRounds(s, w, nr, i - 1), w, nr - i)
  }

  function InvCipher(s: Block, w: seq<bv32>, nr: nat): Block
    requires 1 <= nr && 4 * nr + 4 <= |w|
  {
    AddRoundKey(InvSubBytes(InvShiftRows(InvRounds(s, w, nr, nr - 1))), w, 0)
  }

  // ---------- Section 5.3.5: the equivalent inverse cipher ----------

  function EqInvRound(s: Block, dw: seq<bv32>, r: nat): Block
    requires 4 * r + 4 <= |dw|
  {
    AddRoundKey(InvMixColumns(InvShiftRows(InvSubBytes(s))), dw, r)
  }

  // dw lists the round keys in the order in which decryption uses them.
  function EqInvRounds(s: Block, dw: seq<bv32>, r: nat): Block
    requires 4 * r + 4 <= |dw|
  {
    if r == 0 then AddRoundKey(s, dw, 0) else EqInvRound(EqInvRounds(s, dw, r - 1), dw, r)
  }

  function EqInvCipher(s: Block, dw: seq<bv32>, nr: nat): Block
    requires 1 <= nr && 4 * nr + 4 <= |dw|
  {
    AddRoundKey(InvShiftRows(InvSubBytes(EqInvRounds(s, dw, nr - 1))), dw, nr)
  }

  // The schedule of the equivalent inverse cipher: the round keys of w backwards, all
  // but the first and the last one through InvMixColumns.
  function DecryptionSchedule(w: seq<bv32>, nr: nat): (dw: seq<bv32>)
    requires 4 * nr + 4 <= |w|
    ensures |dw| == 4 * nr + 4
  {
    seq(4 * nr + 4, k requires 0 <= k < 4 * nr + 4 => DecryptionWord(w, nr, k))
  }

  function DecryptionWord(w: seq<bv32>, nr: nat, k: nat): bv32
    requires k < 4 * nr + 4 <= |w|
  {
    var word := w[4 * (nr - k / 4) + k % 4];
    if k / 4 == 0 || k / 4 == nr then word else InvMixColumn(word)
  }

  // ---------- Section 5.2: key expansion ----------

  function RoundConstant(j: nat): bv8
    requires 1 <= j
  {
    if j == 1 then 1 else XTime(RoundConstant(j - 1))
  }

  lemma RoundConstants()
    ensures RoundConstant(1) == 0x01 && RoundConstant(2) == 0x02 && RoundConstant(3) == 0x04 && RoundConstant(4) == 0x08
    ensures RoundConstant(5) == 0x10 && RoundConstant(6) == 0x20 && RoundConstant(7) == 0x40 && RoundConstant(8) == 0x80
    ensures RoundConstant(9) == 0x1b && RoundConstant(10) == 0x36
  {
    assert RoundConstant(2) == 0x02;
    assert RoundConstant(4) == 0x08;
    assert RoundConstant(6) == 0x20;
    assert RoundConstant(8) == 0x80;
  }

  function KeyWord(key: seq<bv8>, i: nat): bv32
    requires 4 * i + 4 <= |key|
  {
    Word(key[4 * i], key[4 * i + 1], key[4 * i + 2], key[4 * i + 3])
  }

  // Word i of the schedule of a key of nk words.
  function ScheduleWord(key: seq<bv8>, nk: nat, i: nat): bv32
    requires 1 <= nk && 4 * nk <= |key|
  {
    if i < nk then KeyWord(key, i)
    else Xor(ScheduleWord(key, nk, i - nk), ScheduleStep(ScheduleWord(key, nk, i - 1), nk, i))
  }

  function ScheduleStep(temp: bv32, nk: nat, i: nat): bv32
    requires 1 <= nk <= i
  {
    if i % nk == 0 then Xor(SubWord(RotWord(temp)), Word(RoundConstant(i / nk), 0, 0, 0))
    else if nk > 6 && i % nk == 4 then SubWord(temp)
    else temp
  }

  // KeyExpansion: 4(nr+1) words, with nr = nk + 6 rounds.
  function KeyExpansion(key: seq<bv8>, nk: nat): (w: seq<bv32>)
    requires 1 <= nk && 4 * nk <= |key|
    ensures |w| == 4 * (nk + 7)
  {
    seq(4 * (nk + 7), i requires 0 <= i < 4 * (nk + 7) => ScheduleWord(key, nk, i))
  }

  // ---------- The layers byte by byte ----------

  // Byte r of a column, and the byte in row r and column c of the state.
  function ByteOf(w: bv32, r: nat): bv8
    requires r < 4
  {
    if r == 0 then Byte0(w) else if r == 1 then Byte1(w) else if r == 2 then Byte2(w) else Byte3(w)
  }

  function Column(s: Block, c: nat): bv32
    requires c < 4
  {
    if c == 0 then s.w0 else if c == 1 then s.w1 else if c == 2 then s.w2 else s.w3
  }

  function StateByte(s: Block, r: nat, c: nat): bv8
    requires r < 4 && c < 4
  {
    ByteOf(Column(s, c), r)
  }

  lemma DiagonalAt(a: bv32, b: bv32, c: bv32, d: bv32, r: nat)
    requires r < 4
    ensures ByteOf(Diagonal(a, b, c, d), r) == ByteOf(if r == 0 then a else if r == 1 then b else if r == 2 then c else d, r)
  {
    hide Diagonal, Byte0, Byte1, Byte2, Byte3;
    DiagonalBytes(a, b, c, d);
  }

  // Row r moves r columns to the left.
  lemma ShiftRowsAt(s: Block, r: nat, c: nat)
    requires r < 4 && c < 4
    ensures StateByte(ShiftRows(s), r, c) == StateByte(s, r, (c + r) % 4)
  {
    hide Diagonal, ByteOf;
    if c == 0 {
      DiagonalAt(s.w0, s.w1, s.w2, s.w3, r);
    } else if c == 1 {
      DiagonalAt(s.w1, s.w2, s.w3, s.w0, r);
    } else if c == 2 {
      DiagonalAt(s.w2, s.w3, s.w0, s.w1, r);
    } else {
      DiagonalAt(s.w3, s.w0, s.w1, s.w2, r);
    }
  }

  lemma SubWordAt(w: bv32)
    ensures Byte0(SubWord(w)) == SubByte(Byte0(w)) && Byte1(SubWord(w)) == SubByte(Byte1(w))
    ensures Byte2(SubWord(w)) == SubByte(Byte2(w)) && Byte3(SubWord(w)) == SubByte(Byte3(w))
  {
    hide Word, SubByte, Byte0, Byte1, Byte2, Byte3;
    BytesOfWord(SubByte(Byte0(w)), SubByte(Byte1(w)), SubByte(Byte2(w)), SubByte(Byte3(w)));
  }

  lemma SubBytesAt(s: Block, r: nat, c: nat)
    requires r < 4 && c < 4
    ensures StateByte(SubBytes(s), r, c) == SubByte(StateByte(s, r, c))
  {
    hide SubWord, SubByte, Byte0, Byte1, Byte2, Byte3;
    SubWordAt(Column(s, c));
  }

  // The matrix of section 5.1.3: 02 03 01 01, one place further in each row.
  lemma MixColumnAt(w: bv32, r: nat)
    requires r < 4
    ensures ByteOf(MixColumn(w), r) ==
      Add(Add(Mul(ByteOf(w, r), 2), Mul(ByteOf(w, (r + 1) % 4), 3)), Add(ByteOf(w, (r + 2) % 4), ByteOf(w, (r + 3) % 4)))
  {
    hide *;
    var a, b, c, d := Byte0(w), Byte1(w), Byte2(w), Byte3(w);
    BytesAt(w);
    MixColumnBytes(w, r);
    if r == 0 {
      MixByteIsSum(a, b, c, d);
    } else if r == 1 {
      MixByteIsSum(b, c, d, a);
    } else if r == 2 {
      MixByteIsSum(c, d, a, b);
    } else {
      MixByteIsSum(d, a, b, c);
    }
  }

  lemma MixColumnBytes(w: bv32, r: nat)
    requires r < 4
    ensures var a, b, c, d := Byte0(w), Byte1(w), Byte2(w), Byte3(w);
      ByteOf(MixColumn(w), r) == if r == 0 then MixByte(a, b, c, d) else if r == 1 then MixByte(b, c, d, a)
                                 else if r == 2 then MixByte(c, d, a, b) else MixByte(d, a, b, c)
  {
    hide Word, ByteOf, Byte0, Byte1, Byte2, Byte3, MixByte;
    var a, b, c, d := Byte0(w), Byte1(w), Byte2(w), Byte3(w);
    WordAt(MixByte(a, b, c, d), MixByte(b, c, d, a), MixByte(c, d, a, b), MixByte(d, a, b, c), r);
  }

  lemma WordAt(b0: bv8, b1: bv8, b2: bv8, b3: bv8, r: nat)
    requires r < 4
    ensures ByteOf(Word(b0, b1, b2, b3), r) == if r == 0 then b0 else if r == 1 then b1 else if r == 2 then b2 else b3
  {
    hide Word, Byte0, Byte1, Byte2, Byte3;
    BytesOfWord(b0, b1, b2, b3);
  }

  lemma BytesAt(w: bv32)
    ensures ByteOf(w, 0) == Byte0(w) && ByteOf(w, 1) == Byte1(w) && ByteOf(w, 2) == Byte2(w) && ByteOf(w, 3) == Byte3(w)
  {
    hide Byte0, Byte1, Byte2, Byte3;
  }

  lemma MixByteIsSum(a: bv8, b: bv8, c: bv8, d: bv8)
    ensures MixByte(a, b, c, d) == Add(Add(Mul(a, 2), Mul(b, 3)), Add(c, d))
  {
    hide Mul, Times2, Times3, Add;
    CoefficientsAreProducts(a);
    CoefficientsAreProducts(b);
  }

  // The rounds of the cipher, one after the other.
  lemma RoundsInOrder(s: Block, w: seq<bv32>, r: nat)
    requires 4 * r + 4 <= |w|
    ensures Rounds(s, w, r) ==
      if r == 0 then AddRoundKey(s, w, 0) else AddRoundKey(MixColumns(ShiftRows(SubBytes(Rounds(s, w, r - 1)))), w, r)
  {
    hide AddRoundKey, MixColumns, ShiftRows, SubBytes;
  }

  // Byte 4 * i + k of the key is byte k of word i of the schedule.
  lemma KeyBytes(key: seq<bv8>, nk: nat, i: nat)
    requires 1 <= nk && 4 * nk <= |key| && i < nk
    ensures Byte0(KeyExpansion(key, nk)[i]) == key[4 * i] && Byte1(KeyExpansion(key, nk)[i]) == key[4 * i + 1]
    ensures Byte2(KeyExpansion(key, nk)[i]) == key[4 * i + 2] && Byte3(KeyExpansion(key, nk)[i]) == key[4 * i + 3]
  {
    hide Word, Byte0, Byte1, Byte2, Byte3;
    BytesOfWord(key[4 * i], key[4 * i + 1], key[4 * i + 2], key[4 * i + 3]);
  }

  // Every later word is the word nk places before it plus a step.
  lemma LaterWords(key: seq<bv8>, nk: nat, i: nat)
    requires 1 <= nk <= i < 4 * (nk + 7) && 4 * nk <= |key|
    ensures var w := KeyExpansion(key, nk);
      w[i] == Xor(w[i - nk], if i % nk == 0 then Xor(SubWord(RotWord(w[i - 1])), Word(RoundConstant(i / nk), 0, 0, 0))
                             else if nk > 6 && i % nk == 4 then SubWord(w[i - 1]) else w[i - 1])
  {
    hide SubWord, RotWord, Word, RoundConstant, KeyWord, ScheduleWord, ScheduleStep, Xor;
    ScheduleUnfolds(key, nk, i);
    StepUnfolds(ScheduleWord(key, nk, i - 1), nk, i);
  }

  lemma ScheduleUnfolds(key: seq<bv8>, nk: nat, i: nat)
    requires 1 <= nk <= i && 4 * nk <= |key|
    ensures ScheduleWord(key, nk, i) == Xor(ScheduleWord(key, nk, i - nk), ScheduleStep(ScheduleWord(key, nk, i - 1), nk, i))
  {
    hide ScheduleStep, KeyWord, Xor;
  }

  lemma StepUnfolds(temp: bv32, nk: nat, i: nat)
    requires 1 <= nk <= i
    ensures ScheduleStep(temp, nk, i) ==
      if i % nk == 0 then Xor(SubWord(RotWord(temp)), Word(RoundConstant(i / nk), 0, 0, 0))
      else if nk > 6 && i % nk == 4 then SubWord(temp) else temp
  {
    hide SubWord, RotWord, Word, RoundConstant, Xor;
  }

  lemma RotWordBytes(w: bv32)
    ensures Byte0(RotWord(w)) == Byte1(w) && Byte1(RotWord(w)) == Byte2(w)
    ensures Byte2(RotWord(w)) == Byte3(w) && Byte3(RotWord(w)) == Byte0(w)
  {
    hide Word, Byte0, Byte1, Byte2, Byte3;
    BytesOfWord(Byte1(w), Byte2(w), Byte3(w), Byte0(w));
  }

  // ---------- The inverse layers undo the layers ----------

  lemma InvSubWordSubWord(w: bv32)
    ensures InvSubWord(SubWord(w)) == w
  {
    hide Word, Byte0, Byte1, Byte2, Byte3, SubByte, InvSubByte;
    BytesOfWord(SubByte(Byte0(w)), SubByte(Byte1(w)), SubByte(Byte2(w)), SubByte(Byte3(w)));
    InvSubByteSubByte(Byte0(w));
    InvSubByteSubByte(Byte1(w));
    InvSubByteSubByte(Byte2(w));
    InvSubByteSubByte(Byte3(w));
    WordOfBytes(w);
  }

  lemma InvSubBytesSubBytes(s: Block)
    ensures InvSubBytes(SubBytes(s)) == s
  {
    hide SubWord, InvSubWord;
    InvSubWordSubWord(s.w0);
    InvSubWordSubWord(s.w1);
    InvSubWordSubWord(s.w2);
    InvSubWordSubWord(s.w3);
  }

  lemma InvSubWordBytes(w: bv32)
    ensures Byte0(InvSubWord(w)) == InvSubByte(Byte0(w))
    ensures Byte1(InvSubWord(w)) == InvSubByte(Byte1(w))
    ensures Byte2(InvSubWord(w)) == InvSubByte(Byte2(w))
    ensures Byte3(InvSubWord(w)) == InvSubByte(Byte3(w))
  {
    hide Word, Byte0, Byte1, Byte2, Byte3, InvSubByte;
    BytesOfWord(InvSubByte(Byte0(w)), InvSubByte(Byte1(w)), InvSubByte(Byte2(w)), InvSubByte(Byte3(w)));
  }

  // A column is the diagonal of four diagonals.
  lemma DiagonalOfDiagonals(a: bv32, b: bv32, c: bv32, d: bv32, w: bv32)
    requires Byte0(a) == Byte0(w) && Byte1(b) == Byte1(w) && Byte2(c) == Byte2(w) && Byte3(d) == Byte3(w)
    ensures Diagonal(a, b, c, d) == w
  {
    hide Word, Byte0, Byte1, Byte2, Byte3;
    WordOfBytes(w);
  }

  lemma DiagonalBytes(a: bv32, b: bv32, c: bv32, d: bv32)
    ensures Byte0(Diagonal(a, b, c, d)) == Byte0(a)
    ensures Byte1(Diagonal(a, b, c, d)) == Byte1(b)
    ensures Byte2(Diagonal(a, b, c, d)) == Byte2(c)
    ensures Byte3(Diagonal(a, b, c, d)) == Byte3(d)
  {
    hide Word, Byte0, Byte1, Byte2, Byte3;
    BytesOfWord(Byte0(a), Byte1(b), Byte2(c), Byte3(d));
  }

  lemma InvShiftRowsShiftRows(s: Block)
    ensures InvShiftRows(ShiftRows(s)) == s
  {
    hide Diagonal, Byte0, Byte1, Byte2, Byte3;
    var t := ShiftRows(s);
    DiagonalBytes(s.w0, s.w1, s.w2, s.w3);
    DiagonalBytes(s.w1, s.w2, s.w3, s.w0);
    DiagonalBytes(s.w2, s.w3, s.w0, s.w1);
    DiagonalBytes(s.w3, s.w0, s.w1, s.w2);
    DiagonalOfDiagonals(t.w0, t.w3, t.w2, t.w1, s.w0);
    DiagonalOfDiagonals(t.w1, t.w0, t.w3, t.w2, s.w1);
    DiagonalOfDiagonals(t.w2, t.w1, t.w0, t.w3, s.w2);
    DiagonalOfDiagonals(t.w3, t.w2, t.w1, t.w0, s.w3);
  }

  // MixColumns and its inverse are linear over xor.
  lemma WordDistributes(a0: bv8, a1: bv8, a2: bv8, a3: bv8, b0: bv8, b1: bv8, b2: bv8, b3: bv8)
    ensures Word(Add(a0, b0), Add(a1, b1), Add(a2, b2), Add(a3, b3))
         == Xor(Word(a0, a1, a2, a3), Word(b0, b1, b2, b3))
  {
  }

  lemma BytesOfXor(u: bv32, v: bv32)
    ensures Byte0(u ^ v) == Byte0(u) ^ Byte0(v)
    ensures Byte1(u ^ v) == Byte1(u) ^ Byte1(v)
    ensures Byte2(u ^ v) == Byte2(u) ^ Byte2(v)
    ensures Byte3(u ^ v) == Byte3(u) ^ Byte3(v)
  {
  }

  lemma BytesDistribute(u: bv32, v: bv32)
    ensures Byte0(Xor(u, v)) == Add(Byte0(u), Byte0(v))
    ensures Byte1(Xor(u, v)) == Add(Byte1(u), Byte1(v))
    ensures Byte2(Xor(u, v)) == Add(Byte2(u), Byte2(v))
    ensures Byte3(Xor(u, v)) == Add(Byte3(u), Byte3(v))
  {
    hide Byte0, Byte1, Byte2, Byte3;
    BytesOfXor(u, v);
  }

  lemma MixColumnDistributes(u: bv32, v: bv32)
    ensures MixColumn(Xor(u, v)) == Xor(MixColumn(u), MixColumn(v))
  {
    hide Xor, Add, Word, MixByte, Byte0, Byte1, Byte2, Byte3;
    BytesDistribute(u, v);
    var a0, a1, a2, a3 := Byte0(u), Byte1(u), Byte2(u), Byte3(u);
    var b0, b1, b2, b3 := Byte0(v), Byte1(v), Byte2(v), Byte3(v);
    MixByteDistributes(a0, a1, a2, a3, b0, b1, b2, b3);
    MixByteDistributes(a1, a2, a3, a0, b1, b2, b3, b0);
    MixByteDistributes(a2, a3, a0, a1, b2, b3, b0, b1);
    MixByteDistributes(a3, a0, a1, a2, b3, b0, b1, b2);
    WordDistributes(MixByte(a0, a1, a2, a3), MixByte(a1, a2, a3, a0), MixByte(a2, a3, a0, a1),
                    MixByte(a3, a0, a1, a2), MixByte(b0, b1, b2, b3), MixByte(b1, b2, b3, b0),
                    MixByte(b2, b3, b0, b1), MixByte(b3, b0, b1, b2));
  }

  lemma InvMixColumnDistributes(u: bv32, v: bv32)
    ensures InvMixColumn(Xor(u, v)) == Xor(InvMixColumn(u), InvMixColumn(v))
  {
    hide Xor, Add, Word, InvMixByte, Byte0, Byte1, Byte2, Byte3;
    BytesDistribute(u, v);
    var a0, a1, a2, a3 := Byte0(u), Byte1(u), Byte2(u), Byte3(u);
    var b0, b1, b2, b3 := Byte0(v), Byte1(v), Byte2(v), Byte3(v);
    InvMixByteDistributes(a0, a1, a2, a3, b0, b1, b2, b3);
    InvMixByteDistributes(a1, a2, a3, a0, b1, b2, b3, b0);
    InvMixByteDistributes(a2, a3, a0, a1, b2, b3, b0, b1);
    InvMixByteDistributes(a3, a0, a1, a2, b3, b0, b1, b2);
    WordDistributes(InvMixByte(a0, a1, a2, a3), InvMixByte(a1, a2, a3, a0), InvMixByte(a2, a3, a0, a1),
                    InvMixByte(a3, a0, a1, a2), InvMixByte(b0, b1, b2, b3), InvMixByte(b1, b2, b3, b0),
                    InvMixByte(b2, b3, b0, b1), InvMixByte(b3, b0, b1, b2));
  }

  // On a column with a single nonzero byte the inverse is a fact about 256 values ..
  lemma InvMixColumnOfByte0(b: bv8)
    ensures InvMixColumn(MixColumn(Word(b, 0, 0, 0))) == Word(b, 0, 0, 0)
  {
  }

  lemma InvMixColumnOfByte1(b: bv8)
    ensures InvMixColumn(MixColumn(Word(0, b, 0, 0))) == Word(0, b, 0, 0)
  {
  }

  lemma InvMixColumnOfByte2(b: bv8)
    ensures InvMixColumn(MixColumn(Word(0, 0, b, 0))) == Word(0, 0, b, 0)
  {
  }

  lemma InvMixColumnOfByte3(b: bv8)
    ensures InvMixColumn(MixColumn(Word(0, 0, 0, b))) == Word(0, 0, 0, b)
  {
  }

  // .. and linearity carries it to every column.
  lemma InvMixColumnSum(u: bv32, v: bv32)
    requires InvMixColumn(MixColumn(u)) == u && InvMixColumn(MixColumn(v)) == v
    ensures InvMixColumn(MixColumn(Xor(u, v))) == Xor(u, v)
  {
    hide Xor, MixColumn, InvMixColumn;
    MixColumnDistributes(u, v);
    InvMixColumnDistributes(MixColumn(u), MixColumn(v));
  }

  lemma WordIsSum(b0: bv8, b1: bv8, b2: bv8, b3: bv8)
    ensures Word(b0, b1, b2, b3)
         == Xor(Xor(Word(b0, 0, 0, 0), Word(0, b1, 0, 0)), Xor(Word(0, 0, b2, 0), Word(0, 0, 0, b3)))
  {
  }

  lemma InvMixColumnMixColumn(w: bv32)
    ensures InvMixColumn(MixColumn(w)) == w
  {
    hide *;
    var b0, b1, b2, b3 := Byte0(w), Byte1(w), Byte2(w), Byte3(w);
    InvMixColumnOfByte0(b0);
    InvMixColumnOfByte1(b1);
    InvMixColumnOfByte2(b2);
    InvMixColumnOfByte3(b3);
    InvMixColumnSum(Word(b0, 0, 0, 0), Word(0, b1, 0, 0));
    InvMixColumnSum(Word(0, 0, b2, 0), Word(0, 0, 0, b3));
    InvMixColumnSum(Xor(Word(b0, 0, 0, 0), Word(0, b1, 0, 0)), Xor(Word(0, 0, b2, 0), Word(0, 0, 0, b3)));
    WordIsSum(b0, b1, b2, b3);
    WordOfBytes(w);
  }

  lemma InvMixColumnsMixColumns(s: Block)
    ensures InvMixColumns(MixColumns(s)) == s
  {
    hide MixColumn, InvMixColumn;
    InvMixColumnMixColumn(s.w0);
    InvMixColumnMixColumn(s.w1);
    InvMixColumnMixColumn(s.w2);
    InvMixColumnMixColumn(s.w3);
  }

  lemma AddRoundKeyTwice(s: Block, w: seq<bv32>, r: nat)
    requires 4 * r + 4 <= |w|
    ensures AddRoundKey(AddRoundKey(s, w, r), w, r) == s
  {
    hide Xor;
    var k := RoundKey(w, r);
    XorCancels(s.w0, k.w0);
    XorCancels(s.w1, k.w1);
    XorCancels(s.w2, k.w2);
    XorCancels(s.w3, k.w3);
  }
}
