// The AES core (common/libtools/AesCore.cpp and AesCore.h): key schedules built in
// place in the key structure, and the two block operations.
module AesCore {
  import opened Words
  import opened AesTables
  import opened Fips197
  import opened AesRounds
  import opened CipherInverse

  const AES_MAXNR: nat := 14
  const AES_BLOCK_SIZE: nat := 16

  class AesKey {
    const rdKey: array<bv32>
    var rounds: nat

    constructor ()
      ensures fresh(rdKey) && rdKey.Length == 4 * (AES_MAXNR + 1)
    {
      rdKey := new bv32[4 * (AES_MAXNR + 1)];
    }
  }

  predicate SupportedBits(bits: int) { bits == 128 || bits == 192 || bits == 256 }

  // The state that a schedule method leaves in a key of nk words.
  ghost predicate HoldsSchedule(key: AesKey, w: seq<bv32>, nk: nat)
    requires nk <= 8 && |w| == 4 * (nk + 7)
    reads key, key.rdKey
  {
    key.rdKey.Length == 60 && key.rounds == nk + 6 && key.rdKey[..4 * (nk + 7)] == w
  }

  // GETU32 (line 22) and PUTU32 (line 23) on a position in a buffer.
  function LoadWord(buf: seq<bv8>, at: nat): bv32
    requires at + 4 <= |buf|
  {
    Word(buf[at], buf[at + 1], buf[at + 2], buf[at + 3])
  }

  function LoadBlock(buf: seq<bv8>, at: nat): Block
    requires at + 16 <= |buf|
  {
    Block(LoadWord(buf, at), LoadWord(buf, at + 4), LoadWord(buf, at + 8), LoadWord(buf, at + 12))
  }

  function WordBytes(w: bv32): (b: seq<bv8>)
    ensures |b| == 4
  {
    [Byte0(w), Byte1(w), Byte2(w), Byte3(w)]
  }

  function BlockBytes(s: Block): (b: seq<bv8>)
    ensures |b| == 16
  {
    WordBytes(s.w0) + WordBytes(s.w1) + WordBytes(s.w2) + WordBytes(s.w3)
  }

  lemma LoadWordAt(buf: seq<bv8>, at: nat, r: nat)
    requires at + 4 <= |buf| && r < 4
    ensures ByteOf(LoadWord(buf, at), r) == buf[at + r]
  {
    hide Word, Byte0, Byte1, Byte2, Byte3;
    BytesOfWord(buf[at], buf[at + 1], buf[at + 2], buf[at + 3]);
  }

  // A block in memory goes down the columns of the state.
  lemma LoadBlockAt(buf: seq<bv8>, at: nat, r: nat, c: nat)
    requires at + 16 <= |buf| && r < 4 && c < 4
    ensures StateByte(LoadBlock(buf, at), r, c) == buf[at + 4 * c + r]
  {
    hide LoadWord, ByteOf;
    LoadWordAt(buf, at + 4 * c, r);
  }

  lemma BlockBytesAt(s: Block, r: nat, c: nat)
    requires r < 4 && c < 4
    ensures BlockBytes(s)[4 * c + r] == StateByte(s, r, c)
  {
    hide WordBytes, ByteOf;
    WordBytesAt(Column(s, c), r);
  }

  lemma WordBytesAt(w: bv32, r: nat)
    requires r < 4
    ensures WordBytes(w)[r] == ByteOf(w, r)
  {
    hide Byte0, Byte1, Byte2, Byte3;
  }

  method GetWord(buf: array<bv8>, at: nat) returns (w: bv32)
    requires at + 4 <= buf.Length
    ensures w == LoadWord(buf[..], at)
  {
    w := Word(buf[at], buf[at + 1], buf[at + 2], buf[at + 3]);
  }

  method PutWord(buf: array<bv8>, at: nat, w: bv32)
    requires at + 4 <= buf.Length
    modifies buf
    ensures buf[..] == old(buf[..at]) + WordBytes(w) + old(buf[at + 4..])
  {
    buf[at], buf[at + 1], buf[at + 2], buf[at + 3] := Byte0(w), Byte1(w), Byte2(w), Byte3(w);
  }

  // ---------- Key expansion ----------

  // The recurrence of section 5.2 of FIPS 197, in the terms of the source: word nk * i + nk,
  // which opens a group, and the words that copy the previous one.
  lemma FirstOfGroup(key: seq<bv8>, nk: nat, i: nat)
    requires (nk == 4 || nk == 6 || nk == 8) && i < 10 && |key| >= 4 * nk
    ensures ScheduleWord(key, nk, nk * i + nk)
         == Xor(Xor(ScheduleWord(key, nk, nk * i), RotatedSubstitution(ScheduleWord(key, nk, nk * i + nk - 1))),
                RconTable(i))
  {
    hide Xor, RotatedSubstitution, SubWord, RotWord, RconTable, RoundConstant, Word, KeyWord;
    var temp := ScheduleWord(key, nk, nk * i + nk - 1);
    assert (nk * i + nk) % nk == 0 && (nk * i + nk) / nk == i + 1 by { Multiple(nk, i + 1); }
    RotatedSubstitutionIsSubWord(temp);
    RconIsRoundConstant(i);
    XorAssociates(ScheduleWord(key, nk, nk * i), RotatedSubstitution(temp), RconTable(i));
  }

  lemma Multiple(nk: nat, q: nat)
    requires nk == 4 || nk == 6 || nk == 8
    ensures (nk * q) % nk == 0 && (nk * q) / nk == q
  {
    if nk == 4 {
      assert (4 * q) % 4 == 0 && (4 * q) / 4 == q;
    } else if nk == 6 {
      assert (6 * q) % 6 == 0 && (6 * q) / 6 == q;
    } else {
      assert (8 * q) % 8 == 0 && (8 * q) / 8 == q;
    }
  }

  lemma PlainWord(key: seq<bv8>, nk: nat, i: nat)
    requires 1 <= nk <= i && |key| >= 4 * nk
    requires i % nk != 0 && !(nk > 6 && i % nk == 4)
    ensures ScheduleWord(key, nk, i) == Xor(ScheduleWord(key, nk, i - nk), ScheduleWord(key, nk, i - 1))
  {
    hide Xor, KeyWord;
  }

  lemma MiddleOfGroup(key: seq<bv8>, i: nat)
    requires i >= 8 && i % 8 == 4 && |key| >= 32
    ensures ScheduleWord(key, 8, i)
         == Xor(ScheduleWord(key, 8, i - 8), Substitution(ScheduleWord(key, 8, i - 1)))
  {
    hide Xor, SubWord, Substitution, KeyWord;
    SubstitutionIsSubWord(ScheduleWord(key, 8, i - 1));
  }

  // The same three facts on the words of an expanded key.
  lemma ExpandedFirst(key: seq<bv8>, nk: nat, w: seq<bv32>, i: nat, rk: nat)
    requires (nk == 4 || nk == 6 || nk == 8) && i < 10 && rk == nk * i && |key| >= 4 * nk
    requires w == KeyExpansion(key, nk) && rk + nk < |w|
    ensures w[rk + nk] == Xor(Xor(w[rk], RotatedSubstitution(w[rk + nk - 1])), RconTable(i))
  {
    hide ScheduleWord, Xor, RotatedSubstitution, RconTable;
    FirstOfGroup(key, nk, i);
  }

  lemma ExpandedPlain(key: seq<bv8>, nk: nat, w: seq<bv32>, k: nat)
    requires 1 <= nk <= k && |key| >= 4 * nk && k % nk != 0 && !(nk > 6 && k % nk == 4)
    requires w == KeyExpansion(key, nk) && k < |w|
    ensures w[k] == Xor(w[k - nk], w[k - 1])
  {
    hide ScheduleWord, Xor;
    PlainWord(key, nk, k);
  }

  lemma ExpandedMiddle(key: seq<bv8>, w: seq<bv32>, k: nat)
    requires 8 <= k && k % 8 == 4 && |key| >= 32 && w == KeyExpansion(key, 8) && k < |w|
    ensures w[k] == Xor(w[k - 8], Substitution(w[k - 1]))
  {
    hide ScheduleWord, Xor, Substitution;
    MiddleOfGroup(key, k);
  }

  // .. gathered for one pass of each loop: its first four words, and the rest.
  lemma Head128(key: seq<bv8>, w: seq<bv32>, i: nat, rk: nat)
    requires i < 10 && rk == 4 * i && |key| >= 16 && w == KeyExpansion(key, 4)
    ensures w[rk + 4] == Xor(Xor(w[rk], RotatedSubstitution(w[rk + 3])), RconTable(i))
    ensures w[rk + 5] == Xor(w[rk + 1], w[rk + 4])
    ensures w[rk + 6] == Xor(w[rk + 2], w[rk + 5])
    ensures w[rk + 7] == Xor(w[rk + 3], w[rk + 6])
  {
    hide KeyExpansion, Xor, RotatedSubstitution, RconTable;
    ExpandedFirst(key, 4, w, i, rk);
    ExpandedPlain(key, 4, w, rk + 5);
    ExpandedPlain(key, 4, w, rk + 6);
    ExpandedPlain(key, 4, w, rk + 7);
  }

  lemma Head192(key: seq<bv8>, w: seq<bv32>, i: nat, rk: nat)
    requires i < 8 && rk == 6 * i && |key| >= 24 && w == KeyExpansion(key, 6)
    ensures w[rk + 6] == Xor(Xor(w[rk], RotatedSubstitution(w[rk + 5])), RconTable(i))
    ensures w[rk + 7] == Xor(w[rk + 1], w[rk + 6])
    ensures w[rk + 8] == Xor(w[rk + 2], w[rk + 7])
    ensures w[rk + 9] == Xor(w[rk + 3], w[rk + 8])
  {
    hide KeyExpansion, Xor, RotatedSubstitution, RconTable;
    ExpandedFirst(key, 6, w, i, rk);
    ExpandedPlain(key, 6, w, rk + 7);
    ExpandedPlain(key, 6, w, rk + 8);
    ExpandedPlain(key, 6, w, rk + 9);
  }

  lemma Head256(key: seq<bv8>, w: seq<bv32>, i: nat, rk: nat)
    requires i < 7 && rk == 8 * i && |key| >= 32 && w == KeyExpansion(key, 8)
    ensures w[rk + 8] == Xor(Xor(w[rk], RotatedSubstitution(w[rk + 7])), RconTable(i))
    ensures w[rk + 9] == Xor(w[rk + 1], w[rk + 8])
    ensures w[rk + 10] == Xor(w[rk + 2], w[rk + 9])
    ensures w[rk + 11] == Xor(w[rk + 3], w[rk + 10])
  {
    hide KeyExpansion, Xor, RotatedSubstitution, RconTable;
    ExpandedFirst(key, 8, w, i, rk);
    ExpandedPlain(key, 8, w, rk + 9);
    ExpandedPlain(key, 8, w, rk + 10);
    ExpandedPlain(key, 8, w, rk + 11);
  }

  lemma Tail192(key: seq<bv8>, w: seq<bv32>, i: nat, rk: nat)
    requires i < 7 && rk == 6 * i && |key| >= 24 && w == KeyExpansion(key, 6)
    ensures w[rk + 10] == Xor(w[rk + 4], w[rk + 9])
    ensures w[rk + 11] == Xor(w[rk + 5], w[rk + 10])
  {
    hide KeyExpansion, Xor;
    ExpandedPlain(key, 6, w, rk + 10);
    ExpandedPlain(key, 6, w, rk + 11);
  }

  lemma Tail256(key: seq<bv8>, w: seq<bv32>, i: nat, rk: nat)
    requires i < 6 && rk == 8 * i && |key| >= 32 && w == KeyExpansion(key, 8)
    ensures w[rk + 12] == Xor(w[rk + 4], Substitution(w[rk + 11]))
    ensures w[rk + 13] == Xor(w[rk + 5], w[rk + 12])
    ensures w[rk + 14] == Xor(w[rk + 6], w[rk + 13])
    ensures w[rk + 15] == Xor(w[rk + 7], w[rk + 14])
  {
    hide KeyExpansion, Xor, Substitution;
    ExpandedMiddle(key, w, rk + 12);
    ExpandedPlain(key, 8, w, rk + 13);
    ExpandedPlain(key, 8, w, rk + 14);
    ExpandedPlain(key, 8, w, rk + 15);
  }

  // rd[at] = v, where v continues the part of w that rd already holds.
  method Append(rd: array<bv32>, at: nat, v: bv32, ghost w: seq<bv32>)
    requires at < rd.Length && at < |w| && v == w[at]
    requires forall k :: 0 <= k < at ==> rd[k] == w[k]
    modifies rd
    ensures forall k :: 0 <= k <= at ==> rd[k] == w[k]
    ensures forall k :: at < k < rd.Length ==> rd[k] == old(rd[k])
  {
    rd[at] := v;
  }

  // The loop for 128-bit keys (lines 654-669). rk is the moving pointer, i counts rounds.
  method Expand128(rd: array<bv32>, ghost key: seq<bv8>, ghost w: seq<bv32>)
    requires rd.Length == 60 && |key| >= 16 && w == KeyExpansion(key, 4)
    requires forall k :: 0 <= k < 4 ==> rd[k] == w[k]
    modifies rd
    ensures forall k :: 0 <= k < 44 ==> rd[k] == w[k]
    ensures forall k :: 44 <= k < 60 ==> rd[k] == old(rd[k])
  {
    hide Xor, RotatedSubstitution, RconTable, KeyExpansion;
    var i, rk := 0, 0;
    while true
      invariant 0 <= i < 10 && rk == 4 * i
      invariant forall k :: 0 <= k < rk + 4 ==> rd[k] == w[k]
      invariant forall k :: 44 <= k < 60 ==> rd[k] == old(rd[k])
      decreases 10 - i
    {
      Head128(key, w, i, rk);
      var temp := rd[rk + 3];
      Append(rd, rk + 4, Xor(Xor(rd[rk], RotatedSubstitution(temp)), RconTable(i)), w);
      Append(rd, rk + 5, Xor(rd[rk + 1], rd[rk + 4]), w);
      Append(rd, rk + 6, Xor(rd[rk + 2], rd[rk + 5]), w);
      Append(rd, rk + 7, Xor(rd[rk + 3], rd[rk + 6]), w);
      i := i + 1;
      if i == 10 {
        return;
      }
      rk := rk + 4;
    }
  }

  // The loop for 192-bit keys (lines 674-691); its last pass stops after four words.
  method Expand192(rd: array<bv32>, ghost key: seq<bv8>, ghost w: seq<bv32>)
    requires rd.Length == 60 && |key| >= 24 && w == KeyExpansion(key, 6)
    requires forall k :: 0 <= k < 6 ==> rd[k] == w[k]
    modifies rd
    ensures forall k :: 0 <= k < 52 ==> rd[k] == w[k]
    ensures forall k :: 52 <= k < 60 ==> rd[k] == old(rd[k])
  {
    hide Xor, RotatedSubstitution, RconTable, KeyExpansion;
    var i, rk := 0, 0;
    while true
      invariant 0 <= i < 8 && rk == 6 * i
      invariant forall k :: 0 <= k < rk + 6 ==> rd[k] == w[k]
      invariant forall k :: 52 <= k < 60 ==> rd[k] == old(rd[k])
      decreases 8 - i
    {
      Head192(key, w, i, rk);
      var temp := rd[rk + 5];
      Append(rd, rk + 6, Xor(Xor(rd[rk], RotatedSubstitution(temp)), RconTable(i)), w);
      Append(rd, rk + 7, Xor(rd[rk + 1], rd[rk + 6]), w);
      Append(rd, rk + 8, Xor(rd[rk + 2], rd[rk + 7]), w);
      Append(rd, rk + 9, Xor(rd[rk + 3], rd[rk + 8]), w);
      i := i + 1;
      if i == 8 {
        return;
      }
      Tail192(key, w, i - 1, rk);
      Append(rd, rk + 10, Xor(rd[rk + 4], rd[rk + 9]), w);
      Append(rd, rk + 11, Xor(rd[rk + 5], rd[rk + 10]), w);
      rk := rk + 6;
    }
  }

  // The loop for 256-bit keys (lines 696-721), with a second substitution in mid-group.
  method Expand256(rd: array<bv32>, ghost key: seq<bv8>, ghost w: seq<bv32>)
    requires rd.Length == 60 && |key| >= 32 && w == KeyExpansion(key, 8)
    requires forall k :: 0 <= k < 8 ==> rd[k] == w[k]
    modifies rd
    ensures forall k :: 0 <= k < 60 ==> rd[k] == w[k]
  {
    hide Xor, RotatedSubstitution, Substitution, RconTable, KeyExpansion;
    var i, rk := 0, 0;
    while true
      invariant 0 <= i < 7 && rk == 8 * i
      invariant forall k :: 0 <= k < rk + 8 ==> rd[k] == w[k]
      decreases 7 - i
    {
      Head256(key, w, i, rk);
      var temp := rd[rk + 7];
      Append(rd, rk + 8, Xor(Xor(rd[rk], RotatedSubstitution(temp)), RconTable(i)), w);
      Append(rd, rk + 9, Xor(rd[rk + 1], rd[rk + 8]), w);
      Append(rd, rk + 10, Xor(rd[rk + 2], rd[rk + 9]), w);
      Append(rd, rk + 11, Xor(rd[rk + 3], rd[rk + 10]), w);
      i := i + 1;
      if i == 7 {
        return;
      }
      Tail256(key, w, i - 1, rk);
      temp := rd[rk + 11];
      Append(rd, rk + 12, Xor(rd[rk + 4], Substitution(temp)), w);
      Append(rd, rk + 13, Xor(rd[rk + 5], rd[rk + 12]), w);
      Append(rd, rk + 14, Xor(rd[rk + 6], rd[rk + 13]), w);
      Append(rd, rk + 15, Xor(rd[rk + 7], rd[rk + 14]), w);
      rk := rk + 8;
    }
  }

  // The first words of a schedule are the bytes of the key.
  lemma ScheduleKeyBytes(key: seq<bv8>, nk: nat, i: nat)
    requires 1 <= nk && 4 * nk <= |key| && i < nk
    ensures WordBytes(KeyExpansion(key, nk)[i]) == key[4 * i..4 * i + 4]
  {
    hide KeyExpansion, Byte0, Byte1, Byte2, Byte3;
    KeyBytes(key, nk, i);
  }

  // AES_set_encrypt_key (lines 628-724). A null argument and an unsupported key size are
  // refused before anything is written.
  method SetEncryptKey(userKey: array?<bv8>, bits: int, key: AesKey?) returns (status: int)
    requires userKey != null && SupportedBits(bits) ==> bits <= 8 * userKey.Length
    requires key != null ==> key.rdKey.Length == 60
    modifies if key == null then {} else {key, key.rdKey}
    ensures status == if userKey == null || key == null then -1 else if !SupportedBits(bits) then -2 else 0
    ensures status < 0 && key != null ==> key.rounds == old(key.rounds) && key.rdKey[..] == old(key.rdKey[..])
    ensures status == 0 ==> key.rounds == if bits == 128 then 10 else if bits == 192 then 12 else 14
    ensures status == 0 ==> key.rdKey[..4 * (bits / 32 + 7)] == KeyExpansion(userKey[..], bits / 32)
    ensures status == 0 ==> HoldsSchedule(key, KeyExpansion(userKey[..], bits / 32), bits / 32)
    ensures status == 0 ==> key.rdKey[4 * (key.rounds + 1)..] == old(key.rdKey[..])[4 * (key.rounds + 1)..]
  {
    if userKey == null || key == null {
      return -1;
    }
    if bits != 128 && bits != 192 && bits != 256 {
      return -2;
    }
    hide KeyExpansion, RotatedSubstitution, RconTable;
    var rk := key.rdKey;
    ghost var before := rk[..];
    ghost var w := KeyExpansion(userKey[..], bits / 32);
    if bits == 128 {
      key.rounds := 10;
    } else if bits == 192 {
      key.rounds := 12;
    } else {
      key.rounds := 14;
    }
    LoadKeyWords(userKey, rk, 0, bits / 32, w);
    LoadKeyWords(userKey, rk, 2, bits / 32, w);
    if bits == 128 {
      Expand128(rk, userKey[..], w);
    } else {
      LoadKeyWords(userKey, rk, 4, bits / 32, w);
      if bits == 192 {
        Expand192(rk, userKey[..], w);
      } else {
        LoadKeyWords(userKey, rk, 6, bits / 32, w);
        Expand256(rk, userKey[..], w);
      }
    }
    assert rk[..4 * (key.rounds + 1)] == w;
    assert rk[4 * (key.rounds + 1)..] == before[4 * (key.rounds + 1)..];
    status := 0;
  }

  // rk[k] = GETU32(userKey + 4 * k); rk[k + 1] = GETU32(userKey + 4 * k + 4).
  method LoadKeyWords(userKey: array<bv8>, rk: array<bv32>, k: nat, nk: nat, ghost w: seq<bv32>)
    requires k + 2 <= nk <= 8 && 4 * nk <= userKey.Length && w == KeyExpansion(userKey[..], nk)
    requires rk.Length == 60
    requires forall j :: 0 <= j < k ==> rk[j] == w[j]
    modifies rk
    ensures forall j :: 0 <= j < k + 2 ==> rk[j] == w[j]
    ensures forall j :: k + 2 <= j < 60 ==> rk[j] == old(rk[j])
  {
    hide Word;
    var word := GetWord(userKey, 4 * k);
    Append(rk, k, word, w);
    word := GetWord(userKey, 4 * k + 4);
    Append(rk, k + 1, word, w);
  }

  // ---------- The decryption schedule ----------

  // Schedules with the same round keys are the same words.
  lemma SameRoundKeys(v: seq<bv32>, w: seq<bv32>, nr: nat)
    requires |v| == |w| == 4 * nr + 4
    requires forall r :: 0 <= r <= nr ==> RoundKey(v, r) == RoundKey(w, r)
    ensures v == w
  {
    forall k | 0 <= k < 4 * nr + 4
      ensures v[k] == w[k]
    {
      assert RoundKey(v, k / 4) == RoundKey(w, k / 4);
      assert k % 4 == 0 || k % 4 == 1 || k % 4 == 2 || k % 4 == 3;
    }
  }

  method SwapWords(rk: array<bv32>, a: nat, b: nat)
    requires a < rk.Length && b < rk.Length
    modifies rk
    ensures rk[..] == old(rk[..])[a := old(rk[b])][b := old(rk[a])]
  {
    var temp := rk[a];
    rk[a] := rk[b];
    rk[b] := temp;
  }

  lemma SwapOfRoundKeys(v: seq<bv32>, w: seq<bv32>, i: nat, j: nat, g: nat, h: nat)
    requires i == 4 * g && j == 4 * h && g < h && j + 4 <= |v|
    requires w == v[i := v[j]][j := v[i]][i + 1 := v[j + 1]][j + 1 := v[i + 1]]
                   [i + 2 := v[j + 2]][j + 2 := v[i + 2]][i + 3 := v[j + 3]][j + 3 := v[i + 3]]
    ensures RoundKey(w, g) == RoundKey(v, h) && RoundKey(w, h) == RoundKey(v, g)
    ensures forall r :: 0 <= r && r != g && r != h && 4 * r + 4 <= |v| ==> RoundKey(w, r) == RoundKey(v, r)
  {
  }

  method SwapRoundKeys(rk: array<bv32>, i: nat, j: nat, ghost g: nat, ghost h: nat)
    requires i == 4 * g && j == 4 * h && g < h && j + 4 <= rk.Length
    modifies rk
    ensures RoundKey(rk[..], g) == old(RoundKey(rk[..], h))
    ensures RoundKey(rk[..], h) == old(RoundKey(rk[..], g))
    ensures forall r :: 0 <= r && r != g && r != h && 4 * r + 4 <= rk.Length
              ==> RoundKey(rk[..], r) == old(RoundKey(rk[..], r))
  {
    hide RoundKey;
    SwapWords(rk, i, j);
    SwapWords(rk, i + 1, j + 1);
    SwapWords(rk, i + 2, j + 2);
    SwapWords(rk, i + 3, j + 3);
    SwapOfRoundKeys(old(rk[..]), rk[..], i, j, g, h);
  }

  // "invert the order of the round keys" (lines 744-749).
  method ReverseRoundKeys(rk: array<bv32>, nr: nat)
    requires 4 * nr + 4 <= rk.Length
    modifies rk
    ensures forall r :: 0 <= r <= nr ==> RoundKey(rk[..], r) == old(RoundKey(rk[..], nr - r))
    ensures forall r :: nr < r && 4 * r + 4 <= rk.Length ==> RoundKey(rk[..], r) == old(RoundKey(rk[..], r))
  {
    hide RoundKey;
    var i, j := 0, 4 * nr;
    ghost var g := 0;
    while i < j
      invariant i == 4 * g && j == 4 * (nr - g) && i <= j + 4
      invariant forall r :: 0 <= r < g && r <= nr ==> RoundKey(rk[..], r) == old(RoundKey(rk[..], nr - r))
      invariant forall r :: nr - g < r <= nr && 0 <= r ==> RoundKey(rk[..], r) == old(RoundKey(rk[..], nr - r))
      invariant forall r :: g <= r <= nr - g ==> RoundKey(rk[..], r) == old(RoundKey(rk[..], r))
      invariant forall r :: nr < r && 4 * r + 4 <= rk.Length ==> RoundKey(rk[..], r) == old(RoundKey(rk[..], r))
    {
      SwapRoundKeys(rk, i, j, g, nr - g);
      i, j := i + 4, j - 4;
      g := g + 1;
    }
  }

  lemma InvMixOfRoundKey(v: seq<bv32>, w: seq<bv32>, rk: nat, r: nat)
    requires rk == 4 * r && rk + 4 <= |v| == |w|
    requires forall k :: 0 <= k < |v| ==> w[k] == if rk <= k < rk + 4 then InvMixKeyWord(v[k]) else v[k]
    ensures RoundKey(w, r) == InvMixColumns(RoundKey(v, r))
    ensures forall q :: 0 <= q && q != r && 4 * q + 4 <= |v| ==> RoundKey(w, q) == RoundKey(v, q)
  {
    hide InvMixKeyWord, InvMixColumn;
    InvMixKeyWordIsInvMixColumn(v[rk]);
    InvMixKeyWordIsInvMixColumn(v[rk + 1]);
    InvMixKeyWordIsInvMixColumn(v[rk + 2]);
    InvMixKeyWordIsInvMixColumn(v[rk + 3]);
  }

  // One pass of the loop at lines 751-771: four words at rk through the key transformation.
  method InvMixRoundKey(rd: array<bv32>, rk: nat, ghost r: nat)
    requires rk == 4 * r && rk + 4 <= rd.Length
    modifies rd
    ensures RoundKey(rd[..], r) == InvMixColumns(old(RoundKey(rd[..], r)))
    ensures forall q :: 0 <= q && q != r && 4 * q + 4 <= rd.Length ==> RoundKey(rd[..], q) == old(RoundKey(rd[..], q))
  {
    hide InvMixKeyWord, InvMixColumns, RoundKey;
    ghost var v := rd[..];
    rd[rk] := InvMixKeyWord(rd[rk]);
    rd[rk + 1] := InvMixKeyWord(rd[rk + 1]);
    rd[rk + 2] := InvMixKeyWord(rd[rk + 2]);
    rd[rk + 3] := InvMixKeyWord(rd[rk + 3]);
    InvMixOfRoundKey(v, rd[..], rk, r);
  }

  // AES_set_decrypt_key (lines 729-773).
  method SetDecryptKey(userKey: array?<bv8>, bits: int, key: AesKey?) returns (status: int)
    requires userKey != null && SupportedBits(bits) ==> bits <= 8 * userKey.Length
    requires key != null ==> key.rdKey.Length == 60
    modifies if key == null then {} else {key, key.rdKey}
    ensures status == if userKey == null || key == null then -1 else if !SupportedBits(bits) then -2 else 0
    ensures status < 0 && key != null ==> key.rounds == old(key.rounds) && key.rdKey[..] == old(key.rdKey[..])
    ensures status == 0 ==>
      key.rdKey[..4 * (bits / 32 + 7)] == DecryptionSchedule(KeyExpansion(userKey[..], bits / 32), bits / 32 + 6)
    ensures status == 0 ==>
      HoldsSchedule(key, DecryptionSchedule(KeyExpansion(userKey[..], bits / 32), bits / 32 + 6), bits / 32)
    ensures status == 0 ==> key.rounds == if bits == 128 then 10 else if bits == 192 then 12 else 14
    ensures status == 0 ==> key.rdKey[4 * (key.rounds + 1)..] == old(key.rdKey[..])[4 * (key.rounds + 1)..]
  {
    hide KeyExpansion, DecryptionSchedule, RoundKey, InvMixColumns;
    status := SetEncryptKey(userKey, bits, key);
    if status < 0 {
      return;
    }
    var rd := key.rdKey;
    var nr := key.rounds;
    ghost var v, w := rd[..], KeyExpansion(userKey[..], bits / 32);
    forall r | 0 <= r <= nr ensures RoundKey(rd[..], r) == RoundKey(w, r) {
      RoundKeyOfPrefix(rd[..], w, r);
    }
    ReverseRoundKeys(rd, nr);
    var i, rk := 1, 0;
    while i < nr
      invariant 1 <= i <= nr && rk == 4 * (i - 1)
      invariant key.rounds == nr
      invariant forall r :: 0 <= r <= nr ==>
        RoundKey(rd[..], r) == if 1 <= r < i then InvMixColumns(RoundKey(w, nr - r)) else RoundKey(w, nr - r)
      invariant forall r :: nr < r < 15 ==> RoundKey(rd[..], r) == RoundKey(v, r)
    {
      rk := rk + 4;
      InvMixRoundKey(rd, rk, i);
      i := i + 1;
    }
    ghost var dw := DecryptionSchedule(w, nr);
    forall r | 0 <= r <= nr ensures RoundKey(rd[..4 * nr + 4], r) == RoundKey(dw, r) {
      RoundKeyOfPrefix(rd[..], rd[..4 * nr + 4], r);
      DecryptionRoundKey(w, nr, r);
    }
    SameRoundKeys(rd[..4 * nr + 4], dw, nr);
    SameRoundKeysBehind(rd[..], v, nr);
  }

  lemma SameRoundKeysBehind(v: seq<bv32>, w: seq<bv32>, nr: nat)
    requires |v| == |w| == 60 && nr <= 14
    requires forall r :: nr < r < 15 ==> RoundKey(v, r) == RoundKey(w, r)
    ensures v[4 * nr + 4..] == w[4 * nr + 4..]
  {
    forall k | 4 * nr + 4 <= k < 60
      ensures v[k] == w[k]
    {
      assert RoundKey(v, k / 4) == RoundKey(w, k / 4);
      assert k % 4 == 0 || k % 4 == 1 || k % 4 == 2 || k % 4 == 3;
    }
  }

  lemma RoundKeyOfPrefix(v: seq<bv32>, w: seq<bv32>, r: nat)
    requires w <= v && 4 * r + 4 <= |w|
    ensures RoundKey(v, r) == RoundKey(w, r)
  {
  }

  // ---------- Block operations ----------

  // A key structure that a schedule method has filled: an even number of rounds, and the
  // words of the schedule in front.
  predicate RunnableKey(key: AesKey)
    reads key
  {
    key.rdKey.Length == 60 && key.rounds % 2 == 0 && 2 <= key.rounds <= AES_MAXNR
  }

  function Schedule(key: AesKey): (w: seq<bv32>)
    requires RunnableKey(key)
    reads key, key.rdKey
    ensures |w| == 4 * key.rounds + 4
  {
    key.rdKey[..4 * key.rounds + 4]
  }

  lemma RoundIsColumns(s: Block, w: seq<bv32>, r: nat)
    requires 4 * r + 4 <= |w|
    ensures Round(s, w, r) == Block(EncryptColumn(s.w0, s.w1, s.w2, s.w3, w[4 * r]),
                                    EncryptColumn(s.w1, s.w2, s.w3, s.w0, w[4 * r + 1]),
                                    EncryptColumn(s.w2, s.w3, s.w0, s.w1, w[4 * r + 2]),
                                    EncryptColumn(s.w3, s.w0, s.w1, s.w2, w[4 * r + 3]))
  {
    hide EncryptColumn, MixColumn, Diagonal, SubWord, Xor;
    EncryptColumnIsRound(s.w0, s.w1, s.w2, s.w3, w[4 * r]);
    EncryptColumnIsRound(s.w1, s.w2, s.w3, s.w0, w[4 * r + 1]);
    EncryptColumnIsRound(s.w2, s.w3, s.w0, s.w1, w[4 * r + 2]);
    EncryptColumnIsRound(s.w3, s.w0, s.w1, s.w2, w[4 * r + 3]);
  }

  lemma LastRoundIsColumns(s: Block, w: seq<bv32>, r: nat)
    requires 4 * r + 4 <= |w|
    ensures AddRoundKey(ShiftRows(SubBytes(s)), w, r)
         == Block(LastEncryptColumn(s.w0, s.w1, s.w2, s.w3, w[4 * r]),
                  LastEncryptColumn(s.w1, s.w2, s.w3, s.w0, w[4 * r + 1]),
                  LastEncryptColumn(s.w2, s.w3, s.w0, s.w1, w[4 * r + 2]),
                  LastEncryptColumn(s.w3, s.w0, s.w1, s.w2, w[4 * r + 3]))
  {
    hide LastEncryptColumn, Diagonal, SubWord, Xor;
    LastEncryptColumnIsRound(s.w0, s.w1, s.w2, s.w3, w[4 * r]);
    LastEncryptColumnIsRound(s.w1, s.w2, s.w3, s.w0, w[4 * r + 1]);
    LastEncryptColumnIsRound(s.w2, s.w3, s.w0, s.w1, w[4 * r + 2]);
    LastEncryptColumnIsRound(s.w3, s.w0, s.w1, s.w2, w[4 * r + 3]);
  }

  // Four words stored one after the other are one block.
  lemma FourPuts(v0: seq<bv8>, v1: seq<bv8>, v2: seq<bv8>, v3: seq<bv8>, v4: seq<bv8>, at: nat, s: Block)
    requires at + 16 <= |v0|
    requires v1 == v0[..at] + WordBytes(s.w0) + v0[at + 4..]
    requires v2 == v1[..at + 4] + WordBytes(s.w1) + v1[at + 8..]
    requires v3 == v2[..at + 8] + WordBytes(s.w2) + v2[at + 12..]
    requires v4 == v3[..at + 12] + WordBytes(s.w3) + v3[at + 16..]
    ensures v4 == v0[..at] + BlockBytes(s) + v0[at + 16..]
  {
    hide WordBytes;
    assert v2 == v0[..at] + (WordBytes(s.w0) + WordBytes(s.w1)) + v0[at + 8..];
    assert v3 == v0[..at] + (WordBytes(s.w0) + WordBytes(s.w1) + WordBytes(s.w2)) + v0[at + 12..];
  }

  // "apply last round" (lines 934-965).
  method LastEncryptRound(t0: bv32, t1: bv32, t2: bv32, t3: bv32, rd: array<bv32>, rk: nat,
                          ghost w: seq<bv32>, output: array<bv8>, outAt: nat)
    requires rk + 4 == |w| && w <= rd[..] && rk % 4 == 0 && outAt + 16 <= output.Length
    modifies output
    ensures output[..] == old(output[..outAt])
                        + BlockBytes(AddRoundKey(ShiftRows(SubBytes(Block(t0, t1, t2, t3))), w, rk / 4))
                        + old(output[outAt + 16..])
  {
    hide LastEncryptColumn, BlockBytes, WordBytes, ShiftRows, SubBytes, AddRoundKey;
    LastRoundIsColumns(Block(t0, t1, t2, t3), w, rk / 4);
    ghost var v0 := output[..];
    var s0 := LastEncryptColumn(t0, t1, t2, t3, rd[rk]);
    PutWord(output, outAt, s0);
    ghost var v1 := output[..];
    var s1 := LastEncryptColumn(t1, t2, t3, t0, rd[rk + 1]);
    PutWord(output, outAt + 4, s1);
    ghost var v2 := output[..];
    var s2 := LastEncryptColumn(t2, t3, t0, t1, rd[rk + 2]);
    PutWord(output, outAt + 8, s2);
    ghost var v3 := output[..];
    var s3 := LastEncryptColumn(t3, t0, t1, t2, rd[rk + 3]);
    PutWord(output, outAt + 12, s3);
    FourPuts(v0, v1, v2, v3, output[..], outAt, Block(s0, s1, s2, s3));
  }

  // "Nr - 1 full rounds" (lines 872-932): s and t take turns, and the loop ends in the middle.
  method EncryptRounds(a0: bv32, a1: bv32, a2: bv32, a3: bv32, rd: array<bv32>, nr: nat,
                       ghost start: Block, ghost w: seq<bv32>)
    returns (t0: bv32, t1: bv32, t2: bv32, t3: bv32, rk: nat)
    requires nr % 2 == 0 && 2 <= nr && |w| == 4 * nr + 4 && w <= rd[..]
    requires Block(a0, a1, a2, a3) == Rounds(start, w, 0)
    ensures rk == 4 * nr
    ensures Block(t0, t1, t2, t3) == Rounds(start, w, nr - 1)
  {
    hide EncryptColumn, Round, AddRoundKey;
    var s0, s1, s2, s3 := a0, a1, a2, a3;
    rk := 0;
    var r := nr / 2;
    ghost var done := 0;
    while true
      invariant 1 <= r && done == nr - 2 * r && rk == 4 * done
      invariant Block(s0, s1, s2, s3) == Rounds(start, w, done)
      decreases r
    {
      RoundIsColumns(Block(s0, s1, s2, s3), w, done + 1);
      t0 := EncryptColumn(s0, s1, s2, s3, rd[rk + 4]);
      t1 := EncryptColumn(s1, s2, s3, s0, rd[rk + 5]);
      t2 := EncryptColumn(s2, s3, s0, s1, rd[rk + 6]);
      t3 := EncryptColumn(s3, s0, s1, s2, rd[rk + 7]);
      assert Block(t0, t1, t2, t3) == Rounds(start, w, done + 1);
      rk := rk + 8;
      r := r - 1;
      if r == 0 {
        break;
      }
      RoundIsColumns(Block(t0, t1, t2, t3), w, done + 2);
      s0 := EncryptColumn(t0, t1, t2, t3, rd[rk]);
      s1 := EncryptColumn(t1, t2, t3, t0, rd[rk + 1]);
      s2 := EncryptColumn(t2, t3, t0, t1, rd[rk + 2]);
      s3 := EncryptColumn(t3, t0, t1, t2, rd[rk + 3]);
      done := done + 2;
    }
  }

  // AES_encrypt (lines 781-966): input and output may be the same buffer.
  method Encrypt(input: array<bv8>, inAt: nat, output: array<bv8>, outAt: nat, key: AesKey)
    requires inAt + AES_BLOCK_SIZE <= input.Length && outAt + AES_BLOCK_SIZE <= output.Length
    requires RunnableKey(key)
    modifies output
    ensures output[..] == old(output[..outAt])
                        + BlockBytes(Cipher(LoadBlock(old(input[..]), inAt), Schedule(key), key.rounds))
                        + old(output[outAt + 16..])
  {
    hide Xor, EncryptColumn, Round, AddRoundKey, LoadBlock, BlockBytes, ShiftRows, SubBytes, Cipher;
    ghost var w := Schedule(key);
    ghost var start := LoadBlock(input[..], inAt);
    ghost var nr := key.rounds;
    var rd := key.rdKey;
    var s0, s1, s2, s3 := LoadState(input, inAt, rd, w);
    var t0, t1, t2, t3, rk := EncryptRounds(s0, s1, s2, s3, rd, key.rounds, start, w);
    CipherIsLastRound(start, w, nr);
    LastEncryptRound(t0, t1, t2, t3, rd, rk, w, output, outAt);
  }

  lemma CipherIsLastRound(s: Block, w: seq<bv32>, nr: nat)
    requires 1 <= nr && 4 * nr + 4 <= |w|
    ensures Cipher(s, w, nr) == AddRoundKey(ShiftRows(SubBytes(Rounds(s, w, nr - 1))), w, nr)
  {
    hide AddRoundKey, ShiftRows, SubBytes, Rounds;
  }

  // The block at inAt, plus the first round key.
  method LoadState(input: array<bv8>, inAt: nat, rd: array<bv32>, ghost w: seq<bv32>)
    returns (s0: bv32, s1: bv32, s2: bv32, s3: bv32)
    requires inAt + 16 <= input.Length && 4 <= |w| && w <= rd[..]
    ensures Block(s0, s1, s2, s3) == AddRoundKey(LoadBlock(input[..], inAt), w, 0)
  {
    hide Xor, LoadWord;
    s0 := GetWord(input, inAt);
    s1 := GetWord(input, inAt + 4);
    s2 := GetWord(input, inAt + 8);
    s3 := GetWord(input, inAt + 12);
    s0, s1, s2, s3 := Xor(s0, rd[0]), Xor(s1, rd[1]), Xor(s2, rd[2]), Xor(s3, rd[3]);
  }

  lemma EqInvRoundIsColumns(s: Block, dw: seq<bv32>, r: nat)
    requires 4 * r + 4 <= |dw|
    ensures EqInvRound(s, dw, r) == Block(DecryptColumn(s.w0, s.w3, s.w2, s.w1, dw[4 * r]),
                                          DecryptColumn(s.w1, s.w0, s.w3, s.w2, dw[4 * r + 1]),
                                          DecryptColumn(s.w2, s.w1, s.w0, s.w3, dw[4 * r + 2]),
                                          DecryptColumn(s.w3, s.w2, s.w1, s.w0, dw[4 * r + 3]))
  {
    hide DecryptColumn, InvMixColumn, Diagonal, InvSubWord, Xor;
    DecryptColumnIsRound(s.w0, s.w3, s.w2, s.w1, dw[4 * r]);
    DecryptColumnIsRound(s.w1, s.w0, s.w3, s.w2, dw[4 * r + 1]);
    DecryptColumnIsRound(s.w2, s.w1, s.w0, s.w3, dw[4 * r + 2]);
    DecryptColumnIsRound(s.w3, s.w2, s.w1, s.w0, dw[4 * r + 3]);
  }

  lemma LastEqInvRoundIsColumns(s: Block, dw: seq<bv32>, r: nat)
    requires 4 * r + 4 <= |dw|
    ensures AddRoundKey(InvShiftRows(InvSubBytes(s)), dw, r)
         == Block(LastDecryptColumn(s.w0, s.w3, s.w2, s.w1, dw[4 * r]),
                  LastDecryptColumn(s.w1, s.w0, s.w3, s.w2, dw[4 * r + 1]),
                  LastDecryptColumn(s.w2, s.w1, s.w0, s.w3, dw[4 * r + 2]),
                  LastDecryptColumn(s.w3, s.w2, s.w1, s.w0, dw[4 * r + 3]))
  {
    hide LastDecryptColumn, Diagonal, InvSubWord, Xor;
    LastDecryptColumnIsRound(s.w0, s.w3, s.w2, s.w1, dw[4 * r]);
    LastDecryptColumnIsRound(s.w1, s.w0, s.w3, s.w2, dw[4 * r + 1]);
    LastDecryptColumnIsRound(s.w2, s.w1, s.w0, s.w3, dw[4 * r + 2]);
    LastDecryptColumnIsRound(s.w3, s.w2, s.w1, s.w0, dw[4 * r + 3]);
  }

  // "apply last round" (lines 1125-1156).
  method LastDecryptRound(t0: bv32, t1: bv32, t2: bv32, t3: bv32, rd: array<bv32>, rk: nat,
                          ghost dw: seq<bv32>, output: array<bv8>, outAt: nat)
    requires rk + 4 == |dw| && dw <= rd[..] && rk % 4 == 0 && outAt + 16 <= output.Length
    modifies output
    ensures output[..] == old(output[..outAt])
                        + BlockBytes(AddRoundKey(InvShiftRows(InvSubBytes(Block(t0, t1, t2, t3))), dw, rk / 4))
                        + old(output[outAt + 16..])
  {
    hide LastDecryptColumn, BlockBytes, WordBytes, InvShiftRows, InvSubBytes, AddRoundKey;
    LastEqInvRoundIsColumns(Block(t0, t1, t2, t3), dw, rk / 4);
    ghost var v0 := output[..];
    var s0 := LastDecryptColumn(t0, t3, t2, t1, rd[rk]);
    PutWord(output, outAt, s0);
    ghost var v1 := output[..];
    var s1 := LastDecryptColumn(t1, t0, t3, t2, rd[rk + 1]);
    PutWord(output, outAt + 4, s1);
    ghost var v2 := output[..];
    var s2 := LastDecryptColumn(t2, t1, t0, t3, rd[rk + 2]);
    PutWord(output, outAt + 8, s2);
    ghost var v3 := output[..];
    var s3 := LastDecryptColumn(t3, t2, t1, t0, rd[rk + 3]);
    PutWord(output, outAt + 12, s3);
    FourPuts(v0, v1, v2, v3, output[..], outAt, Block(s0, s1, s2, s3));
  }

  // "Nr - 1 full rounds" (lines 1063-1123): s and t take turns, and the loop ends in the middle.
  method DecryptRounds(a0: bv32, a1: bv32, a2: bv32, a3: bv32, rd: array<bv32>, nr: nat,
                       ghost start: Block, ghost dw: seq<bv32>)
    returns (t0: bv32, t1: bv32, t2: bv32, t3: bv32, rk: nat)
    requires nr % 2 == 0 && 2 <= nr && |dw| == 4 * nr + 4 && dw <= rd[..]
    requires Block(a0, a1, a2, a3) == EqInvRounds(start, dw, 0)
    ensures rk == 4 * nr
    ensures Block(t0, t1, t2, t3) == EqInvRounds(start, dw, nr - 1)
  {
    hide DecryptColumn, EqInvRound, AddRoundKey;
    var s0, s1, s2, s3 := a0, a1, a2, a3;
    rk := 0;
    var r := nr / 2;
    ghost var done := 0;
    while true
      invariant 1 <= r && done == nr - 2 * r && rk == 4 * done
      invariant Block(s0, s1, s2, s3) == EqInvRounds(start, dw, done)
      decreases r
    {
      EqInvRoundIsColumns(Block(s0, s1, s2, s3), dw, done + 1);
      t0 := DecryptColumn(s0, s3, s2, s1, rd[rk + 4]);
      t1 := DecryptColumn(s1, s0, s3, s2, rd[rk + 5]);
      t2 := DecryptColumn(s2, s1, s0, s3, rd[rk + 6]);
      t3 := DecryptColumn(s3, s2, s1, s0, rd[rk + 7]);
      assert Block(t0, t1, t2, t3) == EqInvRounds(start, dw, done + 1);
      rk := rk + 8;
      r := r - 1;
      if r == 0 {
        break;
      }
      EqInvRoundIsColumns(Block(t0, t1, t2, t3), dw, done + 2);
      s0 := DecryptColumn(t0, t3, t2, t1, rd[rk]);
      s1 := DecryptColumn(t1, t0, t3, t2, rd[rk + 1]);
      s2 := DecryptColumn(t2, t1, t0, t3, rd[rk + 2]);
      s3 := DecryptColumn(t3, t2, t1, t0, rd[rk + 3]);
      done := done + 2;
    }
  }

  // AES_decrypt (lines 972-1157).
  method Decrypt(input: array<bv8>, inAt: nat, output: array<bv8>, outAt: nat, key: AesKey)
    requires inAt + AES_BLOCK_SIZE <= input.Length && outAt + AES_BLOCK_SIZE <= output.Length
    requires RunnableKey(key)
    modifies output
    ensures output[..] == old(output[..outAt])
                        + BlockBytes(EqInvCipher(LoadBlock(old(input[..]), inAt), Schedule(key), key.rounds))
                        + old(output[outAt + 16..])
  {
    hide Xor, DecryptColumn, EqInvRound, AddRoundKey, LoadBlock, BlockBytes, InvShiftRows, InvSubBytes, EqInvCipher;
    ghost var dw := Schedule(key);
    ghost var start := LoadBlock(input[..], inAt);
    ghost var nr := key.rounds;
    var rd := key.rdKey;
    var s0, s1, s2, s3 := LoadState(input, inAt, rd, dw);
    var t0, t1, t2, t3, rk := DecryptRounds(s0, s1, s2, s3, rd, key.rounds, start, dw);
    EqInvCipherIsLastRound(start, dw, nr);
    LastDecryptRound(t0, t1, t2, t3, rd, rk, dw, output, outAt);
  }

  lemma EqInvCipherIsLastRound(s: Block, dw: seq<bv32>, nr: nat)
    requires 1 <= nr && 4 * nr + 4 <= |dw|
    ensures EqInvCipher(s, dw, nr) == AddRoundKey(InvShiftRows(InvSubBytes(EqInvRounds(s, dw, nr - 1))), dw, nr)
  {
    hide AddRoundKey, InvShiftRows, InvSubBytes, EqInvRounds;
  }

  // ---------- The two schedules together ----------

  // The block that Encrypt writes under the schedule of SetEncryptKey, and the one that
  // Decrypt writes under the schedule of SetDecryptKey.
  function EncryptBlock(key: seq<bv8>, nk: nat, block: seq<bv8>): (out: seq<bv8>)
    requires 1 <= nk && 4 * nk <= |key| && |block| == 16
    ensures |out| == 16
  {
    BlockBytes(Cipher(LoadBlock(block, 0), KeyExpansion(key, nk), nk + 6))
  }

  function DecryptBlock(key: seq<bv8>, nk: nat, block: seq<bv8>): (out: seq<bv8>)
    requires 1 <= nk && 4 * nk <= |key| && |block| == 16
    ensures |out| == 16
  {
    BlockBytes(EqInvCipher(LoadBlock(block, 0), DecryptionSchedule(KeyExpansion(key, nk), nk + 6), nk + 6))
  }

  // For every key of 128, 192 or 256 bits and every block.
  lemma DecryptBlockEncryptBlock(key: seq<bv8>, nk: nat, block: seq<bv8>)
    requires nk == 4 || nk == 6 || nk == 8
    requires |key| >= 4 * nk && |block| == 16
    ensures DecryptBlock(key, nk, EncryptBlock(key, nk, block)) == block
  {
    hide Cipher, EqInvCipher, DecryptionSchedule, KeyExpansion, LoadBlock, BlockBytes;
    var w := KeyExpansion(key, nk);
    var s := LoadBlock(block, 0);
    LoadBlockOfBytes(Cipher(s, w, nk + 6));
    DecryptionUndoesEncryption(s, w, nk + 6);
    BytesOfLoadedBlock(block);
  }

  lemma LoadBlockOfBytes(s: Block)
    ensures LoadBlock(BlockBytes(s), 0) == s
  {
    hide Word, Byte0, Byte1, Byte2, Byte3;
    WordOfBytes(s.w0);
    WordOfBytes(s.w1);
    WordOfBytes(s.w2);
    WordOfBytes(s.w3);
  }

  lemma BytesOfLoadedBlock(block: seq<bv8>)
    requires |block| == 16
    ensures BlockBytes(LoadBlock(block, 0)) == block
  {
    hide Word, Byte0, Byte1, Byte2, Byte3;
    BytesOfWord(block[0], block[1], block[2], block[3]);
    BytesOfWord(block[4], block[5], block[6], block[7]);
    BytesOfWord(block[8], block[9], block[10], block[11]);
    BytesOfWord(block[12], block[13], block[14], block[15]);
  }
}
