// Bytes and 32-bit words, as the C++ sources pack and unpack them.
module Words {

  // The byte b0 is the most significant one (GETU32, common/libtools/AesCore.cpp:22).
  function Word(b0: bv8, b1: bv8, b2: bv8, b3: bv8): bv32 {
    (b0 as bv32 << 24) ^ (b1 as bv32 << 16) ^ (b2 as bv32 << 8) ^ b3 as bv32
  }

  // The four bytes of a word, from the most significant one (PUTU32, AesCore.cpp:23).
  function Byte0(w: bv32): bv8 { (w >> 24) as bv8 }
  function Byte1(w: bv32): bv8 { ((w >> 16) & 0xff) as bv8 }
  function Byte2(w: bv32): bv8 { ((w >> 8) & 0xff) as bv8 }
  function Byte3(w: bv32): bv8 { (w & 0xff) as bv8 }

  function Xor(u: bv32, v: bv32): bv32 { u ^ v }

  lemma XorCancels(u: bv32, v: bv32)
    ensures Xor(Xor(u, v), v) == u
  {
  }

  lemma XorAssociates(u: bv32, v: bv32, w: bv32)
    ensures Xor(Xor(u, v), w) == Xor(u, Xor(v, w))
  {
  }

  lemma BytesOfWord(b0: bv8, b1: bv8, b2: bv8, b3: bv8)
    ensures Byte0(Word(b0, b1, b2, b3)) == b0
    ensures Byte1(Word(b0, b1, b2, b3)) == b1
    ensures Byte2(Word(b0, b1, b2, b3)) == b2
    ensures Byte3(Word(b0, b1, b2, b3)) == b3
  {
  }

  lemma WordOfBytes(w: bv32)
    ensures Word(Byte0(w), Byte1(w), Byte2(w), Byte3(w)) == w
  {
  }

  // The entry of a 16-entry row that the low four bits of i select.
  function Select16(i: bv8, r0: bv32, r1: bv32, r2: bv32, r3: bv32, r4: bv32, r5: bv32, r6: bv32, r7: bv32,
                    r8: bv32, r9: bv32, r10: bv32, r11: bv32, r12: bv32, r13: bv32, r14: bv32, r15: bv32): bv32
  {
    if i & 8 != 0 then
      if i & 4 != 0 then
        if i & 2 != 0 then if i & 1 != 0 then r15 else r14 else if i & 1 != 0 then r13 else r12
      else
        if i & 2 != 0 then if i & 1 != 0 then r11 else r10 else if i & 1 != 0 then r9 else r8
    else
      if i & 4 != 0 then
        if i & 2 != 0 then if i & 1 != 0 then r7 else r6 else if i & 1 != 0 then r5 else r4
      else
        if i & 2 != 0 then if i & 1 != 0 then r3 else r2 else if i & 1 != 0 then r1 else r0
  }

  // n zero bytes.
  function Zeros(n: nat): (z: seq<bv8>)
    ensures |z| == n && forall k :: 0 <= k < n ==> z[k] == 0
  {
    seq(n, _ => 0)
  }
}
