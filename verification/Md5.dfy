// The MD5 context (common/libtools/MD5.cpp): four registers, a bit counter split over
// two 32-bit words, and a buffer for the bytes that do not fill a block yet.
module Md5 {
  import opened Words
  import opened Rfc1321

  // ---------- The 64 steps ----------

  // The rewritten auxiliary functions (lines 57-60).
  function F1(x: bv32, y: bv32, z: bv32): bv32 { z ^ (x & (y ^ z)) }
  function F2(x: bv32, y: bv32, z: bv32): bv32 { F1(z, x, y) }
  function F3(x: bv32, y: bv32, z: bv32): bv32 { x ^ y ^ z }
  function F4(x: bv32, y: bv32, z: bv32): bv32 { y ^ (x | !z) }

  // MD5STEP (lines 63-64): w += f + (x + t), rotate w, w += x.
  function Step(f: bv32, w: bv32, x: bv32, data: bv32, t: bv32, s: nat): bv32
    requires 0 < s < 32
  {
    RotateLeft(w + (f + (data + t)), s) + x
  }

  lemma F1IsF(x: bv32, y: bv32, z: bv32)
    ensures F1(x, y, z) == F(x, y, z)
  {
    assert z ^ (x & (y ^ z)) == (x & y) | (!x & z);
  }

  lemma F2IsG(x: bv32, y: bv32, z: bv32)
    ensures F2(x, y, z) == G(x, y, z)
  {
    assert y ^ (z & (x ^ y)) == (x & z) | (y & !z);
  }

  lemma F3IsH(x: bv32, y: bv32, z: bv32)
    ensures F3(x, y, z) == H(x, y, z)
  {
  }

  lemma F4IsI(x: bv32, y: bv32, z: bv32)
    ensures F4(x, y, z) == I(x, y, z)
  {
  }

  lemma StepIsNewRegister(f: bv32, w: bv32, x: bv32, data: bv32, t: bv32, s: nat)
    requires 0 < s < 32
    ensures Step(f, w, x, data, t, s) == NewRegister(f, w, x, data, t, s)
  {
    hide RotateLeft;
    assert w + (f + (data + t)) == w + f + data + t;
  }

  function Mix(f: nat, x: bv32, y: bv32, z: bv32): bv32 {
    if f == 1 then F1(x, y, z) else if f == 2 then F2(x, y, z) else if f == 3 then F3(x, y, z) else F4(x, y, z)
  }

  lemma MixIsAuxiliary(i: nat, x: bv32, y: bv32, z: bv32)
    requires i < 64
    ensures Mix(i / 16 + 1, x, y, z) == Auxiliary(i, x, y, z)
  {
    hide F1, F2, F3, F4, F, G, H, I;
    F1IsF(x, y, z);
    F2IsG(x, y, z);
    F3IsH(x, y, z);
    F4IsI(x, y, z);
  }

  // The word index, the additive constant and the rotation that the RFC gives to step i.
  predicate Constants(i: nat, k: nat, t: bv32, s: nat) {
    i < 64 && WordIndex(i) == k && Sine(i) == t && Shift(i) == s
  }

  // One MD5STEP line: w is replaced, and the roles of the registers move on by one.
  method Md5Step(f: nat, w: bv32, x: bv32, y: bv32, z: bv32, m: seq<bv32>, k: nat, t: bv32, s: nat,
                 ghost q: Quad, ghost i: nat) returns (r: bv32)
    requires |m| == 16 && Constants(i, k, t, s) && f == i / 16 + 1
    requires Quad(w, x, y, z) == Steps(q, m, i)
    ensures Quad(z, r, x, y) == Steps(q, m, i + 1)
  {
    hide Step, NewRegister, Mix, Auxiliary;
    MixIsAuxiliary(i, x, y, z);
    StepIsNewRegister(Mix(f, x, y, z), w, x, m[k], t, s);
    r := Step(Mix(f, x, y, z), w, x, m[k], t, s);
  }

  lemma ConstantsFrom0()
    ensures Constants(0, 0, 0xd76aa478, 7) && Constants(1, 1, 0xe8c7b756, 12)
    ensures Constants(2, 2, 0x242070db, 17) && Constants(3, 3, 0xc1bdceee, 22)
    ensures Constants(4, 4, 0xf57c0faf, 7) && Constants(5, 5, 0x4787c62a, 12)
    ensures Constants(6, 6, 0xa8304613, 17) && Constants(7, 7, 0xfd469501, 22)
  {
  }

  lemma ConstantsFrom8()
    ensures Constants(8, 8, 0x698098d8, 7) && Constants(9, 9, 0x8b44f7af, 12)
    ensures Constants(10, 10, 0xffff5bb1, 17) && Constants(11, 11, 0x895cd7be, 22)
    ensures Constants(12, 12, 0x6b901122, 7) && Constants(13, 13, 0xfd987193, 12)
    ensures Constants(14, 14, 0xa679438e, 17) && Constants(15, 15, 0x49b40821, 22)
  {
  }

  lemma ConstantsFrom16()
    ensures Constants(16, 1, 0xf61e2562, 5) && Constants(17, 6, 0xc040b340, 9)
    ensures Constants(18, 11, 0x265e5a51, 14) && Constants(19, 0, 0xe9b6c7aa, 20)
    ensures Constants(20, 5, 0xd62f105d, 5) && Constants(21, 10, 0x02441453, 9)
    ensures Constants(22, 15, 0xd8a1e681, 14) && Constants(23, 4, 0xe7d3fbc8, 20)
  {
  }

  lemma ConstantsFrom24()
    ensures Constants(24, 9, 0x21e1cde6, 5) && Constants(25, 14, 0xc33707d6, 9)
    ensures Constants(26, 3, 0xf4d50d87, 14) && Constants(27, 8, 0x455a14ed, 20)
    ensures Constants(28, 13, 0xa9e3e905, 5) && Constants(29, 2, 0xfcefa3f8, 9)
    ensures Constants(30, 7, 0x676f02d9, 14) && Constants(31, 12, 0x8d2a4c8a, 20)
  {
  }

  lemma ConstantsFrom32()
    ensures Constants(32, 5, 0xfffa3942, 4) && Constants(33, 8, 0x8771f681, 11)
    ensures Constants(34, 11, 0x6d9d6122, 16) && Constants(35, 14, 0xfde5380c, 23)
    ensures Constants(36, 1, 0xa4beea44, 4) && Constants(37, 4, 0x4bdecfa9, 11)
    ensures Constants(38, 7, 0xf6bb4b60, 16) && Constants(39, 10, 0xbebfbc70, 23)
  {
  }

  lemma ConstantsFrom40()
    ensures Constants(40, 13, 0x289b7ec6, 4) && Constants(41, 0, 0xeaa127fa, 11)
    ensures Constants(42, 3, 0xd4ef3085, 16) && Constants(43, 6, 0x04881d05, 23)
    ensures Constants(44, 9, 0xd9d4d039, 4) && Constants(45, 12, 0xe6db99e5, 11)
    ensures Constants(46, 15, 0x1fa27cf8, 16) && Constants(47, 2, 0xc4ac5665, 23)
  {
  }

  lemma ConstantsFrom48()
    ensures Constants(48, 0, 0xf4292244, 6) && Constants(49, 7, 0x432aff97, 10)
    ensures Constants(50, 14, 0xab9423a7, 15) && Constants(51, 5, 0xfc93a039, 21)
    ensures Constants(52, 12, 0x655b59c3, 6) && Constants(53, 3, 0x8f0ccc92, 10)
    ensures Constants(54, 10, 0xffeff47d, 15) && Constants(55, 1, 0x85845dd1, 21)
  {
  }

  lemma ConstantsFrom56()
    ensures Constants(56, 8, 0x6fa87e4f, 6) && Constants(57, 15, 0xfe2ce6e0, 10)
    ensures Constants(58, 6, 0xa3014314, 15) && Constants(59, 13, 0x4e0811a1, 21)
    ensures Constants(60, 4, 0xf7537e82, 6) && Constants(61, 11, 0xbd3af235, 10)
    ensures Constants(62, 2, 0x2ad7d2bb, 15) && Constants(63, 9, 0xeb86d391, 21)
  {
  }

  // Round 1 (lines 98-113).
  method Round1(a0: bv32, b0: bv32, c0: bv32, d0: bv32, m: seq<bv32>, ghost q: Quad)
    returns (a: bv32, b: bv32, c: bv32, d: bv32)
    requires |m| == 16 && Quad(a0, b0, c0, d0) == Steps(q, m, 0)
    ensures Quad(a, b, c, d) == Steps(q, m, 16)
  {
    hide Constants, Steps;
    ConstantsFrom0();
    ConstantsFrom8();
    a, b, c, d := a0, b0, c0, d0;
    a := Md5Step(1, a, b, c, d, m, 0, 0xd76aa478, 7, q, 0);
    d := Md5Step(1, d, a, b, c, m, 1, 0xe8c7b756, 12, q, 1);
    c := Md5Step(1, c, d, a, b, m, 2, 0x242070db, 17, q, 2);
    b := Md5Step(1, b, c, d, a, m, 3, 0xc1bdceee, 22, q, 3);
    a := Md5Step(1, a, b, c, d, m, 4, 0xf57c0faf, 7, q, 4);
    d := Md5Step(1, d, a, b, c, m, 5, 0x4787c62a, 12, q, 5);
    c := Md5Step(1, c, d, a, b, m, 6, 0xa8304613, 17, q, 6);
    b := Md5Step(1, b, c, d, a, m, 7, 0xfd469501, 22, q, 7);
    a := Md5Step(1, a, b, c, d, m, 8, 0x698098d8, 7, q, 8);
    d := Md5Step(1, d, a, b, c, m, 9, 0x8b44f7af, 12, q, 9);
    c := Md5Step(1, c, d, a, b, m, 10, 0xffff5bb1, 17, q, 10);
    b := Md5Step(1, b, c, d, a, m, 11, 0x895cd7be, 22, q, 11);
    a := Md5Step(1, a, b, c, d, m, 12, 0x6b901122, 7, q, 12);
    d := Md5Step(1, d, a, b, c, m, 13, 0xfd987193, 12, q, 13);
    c := Md5Step(1, c, d, a, b, m, 14, 0xa679438e, 17, q, 14);
    b := Md5Step(1, b, c, d, a, m, 15, 0x49b40821, 22, q, 15);
  }

  // Round 2 (lines 115-130).
  method Round2(a0: bv32, b0: bv32, c0: bv32, d0: bv32, m: seq<bv32>, ghost q: Quad)
    returns (a: bv32, b: bv32, c: bv32, d: bv32)
    requires |m| == 16 && Quad(a0, b0, c0, d0) == Steps(q, m, 16)
    ensures Quad(a, b, c, d) == Steps(q, m, 32)
  {
    hide Constants, Steps;
    ConstantsFrom16();
    ConstantsFrom24();
    a, b, c, d := a0, b0, c0, d0;
    a := Md5Step(2, a, b, c, d, m, 1, 0xf61e2562, 5, q, 16);
    d := Md5Step(2, d, a, b, c, m, 6, 0xc040b340, 9, q, 17);
    c := Md5Step(2, c, d, a, b, m, 11, 0x265e5a51, 14, q, 18);
    b := Md5Step(2, b, c, d, a, m, 0, 0xe9b6c7aa, 20, q, 19);
    a := Md5Step(2, a, b, c, d, m, 5, 0xd62f105d, 5, q, 20);
    d := Md5Step(2, d, a, b, c, m, 10, 0x02441453, 9, q, 21);
    c := Md5Step(2, c, d, a, b, m, 15, 0xd8a1e681, 14, q, 22);
    b := Md5Step(2, b, c, d, a, m, 4, 0xe7d3fbc8, 20, q, 23);
    a := Md5Step(2, a, b, c, d, m, 9, 0x21e1cde6, 5, q, 24);
    d := Md5Step(2, d, a, b, c, m, 14, 0xc33707d6, 9, q, 25);
    c := Md5Step(2, c, d, a, b, m, 3, 0xf4d50d87, 14, q, 26);
    b := Md5Step(2, b, c, d, a, m, 8, 0x455a14ed, 20, q, 27);
    a := Md5Step(2, a, b, c, d, m, 13, 0xa9e3e905, 5, q, 28);
    d := Md5Step(2, d, a, b, c, m, 2, 0xfcefa3f8, 9, q, 29);
    c := Md5Step(2, c, d, a, b, m, 7, 0x676f02d9, 14, q, 30);
    b := Md5Step(2, b, c, d, a, m, 12, 0x8d2a4c8a, 20, q, 31);
  }

  // Round 3 (lines 132-147).
  method Round3(a0: bv32, b0: bv32, c0: bv32, d0: bv32, m: seq<bv32>, ghost q: Quad)
    returns (a: bv32, b: bv32, c: bv32, d: bv32)
    requires |m| == 16 && Quad(a0, b0, c0, d0) == Steps(q, m, 32)
    ensures Quad(a, b, c, d) == Steps(q, m, 48)
  {
    hide Constants, Steps;
    ConstantsFrom32();
    ConstantsFrom40();
    a, b, c, d := a0, b0, c0, d0;
    a := Md5Step(3, a, b, c, d, m, 5, 0xfffa3942, 4, q, 32);
    d := Md5Step(3, d, a, b, c, m, 8, 0x8771f681, 11, q, 33);
    c := Md5Step(3, c, d, a, b, m, 11, 0x6d9d6122, 16, q, 34);
    b := Md5Step(3, b, c, d, a, m, 14, 0xfde5380c, 23, q, 35);
    a := Md5Step(3, a, b, c, d, m, 1, 0xa4beea44, 4, q, 36);
    d := Md5Step(3, d, a, b, c, m, 4, 0x4bdecfa9, 11, q, 37);
    c := Md5Step(3, c, d, a, b, m, 7, 0xf6bb4b60, 16, q, 38);
    b := Md5Step(3, b, c, d, a, m, 10, 0xbebfbc70, 23, q, 39);
    a := Md5Step(3, a, b, c, d, m, 13, 0x289b7ec6, 4, q, 40);
    d := Md5Step(3, d, a, b, c, m, 0, 0xeaa127fa, 11, q, 41);
    c := Md5Step(3, c, d, a, b, m, 3, 0xd4ef3085, 16, q, 42);
    b := Md5Step(3, b, c, d, a, m, 6, 0x04881d05, 23, q, 43);
    a := Md5Step(3, a, b, c, d, m, 9, 0xd9d4d039, 4, q, 44);
    d := Md5Step(3, d, a, b, c, m, 12, 0xe6db99e5, 11, q, 45);
    c := Md5Step(3, c, d, a, b, m, 15, 0x1fa27cf8, 16, q, 46);
    b := Md5Step(3, b, c, d, a, m, 2, 0xc4ac5665, 23, q, 47);
  }

  // Round 4 (lines 149-164).
  method Round4(a0: bv32, b0: bv32, c0: bv32, d0: bv32, m: seq<bv32>, ghost q: Quad)
    returns (a: bv32, b: bv32, c: bv32, d: bv32)
    requires |m| == 16 && Quad(a0, b0, c0, d0) == Steps(q, m, 48)
    ensures Quad(a, b, c, d) == Steps(q, m, 64)
  {
    hide Constants, Steps;
    ConstantsFrom48();
    ConstantsFrom56();
    a, b, c, d := a0, b0, c0, d0;
    a := Md5Step(4, a, b, c, d, m, 0, 0xf4292244, 6, q, 48);
    d := Md5Step(4, d, a, b, c, m, 7, 0x432aff97, 10, q, 49);
    c := Md5Step(4, c, d, a, b, m, 14, 0xab9423a7, 15, q, 50);
    b := Md5Step(4, b, c, d, a, m, 5, 0xfc93a039, 21, q, 51);
    a := Md5Step(4, a, b, c, d, m, 12, 0x655b59c3, 6, q, 52);
    d := Md5Step(4, d, a, b, c, m, 3, 0x8f0ccc92, 10, q, 53);
    c := Md5Step(4, c, d, a, b, m, 10, 0xffeff47d, 15, q, 54);
    b := Md5Step(4, b, c, d, a, m, 1, 0x85845dd1, 21, q, 55);
    a := Md5Step(4, a, b, c, d, m, 8, 0x6fa87e4f, 6, q, 56);
    d := Md5Step(4, d, a, b, c, m, 15, 0xfe2ce6e0, 10, q, 57);
    c := Md5Step(4, c, d, a, b, m, 6, 0xa3014314, 15, q, 58);
    b := Md5Step(4, b, c, d, a, m, 13, 0x4e0811a1, 21, q, 59);
    a := Md5Step(4, a, b, c, d, m, 4, 0xf7537e82, 6, q, 60);
    d := Md5Step(4, d, a, b, c, m, 11, 0xbd3af235, 10, q, 61);
    c := Md5Step(4, c, d, a, b, m, 2, 0x2ad7d2bb, 15, q, 62);
    b := Md5Step(4, b, c, d, a, m, 9, 0xeb86d391, 21, q, 63);
  }

  // ---------- Absorbing a message piece by piece ----------

  // The bytes after the last full block.
  function Tail(msg: seq<bv8>): (t: seq<bv8>)
    ensures |t| < 64
  {
    msg[64 * (|msg| / 64)..]
  }

  lemma TailLength(msg: seq<bv8>)
    ensures |Tail(msg)| == |msg| % 64
  {
  }

  lemma {:induction false} AbsorbAppend(q: Quad, full: seq<bv8>, rest: seq<bv8>)
    requires |full| % 64 == 0
    ensures Absorb(q, full + rest) == Absorb(Absorb(q, full), rest)
    decreases |full|
  {
    hide Compress;
    if |full| == 0 {
      assert full + rest == rest;
      AbsorbNothing(q, full);
    } else {
      assert (full + rest)[..64] == full[..64];
      assert (full + rest)[64..] == full[64..] + rest;
      AbsorbAppend(Compress(q, full[..64]), full[64..], rest);
    }
  }

  lemma AbsorbNothing(q: Quad, data: seq<bv8>)
    requires |data| < 64
    ensures Absorb(q, data) == q
  {
    hide Compress;
  }

  lemma TailOfSplit(full: seq<bv8>, rest: seq<bv8>)
    requires |full| % 64 == 0 && |rest| < 64
    ensures Tail(full + rest) == rest
  {
    assert |full + rest| / 64 == |full| / 64;
  }

  // The message splits into its full blocks and its tail.
  lemma Split(msg: seq<bv8>) returns (full: seq<bv8>)
    ensures |full| % 64 == 0 && msg == full + Tail(msg)
    ensures Absorb(INITIAL, msg) == Absorb(INITIAL, full)
  {
    hide Absorb;
    full := msg[..64 * (|msg| / 64)];
    AbsorbAppend(INITIAL, full, Tail(msg));
    AbsorbNothing(Absorb(INITIAL, full), Tail(msg));
  }

  // A chunk that does not reach the end of the current block leaves the registers alone ..
  lemma AbsorbPartial(msg: seq<bv8>, chunk: seq<bv8>)
    requires |Tail(msg)| + |chunk| < 64
    ensures Absorb(INITIAL, msg + chunk) == Absorb(INITIAL, msg)
    ensures Tail(msg + chunk) == Tail(msg) + chunk
  {
    hide Absorb, Tail;
    var full := Split(msg);
    var rest := Tail(msg) + chunk;
    assert msg + chunk == full + rest;
    TailOfSplit(full, rest);
    AbsorbAppend(INITIAL, full, rest);
    AbsorbNothing(Absorb(INITIAL, full), rest);
  }

  // .. and one that ends exactly there compresses the buffered bytes and the chunk once.
  lemma AbsorbFill(msg: seq<bv8>, chunk: seq<bv8>)
    requires |Tail(msg)| + |chunk| == 64
    ensures Absorb(INITIAL, msg + chunk) == Compress(Absorb(INITIAL, msg), Tail(msg) + chunk)
    ensures |msg + chunk| % 64 == 0
  {
    hide Absorb, Tail, Compress;
    var full := Split(msg);
    var block := Tail(msg) + chunk;
    assert msg + chunk == full + block;
    AbsorbAppend(INITIAL, full, block);
    AbsorbOneBlock(Absorb(INITIAL, full), block);
    assert |msg + chunk| == 64 * (|full| / 64 + 1);
  }

  lemma AbsorbOneBlock(q: Quad, block: seq<bv8>)
    requires |block| == 64
    ensures Absorb(q, block) == Compress(q, block)
  {
    hide Compress;
    assert block[..64] == block;
  }

  lemma NothingAbsorbed()
    ensures Absorb(INITIAL, []) == INITIAL && Tail([]) == []
  {
    hide Absorb;
    AbsorbNothing(INITIAL, []);
  }

  lemma SlicesJoin(head: seq<bv8>, s: seq<bv8>, i: nat, j: nat, n: nat)
    requires i <= j <= n <= |s|
    ensures head + s[0..i] + s[i..j] + s[j..n] == head + s[..n]
  {
  }

  // ---------- The bit counter ----------

  const WORD: int := 0x1_0000_0000

  // The two counter words of n absorbed bytes.
  predicate Counts(n: nat, bits0: int, bits1: int) {
    && 0 <= bits0 < WORD && 0 <= bits1 < WORD
    && WORD * bits1 + bits0 == 8 * n % (WORD * WORD)
  }

  // Bits 3 to 8 of the low word count the buffered bytes.
  lemma BufferedCount(n: nat, bits0: int, bits1: int)
    requires Counts(n, bits0, bits1)
    ensures bits0 / 8 % 64 == n % 64
  {
    var q := 8 * n / (WORD * WORD);
    assert 8 * n == WORD * WORD * q + WORD * bits1 + bits0;
    assert bits0 / 8 == n - 0x2000_0000 * bits1 - 0x2000_0000_0000_0000 * q;
    SameRemainder(n, bits0 / 8, 0x80_0000 * bits1 + 0x80_0000_0000_0000 * q);
  }

  lemma SameRemainder(a: int, b: int, k: int)
    requires a == b + 64 * k
    ensures a % 64 == b % 64
  {
  }

  // The low word of the counter after len more bytes, and the high word with the carry.
  function LowAfter(bits0: int, len: int): int { (bits0 + 8 * len % WORD) % WORD }

  function HighAfter(bits0: int, bits1: int, len: int): int {
    var carried := if LowAfter(bits0, len) < bits0 then (bits1 + 1) % WORD else bits1;
    (carried + len / 0x2000_0000) % WORD
  }

  // The low word wraps exactly when it comes out smaller.
  lemma LowWraps(bits0: int, len: nat)
    requires 0 <= bits0 < WORD
    ensures var low := 8 * len % WORD;
      LowAfter(bits0, len) == if bits0 + low >= WORD then bits0 + low - WORD else bits0 + low
    ensures LowAfter(bits0, len) < bits0 <==> bits0 + 8 * len % WORD >= WORD
  {
  }

  lemma HighWraps(bits0: int, bits1: int, len: nat)
    requires 0 <= bits0 < WORD && 0 <= bits1 < WORD && len < WORD
    ensures var carry := if bits0 + 8 * len % WORD >= WORD then 1 else 0;
      var sum := bits1 + carry + len / 0x2000_0000;
      HighAfter(bits0, bits1, len) == if sum >= WORD then sum - WORD else sum
  {
    hide LowAfter;
    LowWraps(bits0, len);
    assert 0 <= len / 0x2000_0000 < 8;
  }

  lemma CountsAfter(n: nat, len: nat, bits0: int, bits1: int)
    requires Counts(n, bits0, bits1) && len < WORD
    ensures Counts(n + len, LowAfter(bits0, len), HighAfter(bits0, bits1, len))
  {
    hide LowAfter, HighAfter;
    LowWraps(bits0, len);
    HighWraps(bits0, bits1, len);
    var high, low := len / 0x2000_0000, 8 * len % WORD;
    var q := 8 * n / (WORD * WORD);
    var carry := if bits0 + low >= WORD then 1 else 0;
    var over := if bits1 + carry + high >= WORD then 1 else 0;
    var low', high' := bits0 + low - WORD * carry, bits1 + carry + high - WORD * over;
    assert 8 * (n + len) == WORD * WORD * (q + over) + (WORD * high' + low');
    QuotientAndRemainder(8 * (n + len), q + over, WORD * high' + low');
  }

  lemma QuotientAndRemainder(v: nat, q: int, r: int)
    requires v == WORD * WORD * q + r && 0 <= r < WORD * WORD
    ensures v % (WORD * WORD) == r
  {
  }

  // ---------- The context ----------

  newtype uint32 = x: int | 0 <= x < 0x1_0000_0000

  class Md5Context {
    const buf: array<bv32>
    var bits0: uint32
    var bits1: uint32
    const block: array<bv8>
    // Everything absorbed since Init.
    ghost var msg: seq<bv8>

    ghost predicate Shape() {
      buf.Length == 4 && block.Length == 64
    }

    ghost function Registers(): Quad
      requires Shape()
      reads buf
    {
      Quad(buf[0], buf[1], buf[2], buf[3])
    }

    // What the context holds depends on the absorbed bytes alone.
    ghost predicate Valid()
      reads this, buf, block
    {
      && Shape()
      && Registers() == Absorb(INITIAL, msg)
      && block[..|Tail(msg)|] == Tail(msg)
      && Counts(|msg|, bits0 as int, bits1 as int)
    }

    constructor ()
      ensures Shape() && fresh(buf) && fresh(block)
    {
      buf := new bv32[4];
      block := new bv8[64];
    }

    // MD5Init (lines 70-79).
    method Init()
      requires Shape()
      modifies this, buf
      ensures Valid() && msg == []
    {
      NothingAbsorbed();
      hide Absorb, Tail;
      buf[0] := 0x67452301;
      buf[1] := 0xefcdab89;
      buf[2] := 0x98badcfe;
      buf[3] := 0x10325476;
      bits0 := 0;
      bits1 := 0;
      msg := [];
    }

    // MD5Transform (lines 86-170) on the buffered block, read as little-endian words.
    method Transform()
      requires Shape()
      modifies buf
      ensures Registers() == Compress(old(Registers()), block[..])
    {
      hide Steps, BlockWords, AddWord;
      ghost var q := Registers();
      var m := BlockWords(block[..]);
      var a, b, c, d := buf[0], buf[1], buf[2], buf[3];
      assert Quad(a, b, c, d) == Steps(q, m, 0) by { NoSteps(q, m); }
      a, b, c, d := Round1(a, b, c, d, m, q);
      a, b, c, d := Round2(a, b, c, d, m, q);
      a, b, c, d := Round3(a, b, c, d, m, q);
      a, b, c, d := Round4(a, b, c, d, m, q);
      buf[0] := AddWord(buf[0], a);
      buf[1] := AddWord(buf[1], b);
      buf[2] := AddWord(buf[2], c);
      buf[3] := AddWord(buf[3], d);
    }

    // The registers and the buffer hold the absorbed bytes; the counter may be ahead.
    ghost predicate Holds()
      reads this, buf, block
    {
      && Shape()
      && Registers() == Absorb(INITIAL, msg)
      && block[..|Tail(msg)|] == Tail(msg)
    }

    // n bytes at data + at complete the block of which t bytes are buffered.
    method CompleteBlock(t: nat, data: array<bv8>, at: nat, n: nat)
      requires Holds() && |Tail(msg)| == t && t + n == 64
      requires at + n <= data.Length && data != block
      modifies `msg, buf, block
      ensures Holds() && Tail(msg) == []
      ensures msg == old(msg) + data[at..at + n]
    {
      hide Absorb, Tail, Compress;
      CopyBytes(block, t, data, at, n);
      AbsorbFill(msg, data[at..at + n]);
      assert block[..] == Tail(msg) + data[at..at + n];
      Transform();
      msg := msg + data[at..at + n];
      TailLength(msg);
    }

    // n bytes at data + at that do not complete the block.
    method BufferBytes(t: nat, data: array<bv8>, at: nat, n: nat)
      requires Holds() && |Tail(msg)| == t && t + n < 64
      requires at + n <= data.Length && data != block
      modifies `msg, block
      ensures Holds()
      ensures msg == old(msg) + data[at..at + n]
    {
      hide Absorb, Tail;
      CopyBytes(block, t, data, at, n);
      AbsorbPartial(msg, data[at..at + n]);
      msg := msg + data[at..at + n];
    }

    // "Process data in 64-byte chunks" (lines 208-214).
    method AbsorbBlocks(data: array<bv8>, from: nat, len: nat) returns (at: nat)
      requires Holds() && Tail(msg) == [] && data != block
      requires from <= len <= data.Length
      modifies `msg, buf, block
      ensures Holds() && Tail(msg) == []
      ensures from <= at <= len < at + 64 && msg == old(msg) + data[from..at]
    {
      hide Absorb, Tail;
      at := from;
      while len - at >= 64
        invariant from <= at <= len
        invariant Holds() && Tail(msg) == []
        invariant msg == old(msg) + data[from..at]
        invariant data[..] == old(data[..])
      {
        CompleteBlock(0, data, at, 64);
        assert data[from..at] + data[at..at + 64] == data[from..at + 64];
        at := at + 64;
      }
    }

    // MD5Update (lines 176-219): absorbs the first len bytes of data.
    method Update(data: array<bv8>, len: nat)
      requires Valid() && len <= data.Length && len < WORD && data != block
      modifies this, buf, block
      ensures Valid() && msg == old(msg) + data[..len]
    {
      hide Absorb, Tail, Counts, LowAfter, HighAfter;
      BufferedCount(|msg|, bits0 as int, bits1 as int);
      CountsAfter(|msg|, len, bits0 as int, bits1 as int);
      TailLength(msg);
      var t := bits0 as int / 8 % 64;
      CountBits(len);
      var at := 0;
      if t != 0 {
        if len < 64 - t {
          BufferBytes(t, data, 0, len);
          return;
        }
        at := 64 - t;
        CompleteBlock(t, data, 0, at);
      } else {
        assert msg == old(msg) + data[0..0];
      }
      ghost var first := at;
      at := AbsorbBlocks(data, at, len);
      BufferBytes(0, data, at, len - at);
      SlicesJoin(old(msg), old(data[..]), first, at, len);
    }

    // "Update bitcount" (lines 183-186).
    method CountBits(len: nat)
      requires len < WORD
      modifies `bits0, `bits1
      ensures bits0 as int == LowAfter(old(bits0) as int, len)
      ensures bits1 as int == HighAfter(old(bits0) as int, old(bits1) as int, len)
    {
      var t := bits0;
      bits0 := ((t as int + len * 8 % WORD) % WORD) as uint32;
      if bits0 < t {
        bits1 := ((bits1 as int + 1) % WORD) as uint32;
      }
      bits1 := ((bits1 as int + len / 0x2000_0000) % WORD) as uint32;
    }

    // One word of the length, low-order byte first (lines 258-259).
    method PutLength(at: nat, v: uint32)
      requires Shape() && at + 4 <= 64
      modifies block
      ensures block[..] == old(block[..at]) + LittleEndian(v as int, 4) + old(block[at + 4..])
    {
      block[at] := (v as int % 256) as bv8;
      block[at + 1] := (v as int / 256 % 256) as bv8;
      block[at + 2] := (v as int / 256 / 256 % 256) as bv8;
      block[at + 3] := (v as int / 256 / 256 / 256 % 256) as bv8;
      FourBytes(v as int);
    }

    // memcpy(digest, ctx->buf, 16) (line 263).
    method WriteRegisters(digest: array<bv8>)
      requires Shape() && digest.Length == 16
      modifies digest
      ensures digest[..] == QuadBytes(Registers())
    {
      hide RegisterBytes;
      WriteWord(digest, 0, buf[0]);
      WriteWord(digest, 4, buf[1]);
      WriteWord(digest, 8, buf[2]);
      WriteWord(digest, 12, buf[3]);
    }

    // "Pad out to 56 mod 64" (lines 232-254): with fewer than 8 bytes left after the 0x80
    // byte, the buffered block is finished first.
    method PadTo56()
      requires Valid()
      modifies buf, block
      ensures Absorb(INITIAL, Pad(msg)) == Compress(Registers(), block[..56] + LittleEndian(BitLength(msg), 8))
    {
      hide Absorb, Tail, Compress, Counts, Pad, LittleEndian, BitLength;
      BufferedCount(|msg|, bits0 as int, bits1 as int);
      TailLength(msg);
      var count := bits0 as int / 8 % 64;
      block[count] := 0x80;
      var left := 64 - 1 - count;
      if left < 8 {
        FillZeros(block, count + 1, left);
        assert block[..] == Tail(msg) + ([0x80] + Zeros(left));
        Transform();
        FillZeros(block, 0, 56);
        assert block[..56] == Zeros(56);
        PadTwoBlocks(msg, LittleEndian(BitLength(msg), 8));
      } else {
        FillZeros(block, count + 1, left - 8);
        assert block[..56] == Tail(msg) + [0x80] + Zeros(left - 8);
        PadOneBlock(msg, LittleEndian(BitLength(msg), 8));
      }
    }

    // MD5Final (lines 225-263).
    method Final(digest: array<bv8>)
      requires Valid() && digest.Length == 16 && digest != block
      modifies this, buf, block, digest
      ensures digest[..] == Digest(old(msg))
    {
      hide Absorb, Tail, Compress, Pad, Digest, QuadBytes, LittleEndian;
      LengthBytes(|msg|, bits0 as int, bits1 as int);
      PadTo56();
      ghost var head := block[..56];
      PutLength(56, bits0);
      PutLength(60, bits1);
      assert block[..] == head + (LittleEndian(bits0 as int, 4) + LittleEndian(bits1 as int, 4));
      Transform();
      DigestIsRegisters(msg, Registers());
      WriteRegisters(digest);
    }
  }

  method WriteWord(digest: array<bv8>, at: nat, w: bv32)
    requires at + 4 <= digest.Length
    modifies digest
    ensures digest[..] == old(digest[..at]) + RegisterBytes(w) + old(digest[at + 4..])
  {
    var bytes := RegisterBytes(w);
    digest[at], digest[at + 1], digest[at + 2], digest[at + 3] := bytes[0], bytes[1], bytes[2], bytes[3];
  }

  lemma FirstByte(v: nat, n: nat)
    requires n > 0
    ensures LittleEndian(v, n) == [(v % 256) as bv8] + LittleEndian(v / 256, n - 1)
  {
  }

  lemma FourBytes(v: nat)
    ensures LittleEndian(v, 4)
         == [(v % 256) as bv8, (v / 256 % 256) as bv8, (v / 256 / 256 % 256) as bv8, (v / 256 / 256 / 256 % 256) as bv8]
  {
    hide LittleEndian;
    FirstByte(v, 4);
    FirstByte(v / 256, 3);
    FirstByte(v / 256 / 256, 2);
    FirstByte(v / 256 / 256 / 256, 1);
    assert LittleEndian(v / 256 / 256 / 256 / 256, 0) == [];
  }

  lemma DigestIsRegisters(msg: seq<bv8>, q: Quad)
    requires q == Absorb(INITIAL, Pad(msg))
    ensures Digest(msg) == QuadBytes(q)
  {
  }

  // The two counter words are the length field of the padding.
  lemma LengthBytes(n: nat, bits0: int, bits1: int)
    requires Counts(n, bits0, bits1)
    ensures LittleEndian(8 * n % 0x1_0000_0000_0000_0000, 8) == LittleEndian(bits0, 4) + LittleEndian(bits1, 4)
  {
    LittleEndianWords(bits0, bits1);
  }

  lemma LittleEndianWords(lo: nat, hi: nat)
    requires lo < WORD
    ensures LittleEndian(WORD * hi + lo, 8) == LittleEndian(lo, 4) + LittleEndian(hi, 4)
  {
    hide LittleEndian;
    assert BytesUp(hi, 1) == 0x100 * hi && BytesUp(1, 1) == 0x100;
    assert BytesUp(hi, 2) == 0x1_0000 * hi && BytesUp(1, 2) == 0x1_0000;
    assert BytesUp(hi, 3) == 0x100_0000 * hi && BytesUp(1, 3) == 0x100_0000;
    LittleEndianSplit(lo, hi, 4, 4);
  }

  // v times 256^k.
  function BytesUp(v: nat, k: nat): nat { if k == 0 then v else 256 * BytesUp(v, k - 1) }

  lemma {:induction false} LittleEndianSplit(lo: nat, hi: nat, k: nat, n: nat)
    requires lo < BytesUp(1, k)
    ensures LittleEndian(BytesUp(hi, k) + lo, k + n) == LittleEndian(lo, k) + LittleEndian(hi, n)
  {
    hide LittleEndian;
    if k == 0 {
      assert LittleEndian(lo, 0) == [];
    } else {
      var v := BytesUp(hi, k) + lo;
      HighPart(BytesUp(hi, k - 1), lo);
      FirstByte(v, k + n);
      FirstByte(lo, k);
      LittleEndianSplit(lo / 256, hi, k - 1, n);
    }
  }

  lemma HighPart(x: nat, lo: nat)
    ensures (256 * x + lo) % 256 == lo % 256 && (256 * x + lo) / 256 == x + lo / 256
  {
  }

  // The padded message ends in one block when at most 55 bytes are buffered ..
  lemma PadOneBlock(msg: seq<bv8>, length: seq<bv8>)
    requires |Tail(msg)| < 56 && length == LittleEndian(BitLength(msg), 8)
    ensures Absorb(INITIAL, Pad(msg))
         == Compress(Absorb(INITIAL, msg), Tail(msg) + [0x80] + Zeros(55 - |Tail(msg)|) + length)
  {
    hide Absorb, Tail, Compress, LittleEndian, BitLength;
    TailLength(msg);
    var suffix := [0x80] + Zeros(55 - |Tail(msg)|) + length;
    assert Pad(msg) == msg + suffix;
    AbsorbFill(msg, suffix);
    assert Tail(msg) + suffix == Tail(msg) + [0x80] + Zeros(55 - |Tail(msg)|) + length;
  }

  // .. and in two otherwise.
  lemma PadTwoBlocks(msg: seq<bv8>, length: seq<bv8>)
    requires 56 <= |Tail(msg)| && length == LittleEndian(BitLength(msg), 8)
    ensures Absorb(INITIAL, Pad(msg))
         == Compress(Compress(Absorb(INITIAL, msg), Tail(msg) + ([0x80] + Zeros(63 - |Tail(msg)|))), Zeros(56) + length)
  {
    hide Absorb, Tail, Compress, LittleEndian, BitLength;
    TailLength(msg);
    var first := [0x80] + Zeros(63 - |Tail(msg)|);
    var second := Zeros(56) + length;
    assert Zeros(119 - |Tail(msg)|) == Zeros(63 - |Tail(msg)|) + Zeros(56);
    assert Pad(msg) == (msg + first) + second;
    AbsorbFill(msg, first);
    TailLength(msg + first);
    assert Tail(msg + first) + second == second;
    AbsorbFill(msg + first, second);
  }

  lemma NoSteps(q: Quad, m: seq<bv32>)
    requires |m| == 16
    ensures Steps(q, m, 0) == q
  {
  }

  // memset(dst + at, 0, n).
  method FillZeros(dst: array<bv8>, at: nat, n: nat)
    requires at + n <= dst.Length
    modifies dst
    ensures dst[..] == old(dst[..at]) + Zeros(n) + old(dst[at + n..])
  {
    forall k | 0 <= k < n {
      dst[at + k] := 0;
    }
  }

  // memcpy(dst + at, src + from, n).
  method CopyBytes(dst: array<bv8>, at: nat, src: array<bv8>, from: nat, n: nat)
    requires dst != src && at + n <= dst.Length && from + n <= src.Length
    modifies dst
    ensures dst[..] == old(dst[..at]) + src[from..from + n] + old(dst[at + n..])
  {
    forall k | 0 <= k < n {
      dst[at + k] := src[from + k];
    }
  }

  // ---------- The whole digest ----------

  // MD5_16 (lines 270-281): the length argument is truncated to 32 bits.
  method Digest16(data: array<bv8>, len: nat) returns (out: array<bv8>)
    requires len <= data.Length
    ensures fresh(out) && out[..] == Digest(data[..len % 0x1_0000_0000])
  {
    hide Digest, Absorb, Tail, Counts, QuadBytes;
    var ctx := new Md5Context();
    ctx.Init();
    ctx.Update(data, len % WORD);
    out := new bv8[16];
    assert ctx.msg == data[..len % WORD];
    ctx.Final(out);
  }

  // Contexts that have absorbed the same bytes, in whatever chunks, agree in all that is
  // read of them later.
  lemma ContextsAgree(x: Md5Context, y: Md5Context)
    requires x.Valid() && y.Valid() && x.msg == y.msg
    ensures x.Registers() == y.Registers() && x.bits0 == y.bits0 && x.bits1 == y.bits1
    ensures x.block[..|x.msg| % 64] == y.block[..|y.msg| % 64]
  {
    hide Absorb, Tail;
    TailLength(x.msg);
  }

  // bin2hex (common/libtools/BaseTool.cpp:23-31), one byte.
  function HexDigit(n: bv8): bv8
  {
    if n < 10 then 0x30 + n else 0x57 + n
  }

  lemma HexDigitIsDigit(n: bv8)
    requires n < 16
    ensures HexDigit(n) as int == "0123456789abcdef"[n as int] as int
  {
  }

  function Hex(bytes: seq<bv8>): (text: seq<bv8>)
    ensures |text| == 2 * |bytes|
  {
    if |bytes| == 0 then [] else HexPair(bytes[0]) + Hex(bytes[1..])
  }

  function HexPair(b: bv8): (pair: seq<bv8>)
    ensures |pair| == 2
  {
    [HexDigit(b >> 4), HexDigit(b & 0x0f)]
  }

  lemma {:induction false} HexAppend(bytes: seq<bv8>, b: bv8)
    ensures Hex(bytes + [b]) == Hex(bytes) + HexPair(b)
    decreases |bytes|
  {
    hide HexPair;
    if |bytes| > 0 {
      assert (bytes + [b])[1..] == bytes[1..] + [b];
      HexAppend(bytes[1..], b);
    }
  }

  // Two digits for each byte, the high-order one first.
  lemma {:induction false} HexAt(bytes: seq<bv8>, i: nat)
    requires i < |bytes|
    ensures Hex(bytes)[2 * i] as int == "0123456789abcdef"[(bytes[i] >> 4) as int] as int
    ensures Hex(bytes)[2 * i + 1] as int == "0123456789abcdef"[(bytes[i] & 0x0f) as int] as int
    decreases i
  {
    hide HexDigit;
    if i == 0 {
      HexDigitIsDigit(bytes[0] >> 4);
      HexDigitIsDigit(bytes[0] & 0x0f);
    } else {
      HexAt(bytes[1..], i - 1);
    }
  }

  method Bin2Hex(to: array<bv8>, p: array<bv8>, len: nat)
    requires to != p && len <= p.Length && 2 * len <= to.Length
    modifies to
    ensures to[..2 * len] == Hex(p[..len])
  {
    hide Hex, HexDigit;
    assert Hex([]) == [] by { HexOfNothing(); }
    var k := 0;
    while k < len
      invariant 0 <= k <= len
      invariant to[..2 * k] == Hex(p[..k])
    {
      HexAppend(p[..k], p[k]);
      assert p[..k + 1] == p[..k] + [p[k]];
      to[2 * k] := HexDigit(p[k] >> 4);
      to[2 * k + 1] := HexDigit(p[k] & 0x0f);
      assert to[..2 * k + 2] == to[..2 * k] + HexPair(p[k]);
      k := k + 1;
    }
  }

  lemma HexOfNothing()
    ensures Hex([]) == []
  {
  }

  // MD5_32 (lines 283-302): the digest as 32 lower-case hexadecimal digits.
  method Digest32(data: array<bv8>, len: nat) returns (text: seq<bv8>)
    requires len <= data.Length
    ensures text == Hex(Digest(data[..len % 0x1_0000_0000]))
  {
    hide Digest, Hex;
    var hash := Digest16(data, len);
    var output := new bv8[32];
    Bin2Hex(output, hash, 16);
    text := output[..];
    assert output[..32] == output[..] && hash[..16] == hash[..];
  }
}
