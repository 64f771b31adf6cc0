// The compression function and the padding of RFC 1321, stated as the RFC states them:
// one indexed step, sixty-four times, over blocks of the padded message.
module Rfc1321 {
  import opened Words

  datatype Quad = Quad(a: bv32, b: bv32, c: bv32, d: bv32)

  // Section 3.3: the initial value of the four registers.
  const INITIAL := Quad(0x67452301, 0xefcdab89, 0x98badcfe, 0x10325476)

  // Section 3.4: the auxiliary functions.
  function F(x: bv32, y: bv32, z: bv32): bv32 { (x & y) | (!x & z) }
  function G(x: bv32, y: bv32, z: bv32): bv32 { (x & z) | (y & !z) }
  function H(x: bv32, y: bv32, z: bv32): bv32 { x ^ y ^ z }
  function I(x: bv32, y: bv32, z: bv32): bv32 { y ^ (x | !z) }

  function Auxiliary(i: nat, x: bv32, y: bv32, z: bv32): bv32 {
    if i < 16 then F(x, y, z) else if i < 32 then G(x, y, z) else if i < 48 then H(x, y, z) else I(x, y, z)
  }

  // T[i + 1]: the integer part of 4294967296 * abs(sin(i + 1)).
  function Sine(i: nat): bv32
    requires i < 64
  {
    if i < 16 then
    [0xd76aa478, 0xe8c7b756, 0x242070db, 0xc1bdceee, 0xf57c0faf, 0x4787c62a, 0xa8304613, 0xfd469501,
     0x698098d8, 0x8b44f7af, 0xffff5bb1, 0x895cd7be, 0x6b901122, 0xfd987193, 0xa679438e, 0x49b40821][i]
    else if i < 32 then
    [0xf61e2562, 0xc040b340, 0x265e5a51, 0xe9b6c7aa, 0xd62f105d, 0x02441453, 0xd8a1e681, 0xe7d3fbc8,
     0x21e1cde6, 0xc33707d6, 0xf4d50d87, 0x455a14ed, 0xa9e3e905, 0xfcefa3f8, 0x676f02d9, 0x8d2a4c8a][i - 16]
    else if i < 48 then
    [0xfffa3942, 0x8771f681, 0x6d9d6122, 0xfde5380c, 0xa4beea44, 0x4bdecfa9, 0xf6bb4b60, 0xbebfbc70,
     0x289b7ec6, 0xeaa127fa, 0xd4ef3085, 0x04881d05, 0xd9d4d039, 0xe6db99e5, 0x1fa27cf8, 0xc4ac5665][i - 32]
    else
    [0xf4292244, 0x432aff97, 0xab9423a7, 0xfc93a039, 0x655b59c3, 0x8f0ccc92, 0xffeff47d, 0x85845dd1,
     0x6fa87e4f, 0xfe2ce6e0, 0xa3014314, 0x4e0811a1, 0xf7537e82, 0xbd3af235, 0x2ad7d2bb, 0xeb86d391][i - 48]
  }

  // The word of the block that step i reads, and the rotation that it applies.
  function WordIndex(i: nat): (k: nat)
    ensures k < 16 || i >= 64
  {
    if i < 16 then i else if i < 32 then (5 * i + 1) % 16 else if i < 48 then (3 * i + 5) % 16 else (7 * i) % 16
  }

  function Shift(i: nat): (s: nat)
    ensures 0 < s < 32
  {
    if i < 16 then [7, 12, 17, 22][i % 4]
    else if i < 32 then [5, 9, 14, 20][i % 4]
    else if i < 48 then [4, 11, 16, 23][i % 4]
    else [6, 10, 15, 21][i % 4]
  }

  function RotateLeft(w: bv32, s: nat): bv32
    requires 0 < s < 32
  {
    (w << s) | (w >> (32 - s))
  }

  // The rotations by the sixteen amounts of MD5 are the ones that the language itself
  // defines, and so are all others below 32.
  lemma RotateLeftIsRotation(w: bv32)
    ensures RotateLeft(w, 4) == w.RotateLeft(4) && RotateLeft(w, 5) == w.RotateLeft(5)
    ensures RotateLeft(w, 6) == w.RotateLeft(6) && RotateLeft(w, 7) == w.RotateLeft(7)
    ensures RotateLeft(w, 9) == w.RotateLeft(9) && RotateLeft(w, 10) == w.RotateLeft(10)
    ensures RotateLeft(w, 11) == w.RotateLeft(11) && RotateLeft(w, 12) == w.RotateLeft(12)
    ensures RotateLeft(w, 14) == w.RotateLeft(14) && RotateLeft(w, 15) == w.RotateLeft(15)
    ensures RotateLeft(w, 16) == w.RotateLeft(16) && RotateLeft(w, 17) == w.RotateLeft(17)
    ensures RotateLeft(w, 20) == w.RotateLeft(20) && RotateLeft(w, 21) == w.RotateLeft(21)
    ensures RotateLeft(w, 22) == w.RotateLeft(22) && RotateLeft(w, 23) == w.RotateLeft(23)
  {
    hide RotateLeft;
    RotateLeftFrom1(w);
    RotateLeftFrom8(w);
    RotateLeftFrom16(w);
  }

  lemma RotateLeftFrom1(w: bv32)
    ensures RotateLeft(w, 1) == w.RotateLeft(1) && RotateLeft(w, 2) == w.RotateLeft(2)
    ensures RotateLeft(w, 3) == w.RotateLeft(3) && RotateLeft(w, 4) == w.RotateLeft(4)
    ensures RotateLeft(w, 5) == w.RotateLeft(5) && RotateLeft(w, 6) == w.RotateLeft(6)
    ensures RotateLeft(w, 7) == w.RotateLeft(7)
  {
  }

  lemma RotateLeftFrom8(w: bv32)
    ensures RotateLeft(w, 8) == w.RotateLeft(8) && RotateLeft(w, 9) == w.RotateLeft(9)
    ensures RotateLeft(w, 10) == w.RotateLeft(10) && RotateLeft(w, 11) == w.RotateLeft(11)
    ensures RotateLeft(w, 12) == w.RotateLeft(12) && RotateLeft(w, 13) == w.RotateLeft(13)
    ensures RotateLeft(w, 14) == w.RotateLeft(14) && RotateLeft(w, 15) == w.RotateLeft(15)
  {
  }

  lemma RotateLeftFrom16(w: bv32)
    ensures RotateLeft(w, 16) == w.RotateLeft(16) && RotateLeft(w, 17) == w.RotateLeft(17)
    ensures RotateLeft(w, 18) == w.RotateLeft(18) && RotateLeft(w, 19) == w.RotateLeft(19)
    ensures RotateLeft(w, 20) == w.RotateLeft(20) && RotateLeft(w, 21) == w.RotateLeft(21)
    ensures RotateLeft(w, 22) == w.RotateLeft(22) && RotateLeft(w, 23) == w.RotateLeft(23)
  {
  }

  lemma RotateLeftFrom24(w: bv32)
    ensures RotateLeft(w, 24) == w.RotateLeft(24) && RotateLeft(w, 25) == w.RotateLeft(25)
    ensures RotateLeft(w, 26) == w.RotateLeft(26) && RotateLeft(w, 27) == w.RotateLeft(27)
    ensures RotateLeft(w, 28) == w.RotateLeft(28) && RotateLeft(w, 29) == w.RotateLeft(29)
    ensures RotateLeft(w, 30) == w.RotateLeft(30) && RotateLeft(w, 31) == w.RotateLeft(31)
  {
  }

  // a = b + ((a + f + X[k] + T[i]) <<< s)
  function NewRegister(f: bv32, a: bv32, b: bv32, x: bv32, t: bv32, s: nat): bv32
    requires 0 < s < 32
  {
    b + RotateLeft(a + f + x + t, s)
  }

  // Step i, counted from 0, on registers that rotate so that it always replaces a.
  function OneStep(q: Quad, m: seq<bv32>, i: nat): Quad
    requires |m| == 16 && i < 64
  {
    var a := NewRegister(Auxiliary(i, q.b, q.c, q.d), q.a, q.b, m[WordIndex(i)], Sine(i), Shift(i));
    Quad(q.d, a, q.b, q.c)
  }

  // The first n steps.
  function Steps(q: Quad, m: seq<bv32>, n: nat): Quad
    requires |m| == 16 && n <= 64
  {
    if n == 0 then q else OneStep(Steps(q, m, n - 1), m, n - 1)
  }

  // A block of 64 bytes read as sixteen words, low-order byte first.
  function LittleEndianWord(b0: bv8, b1: bv8, b2: bv8, b3: bv8): bv32 {
    b0 as bv32 | (b1 as bv32 << 8) | (b2 as bv32 << 16) | (b3 as bv32 << 24)
  }

  // The value of a word, in arithmetic wide enough not to wrap.
  lemma LittleEndianWordValue(b0: bv8, b1: bv8, b2: bv8, b3: bv8)
    ensures LittleEndianWord(b0, b1, b2, b3) as bv64 ==
      b0 as bv64 + 0x100 * (b1 as bv64) + 0x1_0000 * (b2 as bv64) + 0x100_0000 * (b3 as bv64)
  {
  }

  function BlockWords(block: seq<bv8>): (m: seq<bv32>)
    requires |block| == 64
    ensures |m| == 16
  {
    seq(16, k requires 0 <= k < 16 =>
      LittleEndianWord(block[4 * k], block[4 * k + 1], block[4 * k + 2], block[4 * k + 3]))
  }

  function Compress(q: Quad, block: seq<bv8>): Quad
    requires |block| == 64
  {
    var r := Steps(q, BlockWords(block), 64);
    Quad(AddWord(q.a, r.a), AddWord(q.b, r.b), AddWord(q.c, r.c), AddWord(q.d, r.d))
  }

  function AddWord(x: bv32, y: bv32): bv32 { x + y }

  lemma AddWordIsSum(x: bv32, y: bv32)
    ensures AddWord(x, y) as bv64 == (x as bv64 + y as bv64) & 0xffff_ffff
  {
  }

  // The registers after all the full blocks of data; a last partial block is ignored.
  function Absorb(q: Quad, data: seq<bv8>): Quad
    decreases |data|
  {
    if |data| < 64 then q else Absorb(Compress(q, data[..64]), data[64..])
  }

  // The low-order n bytes of v, low-order byte first.
  function LittleEndian(v: nat, n: nat): (b: seq<bv8>)
    ensures |b| == n
  {
    if n == 0 then [] else [(v % 256) as bv8] + LittleEndian(v / 256, n - 1)
  }

  // Sections 3.1 and 3.2: a one bit, zero bits up to 56 bytes modulo 64, and the length
  // in bits modulo 2^64 as eight bytes.
  function ZeroCount(n: nat): (z: nat)
    ensures z < 64 && (n + 1 + z) % 64 == 56
  {
    if n % 64 < 56 then 55 - n % 64 else 119 - n % 64
  }

  function Pad(msg: seq<bv8>): (p: seq<bv8>)
    ensures |p| == |PaddedHead(msg)| + 8
  {
    PaddedHead(msg) + LittleEndian(BitLength(msg), 8)
  }

  function BitLength(msg: seq<bv8>): nat { 8 * |msg| % 0x1_0000_0000_0000_0000 }

  function PaddedHead(msg: seq<bv8>): (p: seq<bv8>)
    ensures |p| % 64 == 56
  {
    msg + [0x80] + Zeros(ZeroCount(|msg|))
  }

  // The message, a one bit, the fewest zero bits that complete a block, and the length.
  lemma PadLayout(msg: seq<bv8>)
    ensures |Pad(msg)| % 64 == 0 && |msg| + 9 <= |Pad(msg)| < |msg| + 73
    ensures Pad(msg)[..|msg|] == msg && Pad(msg)[|msg|] == 0x80
    ensures forall k :: |msg| < k < |Pad(msg)| - 8 ==> Pad(msg)[k] == 0
    ensures Pad(msg)[|Pad(msg)| - 8..] == LittleEndian(8 * |msg| % 0x1_0000_0000_0000_0000, 8)
  {
    hide LittleEndian;
  }

  // Section 3.5: the registers, low-order byte first.
  function RegisterBytes(w: bv32): (b: seq<bv8>)
    ensures |b| == 4
  {
    [(w & 0xff) as bv8, ((w >> 8) & 0xff) as bv8, ((w >> 16) & 0xff) as bv8, (w >> 24) as bv8]
  }

  lemma RegisterBytesOfWord(b0: bv8, b1: bv8, b2: bv8, b3: bv8)
    ensures RegisterBytes(LittleEndianWord(b0, b1, b2, b3)) == [b0, b1, b2, b3]
  {
  }

  function QuadBytes(q: Quad): (b: seq<bv8>)
    ensures |b| == 16
  {
    RegisterBytes(q.a) + RegisterBytes(q.b) + RegisterBytes(q.c) + RegisterBytes(q.d)
  }

  function Digest(msg: seq<bv8>): (d: seq<bv8>)
    ensures |d| == 16
  {
    QuadBytes(Absorb(INITIAL, Pad(msg)))
  }
}
