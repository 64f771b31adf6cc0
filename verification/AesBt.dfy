// The ECB layer over the AES core (common/libtools/AesBt.cpp): whole buffers, and strings
// that travel as Base64 text.
module AesBt {
  import opened AesCore
  import Fips197
  import Md5
  import Rfc1321
  import opened Words
  import opened Rfc4648
  import opened Base64

  // ---------- What the buffer functions compute ----------

  // The length rounded up to whole blocks (AesBt.cpp:62, 88).
  function PaddedLength(n: nat): nat { (n / 16 + if n % 16 != 0 then 1 else 0) * 16 }

  // A last block is filled with zero bytes.
  function PadBlock(d: seq<bv8>): (b: seq<bv8>)
    requires |d| <= 16
    ensures |b| == 16
  {
    d + Zeros(16 - |d|)
  }

  function EcbEncrypt(key: seq<bv8>, d: seq<bv8>): (c: seq<bv8>)
    requires |key| >= 16
    decreases |d|
  {
    if |d| == 0 then []
    else if |d| <= 16 then EncryptBlock(key, 4, PadBlock(d))
    else EncryptBlock(key, 4, d[..16]) + EcbEncrypt(key, d[16..])
  }

  // A rest of less than a block is not decrypted.
  function EcbDecrypt(key: seq<bv8>, c: seq<bv8>): (d: seq<bv8>)
    requires |key| >= 16
    decreases |c|
  {
    if |c| < 16 then [] else DecryptBlock(key, 4, c[..16]) + EcbDecrypt(key, c[16..])
  }

  lemma {:induction false} EcbEncryptLength(key: seq<bv8>, d: seq<bv8>)
    requires |key| >= 16
    ensures |EcbEncrypt(key, d)| == PaddedLength(|d|)
    decreases |d|
  {
    hide EncryptBlock;
    if |d| > 16 {
      EcbEncryptLength(key, d[16..]);
    }
  }

  lemma {:induction false} EcbDecryptLength(key: seq<bv8>, c: seq<bv8>)
    requires |key| >= 16
    ensures |EcbDecrypt(key, c)| == |c| / 16 * 16
    decreases |c|
  {
    hide DecryptBlock;
    if |c| >= 16 {
      EcbDecryptLength(key, c[16..]);
    }
  }

  // Blocks are encrypted one by one: behind n whole blocks the text grows at its end.
  lemma {:induction false} EcbEncryptAppend(key: seq<bv8>, d: seq<bv8>, last: seq<bv8>, n: nat)
    requires |key| >= 16 && |d| == 16 * n && 1 <= |last| <= 16
    ensures |EcbEncrypt(key, d)| == 16 * n
    ensures EcbEncrypt(key, d + last) == EcbEncrypt(key, d) + EncryptBlock(key, 4, PadBlock(last))
    decreases n
  {
    hide EncryptBlock;
    if n == 0 {
      assert d + last == last;
    } else if n == 1 {
      assert (d + last)[..16] == d && (d + last)[16..] == last;
      assert PadBlock(d) == d;
    } else {
      assert (d + last)[..16] == d[..16] && (d + last)[16..] == d[16..] + last;
      EcbEncryptAppend(key, d[16..], last, n - 1);
    }
  }

  lemma {:induction false} EcbDecryptAppend(key: seq<bv8>, c: seq<bv8>, last: seq<bv8>, n: nat)
    requires |key| >= 16 && |c| == 16 * n && |last| == 16
    ensures |EcbDecrypt(key, c)| == 16 * n
    ensures EcbDecrypt(key, c + last) == EcbDecrypt(key, c) + DecryptBlock(key, 4, last)
    decreases n
  {
    hide DecryptBlock;
    if n == 0 {
      assert c + last == last && last[..16] == last && last[16..] == [];
      assert EcbDecrypt(key, last[16..]) == [];
    } else {
      assert (c + last)[..16] == c[..16] && (c + last)[16..] == c[16..] + last;
      EcbDecryptAppend(key, c[16..], last, n - 1);
    }
  }

  // Plain block i, filled up if it is the last one.
  function PlainBlock(d: seq<bv8>, i: nat): (b: seq<bv8>)
    requires 16 * i < |d|
    ensures |b| == 16
  {
    PadBlock(if 16 * i + 16 <= |d| then d[16 * i..16 * i + 16] else d[16 * i..])
  }

  lemma PlainBlockOfRest(d: seq<bv8>, i: nat)
    requires 1 <= i && 16 * i < |d|
    ensures PlainBlock(d, i) == PlainBlock(d[16..], i - 1)
  {
    var rest, at := d[16..], 16 * (i - 1);
    assert rest[at..] == d[at + 16..];
    if at + 16 <= |rest| {
      assert rest[at..at + 16] == d[at + 16..at + 32];
    }
  }

  lemma FirstPlainBlock(d: seq<bv8>)
    requires |d| > 0
    ensures PlainBlock(d, 0) == if |d| <= 16 then PadBlock(d) else d[..16]
  {
    assert d[0..] == d;
    if |d| >= 16 {
      assert d[0..16] == d[..16] && PadBlock(d[..16]) == d[..16];
    }
    if |d| == 16 {
      assert d[..16] == d;
    }
  }

  // Cipher block i depends on plain block i alone.
  lemma {:induction false} EcbBlock(key: seq<bv8>, d: seq<bv8>, i: nat)
    requires |key| >= 16 && 16 * i < |d|
    ensures 16 * i + 16 <= |EcbEncrypt(key, d)|
    ensures EcbEncrypt(key, d)[16 * i..16 * i + 16] == EncryptBlock(key, 4, PlainBlock(d, i))
    decreases i
  {
    hide EncryptBlock, PlainBlock;
    if i == 0 {
      FirstPlainBlock(d);
      assert EcbEncrypt(key, d)[0..16] == EncryptBlock(key, 4, PlainBlock(d, 0));
    } else {
      var rest, at := EcbEncrypt(key, d[16..]), 16 * (i - 1);
      EcbBlock(key, d[16..], i - 1);
      PlainBlockOfRest(d, i);
      SliceOfRest(EncryptBlock(key, 4, d[..16]), rest, at);
    }
  }

  lemma SliceOfRest(c: seq<bv8>, rest: seq<bv8>, at: nat)
    requires |c| == 16 && at + 16 <= |rest|
    ensures (c + rest)[at + 16..at + 32] == rest[at..at + 16]
  {
  }

  // The bytes of a plain block, and the zeros behind the end of the data.
  lemma PlainBlockAt(d: seq<bv8>, i: nat, k: nat)
    requires 16 * i < |d| && k < 16
    ensures PlainBlock(d, i)[k] == if 16 * i + k < |d| then d[16 * i + k] else 0
  {
  }

  function BlockAt(c: seq<bv8>, i: nat): (b: seq<bv8>)
    requires 16 * i + 16 <= |c|
    ensures |b| == 16 && forall k :: 0 <= k < 16 ==> b[k] == c[16 * i + k]
  {
    c[16 * i..16 * i + 16]
  }

  lemma BlockAtRest(first: seq<bv8>, rest: seq<bv8>, i: nat)
    requires |first| == 16 && 16 * i + 16 <= |rest|
    ensures BlockAt(first + rest, i + 1) == BlockAt(rest, i)
  {
  }

  // .. and plain block i of the decryption on cipher block i.
  lemma {:induction false} EcbDecryptBlock(key: seq<bv8>, c: seq<bv8>, i: nat)
    requires |key| >= 16 && 16 * i + 16 <= |c|
    ensures 16 * i + 16 <= |EcbDecrypt(key, c)|
    ensures BlockAt(EcbDecrypt(key, c), i) == DecryptBlock(key, 4, BlockAt(c, i))
    decreases i
  {
    hide DecryptBlock, BlockAt;
    EcbDecryptUnfolds(key, c);
    if i == 0 {
      FirstBlock(c[..16], c[16..]);
      FirstBlock(DecryptBlock(key, 4, c[..16]), EcbDecrypt(key, c[16..]));
    } else {
      EcbDecryptBlock(key, c[16..], i - 1);
      BlockAtRest(c[..16], c[16..], i - 1);
      BlockAtRest(DecryptBlock(key, 4, c[..16]), EcbDecrypt(key, c[16..]), i - 1);
    }
  }

  lemma EcbDecryptUnfolds(key: seq<bv8>, c: seq<bv8>)
    requires |key| >= 16 && |c| >= 16
    ensures EcbDecrypt(key, c) == DecryptBlock(key, 4, c[..16]) + EcbDecrypt(key, c[16..]) && c == c[..16] + c[16..]
  {
    hide DecryptBlock;
  }

  lemma FirstBlock(first: seq<bv8>, rest: seq<bv8>)
    requires |first| == 16
    ensures BlockAt(first + rest, 0) == first
  {
  }

  // Decryption returns the data and its zero padding.
  lemma {:induction false} EcbDecryptEcbEncrypt(key: seq<bv8>, d: seq<bv8>)
    requires |key| >= 16
    ensures |d| <= PaddedLength(|d|)
    ensures EcbDecrypt(key, EcbEncrypt(key, d)) == d + Zeros(PaddedLength(|d|) - |d|)
    decreases |d|
  {
    hide EncryptBlock, DecryptBlock;
    if |d| == 0 {
      assert d + Zeros(0) == [];
    } else if |d| <= 16 {
      var c := EncryptBlock(key, 4, PadBlock(d));
      DecryptBlockEncryptBlock(key, 4, PadBlock(d));
      assert c[..16] == c && c[16..] == [];
      assert EcbDecrypt(key, c[16..]) == [];
    } else {
      var c, rest := EncryptBlock(key, 4, d[..16]), EcbEncrypt(key, d[16..]);
      DecryptBlockEncryptBlock(key, 4, d[..16]);
      EcbDecryptEcbEncrypt(key, d[16..]);
      assert (c + rest)[..16] == c && (c + rest)[16..] == rest;
      assert PaddedLength(|d|) == 16 + PaddedLength(|d| - 16);
      assert d[..16] + d[16..] == d;
    }
  }

  // ---------- The buffer functions ----------

  lemma LoadBlockOfSlice(buf: seq<bv8>, at: nat)
    requires at + 16 <= |buf|
    ensures LoadBlock(buf, at) == LoadBlock(buf[at..at + 16], 0)
  {
    hide Word;
  }

  // One block of the encryption loop.
  method EncryptAt(input: array<bv8>, inAt: nat, output: array<bv8>, outAt: nat, aesKey: AesKey, ghost key: seq<bv8>)
    requires |key| >= 16 && HoldsSchedule(aesKey, Fips197.KeyExpansion(key, 4), 4)
    requires inAt + 16 <= input.Length && outAt + 16 <= output.Length
    modifies output
    ensures output[..] == old(output[..outAt]) + EncryptBlock(key, 4, old(input[inAt..inAt + 16])) + old(output[outAt + 16..])
  {
    hide LoadBlock, BlockBytes, Fips197.Cipher, Fips197.KeyExpansion;
    LoadBlockOfSlice(input[..], inAt);
    assert input[..][inAt..inAt + 16] == input[inAt..inAt + 16];
    assert Schedule(aesKey) == Fips197.KeyExpansion(key, 4);
    Encrypt(input, inAt, output, outAt, aesKey);
  }

  // AES_ecb128_encrypt on buffers (lines 21-42). input and output may be the same buffer.
  method EncryptEcb128(input: array<bv8>, length: nat, output: array<bv8>, key: array<bv8>)
    requires length <= input.Length && PaddedLength(length) <= output.Length && key.Length >= 16
    modifies output
    ensures output[..] == EcbEncrypt(old(key[..]), old(input[..length])) + old(output[PaddedLength(length)..])
  {
    hide EcbEncrypt, EncryptBlock, PaddedLength, Fips197.KeyExpansion;
    var aesKey := new AesKey();
    var _ := SetEncryptKey(key, 128, aesKey);
    ghost var k, d, v := key[..], input[..length], output[..];
    ghost var whole := input[..];
    var round := length / 16;
    LengthInBlocks(length);
    assert input[..16 * round] == d[..16 * round];
    EncryptBlocks(input, round, output, aesKey, k);
    var left := length % 16;
    if left != 0 {
      var k0 := 16 * round;
      SameSlice(input[..], whole, k0, left);
      assert whole[k0..k0 + left] == d[k0..];
      var buf := LastBlock(input, k0, left);
      assert buf[0..16] == buf[..];
      ghost var before := output[..];
      EncryptAt(buf, 0, output, k0, aesKey, k);
      SplitAt(d, k0);
      BlockAppended(k, v, before, output[..], d[..k0], d[k0..], round, k0);
    } else {
      assert d[..length] == d;
    }
  }

  // The buffer of the last block (lines 38-39).
  method LastBlock(input: array<bv8>, from: nat, left: nat) returns (buf: array<bv8>)
    requires 0 < left < 16 && from + left <= input.Length
    ensures fresh(buf) && buf.Length == 16 && buf[..] == PadBlock(input[from..from + left])
  {
    buf := new bv8[16](_ => 0);
    forall j | 0 <= j < left {
      buf[j] := input[from + j];
    }
  }

  lemma SplitAt(d: seq<bv8>, k: nat)
    requires k <= |d|
    ensures d[..k] + d[k..] == d
  {
  }

  lemma SameSlice(u: seq<bv8>, v: seq<bv8>, at: nat, n: nat)
    requires at + n <= |u| && at + n <= |v| && u[at..] == v[at..]
    ensures u[at..at + n] == v[at..at + n]
  {
    assert u[at..][..n] == u[at..at + n] && v[at..][..n] == v[at..at + n];
  }

  lemma LengthInBlocks(n: nat)
    ensures PaddedLength(n) == if n % 16 == 0 then 16 * (n / 16) else 16 * (n / 16) + 16
  {
  }

  // The loop at lines 28-33.
  method EncryptBlocks(input: array<bv8>, round: nat, output: array<bv8>, aesKey: AesKey, ghost key: seq<bv8>)
    requires |key| >= 16 && HoldsSchedule(aesKey, Fips197.KeyExpansion(key, 4), 4)
    requires 16 * round <= input.Length && 16 * round <= output.Length
    modifies output
    ensures output[..] == EcbEncrypt(key, old(input[..16 * round])) + old(output[16 * round..])
    ensures input[16 * round..] == old(input[16 * round..])
  {
    hide EcbEncrypt, EncryptBlock, Fips197.KeyExpansion, HoldsSchedule;
    ghost var d, v := input[..], output[..];
    EncryptNothing(key);
    var at := 0;
    for i := 0 to round
      invariant at == 16 * i
      invariant HoldsSchedule(aesKey, Fips197.KeyExpansion(key, 4), 4)
      invariant input[at..] == d[at..]
      invariant output[..] == EcbEncrypt(key, d[..at]) + v[at..]
    {
      ghost var before := output[..];
      SameSlice(input[..], d, at, 16);
      EncryptAt(input, at, output, at, aesKey, key);
      assert PadBlock(d[at..at + 16]) == d[at..at + 16];
      BlockAppended(key, v, before, output[..], d[..at], d[at..at + 16], i, at);
      assert d[..at] + d[at..at + 16] == d[..at + 16];
      at := at + 16;
    }
  }

  lemma EncryptNothing(key: seq<bv8>)
    requires |key| >= 16
    ensures EcbEncrypt(key, []) == []
  {
  }

  // Writing a block behind the text e, in a buffer that held v0.
  lemma WrittenBehind(v0: seq<bv8>, v: seq<bv8>, w: seq<bv8>, e: seq<bv8>, b: seq<bv8>, at: nat)
    requires |e| == at && |b| == 16 && at + 16 <= |v0| == |v|
    requires v == e + v0[at..]
    requires w == v[..at] + b + v[at + 16..]
    ensures w == (e + b) + v0[at + 16..]
  {
    assert v[..at] == e;
    assert v[at + 16..] == v0[at + 16..];
  }

  lemma BlockAppended(key: seq<bv8>, v0: seq<bv8>, v: seq<bv8>, w: seq<bv8>, d: seq<bv8>, last: seq<bv8>, n: nat, at: nat)
    requires |key| >= 16 && |d| == at == 16 * n && 1 <= |last| <= 16 && at + 16 <= |v0| == |v|
    requires v == EcbEncrypt(key, d) + v0[at..]
    requires w == v[..at] + EncryptBlock(key, 4, PadBlock(last)) + v[at + 16..]
    ensures w == EcbEncrypt(key, d + last) + v0[at + 16..]
  {
    hide EcbEncrypt, EncryptBlock, PadBlock;
    EcbEncryptAppend(key, d, last, n);
    WrittenBehind(v0, v, w, EcbEncrypt(key, d), EncryptBlock(key, 4, PadBlock(last)), at);
  }

  lemma BlockDecrypted(key: seq<bv8>, v0: seq<bv8>, v: seq<bv8>, w: seq<bv8>, c: seq<bv8>, last: seq<bv8>, n: nat, at: nat)
    requires |key| >= 16 && |c| == at == 16 * n && |last| == 16 && at + 16 <= |v0| == |v|
    requires v == EcbDecrypt(key, c) + v0[at..]
    requires w == v[..at] + DecryptBlock(key, 4, last) + v[at + 16..]
    ensures w == EcbDecrypt(key, c + last) + v0[at + 16..]
  {
    hide EcbDecrypt, DecryptBlock;
    EcbDecryptAppend(key, c, last, n);
    WrittenBehind(v0, v, w, EcbDecrypt(key, c), DecryptBlock(key, 4, last), at);
  }

  // One block of the decryption loop.
  method DecryptAt(input: array<bv8>, inAt: nat, output: array<bv8>, outAt: nat, aesKey: AesKey, ghost key: seq<bv8>)
    requires |key| >= 16
    requires HoldsSchedule(aesKey, Fips197.DecryptionSchedule(Fips197.KeyExpansion(key, 4), 10), 4)
    requires inAt + 16 <= input.Length && outAt + 16 <= output.Length
    modifies output
    ensures output[..] == old(output[..outAt]) + DecryptBlock(key, 4, old(input[inAt..inAt + 16])) + old(output[outAt + 16..])
  {
    hide LoadBlock, BlockBytes, Fips197.EqInvCipher, Fips197.KeyExpansion, Fips197.DecryptionSchedule;
    LoadBlockOfSlice(input[..], inAt);
    assert input[..][inAt..inAt + 16] == input[inAt..inAt + 16];
    assert Schedule(aesKey) == Fips197.DecryptionSchedule(Fips197.KeyExpansion(key, 4), 10);
    Decrypt(input, inAt, output, outAt, aesKey);
  }

  // AES_ecb128_decrypt on buffers (lines 44-57). A rest of less than a block is left alone.
  method DecryptEcb128(input: array<bv8>, length: nat, output: array<bv8>, key: array<bv8>)
    requires length <= input.Length && length / 16 * 16 <= output.Length && key.Length >= 16
    modifies output
    ensures output[..] == EcbDecrypt(old(key[..]), old(input[..length])) + old(output[length / 16 * 16..])
  {
    hide EcbDecrypt, DecryptBlock, Fips197.KeyExpansion, Fips197.DecryptionSchedule;
    var aesKey := new AesKey();
    var _ := SetDecryptKey(key, 128, aesKey);
    ghost var k, d := key[..], input[..length];
    var round := length / 16;
    assert input[..16 * round] == d[..16 * round];
    DecryptBlocks(input, round, output, aesKey, k);
    EcbDecryptRest(k, d[..16 * round], d[16 * round..], round);
    assert d[..16 * round] + d[16 * round..] == d;
  }

  // The loop at lines 51-56.
  method DecryptBlocks(input: array<bv8>, round: nat, output: array<bv8>, aesKey: AesKey, ghost key: seq<bv8>)
    requires |key| >= 16
    requires HoldsSchedule(aesKey, Fips197.DecryptionSchedule(Fips197.KeyExpansion(key, 4), 10), 4)
    requires 16 * round <= input.Length && 16 * round <= output.Length
    modifies output
    ensures output[..] == EcbDecrypt(key, old(input[..16 * round])) + old(output[16 * round..])
  {
    hide EcbDecrypt, DecryptBlock, Fips197.KeyExpansion, Fips197.DecryptionSchedule, HoldsSchedule;
    ghost var d, v := input[..], output[..];
    DecryptNothing(key);
    var at := 0;
    for i := 0 to round
      invariant at == 16 * i
      invariant HoldsSchedule(aesKey, Fips197.DecryptionSchedule(Fips197.KeyExpansion(key, 4), 10), 4)
      invariant input[at..] == d[at..]
      invariant output[..] == EcbDecrypt(key, d[..at]) + v[at..]
    {
      ghost var before := output[..];
      SameSlice(input[..], d, at, 16);
      DecryptAt(input, at, output, at, aesKey, key);
      BlockDecrypted(key, v, before, output[..], d[..at], d[at..at + 16], i, at);
      assert d[..at] + d[at..at + 16] == d[..at + 16];
      at := at + 16;
    }
  }

  lemma DecryptNothing(key: seq<bv8>)
    requires |key| >= 16
    ensures EcbDecrypt(key, []) == []
  {
  }

  lemma {:induction false} EcbDecryptRest(key: seq<bv8>, c: seq<bv8>, rest: seq<bv8>, n: nat)
    requires |key| >= 16 && |c| == 16 * n && |rest| < 16
    ensures EcbDecrypt(key, c + rest) == EcbDecrypt(key, c)
    decreases n
  {
    hide DecryptBlock;
    if n > 0 {
      assert (c + rest)[..16] == c[..16] && (c + rest)[16..] == c[16..] + rest;
      EcbDecryptRest(key, c[16..], rest, n - 1);
    }
  }

  // ---------- The string functions ----------

  // get_key (lines 15-19): the first 16 of the 32 hexadecimal digits of the seed's digest.
  function KeyText(seed: seq<bv8>): (key: seq<bv8>)
    ensures |key| == 16
  {
    Md5.Hex(Rfc1321.Digest(seed[..|seed| % Md5.WORD]))[..16]
  }

  lemma KeyTextAt(seed: seq<bv8>, i: nat)
    requires i < 8
    ensures var digest := Rfc1321.Digest(seed[..|seed| % 0x1_0000_0000]);
      && KeyText(seed)[2 * i] as int == "0123456789abcdef"[(digest[i] >> 4) as int] as int
      && KeyText(seed)[2 * i + 1] as int == "0123456789abcdef"[(digest[i] & 0x0f) as int] as int
  {
    hide Rfc1321.Digest, Md5.Hex;
    Md5.HexAt(Rfc1321.Digest(seed[..|seed| % 0x1_0000_0000]), i);
  }

  method GetKey(seed: seq<bv8>) returns (key: array<bv8>)
    ensures fresh(key) && key[..] == KeyText(seed)
  {
    hide Md5.Hex, Rfc1321.Digest;
    var data := new bv8[|seed|](k requires 0 <= k < |seed| => seed[k]);
    assert data[..] == seed;
    var text := Md5.Digest32(data, |seed|);
    assert data[..|seed| % Md5.WORD] == seed[..|seed| % Md5.WORD];
    key := new bv8[16](k requires 0 <= k < 16 => text[k]);
    assert key[..] == text[..16];
  }

  // The text that the string encryption returns, and the string that decryption returns
  // for a text of whole blocks.
  function EncryptText(s: seq<bv8>, seed: seq<bv8>): seq<bv8> {
    Encode(EcbEncrypt(KeyText(seed), s))
  }

  function DecryptText(text: seq<bv8>, seed: seq<bv8>): seq<bv8>
    requires |text| % 4 == 0
  {
    UpToNul(EcbDecrypt(KeyText(seed), Decode(text)) + [0])
  }

  // The text is the Base64 text of one cipher block for each plain block, and of no more.
  lemma EncryptTextBlock(s: seq<bv8>, seed: seq<bv8>, i: nat)
    ensures |EncryptText(s, seed)| % 4 == 0 && Canonical(EncryptText(s, seed))
    ensures |Decode(EncryptText(s, seed))| == 16 * (|s| / 16) + if |s| % 16 == 0 then 0 else 16
    ensures 16 * i < |s| ==> 16 * i + 16 <= |Decode(EncryptText(s, seed))|
    ensures 16 * i < |s| ==> BlockAt(Decode(EncryptText(s, seed)), i) == EncryptBlock(KeyText(seed), 4, PlainBlock(s, i))
  {
    hide EcbEncrypt, EncryptBlock, KeyText, Encode, Decode, Canonical, PlainBlock, PaddedLength;
    DecodeEncode(EcbEncrypt(KeyText(seed), s));
    EcbEncryptLength(KeyText(seed), s);
    LengthInBlocks(|s|);
    if 16 * i < |s| {
      EcbBlock(KeyText(seed), s, i);
    }
  }

  // For a text of whole blocks: the decrypted blocks, up to the first NUL.
  lemma DecryptTextBlocks(text: seq<bv8>, seed: seq<bv8>, d: seq<bv8>)
    requires |text| % 4 == 0 && |d| == |Decode(text)| && |d| % 16 == 0
    requires forall i: nat :: 16 * i + 16 <= |d| ==>
      BlockAt(d, i) == DecryptBlock(KeyText(seed), 4, BlockAt(Decode(text), i))
    ensures DecryptText(text, seed) == UpToNul(d + [0])
  {
    hide EcbDecrypt, DecryptBlock, KeyText, Decode, UpToNul;
    var key, c := KeyText(seed), Decode(text);
    EcbDecryptLength(key, c);
    forall k | 0 <= k < |d|
      ensures EcbDecrypt(key, c)[k] == d[k]
    {
      var i := k / 16;
      EcbDecryptBlock(key, c, i);
      assert BlockAt(d, i)[k % 16] == d[k];
      assert BlockAt(EcbDecrypt(key, c), i)[k % 16] == EcbDecrypt(key, c)[k];
    }
    assert EcbDecrypt(key, c) == d;
  }

  // AES_ecb128_encrypt on strings (lines 85-94).
  method EncryptString(s: seq<bv8>, keySeed: seq<bv8>) returns (text: seq<bv8>)
    ensures text == EncryptText(s, keySeed)
  {
    hide EcbEncrypt, KeyText, Encode, PaddedLength;
    var key := GetKey(keySeed);
    var encodeLength := ((|s| / 16) + (if |s| % 16 != 0 then 1 else 0)) * 16;
    assert encodeLength == PaddedLength(|s|) by { LengthInBlocks(|s|); }
    var input := new bv8[|s|](k requires 0 <= k < |s| => s[k]);
    assert input[..|s|] == s;
    var buffer := new bv8[encodeLength];
    EncryptEcb128(input, |s|, buffer, key);
    EcbEncryptLength(KeyText(keySeed), s);
    assert buffer[..encodeLength] == EcbEncrypt(KeyText(keySeed), s);
    text := EncodeString(buffer, encodeLength);
  }

  // AES_ecb128_decrypt on strings (lines 96-109). The text is passed on as a C string. Of
  // other texts nothing is promised: the result then depends on bytes that were never written.
  method DecryptString(text: seq<bv8>, keySeed: seq<bv8>) returns (s: seq<bv8>)
    ensures WellFormed(text) && |text| % 4 == 0 && |Decode(text)| % 16 == 0 ==> s == DecryptText(text, keySeed)
    ensures 0 !in s
  {
    hide EcbDecrypt, KeyText, Decode, WellFormed, UpToNul;
    var key := GetKey(keySeed);
    NoNulInWellFormed(text);
    var decoded, length := DecodeString(UpToNul(text), 0);
    var binIn: array<bv8>;
    if decoded == null {
      binIn := new bv8[0];
    } else {
      binIn := decoded;
    }
    DecodedEmpty();
    var binOut := new bv8[length + 1];
    DecryptEcb128(binIn, length, binOut, key);
    binOut[length] := 0;
    if WellFormed(text) && |text| % 4 == 0 && |Decode(text)| % 16 == 0 {
      EcbDecryptLength(KeyText(keySeed), Decode(text));
      assert binOut[..] == EcbDecrypt(KeyText(keySeed), Decode(text)) + [0];
    }
    s := CString(binOut);
  }

  lemma {:induction false} NoNulInWellFormed(text: seq<bv8>)
    ensures WellFormed(text) ==> UpToNul(text) == text
    decreases |text|
  {
    hide IsUnit;
    if |text| == 0 {
    } else if |text| >= 4 && WellFormed(text) {
      var u, rest := text[..4], text[4..];
      assert |text| == 4 ==> u == text;
      NoNulInUnitText(u);
      NoNulInWellFormed(rest);
      assert text == u + rest && UpToNul(rest) == rest;
      UpToNulAppend(text, []);
      assert text + [] == text;
    }
  }

  lemma NoNulInUnitText(u: seq<bv8>)
    requires IsUnit(u)
    ensures 0 !in u
  {
  }

  lemma DecodedEmpty()
    ensures Decode([]) == []
  {
  }

  // ---------- The string round trip ----------

  lemma {:induction false} UpToNulPadded(s: seq<bv8>, z: seq<bv8>)
    requires |z| > 0 && z[0] == 0
    ensures UpToNul(s + z) == UpToNul(s)
    decreases |s|
  {
    if |s| == 0 {
      assert s + z == z;
    } else if s[0] != 0 {
      assert (s + z)[1..] == s[1..] + z;
      UpToNulPadded(s[1..], z);
    }
  }

  // For every string and every seed, decryption returns the string up to its first NUL ..
  lemma StringRoundTrip(s: seq<bv8>, seed: seq<bv8>)
    ensures var text := EncryptText(s, seed);
      && Canonical(text) && |text| % 4 == 0 && |Decode(text)| % 16 == 0
      && DecryptText(text, seed) == UpToNul(s)
  {
    hide EcbEncrypt, EcbDecrypt, KeyText, Encode, Decode, Canonical, UpToNul, PaddedLength;
    var key := KeyText(seed);
    var c := EcbEncrypt(key, s);
    DecodeEncode(c);
    EcbEncryptLength(key, s);
    WholeBlocks(|s|);
    EcbDecryptEcbEncrypt(key, s);
    var zeros := Zeros(PaddedLength(|s|) - |s|);
    assert s + zeros + [0] == s + (zeros + [0]);
    UpToNulPadded(s, zeros + [0]);
  }

  // .. which is the string itself when it has none.
  lemma StringRoundTripWithoutNul(s: seq<bv8>, seed: seq<bv8>)
    requires 0 !in s
    ensures var text := EncryptText(s, seed);
      |text| % 4 == 0 && DecryptText(text, seed) == s
  {
    hide EncryptText, DecryptText, UpToNul, Decode, Canonical;
    StringRoundTrip(s, seed);
    UpToNulAppend(s, []);
    assert s + [] == s;
  }

  lemma WholeBlocks(n: nat)
    ensures PaddedLength(n) % 16 == 0
  {
  }

  // What a server that decrypts a token (server/gamesvr/PlayerManager.cpp:75) gets out of it.
  method EncryptThenDecrypt(s: seq<bv8>, keySeed: seq<bv8>) returns (r: seq<bv8>)
    ensures r == UpToNul(s)
  {
    hide EncryptText, DecryptText, UpToNul, Decode, WellFormed;
    StringRoundTrip(s, keySeed);
    var text := EncryptString(s, keySeed);
    r := DecryptString(text, keySeed);
  }
}
