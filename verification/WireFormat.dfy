// The Protocol Buffers encoding: varints, int32 values and length-delimited bytes.
module WireFormat {

  type byte = x: int | 0 <= x < 0x100
  type int32 = x: int | -0x8000_0000 <= x < 0x8000_0000

  const TWO32: nat := 0x1_0000_0000
  const TWO64: nat := 0x1_0000_0000_0000_0000
  const INT_MAX: nat := 0x7fff_ffff
  const MAX_VARINT_BYTES: nat := 10

  // ---------- Varints: seven bits a byte, the least significant first ----------

  function Varint(n: nat): (s: seq<byte>)
    ensures |s| >= 1
  {
    if n < 0x80 then [n] else [0x80 + n % 0x80] + Varint(n / 0x80)
  }

  lemma FirstByte(n: nat)
    ensures Varint(n) == if n < 0x80 then [n] else [0x80 + n % 0x80] + Varint(n / 0x80)
  {
  }

  datatype VarintRead = Malformed | Got(value: nat, size: nat)

  // The varint at the start of s, in at most limit bytes.
  function ReadVarint(s: seq<byte>, limit: nat): (r: VarintRead)
    ensures r.Got? ==> 1 <= r.size <= |s| && r.size <= limit
  {
    if |s| == 0 || limit == 0 then Malformed
    else if s[0] < 0x80 then Got(s[0], 1)
    else
      match ReadVarint(s[1..], limit - 1)
      case Malformed => Malformed
      case Got(value, size) => Got(s[0] - 0x80 + 0x80 * value, size + 1)
  }

  // Byte by byte: the first byte decides, and one of 0x80 or more goes on with the next.
  lemma FirstByteRead(s: seq<byte>, limit: nat)
    ensures |s| == 0 || limit == 0 ==> ReadVarint(s, limit) == Malformed
    ensures |s| > 0 && limit > 0 && s[0] < 0x80 ==> ReadVarint(s, limit) == Got(s[0], 1)
    ensures |s| > 0 && limit > 0 && s[0] >= 0x80 ==>
      var r := ReadVarint(s[1..], limit - 1);
      ReadVarint(s, limit) == if r.Got? then Got(s[0] - 0x80 + 0x80 * r.value, r.size + 1) else Malformed
  {
  }

  function Power128(k: nat): (p: nat)
    ensures p >= 1
  {
    if k == 0 then 1 else 0x80 * Power128(k - 1)
  }

  lemma {:induction false} ReadVarintOfVarint(n: nat, limit: nat, rest: seq<byte>)
    requires limit >= 1 && n < Power128(limit)
    ensures ReadVarint(Varint(n) + rest, limit) == Got(n, |Varint(n)|)
  {
    var s := Varint(n) + rest;
    if n >= 0x80 {
      assert s[1..] == Varint(n / 0x80) + rest;
      assert limit - 1 >= 1;
      ReadVarintOfVarint(n / 0x80, limit - 1, rest);
    }
  }

  lemma TenBytesSuffice(n: nat)
    requires n < TWO64
    ensures n < Power128(MAX_VARINT_BYTES)
  {
    assert Power128(10) == 0x80 * (0x80 * (0x80 * (0x80 * (0x80 * Power128(5)))));
    assert Power128(5) == 0x8_0000_0000;
  }

  // The size of a varint of at most 32 bits, by ranges.
  function VarintSize32(n: nat): nat
    requires n < TWO32
  {
    if n < 0x80 then 1 else if n < 0x4000 then 2 else if n < 0x20_0000 then 3 else if n < 0x1000_0000 then 4 else 5
  }

  lemma VarintSizes(n: nat)
    requires n < TWO32
    ensures |Varint(n)| == VarintSize32(n)
  {
    assert n / 0x80 / 0x80 / 0x80 / 0x80 < 0x80;
  }

  // ---------- int32 ----------

  // A negative value is extended to 64 bits.
  function SignExtended(v: int32): (n: nat)
    ensures n < TWO64
  {
    if v < 0 then v + TWO64 else v
  }

  // The low 32 bits as a signed number.
  function Truncated(n: nat): int32 {
    var u := n % TWO32;
    if u >= 0x8000_0000 then u - TWO32 else u
  }

  function Int32Size(v: int32): nat {
    if v < 0 then MAX_VARINT_BYTES else VarintSize32(v)
  }

  lemma TruncatedSignExtended(v: int32)
    ensures Truncated(SignExtended(v)) == v
  {
  }

  // .. which is the only 32-bit number that differs from n by a multiple of 2^32.
  lemma TruncatedIsCongruent(n: nat)
    ensures (n - Truncated(n)) % 0x1_0000_0000 == 0
  {
  }

  // What a reader of 64-bit numbers sees of an int32: ten bytes for a negative value.
  lemma ReadInt32AsLong(v: int32)
    ensures ReadVarint(Varint(SignExtended(v)), 10) ==
      if v < 0 then Got(v + 0x1_0000_0000_0000_0000, 10) else Got(v, VarintSize32(v))
  {
    hide Varint, ReadVarint;
    TenBytesSuffice(SignExtended(v));
    ReadVarintOfVarint(SignExtended(v), 10, []);
    assert Varint(SignExtended(v)) + [] == Varint(SignExtended(v));
    Int32Sizes(v);
  }

  lemma {:induction false} VarintSizeAt(n: nat, k: nat)
    requires k >= 1 && n < Power128(k) && (k >= 2 ==> n >= Power128(k - 1))
    ensures |Varint(n)| == k
  {
    if k >= 2 {
      assert n >= 0x80;
      assert k >= 3 ==> Power128(k - 1) == 0x80 * Power128(k - 2);
      VarintSizeAt(n / 0x80, k - 1);
    }
  }

  lemma Int32Sizes(v: int32)
    ensures |Varint(SignExtended(v))| == Int32Size(v)
  {
    if v < 0 {
      TenBytesSuffice(SignExtended(v));
      assert Power128(9) == 0x80 * (0x80 * (0x80 * (0x80 * Power128(5)))) && Power128(5) == 0x8_0000_0000;
      VarintSizeAt(SignExtended(v), MAX_VARINT_BYTES);
    } else {
      VarintSizes(v);
    }
  }

  // ---------- Fields ----------

  const VARINT: nat := 0
  const LENGTH_DELIMITED: nat := 2

  function Tag(field: nat, wireType: nat): nat { 8 * field + wireType }

  function Int32Field(field: nat, v: int32): seq<byte> {
    Varint(Tag(field, VARINT)) + Varint(SignExtended(v))
  }

  // The length is cast to 32 bits.
  function BytesField(field: nat, d: seq<byte>): seq<byte> {
    Varint(Tag(field, LENGTH_DELIMITED)) + Varint(|d| % TWO32) + d
  }

  // ---------- The primitives on buffers ----------

  // Writes a varint at target[at..].
  method WriteVarint(n: nat, target: array<byte>, at: nat) returns (end: nat)
    requires at + |Varint(n)| <= target.Length
    modifies target
    ensures end == at + |Varint(n)|
    ensures target[..] == old(target[..at]) + Varint(n) + old(target[end..])
    ensures Written(old(target[..]), target[..], at, Varint(n))
  {
    hide Varint;
    var m := n;
    end := at;
    ghost var done: seq<byte> := [];
    while m >= 0x80
      invariant end == at + |done| && done + Varint(m) == Varint(n)
      invariant target[..end] == old(target[..at]) + done
      invariant target[end..] == old(target[end..])
      decreases m
    {
      FirstByte(m);
      ghost var rest := Varint(m / 0x80);
      end := PutByte(0x80 + m % 0x80, target, end);
      assert done + ([0x80 + m % 0x80] + rest) == done + [0x80 + m % 0x80] + rest;
      done := done + [0x80 + m % 0x80];
      m := m / 0x80;
    }
    FirstByte(m);
    end := PutByte(m, target, end);
    WrittenMeans(old(target[..]), target[..], at, Varint(n));
  }

  // The buffer w is v with s written at its position at.
  ghost predicate Written(v: seq<byte>, w: seq<byte>, at: nat, s: seq<byte>) {
    at + |s| <= |v| == |w| && w[..at + |s|] == v[..at] + s && w[at + |s|..] == v[at + |s|..]
  }

  lemma WrittenMeans(v: seq<byte>, w: seq<byte>, at: nat, s: seq<byte>)
    requires Written(v, w, at, s)
    ensures at + |s| <= |v| && w == v[..at] + s + v[at + |s|..]
  {
    assert w == w[..at + |s|] + w[at + |s|..];
  }

  lemma NothingWritten(v: seq<byte>, at: nat)
    requires at <= |v|
    ensures Written(v, v, at, [])
  {
  }

  lemma WrittenBehind(v: seq<byte>, w: seq<byte>, x: seq<byte>, at: nat, s: seq<byte>, t: seq<byte>)
    requires Written(v, w, at, s) && Written(w, x, at + |s|, t)
    ensures Written(v, x, at, s + t)
  {
    var end := at + |s|;
    assert x[..end + |t|] == w[..end] + t == v[..at] + (s + t);
    assert w[end + |t|..] == w[end..][|t|..] == v[end..][|t|..];
  }

  method PutByte(b: byte, target: array<byte>, at: nat) returns (end: nat)
    requires at < target.Length
    modifies target
    ensures end == at + 1
    ensures target[..end] == old(target[..at]) + [b]
    ensures target[end..] == old(target[end..])
  {
    target[at] := b;
    end := at + 1;
  }

  method WriteRaw(s: seq<byte>, target: array<byte>, at: nat) returns (end: nat)
    requires at + |s| <= target.Length
    modifies target
    ensures end == at + |s|
    ensures Written(old(target[..]), target[..], at, s)
  {
    end := at;
    for i := 0 to |s|
      invariant end == at + i
      invariant target[..end] == old(target[..at]) + s[..i]
      invariant target[end..] == old(target[end..])
    {
      end := PutByte(s[i], target, end);
    }
  }

  // Reads a varint at s[from..] and keeps its low 32 bits.
  method ReadVarint32(s: seq<byte>, from: nat) returns (ok: bool, value: nat, next: nat)
    requires from <= |s|
    ensures from <= next <= |s| && value < TWO32
    ensures ok == ReadVarint(s[from..], MAX_VARINT_BYTES).Got?
    ensures ok ==> var r := ReadVarint(s[from..], MAX_VARINT_BYTES); value == r.value % TWO32 && next == from + r.size
  {
    hide ReadVarint, Continued, Scaled;
    var total: nat, unit: nat, count: nat := 0, 1, 0;
    next := from;
    ghost var r := ReadVarint(s[from..], MAX_VARINT_BYTES);
    NothingContinued(r);
    while next < |s| && count < MAX_VARINT_BYTES
      invariant count <= MAX_VARINT_BYTES && next == from + count <= |s|
      invariant r == Continued(total, unit, count, ReadVarint(s[next..], MAX_VARINT_BYTES - count))
      decreases |s| - next
    {
      var b := s[next];
      ContinuedBy(total, unit, count, s[next..], MAX_VARINT_BYTES - count);
      assert s[next..][1..] == s[next + 1..];
      next, count := next + 1, count + 1;
      if b < 0x80 {
        return true, (total + Scaled(unit, b)) % TWO32, next;
      }
      total, unit := total + Scaled(unit, b - 0x80), unit * 0x80;
    }
    Exhausted(total, unit, count, s[next..], MAX_VARINT_BYTES - count);
    return false, 0, next;
  }

  function Scaled(unit: nat, digit: nat): nat { unit * digit }

  // A varint of which the first count bytes make up total, and the next byte counts unit.
  ghost function Continued(total: nat, unit: nat, count: nat, r: VarintRead): VarintRead {
    match r
    case Malformed => Malformed
    case Got(value, size) => Got(total + unit * value, count + size)
  }

  lemma NothingContinued(r: VarintRead)
    ensures Continued(0, 1, 0, r) == r
  {
  }

  lemma ContinuedBy(total: nat, unit: nat, count: nat, s: seq<byte>, limit: nat)
    requires |s| > 0 && limit > 0
    ensures Continued(total, unit, count, ReadVarint(s, limit)) ==
      if s[0] < 0x80 then Got(total + Scaled(unit, s[0]), count + 1)
      else Continued(total + Scaled(unit, s[0] - 0x80), unit * 0x80, count + 1, ReadVarint(s[1..], limit - 1))
  {
    var b := s[0];
    if b >= 0x80 {
      match ReadVarint(s[1..], limit - 1)
      case Malformed =>
      case Got(value, size) =>
        assert unit * (b - 0x80 + 0x80 * value) == unit * (b - 0x80) + unit * 0x80 * value;
    }
  }

  lemma Exhausted(total: nat, unit: nat, count: nat, s: seq<byte>, limit: nat)
    requires |s| == 0 || limit == 0
    ensures Continued(total, unit, count, ReadVarint(s, limit)) == Malformed
  {
  }

  method WriteInt32(field: nat, v: int32, target: array<byte>, at: nat) returns (end: nat)
    requires at + |Int32Field(field, v)| <= target.Length
    modifies target
    ensures end == at + |Int32Field(field, v)|
    ensures Written(old(target[..]), target[..], at, Int32Field(field, v))
  {
    hide Varint, Written;
    ghost var v0 := target[..];
    end := WriteVarint(Tag(field, VARINT), target, at);
    ghost var v1 := target[..];
    end := WriteVarint(SignExtended(v), target, end);
    WrittenBehind(v0, v1, target[..], at, Varint(Tag(field, VARINT)), Varint(SignExtended(v)));
  }

  method WriteBytes(field: nat, d: seq<byte>, target: array<byte>, at: nat) returns (end: nat)
    requires at + |BytesField(field, d)| <= target.Length
    modifies target
    ensures end == at + |BytesField(field, d)|
    ensures Written(old(target[..]), target[..], at, BytesField(field, d))
  {
    hide Varint, Written;
    ghost var tag, length := Varint(Tag(field, LENGTH_DELIMITED)), Varint(|d| % TWO32);
    ghost var v0 := target[..];
    end := WriteVarint(Tag(field, LENGTH_DELIMITED), target, at);
    ghost var v1 := target[..];
    end := WriteVarint(|d| % TWO32, target, end);
    ghost var v2 := target[..];
    WrittenBehind(v0, v1, v2, at, tag, length);
    end := WriteRaw(d, target, end);
    WrittenBehind(v0, v2, target[..], at, tag + length, d);
  }
}
