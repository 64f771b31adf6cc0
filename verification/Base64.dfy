// The unit-based Base64 codec (common/libtools/Base64.cpp:190-362): buffers in, buffers
// out, three bytes or four characters at a time.
module Base64 {
  import opened Words
  import opened Rfc4648

  // BASE64_TAB (lines 197-198) as character codes, with the terminator that strchr sees.
  function Table(i: bv8): bv8
  {
    if i >= 64 then 0
    else if i < 16 then Byte3(Select16(i, 0x41, 0x42, 0x43, 0x44, 0x45, 0x46, 0x47, 0x48, 0x49, 0x4a, 0x4b, 0x4c, 0x4d, 0x4e, 0x4f, 0x50)) // A .. P
    else if i < 32 then Byte3(Select16(i, 0x51, 0x52, 0x53, 0x54, 0x55, 0x56, 0x57, 0x58, 0x59, 0x5a, 0x61, 0x62, 0x63, 0x64, 0x65, 0x66)) // Q .. f
    else if i < 48 then Byte3(Select16(i, 0x67, 0x68, 0x69, 0x6a, 0x6b, 0x6c, 0x6d, 0x6e, 0x6f, 0x70, 0x71, 0x72, 0x73, 0x74, 0x75, 0x76)) // g .. v
    else Byte3(Select16(i, 0x77, 0x78, 0x79, 0x7a, 0x30, 0x31, 0x32, 0x33, 0x34, 0x35, 0x36, 0x37, 0x38, 0x39, 0x2b, 0x2f)) // w .. /
  }

  lemma TableIsDigit(i: bv8)
    requires i < 64
    ensures Table(i) == Digit(i)
  {
  }

  lemma TableIsInjective(i: bv8, j: bv8)
    requires i <= 64 && j <= 64 && Table(i) == Table(j)
    ensures i == j
  {
    hide Table, Digit, Value;
    if i < 64 {
      TableIsDigit(i);
      DigitFacts(i);
      DigitIsNotNul(i);
    }
    if j < 64 {
      TableIsDigit(j);
      DigitFacts(j);
      DigitIsNotNul(j);
    }
    assert Table(64) == 0 by { TableEnds(); }
  }

  lemma TableEnds()
    ensures Table(64) == 0
  {
  }

  lemma DigitIsNotNul(v: bv8)
    requires v < 64
    ensures Digit(v) != 0
  {
  }

  // ---------- The bits of a unit ----------

  lemma SextetsOfBytes(b0: bv8, b1: bv8, b2: bv8)
    ensures b0 >> 2 == Sextet0(Group(b0, b1, b2))
    ensures ((b0 << 4) & 0x3f) | (b1 >> 4) == Sextet1(Group(b0, b1, b2))
    ensures ((b1 << 2) & 0x3f) | (b2 >> 6) == Sextet2(Group(b0, b1, b2))
    ensures b2 & 0x3f == Sextet3(Group(b0, b1, b2))
  {
  }

  // ---------- Encoding ----------

  // Unit_Code (lines 201-208).
  method UnitCode(src: array<bv8>, from: nat, dst: array<bv8>, to: nat)
    requires from + 3 <= src.Length && to + 4 <= dst.Length && src != dst
    modifies dst
    ensures dst[..] == old(dst[..to]) + EncodeUnit(src[from..from + 3]) + old(dst[to + 4..])
  {
    hide Table, Digit, Group, Sextet0, Sextet1, Sextet2, Sextet3;
    var b0, b1, b2 := src[from], src[from + 1], src[from + 2];
    SextetsOfBytes(b0, b1, b2);
    TableIsDigit(b0 >> 2);
    TableIsDigit(((b0 << 4) & 0x3f) | (b1 >> 4));
    TableIsDigit(((b1 << 2) & 0x3f) | (b2 >> 6));
    TableIsDigit(b2 & 0x3f);
    dst[to] := Table(b0 >> 2);
    dst[to + 1] := Table(((b0 << 4) & 0x3f) | (b1 >> 4));
    dst[to + 2] := Table(((b1 << 2) & 0x3f) | (b2 >> 6));
    dst[to + 3] := Table(b2 & 0x3f);
  }

  // Fill_Code (lines 211-236): one or two bytes left.
  method FillCode(src: array<bv8>, from: nat, dst: array<bv8>, to: nat, left: nat)
    requires 1 <= left <= 2 && from + left <= src.Length && to + 4 <= dst.Length && src != dst
    modifies dst
    ensures dst[..] == old(dst[..to]) + EncodeUnit(src[from..from + left]) + old(dst[to + 4..])
  {
    hide Table, EncodeUnit;
    var fill := 3 - left;
    var f0 := src[from];
    if fill == 1 {
      var f1 := src[from + 1];
      FillOne(f0, f1);
      assert src[from..from + left] == [f0, f1];
      dst[to] := Table(f0 >> 2);
      dst[to + 1] := Table(((f0 << 4) & 0x3f) | (f1 >> 4));
      dst[to + 2] := Table(((f1 << 2) & 0x3f) | (0 >> 6));
      dst[to + 3] := PAD;
    } else {
      FillTwo(f0);
      assert src[from..from + left] == [f0];
      dst[to] := Table(f0 >> 2);
      dst[to + 1] := Table(((f0 << 4) & 0x3f) | (0 >> 4));
      dst[to + 2] := PAD;
      dst[to + 3] := PAD;
    }
  }

  lemma FillOne(f0: bv8, f1: bv8)
    ensures EncodeUnit([f0, f1]) == [Table(f0 >> 2), Table(((f0 << 4) & 0x3f) | (f1 >> 4)),
                                     Table(((f1 << 2) & 0x3f) | (0 >> 6)), PAD]
  {
    hide Table, Digit, Group, Sextet0, Sextet1, Sextet2, Sextet3;
    SextetsOfBytes(f0, f1, 0);
    TableIsDigit(f0 >> 2);
    TableIsDigit(((f0 << 4) & 0x3f) | (f1 >> 4));
    TableIsDigit(((f1 << 2) & 0x3f) | (0 >> 6));
  }

  lemma FillTwo(f0: bv8)
    ensures EncodeUnit([f0]) == [Table(f0 >> 2), Table(((f0 << 4) & 0x3f) | (0 >> 4)), PAD, PAD]
  {
    hide Table, Digit, Group, Sextet0, Sextet1, Sextet2, Sextet3;
    SextetsOfBytes(f0, 0, 0);
    TableIsDigit(f0 >> 2);
    TableIsDigit(((f0 << 4) & 0x3f) | (0 >> 4));
  }

  function EncodedLength(n: nat): nat { (n / 3 + if n % 3 != 0 then 1 else 0) * 4 }

  // Base64Encode on buffers (lines 294-317). Only the first EncodedLength bytes of dest change.
  method EncodeBuffer(src: array<bv8>, srcLength: nat, dest: array<bv8>) returns (encodeLength: nat)
    requires srcLength <= src.Length && EncodedLength(srcLength) <= dest.Length && src != dest
    modifies dest
    ensures encodeLength == EncodedLength(srcLength)
    ensures dest[..] == Encode(src[..srcLength]) + old(dest[encodeLength..])
  {
    hide Encode, EncodeUnit;
    var left := srcLength % 3;
    var unitCount := srcLength / 3;
    encodeLength := (srcLength / 3 + if srcLength % 3 != 0 then 1 else 0) * 4;
    ghost var v0 := dest[..];
    var from, to := EncodeUnits(src, unitCount, dest);
    if left == 0 {
      return;
    }
    ghost var before := dest[..];
    FillCode(src, from, dest, to, left);
    assert src[..from] + src[from..from + left] == src[..srcLength];
    UnitAppended(v0, before, dest[..], src[..from], src[from..from + left], unitCount, to);
  }

  // The loop at lines 303-308: whole units only.
  method EncodeUnits(src: array<bv8>, unitCount: nat, dest: array<bv8>) returns (from: nat, to: nat)
    requires 3 * unitCount <= src.Length && 4 * unitCount <= dest.Length && src != dest
    modifies dest
    ensures from == 3 * unitCount && to == 4 * unitCount
    ensures dest[..] == Encode(src[..from]) + old(dest[to..])
  {
    hide Encode, EncodeUnit;
    from, to := 0, 0;
    EncodeNothing();
    ghost var d, v0 := src[..], dest[..];
    for i := 0 to unitCount
      invariant from == 3 * i && to == 4 * i
      invariant src[..] == d
      invariant dest[..] == Encode(d[..from]) + v0[to..]
    {
      ghost var before := dest[..];
      assert src[from..from + 3] == d[from..from + 3];
      UnitCode(src, from, dest, to);
      UnitAppended(v0, before, dest[..], d[..from], d[from..from + 3], i, to);
      assert d[..from] + d[from..from + 3] == d[..from + 3];
      from, to := from + 3, to + 4;
    }
    assert src[..from] == d[..from];
  }

  // Writing the unit of the next bytes behind the text of d, in a buffer that held v0.
  lemma UnitAppended(v0: seq<bv8>, v: seq<bv8>, w: seq<bv8>, d: seq<bv8>, last: seq<bv8>, n: nat, to: nat)
    requires |d| == 3 * n && 1 <= |last| <= 3 && to == 4 * n && to + 4 <= |v0|
    requires v == Encode(d) + v0[to..]
    requires w == v[..to] + EncodeUnit(last) + v[to + 4..]
    ensures w == Encode(d + last) + v0[to + 4..]
  {
    hide Encode, EncodeUnit;
    EncodeAppend(d, last);
    assert (|d| + 2) / 3 == n;
    assert v[..to] == Encode(d);
    assert v[to + 4..] == v0[to + 4..];
  }

  lemma EncodeNothing()
    ensures Encode([]) == []
  {
  }

  // A text grows by one unit at a time.
  lemma {:induction false} EncodeAppend(d: seq<bv8>, last: seq<bv8>)
    requires |d| % 3 == 0 && 1 <= |last| <= 3
    ensures Encode(d + last) == Encode(d) + EncodeUnit(last)
    decreases |d|
  {
    hide EncodeUnit;
    if |d| == 0 {
      assert d + last == last;
    } else if |d| == 3 {
      assert (d + last)[..3] == d && (d + last)[3..] == last;
    } else {
      assert (d + last)[..3] == d[..3] && (d + last)[3..] == d[3..] + last;
      EncodeAppend(d[3..], last);
    }
  }

  // ---------- Decoding ----------

  // Base64ChPos (lines 240-244): the position that strchr finds. For a character outside
  // the table strchr returns a null pointer, and the result means nothing.
  method CharPosition(ch: bv8) returns (pos: bv8)
    ensures IsDigit(ch) ==> pos == Value(ch)
  {
    hide Table, Digit, Value, IsDigit;
    var i: bv8 := 0;
    while i <= 64
      invariant i <= 65
      invariant forall j: bv8 :: j < i ==> Table(j) != ch
      decreases 65 - i
    {
      if Table(i) == ch {
        PositionIsValue(i, ch);
        return i;
      }
      i := i + 1;
    }
    NotInTable(ch);
    pos := *;
  }

  lemma NotInTable(ch: bv8)
    requires forall j: bv8 :: j <= 64 ==> Table(j) != ch
    ensures !IsDigit(ch)
  {
    hide Table, Digit, Value, IsDigit;
    if IsDigit(ch) {
      DigitOfValue(ch);
      TableIsDigit(Value(ch));
    }
  }

  lemma PositionIsValue(i: bv8, ch: bv8)
    requires i <= 64 && Table(i) == ch
    ensures IsDigit(ch) ==> i == Value(ch)
  {
    hide Table, Digit, Value, IsDigit;
    if IsDigit(ch) {
      DigitOfValue(ch);
      TableIsDigit(Value(ch));
      TableIsInjective(i, Value(ch));
    }
  }

  // The three bytes that four sextets make up (lines 258-260).
  function Join0(c0: bv8, c1: bv8): bv8 { (c0 << 2) | (c1 >> 4) }
  function Join1(c1: bv8, c2: bv8): bv8 { (c1 << 4) | (c2 >> 2) }
  function Join2(c2: bv8, c3: bv8): bv8 { (c2 << 6) | c3 }

  lemma BytesOfSextets(c0: bv8, c1: bv8, c2: bv8, c3: bv8)
    requires c0 < 64 && c1 < 64 && c2 < 64 && c3 < 64
    ensures Join0(c0, c1) == Octet0(Ungroup(c0, c1, c2, c3))
    ensures Join1(c1, c2) == Octet1(Ungroup(c0, c1, c2, c3))
    ensures Join2(c2, c3) == Octet2(Ungroup(c0, c1, c2, c3))
  {
  }

  // Unit_Decode (lines 247-281): three, one or two bytes, as the pads say. Other bytes of
  // dst keep their values.
  method UnitDecode(src: array<bv8>, from: nat, dst: array<bv8>, to: nat) returns (ghost d: seq<bv8>)
    requires from + 4 <= src.Length && to + 3 <= dst.Length && src != dst
    modifies dst
    ensures |d| == DataCount(src[from..from + 4]) - 1
    ensures IsUnit(src[from..from + 4]) ==> d == DecodeUnit(src[from..from + 4])
    ensures dst[..] == old(dst[..to]) + d + old(dst[to + |d|..])
  {
    hide Digit, Value, IsDigit, Join0, Join1, Join2, DecodeUnit;
    ghost var u := src[from..from + 4];
    if src[from + 3] != PAD {
      var c0 := CharPosition(src[from]);
      var c1 := CharPosition(src[from + 1]);
      var c2 := CharPosition(src[from + 2]);
      var c3 := CharPosition(src[from + 3]);
      d := [Join0(c0, c1), Join1(c1, c2), Join2(c2, c3)];
      dst[to] := Join0(c0, c1);
      dst[to + 1] := Join1(c1, c2);
      dst[to + 2] := Join2(c2, c3);
    } else if src[from + 2] == PAD {
      var c0 := CharPosition(src[from]);
      var c1 := CharPosition(src[from + 1]);
      d := [Join0(c0, c1)];
      dst[to] := Join0(c0, c1);
    } else {
      var c0 := CharPosition(src[from]);
      var c1 := CharPosition(src[from + 1]);
      var c2 := CharPosition(src[from + 2]);
      d := [Join0(c0, c1), Join1(c1, c2)];
      dst[to] := Join0(c0, c1);
      dst[to + 1] := Join1(c1, c2);
    }
    UnitOctets(u);
  }

  // The source's expressions on the values of a unit's characters.
  lemma UnitOctets(u: seq<bv8>)
    requires |u| == 4
    ensures IsUnit(u) ==> var c0, c1, c2, c3 := Value(u[0]), Value(u[1]), Value(u[2]), Value(u[3]);
      && (DataCount(u) == 4 ==> DecodeUnit(u) == [Join0(c0, c1), Join1(c1, c2), Join2(c2, c3)])
      && (DataCount(u) == 3 ==> DecodeUnit(u) == [Join0(c0, c1), Join1(c1, c2)])
      && (DataCount(u) == 2 ==> DecodeUnit(u) == [Join0(c0, c1)])
  {
    hide Digit, Value, IsDigit, Ungroup, Octet0, Octet1, Octet2, Join0, Join1, Join2;
    if IsUnit(u) {
      DigitOfValue(u[0]);
      DigitOfValue(u[1]);
      if DataCount(u) > 2 { DigitOfValue(u[2]); }
      if DataCount(u) > 3 { DigitOfValue(u[3]); }
      BytesOfSextets(Value(u[0]), Value(u[1]), if DataCount(u) > 2 then Value(u[2]) else 0,
                     if DataCount(u) > 3 then Value(u[3]) else 0);
      OctetsOfShort(Value(u[0]), Value(u[1]), if DataCount(u) > 2 then Value(u[2]) else 0);
    }
  }

  // The first octets do not depend on the sextets after them.
  lemma OctetsOfShort(c0: bv8, c1: bv8, c2: bv8)
    requires c0 < 64 && c1 < 64 && c2 < 64
    ensures Join0(c0, c1) == Octet0(Ungroup(c0, c1, 0, 0))
    ensures Join0(c0, c1) == Octet0(Ungroup(c0, c1, c2, 0))
    ensures Join1(c1, c2) == Octet1(Ungroup(c0, c1, c2, 0))
  {
  }

  // The pads at the end of a text (lines 326-334).
  function Padding(t: seq<bv8>): (n: nat)
    requires |t| >= 4
    ensures n <= 2 && (n >= 1 <==> t[|t| - 1] == 0x3d)
    ensures n == 2 <==> t[|t| - 1] == 0x3d && t[|t| - 2] == 0x3d
  {
    if t[|t| - 1] == PAD then if t[|t| - 2] == PAD then 2 else 1 else 0
  }

  lemma {:induction false} DecodeAppend(t: seq<bv8>, u: seq<bv8>)
    requires |t| % 4 == 0 && |u| == 4
    ensures Decode(t + u) == Decode(t) + DecodeUnit(u)
    decreases |t|
  {
    hide DecodeUnit;
    if |t| == 0 {
      assert t + u == u && u[..4] == u && u[4..] == [];
      assert Decode(u[4..]) == [];
    } else {
      assert (t + u)[..4] == t[..4] && (t + u)[4..] == t[4..] + u;
      DecodeAppend(t[4..], u);
    }
  }

  // In a well-formed text of n units, all but the last one are full.
  lemma {:induction false} WellFormedUnits(t: seq<bv8>, n: nat, i: nat)
    requires WellFormed(t) && |t| == 4 * n && i < n
    ensures IsUnit(t[4 * i..4 * i + 4])
    ensures i + 1 < n ==> DataCount(t[4 * i..4 * i + 4]) == 4
  {
    hide IsUnit, DataCount;
    if i == 0 {
      assert t[0..4] == t[..4];
      assert |t| == 4 ==> t[..4] == t;
    } else {
      WellFormedUnits(t[4..], n - 1, i - 1);
      UnitBehind(t, 4 * (i - 1));
    }
  }

  lemma UnitBehind(t: seq<bv8>, at: nat)
    requires at + 8 <= |t|
    ensures t[4..][at..at + 4] == t[at + 4..at + 8]
  {
  }

  // The first i units of a well-formed text decode to three bytes each.
  lemma {:induction false} FullPrefix(t: seq<bv8>, n: nat, i: nat)
    requires WellFormed(t) && |t| == 4 * n && i < n
    ensures |Decode(t[..4 * i])| == 3 * i
  {
    hide DecodeUnit, DataCount;
    if i == 0 {
      assert t[..4 * i] == [];
    } else {
      FullPrefix(t, n, i - 1);
      WellFormedUnits(t, n, i - 1);
      assert t[..4 * i] == t[..4 * (i - 1)] + t[4 * (i - 1)..4 * (i - 1) + 4];
      DecodeAppend(t[..4 * (i - 1)], t[4 * (i - 1)..4 * (i - 1) + 4]);
    }
  }

  // What one pass of the decoding loop does to the buffer.
  lemma UnitDecoded(t: seq<bv8>, n: nat, i: nat, v: seq<bv8>, w: seq<bv8>, d: seq<bv8>)
    requires WellFormed(t) && |t| == 4 * n && i < n && 3 * n <= |v|
    requires Decode(t[..4 * i]) <= v
    requires d == DecodeUnit(t[4 * i..4 * i + 4]) && w == v[..3 * i] + d + v[3 * i + |d|..]
    ensures Decode(t[..4 * i + 4]) <= w
  {
    hide Decode, DecodeUnit, WellFormed, DataCount;
    FullPrefix(t, n, i);
    assert t[..4 * i + 4] == t[..4 * i] + t[4 * i..4 * i + 4];
    DecodeAppend(t[..4 * i], t[4 * i..4 * i + 4]);
  }

  lemma DecodedLength(t: seq<bv8>, n: nat)
    requires WellFormed(t) && |t| == 4 * n && n > 0
    ensures |Decode(t)| == 3 * n - Padding(t)
  {
    hide Decode, DecodeUnit, WellFormed, DataCount, Padding;
    var u := t[4 * (n - 1)..4 * (n - 1) + 4];
    FullPrefix(t, n, n - 1);
    assert t == t[..4 * (n - 1)] + u;
    DecodeAppend(t[..4 * (n - 1)], u);
    PadsOfUnit(u, t, n);
  }

  lemma PadsOfUnit(u: seq<bv8>, t: seq<bv8>, n: nat)
    requires |t| == 4 * n && n > 0 && u == t[4 * (n - 1)..4 * (n - 1) + 4]
    ensures DataCount(u) == 4 - Padding(t)
  {
    assert u[3] == t[|t| - 1] && u[2] == t[|t| - 2];
  }

  // Base64Decode on buffers (lines 319-348). Nothing happens on a text of less than four
  // characters. A rest of less than a unit is not decoded, but its pads are counted.
  method DecodeBuffer(src: array<bv8>, srcLength: nat, dest: array<bv8>, lengthBefore: nat) returns (decodeLength: nat)
    requires srcLength <= src.Length && 3 * (srcLength / 4) <= dest.Length && src != dest
    modifies dest
    ensures dest[3 * (srcLength / 4)..] == old(dest[3 * (srcLength / 4)..])
    ensures decodeLength == if srcLength < 4 then lengthBefore else 3 * (srcLength / 4) - Padding(src[..srcLength])
    ensures srcLength >= 4 && WellFormed(src[..srcLength]) && srcLength % 4 == 0 ==>
      decodeLength == |Decode(src[..srcLength])| && dest[..decodeLength] == Decode(src[..srcLength])
  {
    hide Decode, WellFormed;
    if srcLength < 4 {
      return lengthBefore;
    }
    var padding := 0;
    if src[srcLength - 1] == PAD {
      padding := padding + 1;
      if src[srcLength - 2] == PAD {
        padding := padding + 1;
      }
    }
    var unitCount := srcLength / 4;
    DecodeUnits(src, unitCount, dest);
    decodeLength := unitCount * 3 - padding;
    if WellFormed(src[..srcLength]) && srcLength % 4 == 0 {
      assert src[..4 * unitCount] == src[..srcLength];
      DecodedLength(src[..srcLength], unitCount);
    }
  }

  // The loop at lines 337-342.
  method DecodeUnits(src: array<bv8>, unitCount: nat, dest: array<bv8>)
    requires 4 * unitCount <= src.Length && 3 * unitCount <= dest.Length && src != dest
    modifies dest
    ensures dest[3 * unitCount..] == old(dest[3 * unitCount..])
    ensures WellFormed(src[..4 * unitCount]) ==> Decode(src[..4 * unitCount]) <= dest[..]
  {
    hide Decode, WellFormed, IsUnit, DecodeUnit;
    ghost var s := src[..];
    ghost var t := s[..4 * unitCount];
    DecodeNothing();
    var from, to := 0, 0;
    for i := 0 to unitCount
      invariant from == 4 * i && to == 3 * i
      invariant src[..] == s
      invariant dest[3 * unitCount..] == old(dest[3 * unitCount..])
      invariant WellFormed(t) ==> Decode(t[..from]) <= dest[..]
    {
      ghost var before := dest[..];
      ghost var d := UnitDecode(src, from, dest, to);
      assert src[from..from + 4] == s[from..from + 4] == t[from..from + 4];
      if WellFormed(t) {
        WellFormedUnits(t, unitCount, i);
        UnitDecoded(t, unitCount, i, before, dest[..], d);
      }
      from, to := from + 4, to + 3;
    }
    assert t[..from] == t;
  }

  lemma DecodeNothing()
    ensures Decode([]) == []
  {
  }

  // ---------- Strings ----------

  // The string that a C buffer holds: what precedes the first NUL.
  function UpToNul(b: seq<bv8>): (s: seq<bv8>)
    ensures 0 !in s && s <= b
  {
    if |b| == 0 || b[0] == 0 then [] else [b[0]] + UpToNul(b[1..])
  }

  lemma {:induction false} UpToNulAppend(s: seq<bv8>, rest: seq<bv8>)
    requires 0 !in s && (|rest| > 0 ==> rest[0] == 0)
    ensures UpToNul(s + rest) == s
    decreases |s|
  {
    if |s| > 0 {
      assert s[0] != 0 && (s + rest)[1..] == s[1..] + rest;
      UpToNulAppend(s[1..], rest);
    } else {
      assert s + rest == rest;
    }
  }

  // std::string(buf) on a terminated buffer.
  method CString(buf: array<bv8>) returns (s: seq<bv8>)
    requires 0 in buf[..]
    ensures s == UpToNul(buf[..])
  {
    var n := 0;
    while buf[n] != 0
      invariant 0 <= n < buf.Length
      invariant 0 !in buf[..n]
      invariant 0 in buf[n..]
      decreases buf.Length - n
    {
      n := n + 1;
    }
    s := buf[..n];
    UpToNulAppend(buf[..n], buf[n..]);
    assert buf[..] == buf[..n] + buf[n..];
  }

  lemma {:induction false} NoNulInText(d: seq<bv8>)
    ensures 0 !in Encode(d)
    decreases |d|
  {
    hide EncodeUnit;
    if |d| > 3 {
      NoNulInUnit(d[..3]);
      NoNulInText(d[3..]);
    } else if |d| > 0 {
      NoNulInUnit(d);
    }
  }

  lemma NoNulInUnit(d: seq<bv8>)
    requires 1 <= |d| <= 3
    ensures 0 !in EncodeUnit(d)
  {
    hide Digit, Group, Sextet0, Sextet1, Sextet2, Sextet3;
    var g := Group(d[0], if |d| > 1 then d[1] else 0, if |d| > 2 then d[2] else 0);
    DigitIsNotNul(Sextet0(g));
    DigitIsNotNul(Sextet1(g));
    DigitIsNotNul(Sextet2(g));
    DigitIsNotNul(Sextet3(g));
  }

  // Base64Encode to a string (lines 283-292).
  method EncodeString(src: array<bv8>, length: nat) returns (text: seq<bv8>)
    requires length <= src.Length
    ensures text == Encode(src[..length])
  {
    hide Encode, UpToNul;
    var encodeLength := EncodedLength(length);
    var buf := new bv8[encodeLength + 1];
    ghost var d := src[..length];
    var _ := EncodeBuffer(src, length, buf);
    buf[encodeLength] := 0;
    assert buf[..] == Encode(d) + [0];
    NoNulInText(d);
    UpToNulAppend(Encode(d), [0]);
    text := CString(buf);
  }

  // Base64Decode from a string (lines 350-362): the buffer stays null on the empty text.
  method DecodeString(text: seq<bv8>, lengthBefore: nat) returns (buf: array?<bv8>, length: nat)
    ensures buf == null <==> |text| == 0
    ensures buf != null ==> fresh(buf) && buf.Length == 3 * (|text| / 4)
    ensures |text| == 0 ==> length == 0
    ensures 0 < |text| < 4 ==> length == lengthBefore
    ensures |text| >= 4 ==> length == 3 * (|text| / 4) - Padding(text)
    ensures |text| >= 4 && WellFormed(text) && |text| % 4 == 0 ==>
      length == |Decode(text)| && buf[..length] == Decode(text)
  {
    hide Decode, WellFormed;
    if |text| == 0 {
      return null, 0;
    }
    var src := new bv8[|text|](k requires 0 <= k < |text| => text[k]);
    assert src[..|text|] == text;
    buf := new bv8[(|text| / 4) * 3];
    length := DecodeBuffer(src, |text|, buf, lengthBefore);
  }
}
