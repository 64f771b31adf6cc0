// Base 64 as section 4 of RFC 4648 defines it: groups of 24 bits, four sextets, and a
// last group padded with zero bits and '=' signs.
module Rfc4648 {

  const PAD: bv8 := 0x3d

  // Table 1, and the sextet of a character of that table.
  function Digit(v: bv8): bv8 {
    if v < 26 then 0x41 + v
    else if v < 52 then 0x61 + (v - 26)
    else if v < 62 then 0x30 + (v - 52)
    else if v == 62 then 0x2b
    else 0x2f
  }

  predicate IsDigit(ch: bv8) {
    0x41 <= ch <= 0x5a || 0x61 <= ch <= 0x7a || 0x30 <= ch <= 0x39 || ch == 0x2b || ch == 0x2f
  }

  function Value(ch: bv8): bv8 {
    if 0x41 <= ch <= 0x5a then ch - 0x41
    else if 0x61 <= ch <= 0x7a then ch - 0x61 + 26
    else if 0x30 <= ch <= 0x39 then ch - 0x30 + 52
    else if ch == 0x2b then 62
    else 63
  }

  lemma DigitsInOrder(v: bv8)
    requires v < 16
    ensures Digit(v) as int == "ABCDEFGHIJKLMNOP"[v as int] as int
    ensures Digit(16 + v) as int == "QRSTUVWXYZabcdef"[v as int] as int
    ensures Digit(32 + v) as int == "ghijklmnopqrstuv"[v as int] as int
    ensures Digit(48 + v) as int == "wxyz0123456789+/"[v as int] as int
  {
  }

  lemma DigitOfValue(ch: bv8)
    requires IsDigit(ch)
    ensures Value(ch) < 64 && Digit(Value(ch)) == ch
  {
  }

  // A 24-bit group and its sextets.
  function Group(b0: bv8, b1: bv8, b2: bv8): bv24 {
    (b0 as bv24 << 16) | (b1 as bv24 << 8) | b2 as bv24
  }

  function Sextet0(g: bv24): (v: bv8) ensures v < 64 { ((g >> 18) & 0x3f) as bv8 }
  function Sextet1(g: bv24): (v: bv8) ensures v < 64 { ((g >> 12) & 0x3f) as bv8 }
  function Sextet2(g: bv24): (v: bv8) ensures v < 64 { ((g >> 6) & 0x3f) as bv8 }
  function Sextet3(g: bv24): (v: bv8) ensures v < 64 { (g & 0x3f) as bv8 }

  function Ungroup(v0: bv8, v1: bv8, v2: bv8, v3: bv8): bv24 {
    (v0 as bv24 << 18) | (v1 as bv24 << 12) | (v2 as bv24 << 6) | v3 as bv24
  }

  function Octet0(g: bv24): bv8 { ((g >> 16) & 0xff) as bv8 }
  function Octet1(g: bv24): bv8 { ((g >> 8) & 0xff) as bv8 }
  function Octet2(g: bv24): bv8 { (g & 0xff) as bv8 }

  // One to three bytes as one unit of four characters.
  function EncodeUnit(d: seq<bv8>): (t: seq<bv8>)
    requires 1 <= |d| <= 3
    ensures |t| == 4
  {
    var g := Group(d[0], if |d| > 1 then d[1] else 0, if |d| > 2 then d[2] else 0);
    [Digit(Sextet0(g)), Digit(Sextet1(g)),
     if |d| > 1 then Digit(Sextet2(g)) else PAD,
     if |d| > 2 then Digit(Sextet3(g)) else PAD]
  }

  function Encode(d: seq<bv8>): (t: seq<bv8>)
    ensures |t| == 4 * ((|d| + 2) / 3)
  {
    if |d| == 0 then []
    else if |d| <= 3 then EncodeUnit(d)
    else EncodeUnit(d[..3]) + Encode(d[3..])
  }

  // The number of data characters of a unit: 4, or fewer before trailing pads.
  function DataCount(u: seq<bv8>): (n: nat)
    requires |u| == 4
    ensures 2 <= n <= 4
  {
    if u[3] != PAD then 4 else if u[2] != PAD then 3 else 2
  }

  predicate IsUnit(u: seq<bv8>) {
    |u| == 4 && forall k :: 0 <= k < DataCount(u) ==> IsDigit(u[k])
  }

  function UnitGroup(u: seq<bv8>): bv24
    requires |u| == 4
  {
    Ungroup(Value(u[0]), Value(u[1]), if DataCount(u) > 2 then Value(u[2]) else 0,
            if DataCount(u) > 3 then Value(u[3]) else 0)
  }

  function DecodeUnit(u: seq<bv8>): (d: seq<bv8>)
    requires |u| == 4
    ensures |d| == DataCount(u) - 1
  {
    var g := UnitGroup(u);
    [Octet0(g), Octet1(g), Octet2(g)][..DataCount(u) - 1]
  }

  // A text of whole units, with padding in the last one only.
  predicate WellFormed(t: seq<bv8>) {
    if |t| == 0 then true
    else if |t| < 4 then false
    else if |t| == 4 then IsUnit(t)
    else IsUnit(t[..4]) && DataCount(t[..4]) == 4 && WellFormed(t[4..])
  }

  function Decode(t: seq<bv8>): (d: seq<bv8>)
    requires |t| % 4 == 0
  {
    if |t| == 0 then [] else DecodeUnit(t[..4]) + Decode(t[4..])
  }

  // A unit whose pads stand for zero bits: what an encoder may produce.
  predicate IsCanonicalUnit(u: seq<bv8>) {
    && IsUnit(u)
    && (DataCount(u) == 3 ==> Value(u[2]) & 0x03 == 0)
    && (DataCount(u) == 2 ==> Value(u[1]) & 0x0f == 0)
  }

  predicate Canonical(t: seq<bv8>) {
    WellFormed(t) && (|t| >= 4 ==> IsCanonicalUnit(t[|t| - 4..]))
  }

  // ---------- One unit ----------

  lemma GroupBits(b0: bv8, b1: bv8, b2: bv8)
    ensures var g := Group(b0, b1, b2);
      && Octet0(g) == b0 && Octet1(g) == b1 && Octet2(g) == b2
      && Ungroup(Sextet0(g), Sextet1(g), Sextet2(g), Sextet3(g)) == g
  {
  }

  lemma GroupOfOctets(g: bv24)
    ensures Group(Octet0(g), Octet1(g), Octet2(g)) == g
  {
  }

  lemma Sextet0OfUngroup(v0: bv8, v1: bv8, v2: bv8, v3: bv8)
    requires v0 < 64 && v1 < 64 && v2 < 64 && v3 < 64
    ensures Sextet0(Ungroup(v0, v1, v2, v3)) == v0
  {
  }

  lemma Sextet1OfUngroup(v0: bv8, v1: bv8, v2: bv8, v3: bv8)
    requires v0 < 64 && v1 < 64 && v2 < 64 && v3 < 64
    ensures Sextet1(Ungroup(v0, v1, v2, v3)) == v1
  {
  }

  lemma Sextet2OfUngroup(v0: bv8, v1: bv8, v2: bv8, v3: bv8)
    requires v0 < 64 && v1 < 64 && v2 < 64 && v3 < 64
    ensures Sextet2(Ungroup(v0, v1, v2, v3)) == v2
  {
  }

  lemma Sextet3OfUngroup(v0: bv8, v1: bv8, v2: bv8, v3: bv8)
    requires v0 < 64 && v1 < 64 && v2 < 64 && v3 < 64
    ensures Sextet3(Ungroup(v0, v1, v2, v3)) == v3
  {
  }

  lemma SextetsOfUngroup(v0: bv8, v1: bv8, v2: bv8, v3: bv8)
    requires v0 < 64 && v1 < 64 && v2 < 64 && v3 < 64
    ensures var g := Ungroup(v0, v1, v2, v3);
      Sextet0(g) == v0 && Sextet1(g) == v1 && Sextet2(g) == v2 && Sextet3(g) == v3
  {
    hide Ungroup, Sextet0, Sextet1, Sextet2, Sextet3;
    Sextet0OfUngroup(v0, v1, v2, v3);
    Sextet1OfUngroup(v0, v1, v2, v3);
    Sextet2OfUngroup(v0, v1, v2, v3);
    Sextet3OfUngroup(v0, v1, v2, v3);
  }

  // A missing byte of a unit is zero bits in the sextets that are written.
  lemma PaddedSextets(b0: bv8, b1: bv8)
    ensures Sextet3(Group(b0, b1, 0)) == 0 && Sextet2(Group(b0, b1, 0)) & 0x03 == 0
    ensures Sextet2(Group(b0, 0, 0)) == 0 && Sextet1(Group(b0, 0, 0)) & 0x0f == 0
  {
  }

  // .. and zero discarded bits are missing bytes.
  lemma UnpaddedOctets(v0: bv8, v1: bv8, v2: bv8)
    requires v0 < 64 && v1 < 64 && v2 < 64
    ensures v2 & 0x03 == 0 ==> Octet2(Ungroup(v0, v1, v2, 0)) == 0
    ensures v1 & 0x0f == 0 ==> Octet1(Ungroup(v0, v1, 0, 0)) == 0 && Octet2(Ungroup(v0, v1, 0, 0)) == 0
  {
  }

  lemma DecodeUnitEncodeUnit(d: seq<bv8>)
    requires 1 <= |d| <= 3
    ensures IsCanonicalUnit(EncodeUnit(d)) && DataCount(EncodeUnit(d)) == |d| + 1
    ensures DecodeUnit(EncodeUnit(d)) == d
  {
    hide Group, Ungroup, Octet0, Octet1, Octet2, Sextet0, Sextet1, Sextet2, Sextet3, Digit, Value, IsDigit;
    var b1, b2 := if |d| > 1 then d[1] else 0, if |d| > 2 then d[2] else 0;
    var g := Group(d[0], b1, b2);
    GroupBits(d[0], b1, b2);
    PaddedSextets(d[0], b1);
    DigitFacts(Sextet0(g));
    DigitFacts(Sextet1(g));
    DigitFacts(Sextet2(g));
    DigitFacts(Sextet3(g));
  }

  lemma DigitFacts(v: bv8)
    requires v < 64
    ensures Digit(v) != PAD && IsDigit(Digit(v)) && Value(Digit(v)) == v
  {
  }

  lemma EncodeUnitDecodeUnit(u: seq<bv8>)
    requires IsCanonicalUnit(u)
    ensures EncodeUnit(DecodeUnit(u)) == u
  {
    hide Group, Ungroup, Octet0, Octet1, Octet2, Sextet0, Sextet1, Sextet2, Sextet3, Digit, Value, IsDigit;
    var v2, v3 := if DataCount(u) > 2 then Value(u[2]) else 0, if DataCount(u) > 3 then Value(u[3]) else 0;
    DigitOfValue(u[0]);
    DigitOfValue(u[1]);
    if DataCount(u) > 2 { DigitOfValue(u[2]); }
    if DataCount(u) > 3 { DigitOfValue(u[3]); }
    UnpaddedOctets(Value(u[0]), Value(u[1]), v2);
    GroupOfOctets(UnitGroup(u));
    SextetsOfUngroup(Value(u[0]), Value(u[1]), v2, v3);
  }

  // The sextets of a group are the digits of its number in base 64, as its bytes are in base 256.
  lemma GroupNumber(b0: bv8, b1: bv8, b2: bv8)
    ensures var g := Group(b0, b1, b2);
      0x4_0000 * (Sextet0(g) as bv32) + 0x1000 * (Sextet1(g) as bv32) + 0x40 * (Sextet2(g) as bv32) + Sextet3(g) as bv32
      == 0x1_0000 * (b0 as bv32) + 0x100 * (b1 as bv32) + b2 as bv32
  {
  }

  lemma UngroupNumber(v0: bv8, v1: bv8, v2: bv8, v3: bv8)
    requires v0 < 64 && v1 < 64 && v2 < 64 && v3 < 64
    ensures var g := Ungroup(v0, v1, v2, v3);
      0x1_0000 * (Octet0(g) as bv32) + 0x100 * (Octet1(g) as bv32) + Octet2(g) as bv32
      == 0x4_0000 * (v0 as bv32) + 0x1000 * (v1 as bv32) + 0x40 * (v2 as bv32) + v3 as bv32
  {
  }

  // A unit shows the digits of its group, with pads for those that no bit of the data reaches.
  lemma EncodeUnitDigits(d: seq<bv8>)
    requires 1 <= |d| <= 3
    ensures var g := Group(d[0], if |d| > 1 then d[1] else 0, if |d| > 2 then d[2] else 0);
      EncodeUnit(d) == [Digit(Sextet0(g)), Digit(Sextet1(g)), if |d| > 1 then Digit(Sextet2(g)) else 0x3d,
                        if |d| > 2 then Digit(Sextet3(g)) else 0x3d]
  {
    hide Group, Sextet0, Sextet1, Sextet2, Sextet3, Digit;
  }

  // .. and is read as the bytes of the group that its digits form, one less than they are.
  lemma DecodeUnitOctets(u: seq<bv8>)
    requires IsUnit(u)
    ensures var n := if u[3] != 0x3d then 3 else if u[2] != 0x3d then 2 else 1;
      var g := Ungroup(Value(u[0]), Value(u[1]), if n > 1 then Value(u[2]) else 0, if n > 2 then Value(u[3]) else 0);
      DecodeUnit(u) == [Octet0(g), Octet1(g), Octet2(g)][..n]
  {
    hide Ungroup, Octet0, Octet1, Octet2, Value, IsDigit;
  }

  // ---------- Whole texts ----------

  // Digits, but for one or two pads at the end of a text of whole units.
  lemma {:induction false} WellFormedExactly(t: seq<bv8>)
    ensures WellFormed(t) <==> |t| % 4 == 0 && forall k :: 0 <= k < |t| ==>
      IsDigit(t[k]) || (k >= |t| - 2 && t[k] == 0x3d && t[|t| - 1] == 0x3d)
    decreases |t|
  {
    hide IsDigit;
    PadIsNoDigit();
    if |t| > 4 {
      var rest := t[4..];
      WellFormedExactly(rest);
      assert forall k :: 0 <= k < |rest| ==> rest[k] == t[k + 4];
      assert forall k :: 4 <= k < |t| ==> t[k] == rest[k - 4];
    }
  }

  lemma PadIsNoDigit()
    ensures !IsDigit(0x3d)
  {
  }

  // The test vectors of section 10 of RFC 4648: "", "f", "fo", "foo", "foob", "fooba", "foobar".
  lemma TestVectors()
    ensures Encode([]) == []
    ensures Encode([0x66]) == [0x5a, 0x67, 0x3d, 0x3d] // Zg==
    ensures Encode([0x66, 0x6f]) == [0x5a, 0x6d, 0x38, 0x3d] // Zm8=
    ensures Encode([0x66, 0x6f, 0x6f]) == [0x5a, 0x6d, 0x39, 0x76] // Zm9v
    ensures Encode([0x66, 0x6f, 0x6f, 0x62]) == [0x5a, 0x6d, 0x39, 0x76, 0x59, 0x67, 0x3d, 0x3d] // Zm9vYg==
    ensures Encode([0x66, 0x6f, 0x6f, 0x62, 0x61]) == [0x5a, 0x6d, 0x39, 0x76, 0x59, 0x6d, 0x45, 0x3d] // Zm9vYmE=
    ensures Encode([0x66, 0x6f, 0x6f, 0x62, 0x61, 0x72]) == [0x5a, 0x6d, 0x39, 0x76, 0x59, 0x6d, 0x46, 0x79] // Zm9vYmFy
  {
    hide Encode, EncodeUnit;
    UnitVectors();
    var foo: seq<bv8> := [0x66, 0x6f, 0x6f];
    var foob, fooba, foobar := foo + [0x62], foo + [0x62, 0x61], foo + [0x62, 0x61, 0x72];
    assert foob[..3] == foo && foob[3..] == [0x62] && foob == [0x66, 0x6f, 0x6f, 0x62];
    assert fooba[..3] == foo && fooba[3..] == [0x62, 0x61] && fooba == [0x66, 0x6f, 0x6f, 0x62, 0x61];
    assert foobar[..3] == foo && foobar[3..] == [0x62, 0x61, 0x72] && foobar == [0x66, 0x6f, 0x6f, 0x62, 0x61, 0x72];
    EncodeUnfolds([]);
    EncodeUnfolds([0x66]);
    EncodeUnfolds([0x66, 0x6f]);
    EncodeUnfolds(foo);
    EncodeUnfolds([0x62]);
    EncodeUnfolds([0x62, 0x61]);
    EncodeUnfolds([0x62, 0x61, 0x72]);
    EncodeUnfolds(foob);
    EncodeUnfolds(fooba);
    EncodeUnfolds(foobar);
  }

  lemma UnitVectors()
    ensures EncodeUnit([0x66]) == [0x5a, 0x67, 0x3d, 0x3d] && EncodeUnit([0x66, 0x6f]) == [0x5a, 0x6d, 0x38, 0x3d]
    ensures EncodeUnit([0x66, 0x6f, 0x6f]) == [0x5a, 0x6d, 0x39, 0x76] && EncodeUnit([0x62]) == [0x59, 0x67, 0x3d, 0x3d]
    ensures EncodeUnit([0x62, 0x61]) == [0x59, 0x6d, 0x45, 0x3d] && EncodeUnit([0x62, 0x61, 0x72]) == [0x59, 0x6d, 0x46, 0x79]
  {
  }

  lemma WholeUnits(d: seq<bv8>)
    ensures |Encode(d)| % 4 == 0
  {
    hide Encode;
  }

  lemma EncodeUnfolds(d: seq<bv8>)
    ensures |d| == 0 ==> Encode(d) == []
    ensures 1 <= |d| <= 3 ==> Encode(d) == EncodeUnit(d)
    ensures |d| > 3 ==> Encode(d) == EncodeUnit(d[..3]) + Encode(d[3..])
  {
    hide EncodeUnit;
  }

  // A text in front of which a unit is put.
  lemma DecodeBehind(u: seq<bv8>, t: seq<bv8>)
    requires |u| == 4 && |t| % 4 == 0
    ensures Decode(u + t) == DecodeUnit(u) + Decode(t)
  {
    hide DecodeUnit;
    assert (u + t)[..4] == u && (u + t)[4..] == t;
  }

  lemma CanonicalBehind(u: seq<bv8>, t: seq<bv8>)
    requires IsCanonicalUnit(u) && |t| % 4 == 0
    requires |t| > 0 ==> DataCount(u) == 4 && Canonical(t)
    ensures Canonical(u + t)
  {
    hide IsUnit, IsCanonicalUnit, DataCount;
    CanonicalUnitIsUnit(u);
    var s := u + t;
    assert s[..4] == u && s[4..] == t;
    if |t| == 0 {
      assert s == u && s[0..] == u;
    } else {
      assert s[|s| - 4..] == t[|t| - 4..];
    }
  }

  // Decoding inverts encoding, and what the encoder writes is canonical.
  lemma {:induction false} DecodeEncode(d: seq<bv8>)
    ensures |Encode(d)| % 4 == 0
    ensures Canonical(Encode(d)) && Decode(Encode(d)) == d
    decreases |d|
  {
    hide Encode, Decode, Canonical, EncodeUnit, DecodeUnit, IsCanonicalUnit, DataCount;
    WholeUnits(d);
    EncodeUnfolds(d);
    NothingDecodes();
    if |d| > 0 {
      var first, rest := if |d| > 3 then d[..3] else d, if |d| > 3 then d[3..] else [];
      DecodeEncode(rest);
      EncodeUnfolds(rest);
      DecodeUnitEncodeUnit(first);
      CanonicalBehind(EncodeUnit(first), Encode(rest));
      DecodeBehind(EncodeUnit(first), Encode(rest));
      assert EncodeUnit(first) + Encode(rest) == Encode(d) && first + rest == d;
    }
  }

  lemma NothingDecodes()
    ensures Canonical([]) && Decode([]) == []
  {
  }

  lemma CanonicalUnitIsUnit(u: seq<bv8>)
    requires IsCanonicalUnit(u)
    ensures IsUnit(u)
  {
  }

  lemma FullUnitIsCanonical(u: seq<bv8>)
    requires IsUnit(u) && DataCount(u) == 4
    ensures IsCanonicalUnit(u)
  {
  }

  // Encoding inverts decoding on canonical texts ..
  lemma {:induction false} EncodeDecode(t: seq<bv8>)
    requires Canonical(t)
    ensures |t| % 4 == 0 && Encode(Decode(t)) == t
    decreases |t|
  {
    hide EncodeUnit, DecodeUnit, IsUnit, IsCanonicalUnit, DataCount;
    if |t| == 0 {
      assert Decode(t) == [] && t == [];
    } else if |t| == 4 {
      assert t[0..] == t && t[..4] == t && t[4..] == [];
      EncodeUnitDecodeUnit(t);
      assert Decode(t[4..]) == [] && Decode(t) == DecodeUnit(t);
      assert 2 <= DataCount(t) <= 4;
    } else {
      var u, rest := t[..4], t[4..];
      assert WellFormed(rest) && |rest| > 0;
      assert |rest| >= 4;
      assert t[|t| - 4..] == rest[|rest| - 4..];
      FullUnitIsCanonical(u);
      EncodeUnitDecodeUnit(u);
      EncodeDecode(rest);
      var d := DecodeUnit(u) + Decode(rest);
      DecodeNonEmpty(rest);
      assert d[..3] == DecodeUnit(u) && d[3..] == Decode(rest);
      assert u + rest == t;
    }
  }

  lemma DecodeNonEmpty(t: seq<bv8>)
    requires 4 <= |t| && |t| % 4 == 0
    ensures |Decode(t)| > 0
  {
  }

  // .. so no two canonical texts decode to the same bytes.
  lemma DecodeInjective(t: seq<bv8>, s: seq<bv8>)
    requires Canonical(t) && Canonical(s) && |t| % 4 == 0 && |s| % 4 == 0
    requires Decode(t) == Decode(s)
    ensures t == s
  {
    hide Encode, Decode, Canonical;
    EncodeDecode(t);
    EncodeDecode(s);
  }
}
