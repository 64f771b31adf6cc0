// The second Base64 codec (common/libtools/Base64.cpp:5-187): a shift register instead of
// units, and a choice of two alphabets.
module Base64ChSet {
  import opened Words
  import opened Rfc4648
  import Base64

  type int32 = x: int | -0x8000_0000 <= x < 0x8000_0000

  const INT_MAX: int := 0x7fff_ffff

  const BASE64_CH_SECRET: int32 := 1

  // ---------- The alphabets ----------

  // base64o (line 5) as character codes.
  function Normal(x: bv8): bv8 {
    Byte3(
      if x < 16 then Select16(x, 0x41, 0x42, 0x43, 0x44, 0x45, 0x46, 0x47, 0x48,
                  0x49, 0x4a, 0x4b, 0x4c, 0x4d, 0x4e, 0x4f, 0x50)
      else if x < 32 then Select16(x, 0x51, 0x52, 0x53, 0x54, 0x55, 0x56, 0x57, 0x58,
                  0x59, 0x5a, 0x61, 0x62, 0x63, 0x64, 0x65, 0x66)
      else if x < 48 then Select16(x, 0x67, 0x68, 0x69, 0x6a, 0x6b, 0x6c, 0x6d, 0x6e,
                  0x6f, 0x70, 0x71, 0x72, 0x73, 0x74, 0x75, 0x76)
      else Select16(x, 0x77, 0x78, 0x79, 0x7a, 0x30, 0x31, 0x32, 0x33,
                  0x34, 0x35, 0x36, 0x37, 0x38, 0x39, 0x2b, 0x2f))
  }

  // base64o_ex (line 17).
  function Secret(x: bv8): bv8 {
    Byte3(
      if x < 16 then Select16(x, 0x54, 0x69, 0x67, 0x65, 0x72, 0x5f, 0x78, 0x75,
                  0x31, 0x39, 0x38, 0x34, 0x32, 0x30, 0x36, 0x62)
      else if x < 32 then Select16(x, 0x7a, 0x23, 0x35, 0x25, 0x33, 0x24, 0x57, 0x77,
                  0x70, 0x49, 0x51, 0x37, 0x2a, 0x26, 0x5b, 0x2c)
      else if x < 48 then Select16(x, 0x5d, 0x6d, 0x4e, 0x6f, 0x59, 0x45, 0x73, 0x40,
                  0x21, 0x58, 0x55, 0x48, 0x42, 0x61, 0x5a, 0x43)
      else Select16(x, 0x71, 0x52, 0x74, 0x4f, 0x63, 0x44, 0x3c, 0x66,
                  0x47, 0x46, 0x2b, 0x3e, 0x2e, 0x68, 0x6a, 0x4a))
  }

  // base64i (lines 6-15), with 0xff for -1.
  function NormalInverse(x: bv8): bv8 {
    Byte3(Select16(x >> 4,
      Select16(x, 0xff, 0xff, 0xff, 0xff, 0xff, 0xff, 0xff, 0xff,
                  0xff, 0xff, 0xff, 0xff, 0xff, 0xff, 0xff, 0xff),
      Select16(x, 0xff, 0xff, 0xff, 0xff, 0xff, 0xff, 0xff, 0xff,
                  0xff, 0xff, 0xff, 0xff, 0xff, 0xff, 0xff, 0xff),
      Select16(x, 0xff, 0xff, 0xff, 0xff, 0xff, 0xff, 0xff, 0xff,
                  0xff, 0xff, 0xff, 0x3e, 0xff, 0xff, 0xff, 0x3f),
      Select16(x, 0x34, 0x35, 0x36, 0x37, 0x38, 0x39, 0x3a, 0x3b,
                  0x3c, 0x3d, 0xff, 0xff, 0xff, 0xff, 0xff, 0xff),
      Select16(x, 0xff, 0x00, 0x01, 0x02, 0x03, 0x04, 0x05, 0x06,
                  0x07, 0x08, 0x09, 0x0a, 0x0b, 0x0c, 0x0d, 0x0e),
      Select16(x, 0x0f, 0x10, 0x11, 0x12, 0x13, 0x14, 0x15, 0x16,
                  0x17, 0x18, 0x19, 0xff, 0xff, 0xff, 0xff, 0xff),
      Select16(x, 0xff, 0x1a, 0x1b, 0x1c, 0x1d, 0x1e, 0x1f, 0x20,
                  0x21, 0x22, 0x23, 0x24, 0x25, 0x26, 0x27, 0x28),
      Select16(x, 0x29, 0x2a, 0x2b, 0x2c, 0x2d, 0x2e, 0x2f, 0x30,
                  0x31, 0x32, 0x33, 0xff, 0xff, 0xff, 0xff, 0xff),
      0xff, 0xff, 0xff, 0xff, 0xff, 0xff, 0xff, 0xff))
  }

  // base64i_ex (lines 18-32).
  function SecretInverse(x: bv8): bv8 {
    Byte3(Select16(x >> 4,
      Select16(x, 0xff, 0xff, 0xff, 0xff, 0xff, 0xff, 0xff, 0xff,
                  0xff, 0xff, 0xff, 0xff, 0xff, 0xff, 0xff, 0xff),
      Select16(x, 0xff, 0xff, 0xff, 0xff, 0xff, 0xff, 0xff, 0xff,
                  0xff, 0xff, 0xff, 0xff, 0xff, 0xff, 0xff, 0xff),
      Select16(x, 0xff, 0x28, 0xff, 0x11, 0x15, 0x13, 0x1d, 0xff,
                  0xff, 0xff, 0x1c, 0x3a, 0x1f, 0xff, 0x3c, 0xff),
      Select16(x, 0x0d, 0x08, 0x0c, 0x14, 0x0b, 0x12, 0x0e, 0x1b,
                  0x0a, 0x09, 0xff, 0xff, 0x36, 0xff, 0x3b, 0xff),
      Select16(x, 0x27, 0xff, 0x2c, 0x2f, 0x35, 0x25, 0x39, 0x38,
                  0x2b, 0x19, 0x3f, 0xff, 0xff, 0xff, 0x22, 0x33),
      Select16(x, 0xff, 0x1a, 0x31, 0xff, 0x00, 0x2a, 0xff, 0x16,
                  0x29, 0x24, 0x2e, 0x1e, 0xff, 0x20, 0xff, 0x05),
      Select16(x, 0xff, 0x2d, 0x0f, 0x34, 0xff, 0x03, 0x37, 0x02,
                  0x3d, 0x01, 0x3e, 0xff, 0xff, 0x21, 0xff, 0x23),
      Select16(x, 0x18, 0x30, 0x04, 0x26, 0x32, 0x07, 0xff, 0x17,
                  0x06, 0xff, 0x10, 0xff, 0xff, 0xff, 0xff, 0xff),
      0xff, 0xff, 0xff, 0xff, 0xff, 0xff, 0xff, 0xff))
  }

  const NONE: bv8 := 0xff

  // local_base64o, local_base64i and local_end.
  function Char(secret: bool, v: bv8): bv8 { if secret then Secret(v) else Normal(v) }
  function Code(secret: bool, ch: bv8): bv8 { if secret then SecretInverse(ch) else NormalInverse(ch) }
  function End(secret: bool): bv8 { if secret then 0x23 else 0x3d }

  lemma NormalInOrder(v: bv8)
    requires v < 16
    ensures Normal(v) as int == "ABCDEFGHIJKLMNOP"[v as int] as int
    ensures Normal(16 + v) as int == "QRSTUVWXYZabcdef"[v as int] as int
    ensures Normal(32 + v) as int == "ghijklmnopqrstuv"[v as int] as int
    ensures Normal(48 + v) as int == "wxyz0123456789+/"[v as int] as int
  {
  }

  lemma SecretInOrder(v: bv8)
    requires v < 16
    ensures Secret(v) as int == "Tiger_xu1984206b"[v as int] as int
    ensures Secret(16 + v) as int == "z#5%3$WwpIQ7*&[,"[v as int] as int
    ensures Secret(32 + v) as int == "]mNoYEs@!XUHBaZC"[v as int] as int
    ensures Secret(48 + v) as int == "qRtOcD<fGF+>.hjJ"[v as int] as int
  {
  }

  lemma NormalIsDigit(v: bv8)
    requires v < 64
    ensures Normal(v) == Digit(v)
  {
  }

  lemma CodeOfNormal(v: bv8)
    requires v < 64
    ensures NormalInverse(Normal(v)) == v
  {
  }

  lemma CodeOfSecret(v: bv8)
    requires v < 64
    ensures SecretInverse(Secret(v)) == v
  {
  }

  lemma NormalRange(v: bv8)
    requires v < 64
    ensures 0 < Normal(v) < 0x80 && Normal(v) != 0x3d
  {
  }

  lemma SecretRange(v: bv8)
    requires v < 64
    ensures 0 < Secret(v) < 0x80 && (Secret(v) == 0x23 <==> v == 17)
  {
  }

  // The tables invert each other; the secret end character is also the digit 17.
  lemma CharFacts(secret: bool, v: bv8)
    requires v < 64
    ensures Code(secret, Char(secret, v)) == v
    ensures 0 < Char(secret, v) < 0x80
    ensures Char(secret, v) == End(secret) <==> secret && v == 17
  {
    hide Normal, Secret, NormalInverse, SecretInverse;
    CodeOfNormal(v);
    CodeOfSecret(v);
    NormalRange(v);
    SecretRange(v);
  }

  // ---------- What the encoder writes ----------

  // One to three bytes as four characters of an alphabet.
  function UnitText(secret: bool, d: seq<bv8>): (t: seq<bv8>)
    requires 1 <= |d| <= 3
    ensures |t| == 4
  {
    var g := Group(d[0], if |d| > 1 then d[1] else 0, if |d| > 2 then d[2] else 0);
    [Char(secret, Sextet0(g)), Char(secret, Sextet1(g)),
     if |d| > 1 then Char(secret, Sextet2(g)) else End(secret),
     if |d| > 2 then Char(secret, Sextet3(g)) else End(secret)]
  }

  function Text(secret: bool, d: seq<bv8>): (t: seq<bv8>)
  {
    if |d| == 0 then []
    else if |d| <= 3 then UnitText(secret, d)
    else UnitText(secret, d[..3]) + Text(secret, d[3..])
  }

  // The bytes of a group as the shift register holds them: the sign bit of a char that is
  // or-ed in sets all the bits above it.
  function Overlaid(b: bv8, negative: bool): bv8 { if negative then 0xff else b }

  function SmearUnit(d: seq<bv8>): (e: seq<bv8>)
    requires 1 <= |d| <= 3
    ensures |e| == |d|
  {
    if |d| == 1 then d
    else if |d| == 2 then [Overlaid(d[0], d[1] >= 0x80), d[1]]
    else [Overlaid(d[0], d[1] >= 0x80 || d[2] >= 0x80), Overlaid(d[1], d[2] >= 0x80), d[2]]
  }

  function Smear(d: seq<bv8>): (e: seq<bv8>)
    ensures |e| == |d|
  {
    if |d| == 0 then []
    else if |d| <= 3 then SmearUnit(d)
    else SmearUnit(d[..3]) + Smear(d[3..])
  }

  // Byte k is lost when a byte behind it in its group of three has its sign bit set.
  lemma {:induction false} SmearAt(d: seq<bv8>, k: nat)
    requires k < |d|
    ensures Smear(d)[k] ==
      if (k % 3 < 2 && k + 1 < |d| && d[k + 1] >= 0x80) || (k % 3 == 0 && k + 2 < |d| && d[k + 2] >= 0x80) then 0xff else d[k]
    decreases |d|
  {
    if |d| > 3 && k >= 3 {
      hide SmearUnit;
      assert Smear(d)[k] == Smear(d[3..])[k - 3];
      assert (k - 3) % 3 == k % 3;
      SmearAt(d[3..], k - 3);
    } else {
      assert Smear(d)[k] == SmearUnit(if |d| > 3 then d[..3] else d)[k];
    }
  }

  // ---------- The shift register ----------

  // A char as an unsigned long.
  function Promote(b: bv8): bv64 { if b >= 0x80 then 0xffff_ffff_ffff_ff00 | b as bv64 else b as bv64 }
  function Push(m: bv64, b: bv8): bv64 { (m << 8) | Promote(b) }
  function Shift8(m: bv64): bv64 { m << 8 }
  function Shift6(m: bv64): bv64 { m >> 6 }
  function Low6(m: bv64): (v: bv8) ensures v < 64 { (m & 0x3f) as bv8 }
  function Low24(m: bv64): bv24 { (m & 0xff_ffff) as bv24 }

  lemma RegisterSextets(m: bv64)
    ensures Low6(m) == Sextet3(Low24(m))
    ensures Low6(Shift6(m)) == Sextet2(Low24(m))
    ensures Low6(Shift6(Shift6(m))) == Sextet1(Low24(m))
    ensures Low6(Shift6(Shift6(Shift6(m)))) == Sextet0(Low24(m))
  {
  }

  // Only the low 24 bits matter, and they follow from the low 24 bits before: a char whose
  // sign bit is set leaves nothing of them.
  function Promote24(b: bv8): bv24 { if b >= 0x80 then 0xff_ff00 | b as bv24 else b as bv24 }
  function Push24(g: bv24, b: bv8): bv24 { Or24(Shift24(g), Promote24(b)) }
  function Shift24(g: bv24): bv24 { g << 8 }
  function Or24(g: bv24, h: bv24): bv24 { g | h }

  lemma Low24OfPromote(b: bv8)
    ensures Low24(Promote(b)) == Promote24(b)
  {
  }

  lemma Low24OfPush(m: bv64, b: bv8)
    ensures Low24(Push(m, b)) == Push24(Low24(m), b)
  {
  }

  lemma PushOfZero(m: bv64, g: bv24)
    ensures Push(m, 0) == Shift8(m) && Push24(g, 0) == Shift24(g)
  {
  }

  lemma Low24OfShift(m: bv64)
    ensures Low24(Shift8(m)) == Shift24(Low24(m))
  {
    hide Low24, Push, Push24, Shift8, Shift24;
    Low24OfPush(m, 0);
    PushOfZero(m, Low24(m));
  }

  lemma Low24OfZero()
    ensures Low24(0) == Group(0, 0, 0)
  {
  }

  lemma PromotedGroup(b: bv8)
    ensures Promote24(b) == Group(Overlaid(0, b >= 0x80), Overlaid(0, b >= 0x80), b)
  {
  }

  lemma ShiftedGroup(x: bv8, y: bv8, z: bv8)
    ensures Shift24(Group(x, y, z)) == Group(y, z, 0)
  {
  }

  lemma OrOfGroups(x: bv8, y: bv8, b: bv8, negative: bool)
    ensures Or24(Group(x, y, 0), Group(Overlaid(0, negative), Overlaid(0, negative), b)) ==
      Group(Overlaid(x, negative), Overlaid(y, negative), b)
  {
    if negative {
    } else {
    }
  }

  lemma PushedGroup(x: bv8, y: bv8, z: bv8, b: bv8)
    ensures Push24(Group(x, y, z), b) == Group(Overlaid(y, b >= 0x80), Overlaid(z, b >= 0x80), b)
  {
    hide Group, Overlaid, Shift24, Promote24, Or24;
    ShiftedGroup(x, y, z);
    PromotedGroup(b);
    OrOfGroups(y, z, b, b >= 0x80);
  }

  lemma ThreeChars(b0: bv8, b1: bv8, b2: bv8)
    ensures Low24(Push(Push(Promote(b0), b1), b2)) ==
      Group(Overlaid(b0, b1 >= 0x80 || b2 >= 0x80), Overlaid(b1, b2 >= 0x80), b2)
  {
    hide Low24, Push, Promote, Push24, Promote24, Group;
    Low24OfPromote(b0);
    Low24OfPush(Promote(b0), b1);
    Low24OfPush(Push(Promote(b0), b1), b2);
    PromotedGroup(b0);
    var fill := Overlaid(0, b0 >= 0x80);
    PushedGroup(fill, fill, b0, b1);
    PushedGroup(Overlaid(fill, b1 >= 0x80), Overlaid(b0, b1 >= 0x80), b1, b2);
  }

  lemma TwoChars(b0: bv8, b1: bv8)
    ensures Low24(Shift8(Push(Push(0, b0), b1))) == Group(Overlaid(b0, b1 >= 0x80), b1, 0)
  {
    hide Low24, Shift8, Shift24, Push, Push24, Group, Overlaid;
    Low24OfZero();
    Low24OfPush(0, b0);
    Low24OfPush(Push(0, b0), b1);
    Low24OfShift(Push(Push(0, b0), b1));
    var fill := Overlaid(0, b0 >= 0x80);
    PushedGroup(0, 0, 0, b0);
    PushedGroup(fill, fill, b0, b1);
    ShiftedGroup(Overlaid(fill, b1 >= 0x80), Overlaid(b0, b1 >= 0x80), b1);
  }

  lemma OneChar(b0: bv8)
    ensures Low24(Shift8(Shift8(Push(0, b0)))) == Group(b0, 0, 0)
  {
    hide Low24, Shift8, Shift24, Push, Push24, Group, Overlaid;
    Low24OfZero();
    Low24OfPush(0, b0);
    Low24OfShift(Push(0, b0));
    Low24OfShift(Shift8(Push(0, b0)));
    var fill := Overlaid(0, b0 >= 0x80);
    PushedGroup(0, 0, 0, b0);
    ShiftedGroup(fill, fill, b0);
    ShiftedGroup(fill, b0, 0);
  }

  // The four digits of the register's low 24 bits.
  function Digits(secret: bool, g: bv24): (t: seq<bv8>)
    ensures |t| == 4
  {
    [Char(secret, Sextet0(g)), Char(secret, Sextet1(g)), Char(secret, Sextet2(g)), Char(secret, Sextet3(g))]
  }

  lemma NoNulInDigits(secret: bool, g: bv24)
    ensures 0 !in Digits(secret, g)
  {
    hide Char, Code, Sextet0, Sextet1, Sextet2, Sextet3;
    CharFacts(secret, Sextet0(g));
    CharFacts(secret, Sextet1(g));
    CharFacts(secret, Sextet2(g));
    CharFacts(secret, Sextet3(g));
  }

  // A register loaded with three chars holds the first unit of their text.
  lemma FullUnit(secret: bool, e: seq<bv8>, m: bv64)
    requires |e| >= 3 && m == Push(Push(Promote(e[0]), e[1]), e[2])
    ensures 0 !in Digits(secret, Low24(m))
    ensures Text(secret, Smear(e)) == Digits(secret, Low24(m)) + Text(secret, Smear(e[3..]))
  {
    hide Char, Push, Promote, Overlaid, Group, Sextet0, Sextet1, Sextet2, Sextet3;
    ThreeChars(e[0], e[1], e[2]);
    NoNulInDigits(secret, Low24(m));
    var u := SmearUnit(e[..3]);
    assert UnitText(secret, u) == Digits(secret, Low24(m));
    assert e[3..] == [] ==> e[..3] == e;
    assert Smear(e) == u + Smear(e[3..]);
    assert Smear(e)[..3] == u && Smear(e)[3..] == Smear(e[3..]);
    assert Smear(e[3..]) == [] ==> Smear(e) == u;
  }

  lemma ShortUnit(secret: bool, e: seq<bv8>, m: bv64)
    requires 1 <= |e| <= 2
    requires m == if |e| == 1 then Shift8(Shift8(Push(0, e[0]))) else Shift8(Push(Push(0, e[0]), e[1]))
    ensures UnitText(secret, SmearUnit(e)) == Digits(secret, Low24(m))[..|e| + 1] + seq(3 - |e|, _ => End(secret))
    ensures 0 !in UnitText(secret, SmearUnit(e))
  {
    hide Char, Push, Promote, Shift8, Overlaid, Group, Sextet0, Sextet1, Sextet2, Sextet3;
    if |e| == 1 { OneChar(e[0]); } else { TwoChars(e[0], e[1]); }
    NoNulInDigits(secret, Low24(m));
  }

  lemma LastUnit(secret: bool, e: seq<bv8>)
    requires 1 <= |e| <= 2
    ensures Text(secret, Smear(e)) == UnitText(secret, SmearUnit(e))
  {
    hide UnitText;
  }

  lemma NoText(secret: bool)
    ensures Text(secret, Smear([])) == []
  {
  }

  // The loop at lines 64-67 and 82-85: the low 24 bits, six at a time from the right.
  method PutDigits(secret: bool, register: bv64, d: array<bv8>)
    requires d.Length == 5
    modifies d
    ensures d[..] == Digits(secret, Low24(register)) + [old(d[4])]
  {
    hide Char, Sextet0, Sextet1, Sextet2, Sextet3, Low24, Low6, Shift6;
    var i, m := 4, register;
    while i > 0
      invariant 0 <= i <= 4 && d[4] == old(d[4])
      invariant i == 4 ==> m == register
      invariant i == 3 ==> m == Shift6(register)
      invariant i == 2 ==> m == Shift6(Shift6(register))
      invariant i == 1 ==> m == Shift6(Shift6(Shift6(register)))
      invariant i <= 3 ==> d[3] == Char(secret, Low6(register))
      invariant i <= 2 ==> d[2] == Char(secret, Low6(Shift6(register)))
      invariant i <= 1 ==> d[1] == Char(secret, Low6(Shift6(Shift6(register))))
      invariant i == 0 ==> d[0] == Char(secret, Low6(Shift6(Shift6(Shift6(register)))))
    {
      i := i - 1;
      d[i] := Char(secret, Low6(m));
      m := Shift6(m);
    }
    RegisterSextets(register);
  }

  // strOutput += d, where d[4] is the terminator.
  method AppendText(text: seq<bv8>, d: array<bv8>) returns (longer: seq<bv8>)
    requires d.Length == 5 && d[4] == 0 && 0 !in d[..4]
    ensures longer == text + d[..4]
  {
    assert d[..] == d[..4] + [0];
    Base64.UpToNulAppend(d[..4], [0]);
    var tail := Base64.CString(d);
    longer := text + tail;
  }

  // Base64Encode with an alphabet (lines 37-93).
  method EncodeText(s: array<bv8>, length: int32, chSet: int32) returns (text: seq<bv8>)
    requires length <= s.Length
    ensures text == Text(chSet == 1, Smear(s[..if length < 0 then 0 else length]))
  {
    hide Char, End, Push, Promote, UnitText, SmearUnit, Text, Smear, Digits, Low24;
    var secret := chSet == BASE64_CH_SECRET;
    ghost var data := s[..if length < 0 then 0 else length];
    text := [];
    var n, from := length, 0;
    var d := new bv8[5](_ => 0);
    while n > 2
      invariant n == length - from && 0 <= from <= |data|
      invariant d[4] == 0
      invariant Text(secret, Smear(data)) == text + Text(secret, Smear(data[from..]))
    {
      var m := Promote(s[from]);
      m := Push(m, s[from + 1]);
      m := Push(m, s[from + 2]);
      PutDigits(secret, m, d);
      FullUnit(secret, data[from..], m);
      assert data[from..][3..] == data[from + 3..];
      text := AppendText(text, d);
      n, from := n - 3, from + 3;
    }
    if n > 0 {
      LoadTail(secret, s, from, n, d);
      assert data[from..] == s[from..from + n];
      text := AppendText(text, d);
      LastUnit(secret, data[from..]);
    } else {
      assert data[from..] == [];
      NoText(secret);
    }
  }

  // The tail of one or two bytes (lines 73-89).
  method LoadTail(secret: bool, s: array<bv8>, from: nat, n: nat, d: array<bv8>)
    requires 1 <= n <= 2 && from + n <= s.Length && d.Length == 5 && d[4] == 0 && d != s
    modifies d
    ensures d[..4] == UnitText(secret, SmearUnit(s[from..from + n])) && 0 !in d[..4] && d[4] == 0
  {
    hide Char, End, Push, Promote, UnitText, SmearUnit, Shift8, Digits, Low24;
    ghost var b0, b1 := s[from], s[from + n - 1];
    var m: bv64, i: nat := 0, 0;
    while i < n
      invariant 0 <= i <= n
      invariant m == if i == 0 then 0 else if i == 1 then Push(0, b0) else Push(Push(0, b0), b1)
    {
      m := Push(m, s[from + i]);
      i := i + 1;
    }
    while i < 3
      invariant n <= i <= 3
      invariant n == 2 && i == 2 ==> m == Push(Push(0, b0), b1)
      invariant n == 2 && i == 3 ==> m == Shift8(Push(Push(0, b0), b1))
      invariant n == 1 && i == 1 ==> m == Push(0, b0)
      invariant n == 1 && i == 2 ==> m == Shift8(Push(0, b0))
      invariant n == 1 && i == 3 ==> m == Shift8(Shift8(Push(0, b0)))
    {
      m := Shift8(m);
      i := i + 1;
    }
    PutDigits(secret, m, d);
    ShortUnit(secret, s[from..from + n], m);
    ghost var digits := d[..];
    assert digits[..4] == Digits(secret, Low24(m));
    i := 3;
    while i > n
      invariant n <= i <= 3
      invariant d[..] == if i == 3 then digits else if i == 2 then digits[3 := End(secret)] else digits[3 := End(secret)][2 := End(secret)]
    {
      d[i] := End(secret);
      i := i - 1;
    }
  }

  // ---------- What the decoder reads ----------

  // A size cast to int: 2^31 characters make it negative.
  function IntOf(size: nat): (n: int32)
    ensures n <= size
    ensures size <= INT_MAX ==> n == size
    ensures INT_MAX < size < 0x1_0000_0000 ==> n < 0
  {
    var u := size % 0x1_0000_0000;
    if u <= INT_MAX then u else u - 0x1_0000_0000
  }

  predicate InAlphabet(secret: bool, ch: bv8) { Code(secret, ch) != NONE }

  // The last character that a scan from i looks at: one of the alphabet, an end character
  // where that counts, or the last one before n.
  function Last(secret: bool, t: seq<bv8>, n: int, i: nat, orEnd: bool): (k: nat)
    requires i < |t| && n <= |t|
    ensures i <= k < |t|
    decreases |t| - i
  {
    if InAlphabet(secret, t[i]) || (orEnd && t[i] == End(secret)) || i + 1 >= n then i
    else Last(secret, t, n, i + 1, orEnd)
  }

  // The bytes of two to four characters of the alphabet.
  function UnitBytes(secret: bool, u: seq<bv8>): (d: seq<bv8>)
    requires 2 <= |u| <= 4
    ensures |d| == |u| - 1
  {
    var g := Ungroup(Code(secret, u[0]), Code(secret, u[1]),
                     if |u| > 2 then Code(secret, u[2]) else 0, if |u| > 3 then Code(secret, u[3]) else 0);
    [Octet0(g), Octet1(g), Octet2(g)][..|u| - 1]
  }

  // How a pass of the decoder's loop ends: with three bytes, at an end character, at the
  // end of the text, or because string::at throws behind it. d is what it stores, next the
  // position behind the last character it looks at.
  datatype How = Full | Ended | Failed | OutOfText
  datatype Pass = Pass(how: How, d: seq<bv8>, next: nat)

  function PassAt(secret: bool, t: seq<bv8>, n: int, i: nat): (p: Pass)
    requires i < n <= |t|
    ensures i < p.next <= |t| && |p.d| <= 3
    ensures p.how == Full <==> |p.d| == 3
    ensures p.how == Ended ==> |p.d| >= 1
    ensures |p.d| > 0 ==> p.next >= i + |p.d| + 1
  {
    var p0 := Last(secret, t, n, i, false);
    if !InAlphabet(secret, t[p0]) then Pass(Failed, [], p0 + 1)
    else if p0 + 1 == |t| then Pass(OutOfText, [], p0 + 1)
    else if !InAlphabet(secret, t[p0 + 1]) then Pass(Failed, [], p0 + 2)
    else SecondHalf(secret, t, n, p0)
  }

  // The rest of a pass, behind the characters p0 and p0 + 1 of the alphabet.
  function SecondHalf(secret: bool, t: seq<bv8>, n: int, p0: nat): (p: Pass)
    requires n <= |t| && p0 + 2 <= |t|
    ensures p0 + |p.d| < p.next <= |t| && 1 <= |p.d| <= 3
    ensures p.how == Full <==> |p.d| == 3
  {
    var d1 := UnitBytes(secret, [t[p0], t[p0 + 1]]);
    if p0 + 2 == |t| then Pass(OutOfText, d1, p0 + 2)
    else
      var p2 := Last(secret, t, n, p0 + 2, true);
      if t[p2] == End(secret) then Pass(Ended, d1, p2 + 1)
      else if !InAlphabet(secret, t[p2]) then Pass(Failed, d1, p2 + 1)
      else LastQuarter(secret, t, n, p0, p2)
  }

  // .. and behind the third character p2.
  function LastQuarter(secret: bool, t: seq<bv8>, n: int, p0: nat, p2: nat): (p: Pass)
    requires n <= |t| && p0 + 2 <= p2 < |t|
    ensures p0 + |p.d| < p.next <= |t| && 2 <= |p.d| <= 3
    ensures p.how == Full <==> |p.d| == 3
  {
    var d2 := UnitBytes(secret, [t[p0], t[p0 + 1], t[p2]]);
    if p2 + 1 == |t| then Pass(OutOfText, d2, p2 + 1)
    else
      var p3 := Last(secret, t, n, p2 + 1, true);
      if t[p3] == End(secret) then Pass(Ended, d2, p3 + 1)
      else if !InAlphabet(secret, t[p3]) then Pass(Failed, d2, p3 + 1)
      else Pass(Full, UnitBytes(secret, [t[p0], t[p0 + 1], t[p2], t[p3]]), p3 + 1)
  }

  // What decoding comes to: nothing done, the buffer freed again, the data, or an exception
  // after the data so far.
  datatype Result = Refused | Rejected | Data(d: seq<bv8>) | Thrown(d: seq<bv8>)

  function Behind(d: seq<bv8>, r: Result): Result {
    match r
    case Data(e) => Data(d + e)
    case Thrown(e) => Thrown(d + e)
    case Refused => Refused
    case Rejected => Rejected
  }

  // The passes from i on.
  function DecodeFrom(secret: bool, t: seq<bv8>, n: int, i: nat): (r: Result)
    requires n <= |t|
    ensures r != Refused
    decreases |t| - i
  {
    if i >= n then Data([])
    else
      var p := PassAt(secret, t, n, i);
      match p.how
      case Full => Behind(p.d, DecodeFrom(secret, t, n, p.next))
      case Ended => Data(p.d)
      case Failed => Rejected
      case OutOfText => Thrown(p.d)
  }

  function DecodeResult(secret: bool, t: seq<bv8>): Result {
    var n := IntOf(|t|);
    if n < 4 then Refused else DecodeFrom(secret, t, n, 0)
  }

  // The number of bytes that the passes store, and of characters that they look at.
  function Stored(secret: bool, t: seq<bv8>, n: int, i: nat): (k: nat)
    requires n <= |t|
    decreases |t| - i
  {
    if i >= n then 0
    else
      var p := PassAt(secret, t, n, i);
      |p.d| + if p.how == Full then Stored(secret, t, n, p.next) else 0
  }

  function Reach(secret: bool, t: seq<bv8>, n: int, i: nat): (k: nat)
    requires n <= |t| && i <= |t|
    ensures k <= |t|
    decreases |t| - i
  {
    if i >= n then i
    else
      var p := PassAt(secret, t, n, i);
      if p.how == Full then Reach(secret, t, n, p.next) else p.next
  }

  // The room that the decoder allocates for a text of int size n.
  function Allocated(n: nat): nat { n / 4 * 3 + 1 }

  // What the source asks of a text: that every character looked at has an entry in the
  // tables of 128, and that what is stored fits the buffer.
  predicate StaysInBounds(secret: bool, t: seq<bv8>) {
    var n := IntOf(|t|);
    n < 4 || (Stored(secret, t, n, 0) <= Allocated(n) && forall k :: 0 <= k < Reach(secret, t, n, 0) ==> t[k] < 0x80)
  }

  // The decoder's expressions (lines 146, 161 and 176).
  function Join0(c0: bv8, c1: bv8): bv8 { (c0 << 2) | ((c1 & 0x30) >> 4) }
  function Join1(c1: bv8, c2: bv8): bv8 { ((c1 & 0xf) << 4) | ((c2 & 0x3c) >> 2) }
  function Join2(c2: bv8, c3: bv8): bv8 { ((c2 & 0x03) << 6) | c3 }

  lemma Join0IsOctet(c0: bv8, c1: bv8, c2: bv8, c3: bv8)
    requires c0 < 64 && c1 < 64 && c2 < 64 && c3 < 64
    ensures Join0(c0, c1) == Octet0(Ungroup(c0, c1, c2, c3))
  {
  }

  lemma Join1IsOctet(c0: bv8, c1: bv8, c2: bv8, c3: bv8)
    requires c0 < 64 && c1 < 64 && c2 < 64 && c3 < 64
    ensures Join1(c1, c2) == Octet1(Ungroup(c0, c1, c2, c3))
  {
  }

  lemma Join2IsOctet(c0: bv8, c1: bv8, c2: bv8, c3: bv8)
    requires c0 < 64 && c1 < 64 && c2 < 64 && c3 < 64
    ensures Join2(c2, c3) == Octet2(Ungroup(c0, c1, c2, c3))
  {
  }

  lemma CodeRange(secret: bool, ch: bv8)
    ensures InAlphabet(secret, ch) ==> Code(secret, ch) < 64 && Char(secret, Code(secret, ch)) == ch
  {
    hide NormalInverse, SecretInverse, Normal, Secret;
    NormalInverseRange(ch);
    SecretInverseRange(ch);
  }

  // A character that has a code is the digit of that code.
  lemma NormalInverseRange(ch: bv8)
    ensures NormalInverse(ch) == NONE || (NormalInverse(ch) < 64 && Normal(NormalInverse(ch)) == ch)
  {
  }

  lemma SecretInverseRange(ch: bv8)
    ensures SecretInverse(ch) == NONE || (SecretInverse(ch) < 64 && Secret(SecretInverse(ch)) == ch)
  {
  }

  // The source's expressions on two, three and four characters.
  lemma JoinsOfUnit(secret: bool, u: seq<bv8>)
    requires 2 <= |u| <= 4 && forall k :: 0 <= k < |u| ==> InAlphabet(secret, u[k])
    ensures UnitBytes(secret, u) ==
      [Join0(Code(secret, u[0]), Code(secret, u[1]))]
      + (if |u| > 2 then [Join1(Code(secret, u[1]), Code(secret, u[2]))] else [])
      + (if |u| > 3 then [Join2(Code(secret, u[2]), Code(secret, u[3]))] else [])
  {
    hide Code, InAlphabet, Join0, Join1, Join2, Octet0, Octet1, Octet2, Ungroup;
    var c0, c1 := Code(secret, u[0]), Code(secret, u[1]);
    var c2, c3 := if |u| > 2 then Code(secret, u[2]) else 0, if |u| > 3 then Code(secret, u[3]) else 0;
    CodeRange(secret, u[0]);
    CodeRange(secret, u[1]);
    if |u| > 2 { CodeRange(secret, u[2]); }
    if |u| > 3 { CodeRange(secret, u[3]); }
    Join0IsOctet(c0, c1, c2, c3);
    Join1IsOctet(c0, c1, c2, c3);
    Join2IsOctet(c0, c1, c2, c3);
  }

  // A call returns a code, or string::at throws.
  datatype Outcome = Return(code: int) | OutOfRange

  // The loop at lines 127-130: characters outside the alphabet are passed over.
  method FirstCode(secret: bool, t: seq<bv8>, n: int, from: nat) returns (c: bv8, i: nat)
    requires from < |t| && n <= |t|
    ensures i == Last(secret, t, n, from, false) + 1 && c == Code(secret, t[i - 1])
  {
    hide Code;
    c, i := Code(secret, t[from]), from + 1;
    while i < n && c == NONE
      invariant from < i <= |t| && c == Code(secret, t[i - 1])
      invariant Last(secret, t, n, from, false) == Last(secret, t, n, i - 1, false)
    {
      c, i := Code(secret, t[i]), i + 1;
    }
  }

  datatype Scan = Found(c: bv8) | EndSeen | Threw

  // The loops at lines 149-155 and 164-170, which also stop at the end character.
  method NextCode(secret: bool, t: seq<bv8>, n: int, from: nat) returns (r: Scan, i: nat)
    requires from <= |t| && n <= |t|
    ensures from == |t| ==> r == Threw && i == from
    ensures from < |t| ==> i == Last(secret, t, n, from, true) + 1
    ensures from < |t| ==> r == if t[i - 1] == End(secret) then EndSeen else Found(Code(secret, t[i - 1]))
  {
    hide Code, End;
    if from == |t| {
      return Threw, from;
    }
    i := from + 1;
    if t[from] == End(secret) {
      return EndSeen, i;
    }
    var c := Code(secret, t[from]);
    while i < n && c == NONE
      invariant from < i <= |t| && c == Code(secret, t[i - 1]) && t[i - 1] != End(secret)
      invariant Last(secret, t, n, from, true) == Last(secret, t, n, i - 1, true)
    {
      if t[i] == End(secret) {
        return EndSeen, i + 1;
      }
      c, i := Code(secret, t[i]), i + 1;
    }
    r := Found(c);
  }

  // buf[length++] = b.
  method Store(room: array<bv8>, at: nat, b: bv8) returns (length: nat)
    requires at < room.Length
    modifies room
    ensures length == at + 1 && room[..length] == old(room[..at]) + [b]
  {
    room[at] := b;
    length := at + 1;
  }

  // One pass of the loop at lines 124-177.
  method DecodePass(secret: bool, t: seq<bv8>, n: int, from: nat, room: array<bv8>, at: nat)
    returns (how: How, i: nat, length: nat)
    requires from < n <= |t| && at + |PassAt(secret, t, n, from).d| <= room.Length
    modifies room
    ensures var p := PassAt(secret, t, n, from);
      && how == p.how && i == p.next && length == at + |p.d| && room[..length] == old(room[..at]) + p.d
  {
    hide Code, Last, SecondHalf;
    var c0, c1: bv8;
    c0, i := FirstCode(secret, t, n, from);
    ghost var p0 := i - 1;
    if c0 == NONE {
      return Failed, i, at;
    }
    if i == |t| {
      return OutOfText, i, at;
    }
    // The condition of this inner loop tests the first code, so it never repeats.
    c1, i := Code(secret, t[i]), i + 1;
    if c1 == NONE {
      return Failed, i, at;
    }
    how, i, length := DecodeSecondHalf(secret, t, n, c0, c1, i, room, at, p0);
  }

  // The rest of the pass (lines 146-176), behind the codes c0 and c1.
  method DecodeSecondHalf(secret: bool, t: seq<bv8>, n: int, c0: bv8, c1: bv8, from: nat, room: array<bv8>, at: nat,
                          ghost p0: nat)
    returns (how: How, i: nat, length: nat)
    requires n <= |t| && from == p0 + 2 <= |t| && InAlphabet(secret, t[p0]) && InAlphabet(secret, t[p0 + 1])
    requires c0 == Code(secret, t[p0]) && c1 == Code(secret, t[p0 + 1])
    requires at + |SecondHalf(secret, t, n, p0).d| <= room.Length
    modifies room
    ensures var p := SecondHalf(secret, t, n, p0);
      && how == p.how && i == p.next && length == at + |p.d| && room[..length] == old(room[..at]) + p.d
  {
    hide Code, End, Last, LastQuarter, Join0, Join1, Join2, UnitBytes;
    JoinsOfUnit(secret, [t[p0], t[p0 + 1]]);
    length := Store(room, at, Join0(c0, c1));
    var scan;
    scan, i := NextCode(secret, t, n, from);
    if scan == Threw {
      return OutOfText, i, length;
    }
    if scan == EndSeen {
      return Ended, i, length;
    }
    if scan.c == NONE {
      return Failed, i, length;
    }
    assert room[..length - 1] == old(room[..at]);
    how, i, length := DecodeLastQuarter(secret, t, n, c0, c1, scan.c, i, room, length, p0);
  }

  // .. and behind c2 (lines 161-176), with the first byte stored.
  method DecodeLastQuarter(secret: bool, t: seq<bv8>, n: int, ghost c0: bv8, c1: bv8, c2: bv8, from: nat,
                           room: array<bv8>, at: nat, ghost p0: nat)
    returns (how: How, i: nat, length: nat)
    requires n <= |t| && p0 + 2 < from <= |t|
    requires InAlphabet(secret, t[p0]) && InAlphabet(secret, t[p0 + 1]) && InAlphabet(secret, t[from - 1])
    requires c0 == Code(secret, t[p0]) && c1 == Code(secret, t[p0 + 1]) && c2 == Code(secret, t[from - 1])
    requires 1 <= at && at + |LastQuarter(secret, t, n, p0, from - 1).d| <= room.Length + 1
    requires room[at - 1] == Join0(c0, c1)
    modifies room
    ensures var p := LastQuarter(secret, t, n, p0, from - 1);
      && how == p.how && i == p.next && length == at + |p.d| - 1 && room[..length] == old(room[..at - 1]) + p.d
  {
    hide Code, End, Last, Join0, Join1, Join2, UnitBytes;
    ghost var before := room[..at - 1];
    assert room[..at] == before + [Join0(c0, c1)];
    JoinsOfUnit(secret, [t[p0], t[p0 + 1], t[from - 1]]);
    length := Store(room, at, Join1(c1, c2));
    assert room[..length] == before + [Join0(c0, c1), Join1(c1, c2)];
    var scan;
    scan, i := NextCode(secret, t, n, from);
    if scan == Threw {
      return OutOfText, i, length;
    }
    if scan == EndSeen {
      return Ended, i, length;
    }
    if scan.c == NONE {
      return Failed, i, length;
    }
    JoinsOfUnit(secret, [t[p0], t[p0 + 1], t[from - 1], t[i - 1]]);
    length := Store(room, length, Join2(c2, scan.c));
    how := Full;
  }

  // Base64Decode with an alphabet (lines 95-187), on all texts on which the source stays
  // inside its tables and its buffer.
  method DecodeText(t: seq<bv8>, chSet: int32, bufBefore: array?<bv8>, lengthBefore: int)
    returns (outcome: Outcome, buf: array?<bv8>, length: int)
    requires StaysInBounds(chSet == 1, t)
    ensures match DecodeResult(chSet == 1, t)
      case Refused => outcome == Return(-1) && buf == bufBefore && length == lengthBefore
      case Rejected => outcome == Return(-1) && buf == null && length == 0
      case Data(d) => outcome == Return(0) && buf != null && length == |d| <= buf.Length && buf[..length] == d
      case Thrown(d) => outcome == OutOfRange && buf != null && length == |d| <= buf.Length && buf[..length] == d
    ensures IntOf(|t|) >= 4 && buf != null ==> fresh(buf) && buf.Length == IntOf(|t|) / 4 * 3 + 1
  {
    hide DecodeFrom, Stored, PassAt, Reach, Behind, IntOf;
    var secret := chSet == BASE64_CH_SECRET;
    var n := IntOf(|t|);
    if n < 4 {
      return Return(-1), bufBefore, lengthBefore;
    }
    var room := new bv8[n / 4 * 3 + 1];
    length := 0;
    var i := 0;
    BehindTwice([], [], DecodeFrom(secret, t, n, 0));
    while i < n
      invariant 0 <= i <= |t| && 0 <= length
      invariant length + Stored(secret, t, n, i) <= room.Length
      invariant DecodeFrom(secret, t, n, 0) == Behind(room[..length], DecodeFrom(secret, t, n, i))
      invariant length == 0 ==> i == 0
      decreases |t| - i
    {
      PassUnfolds(secret, t, n, i);
      ghost var d, behind := PassAt(secret, t, n, i).d, DecodeFrom(secret, t, n, PassAt(secret, t, n, i).next);
      BehindTwice(room[..length], d, behind);
      var how: How;
      how, i, length := DecodePass(secret, t, n, i, room, length);
      if how == OutOfText {
        return OutOfRange, room, length;
      } else if how == Ended {
        return Return(0), room, length;
      } else if how == Failed {
        length := 0;
        break;
      }
    }
    if length == 0 {
      return Return(-1), null, 0;
    }
    PassesEnd(secret, t, n, i);
    BehindTwice(room[..length], [], Rejected);
    outcome, buf := Return(0), room;
  }

  lemma BehindTwice(d: seq<bv8>, e: seq<bv8>, r: Result)
    ensures Behind(d, Behind(e, r)) == Behind(d + e, r)
    ensures Behind(d, Data(e)) == Data(d + e) && Behind(d, Thrown(e)) == Thrown(d + e)
    ensures Behind(d, Rejected) == Rejected && Behind([], r) == r
  {
  }

  lemma PassUnfolds(secret: bool, t: seq<bv8>, n: int, i: nat)
    requires i < n <= |t|
    ensures var p := PassAt(secret, t, n, i);
      && i < p.next <= |t| && |p.d| <= 3 && (p.how == Full <==> |p.d| == 3) && (p.how == Ended ==> |p.d| >= 1)
      && Stored(secret, t, n, i) == |p.d| + (if p.how == Full then Stored(secret, t, n, p.next) else 0)
      && DecodeFrom(secret, t, n, i) ==
        match p.how
        case Full => Behind(p.d, DecodeFrom(secret, t, n, p.next))
        case Ended => Data(p.d)
        case Failed => Rejected
        case OutOfText => Thrown(p.d)
  {
    hide PassAt;
  }

  lemma PassesEnd(secret: bool, t: seq<bv8>, n: int, i: nat)
    requires n <= |t| && i >= n
    ensures DecodeFrom(secret, t, n, i) == Data([])
  {
  }

  // Which character a scan stops at: everything before it is passed over.
  predicate IsPassedOver(secret: bool, t: seq<bv8>, n: int, j: nat, orEnd: bool)
    requires j < |t|
  {
    j + 1 < n && !InAlphabet(secret, t[j]) && !(orEnd && t[j] == End(secret))
  }

  lemma {:induction false} LastExactly(secret: bool, t: seq<bv8>, n: int, i: nat, orEnd: bool, k: nat)
    requires i <= k < |t| && n <= |t|
    ensures Last(secret, t, n, i, orEnd) == k <==>
      (forall j :: i <= j < k ==> IsPassedOver(secret, t, n, j, orEnd)) && !IsPassedOver(secret, t, n, k, orEnd)
    decreases |t| - i
  {
    hide InAlphabet, End;
    if i < k && IsPassedOver(secret, t, n, i, orEnd) {
      LastExactly(secret, t, n, i + 1, orEnd, k);
    }
  }

  // Characters outside the alphabet in front of a unit do not count.
  lemma SkippedInFront(secret: bool, t: seq<bv8>, n: int, i: nat)
    requires i + 1 < n <= |t| && !InAlphabet(secret, t[i])
    ensures DecodeFrom(secret, t, n, i) == DecodeFrom(secret, t, n, i + 1)
  {
    hide InAlphabet, SecondHalf;
  }

  // Texts with other characters in them: the third and the fourth place pass over them, the
  // second does not. A text may also end too early, or in such characters.
  lemma DecodeExamples()
    ensures DecodeResult(false, [0x0a, 0x51, 0x51, 0x0a, 0x3d, 0x3d]) == Data([0x41]) // "\nQQ\n=="
    ensures DecodeResult(false, [0x51, 0x55, 0x49, 0x0a, 0x3d]) == Data([0x41, 0x42]) // "QUI\n="
    ensures DecodeResult(false, [0x51, 0x0a, 0x51, 0x3d, 0x3d]) == Rejected // "Q\nQ=="
    ensures DecodeResult(false, [0x51, 0x55, 0x4a, 0x44, 0x51]) == Thrown([0x41, 0x42, 0x43]) // "QUJDQ"
    ensures DecodeResult(false, [0x51, 0x55, 0x4a, 0x44, 0x0a]) == Rejected // "QUJD\n"
    ensures DecodeResult(false, [0x51, 0x55, 0x4a]) == Refused // "QUJ"
  {
    hide DecodeFrom;
    JunkInFront();
    JunkBeforeEnd();
    JunkInSecondPlace();
    TextTooShort();
    JunkAtTheEnd();
  }

  lemma ExampleCodes()
    ensures InAlphabet(false, 0x51) && InAlphabet(false, 0x55) && InAlphabet(false, 0x49)
    ensures InAlphabet(false, 0x4a) && InAlphabet(false, 0x44)
    ensures !InAlphabet(false, 0x0a) && !InAlphabet(false, 0x3d) && End(false) == 0x3d
  {
  }

  lemma ExampleBytes()
    ensures UnitBytes(false, [0x51, 0x51]) == [0x41]
    ensures UnitBytes(false, [0x51, 0x55, 0x49]) == [0x41, 0x42]
    ensures UnitBytes(false, [0x51, 0x55, 0x4a, 0x44]) == [0x41, 0x42, 0x43]
  {
  }

  lemma JunkInFront()
    ensures DecodeResult(false, [0x0a, 0x51, 0x51, 0x0a, 0x3d, 0x3d]) == Data([0x41])
  {
    hide InAlphabet, End, UnitBytes, SecondHalf;
    ExampleCodes();
    var t: seq<bv8> := [0x0a, 0x51, 0x51, 0x0a, 0x3d, 0x3d];
    SkippedInFront(false, t, 6, 0);
    assert DecodeFrom(false, t, 6, 1) == Data([0x41]) by { JunkInThirdPlace(t); }
    hide DecodeFrom;
  }

  lemma JunkInThirdPlace(t: seq<bv8>)
    requires t == [0x0a, 0x51, 0x51, 0x0a, 0x3d, 0x3d]
    ensures DecodeFrom(false, t, 6, 1) == Data([0x41])
  {
    hide InAlphabet, End, UnitBytes;
    ExampleCodes();
    ExampleBytes();
  }

  lemma JunkBeforeEnd()
    ensures DecodeResult(false, [0x51, 0x55, 0x49, 0x0a, 0x3d]) == Data([0x41, 0x42])
  {
    hide InAlphabet, End, UnitBytes;
    ExampleCodes();
    ExampleBytes();
  }

  lemma JunkInSecondPlace()
    ensures DecodeResult(false, [0x51, 0x0a, 0x51, 0x3d, 0x3d]) == Rejected
  {
    hide InAlphabet, End, UnitBytes;
    ExampleCodes();
    ExampleBytes();
  }

  lemma TextTooShort()
    ensures DecodeResult(false, [0x51, 0x55, 0x4a, 0x44, 0x51]) == Thrown([0x41, 0x42, 0x43])
  {
    hide InAlphabet, End, UnitBytes;
    ExampleCodes();
    ExampleBytes();
  }

  lemma JunkAtTheEnd()
    ensures DecodeResult(false, [0x51, 0x55, 0x4a, 0x44, 0x0a]) == Rejected
  {
    hide InAlphabet, End, UnitBytes;
    ExampleCodes();
    ExampleBytes();
  }

  // ---------- When the decoder stays inside its buffer ----------

  // The bytes of r characters of data.
  function Yield(r: nat): nat { r / 4 * 3 + if r % 4 <= 1 then 0 else r % 4 - 1 }

  // A character of the alphabet, and in a third or fourth place not the end character.
  predicate IsData(secret: bool, t: seq<bv8>, k: nat)
    requires k < |t|
  {
    InAlphabet(secret, t[k]) && (k % 4 >= 2 ==> t[k] != End(secret))
  }

  // A pass over four characters of data, or over the last three.
  lemma PassOverData(secret: bool, t: seq<bv8>, i: nat)
    requires i + 3 <= |t| && i % 4 == 0
    ensures var p := PassAt(secret, t, |t|, i);
      (p.how == Full && p.next == i + 4) || (|p.d| == 2 && p.next == i + 3 == |t|) <==>
      IsData(secret, t, i) && IsData(secret, t, i + 1) && IsData(secret, t, i + 2) && (i + 3 < |t| ==> IsData(secret, t, i + 3))
  {
    hide Code, End, UnitBytes, InAlphabet;
    assert (i + 1) % 4 == 1 && (i + 2) % 4 == 2 && (i + 3) % 4 == 3;
  }

  lemma {:induction false} StoredAtMost(secret: bool, t: seq<bv8>, i: nat)
    requires i <= |t|
    ensures Stored(secret, t, |t|, i) <= Yield(|t| - i)
    decreases |t| - i
  {
    hide PassAt;
    if i < |t| {
      PassUnfolds(secret, t, |t|, i);
      var p := PassAt(secret, t, |t|, i);
      if p.how == Full {
        StoredAtMost(secret, t, p.next);
      }
    }
  }

  predicate AllData(secret: bool, t: seq<bv8>, i: nat) {
    forall k :: i <= k < |t| ==> IsData(secret, t, k)
  }

  lemma YieldSteps(r: nat, u: nat)
    requires r % 4 == 3 && u <= r
    ensures r == 3 ==> Yield(r) == 2
    ensures r > 3 ==> Yield(r) > 2 && Yield(r - 4) + 3 == Yield(r)
    ensures u > 4 ==> Yield(r - u) + 3 < Yield(r)
  {
  }

  lemma AllDataUnfolds(secret: bool, t: seq<bv8>, i: nat)
    requires i + 3 <= |t|
    ensures AllData(secret, t, i) == (
      && AllData(secret, t, i + 4)
      && IsData(secret, t, i) && IsData(secret, t, i + 1) && IsData(secret, t, i + 2) && (i + 3 < |t| ==> IsData(secret, t, i + 3)))
  {
    hide IsData;
  }

  // The yield is reached on data alone, here from unit q of a text of m units and three
  // characters.
  lemma {:induction false} StoredExactly(secret: bool, t: seq<bv8>, q: nat, m: nat)
    requires q <= m && |t| == 4 * m + 3
    ensures Stored(secret, t, |t|, 4 * q) == Yield(|t| - 4 * q) <==> AllData(secret, t, 4 * q)
    decreases m - q
  {
    hide PassAt, Stored, AllData, IsData, Yield;
    var i := 4 * q;
    PassUnfolds(secret, t, |t|, i);
    PassOverData(secret, t, i);
    AllDataUnfolds(secret, t, i);
    var p := PassAt(secret, t, |t|, i);
    YieldSteps(|t| - i, p.next - i);
    if p.how == Full {
      StoredAtMost(secret, t, p.next);
      if p.next == i + 4 {
        StoredExactly(secret, t, q + 1, m);
      }
    } else if p.next == i + 3 == |t| {
      assert AllData(secret, t, i + 4) by { NoDataLeft(secret, t, i + 4); }
    }
  }

  lemma NoDataLeft(secret: bool, t: seq<bv8>, i: nat)
    requires i >= |t|
    ensures AllData(secret, t, i)
  {
  }

  // The buffer is overrun, by one byte, by exactly the texts of data that end after the
  // third character of a unit.
  lemma OverrunsExactly(secret: bool, t: seq<bv8>)
    requires 4 <= |t| <= INT_MAX
    ensures Stored(secret, t, |t|, 0) > Allocated(|t|) <==> |t| % 4 == 3 && AllData(secret, t, 0)
    ensures Stored(secret, t, |t|, 0) <= Allocated(|t|) + 1
  {
    hide Stored, AllData;
    StoredAtMost(secret, t, 0);
    if |t| % 4 == 3 {
      StoredExactly(secret, t, 0, |t| / 4);
    }
  }

  // "AAAAAAA" stores five bytes in a buffer of four.
  lemma OverrunBySevenCharacters()
    ensures var t := seq(7, _ => 0x41); !StaysInBounds(false, t) && Stored(false, t, 7, 0) == 5 && Allocated(7) == 4
  {
    hide Stored;
    var t: seq<bv8> := seq(7, _ => 0x41);
    OverrunsExactly(false, t);
    assert NormalInverse(0x41) == 0;
  }

  // ---------- The two codecs compared, and the round trip ----------

  // The data on which the sign bits change nothing: a byte of 0x80 or more may only follow
  // bytes 0xff within its group.
  predicate IsFaithfulUnit(d: seq<bv8>)
    requires 1 <= |d| <= 3
  {
    && (|d| >= 2 && d[1] >= 0x80 ==> d[0] == 0xff)
    && (|d| == 3 && d[2] >= 0x80 ==> d[0] == 0xff && d[1] == 0xff)
  }

  predicate IsFaithful(d: seq<bv8>) {
    |d| == 0 || if |d| <= 3 then IsFaithfulUnit(d) else IsFaithfulUnit(d[..3]) && IsFaithful(d[3..])
  }

  lemma {:induction false} SmearKeepsExactlyFaithful(d: seq<bv8>)
    ensures Smear(d) == d <==> IsFaithful(d)
    decreases |d|
  {
    if |d| > 3 {
      SmearKeepsExactlyFaithful(d[3..]);
      SmearUnitKeepsExactlyFaithful(d[..3]);
      assert d == d[..3] + d[3..];
      assert Smear(d)[..3] == SmearUnit(d[..3]) && Smear(d)[3..] == Smear(d[3..]);
    } else if |d| > 0 {
      SmearUnitKeepsExactlyFaithful(d);
    }
  }

  lemma SmearUnitKeepsExactlyFaithful(d: seq<bv8>)
    requires 1 <= |d| <= 3
    ensures SmearUnit(d) == d <==> IsFaithfulUnit(d)
  {
    var e := SmearUnit(d);
    assert e == d <==> forall k :: 0 <= k < |d| ==> e[k] == d[k];
    assert |d| >= 2 ==> (e[0] == d[0] && e[1] == d[1] ==> IsFaithfulUnit(d));
  }

  lemma {:induction false} SevenBitIsFaithful(d: seq<bv8>)
    requires forall k :: 0 <= k < |d| ==> d[k] < 0x80
    ensures IsFaithful(d)
    decreases |d|
  {
    if |d| > 3 {
      SevenBitIsFaithful(d[3..]);
    }
  }

  lemma {:induction false} NormalTextIsEncode(d: seq<bv8>)
    ensures Text(false, d) == Encode(d)
    decreases |d|
  {
    hide UnitText, EncodeUnit;
    if |d| > 3 {
      NormalUnitIsEncodeUnit(d[..3]);
      NormalTextIsEncode(d[3..]);
    } else if |d| > 0 {
      NormalUnitIsEncodeUnit(d);
    }
  }

  lemma NormalUnitIsEncodeUnit(d: seq<bv8>)
    requires 1 <= |d| <= 3
    ensures UnitText(false, d) == EncodeUnit(d)
  {
    hide Normal, Digit, Group, Sextet0, Sextet1, Sextet2, Sextet3;
    var g := Group(d[0], if |d| > 1 then d[1] else 0, if |d| > 2 then d[2] else 0);
    NormalIsDigit(Sextet0(g));
    NormalIsDigit(Sextet1(g));
    NormalIsDigit(Sextet2(g));
    NormalIsDigit(Sextet3(g));
  }

  // Under the normal alphabet this encoder agrees with RFC 4648, and so with the unit-based
  // one, on exactly the faithful data.
  lemma EncodersAgree(d: seq<bv8>)
    ensures Text(false, Smear(d)) == Encode(d) <==> IsFaithful(d)
  {
    hide Text, Smear, Encode, IsFaithful;
    NormalTextIsEncode(Smear(d));
    SmearKeepsExactlyFaithful(d);
    DecodeEncode(d);
    DecodeEncode(Smear(d));
  }

  lemma EncodersDisagree()
    ensures Text(false, Smear([0x41, 0x80])) != Encode([0x41, 0x80])
  {
    EncodersAgree([0x41, 0x80]);
  }

  // A data sextet in the third or fourth place of a group is 17, the code of '#'.
  predicate UnitHasEndDigit(d: seq<bv8>)
    requires 1 <= |d| <= 3
  {
    var g := Group(d[0], if |d| > 1 then d[1] else 0, if |d| > 2 then d[2] else 0);
    (|d| > 1 && Sextet2(g) == 17) || (|d| > 2 && Sextet3(g) == 17)
  }

  predicate HasEndDigit(d: seq<bv8>) {
    |d| > 0 && if |d| <= 3 then UnitHasEndDigit(d) else UnitHasEndDigit(d[..3]) || HasEndDigit(d[3..])
  }

  // The first octets of a group do not depend on the sextets after them.
  lemma OctetsOfSextets(b0: bv8, b1: bv8, b2: bv8)
    ensures var g := Group(b0, b1, b2);
      var v0, v1, v2, v3 := Sextet0(g), Sextet1(g), Sextet2(g), Sextet3(g);
      && Octet0(Ungroup(v0, v1, 0, 0)) == b0
      && Octet0(Ungroup(v0, v1, v2, 0)) == b0 && Octet1(Ungroup(v0, v1, v2, 0)) == b1
      && Octet0(Ungroup(v0, v1, v2, v3)) == b0 && Octet1(Ungroup(v0, v1, v2, v3)) == b1
      && Octet2(Ungroup(v0, v1, v2, v3)) == b2
  {
    hide Group, Ungroup, Octet0, Octet1, Octet2, Sextet0, Sextet1, Sextet2, Sextet3, Join0, Join1, Join2;
    var g := Group(b0, b1, b2);
    var v0, v1, v2, v3 := Sextet0(g), Sextet1(g), Sextet2(g), Sextet3(g);
    GroupBits(b0, b1, b2);
    Join0IsOctet(v0, v1, 0, 0);
    Join0IsOctet(v0, v1, v2, 0);
    Join0IsOctet(v0, v1, v2, v3);
    Join1IsOctet(v0, v1, v2, 0);
    Join1IsOctet(v0, v1, v2, v3);
  }

  // A pass over a unit with no other character in it.
  lemma PassOverCodes(secret: bool, t: seq<bv8>, i: nat)
    requires i + 4 <= |t| && InAlphabet(secret, t[i]) && InAlphabet(secret, t[i + 1])
    requires t[i + 2] == End(secret) || InAlphabet(secret, t[i + 2])
    requires t[i + 3] == End(secret) || InAlphabet(secret, t[i + 3])
    ensures PassAt(secret, t, |t|, i) ==
      if t[i + 2] == End(secret) then Pass(Ended, UnitBytes(secret, t[i..i + 2]), i + 3)
      else if t[i + 3] == End(secret) then Pass(Ended, UnitBytes(secret, t[i..i + 3]), i + 4)
      else Pass(Full, UnitBytes(secret, t[i..i + 4]), i + 4)
  {
    hide Code, End, UnitBytes, InAlphabet;
    assert t[i..i + 2] == [t[i], t[i + 1]] && t[i..i + 3] == [t[i], t[i + 1], t[i + 2]];
    assert t[i..i + 4] == [t[i], t[i + 1], t[i + 2], t[i + 3]];
  }

  // A pass over a unit that the encoder wrote.
  lemma PassOverUnit(secret: bool, t: seq<bv8>, i: nat, e: seq<bv8>)
    requires 1 <= |e| <= 3 && i + 4 <= |t| && t[i..i + 4] == UnitText(secret, e)
    ensures var p := PassAt(secret, t, |t|, i);
      && p.d <= e && (p.d == e <==> !(secret && UnitHasEndDigit(e)))
      && (p.how == if |p.d| == 3 then Full else Ended) && (|p.d| == 3 ==> p.next == i + 4)
  {
    hide Char, Code, End, PassAt, Group, Ungroup, Octet0, Octet1, Octet2, Sextet0, Sextet1, Sextet2, Sextet3;
    var b1, b2 := if |e| > 1 then e[1] else 0, if |e| > 2 then e[2] else 0;
    var g := Group(e[0], b1, b2);
    var u := t[i..i + 4];
    assert t[i] == u[0] && t[i + 1] == u[1] && t[i + 2] == u[2] && t[i + 3] == u[3];
    CharFacts(secret, Sextet0(g));
    CharFacts(secret, Sextet1(g));
    CharFacts(secret, Sextet2(g));
    CharFacts(secret, Sextet3(g));
    PassOverCodes(secret, t, i);
    OctetsOfSextets(e[0], b1, b2);
  }

  // Decoding the text of e gives a beginning of e, and all of it unless the secret alphabet
  // wrote its end character as a digit.
  lemma {:induction false} ReadText(secret: bool, t: seq<bv8>, i: nat, e: seq<bv8>)
    requires i <= |t| && t[i..] == Text(secret, e)
    ensures var r := DecodeFrom(secret, t, |t|, i);
      r.Data? && r.d <= e && (r.d == e <==> !(secret && HasEndDigit(e)))
    decreases |e|
  {
    hide UnitText, UnitHasEndDigit, PassAt;
    if |e| > 0 {
      var u, rest := if |e| > 3 then e[..3] else e, if |e| > 3 then e[3..] else [];
      assert t[i..] == UnitText(secret, u) + Text(secret, rest);
      assert t[i..i + 4] == t[i..][..4] == UnitText(secret, u);
      assert t[i + 4..] == t[i..][4..] == Text(secret, rest);
      PassOverUnit(secret, t, i, u);
      PassUnfolds(secret, t, |t|, i);
      if |PassAt(secret, t, |t|, i).d| == 3 {
        ReadText(secret, t, i + 4, rest);
      }
      assert e == u + rest;
    }
  }

  // The decoder's tables and buffer are large enough for what the encoder writes.
  lemma {:induction false} TextFits(secret: bool, e: seq<bv8>)
    ensures |Text(secret, e)| == 4 * ((|e| + 2) / 3)
    ensures forall k :: 0 <= k < |Text(secret, e)| ==> Text(secret, e)[k] < 0x80
    decreases |e|
  {
    hide UnitText;
    if |e| > 3 {
      UnitFits(secret, e[..3]);
      TextFits(secret, e[3..]);
    } else if |e| > 0 {
      UnitFits(secret, e);
    }
  }

  lemma UnitFits(secret: bool, e: seq<bv8>)
    requires 1 <= |e| <= 3
    ensures forall k :: 0 <= k < 4 ==> UnitText(secret, e)[k] < 0x80
  {
    hide Char, Code, Group, Sextet0, Sextet1, Sextet2, Sextet3;
    var g := Group(e[0], if |e| > 1 then e[1] else 0, if |e| > 2 then e[2] else 0);
    CharFacts(secret, Sextet0(g));
    CharFacts(secret, Sextet1(g));
    CharFacts(secret, Sextet2(g));
    CharFacts(secret, Sextet3(g));
  }

  // Seven-bit texts that do not end after the third character of a unit stay in bounds.
  lemma SevenBitStaysInBounds(secret: bool, t: seq<bv8>)
    requires |t| <= INT_MAX && |t| % 4 != 3 && forall k :: 0 <= k < |t| ==> t[k] < 0x80
    ensures StaysInBounds(secret, t)
  {
    hide Stored, Reach, AllData;
    if |t| >= 4 {
      OverrunsExactly(secret, t);
    }
  }

  // A text of the encoder ends with a whole unit, and its size is at most INT_MAX or turns
  // negative in the cast.
  lemma TextStaysInBounds(secret: bool, e: seq<bv8>)
    requires |e| <= INT_MAX
    ensures StaysInBounds(secret, Text(secret, e))
  {
    hide Text, Stored, Reach;
    var t := Text(secret, e);
    TextFits(secret, e);
    if |t| <= INT_MAX {
      SevenBitStaysInBounds(secret, t);
    }
  }

  // Decoding inverts encoding on exactly the faithful non-empty data whose text has an int
  // size, under the secret alphabet only if no digit in a third or fourth place is the end
  // character. length is an int in the source.
  lemma RoundTrip(secret: bool, d: seq<bv8>)
    requires |d| <= INT_MAX
    ensures var r := DecodeResult(secret, Text(secret, Smear(d)));
      && (r.Data? <==> d != [] && 4 * ((|d| + 2) / 3) <= INT_MAX)
      && (!r.Data? ==> r == Refused)
      && (r == Data(d) <==> d != [] && 4 * ((|d| + 2) / 3) <= INT_MAX && IsFaithful(d) && !(secret && HasEndDigit(d)))
  {
    hide Text, IsFaithful, HasEndDigit, DecodeFrom, Smear;
    var t := Text(secret, Smear(d));
    TextFits(secret, Smear(d));
    assert t[0..] == t;
    ReadText(secret, t, 0, Smear(d));
    SmearKeepsExactlyFaithful(d);
    TextOfAny(secret, Smear(d));
  }

  lemma TextOfAny(secret: bool, e: seq<bv8>)
    ensures 0 < |e| <= INT_MAX && 4 * ((|e| + 2) / 3) > INT_MAX ==> INT_MAX < 4 * ((|e| + 2) / 3) < 0x1_0000_0000
  {
  }

  lemma SecretEndDigitTruncates()
    ensures IsFaithful([0x00, 0x04, 0x40]) && HasEndDigit([0x00, 0x04, 0x40])
    ensures DecodeResult(true, Text(true, Smear([0x00, 0x04, 0x40]))) != Data([0x00, 0x04, 0x40])
  {
    hide DecodeResult, Text, Smear;
    RoundTrip(true, [0x00, 0x04, 0x40]);
  }

  // 1610612734 zero bytes make a text of 2^31 characters.
  lemma LongTextRefused(secret: bool, d: seq<bv8>)
    requires |d| == 1610612734
    ensures |Text(secret, Smear(d))| == 0x8000_0000 && DecodeResult(secret, Text(secret, Smear(d))) == Refused
  {
    hide DecodeResult, Text, Smear;
    TextFits(secret, Smear(d));
    RoundTrip(secret, d);
  }

  // One byte less is accepted.
  lemma LongestText(secret: bool, d: seq<bv8>)
    requires |d| == 1610612733 && forall k :: 0 <= k < |d| ==> d[k] == 0
    ensures DecodeResult(secret, Text(secret, Smear(d))) == Data(d)
  {
    hide DecodeResult, Text, Smear;
    RoundTrip(secret, d);
    SevenBitIsFaithful(d);
    NoEndDigitInZeros(d);
  }

  lemma {:induction false} NoEndDigitInZeros(d: seq<bv8>)
    requires forall k :: 0 <= k < |d| ==> d[k] == 0
    ensures !HasEndDigit(d)
    decreases |d|
  {
    ZeroGroup();
    if |d| > 3 {
      NoEndDigitInZeros(d[3..]);
    }
  }

  lemma ZeroGroup()
    ensures Sextet2(Group(0, 0, 0)) == 0 && Sextet3(Group(0, 0, 0)) == 0
  {
  }

  // The two alphabets write the same digits; their ends differ.
  lemma {:induction false} SecretTextTranslates(d: seq<bv8>, k: nat)
    requires k < |Text(false, d)|
    ensures |Text(true, d)| == |Text(false, d)|
    ensures Text(true, d)[k] ==
      if Text(false, d)[k] == 0x3d then 0x23 else Secret(NormalInverse(Text(false, d)[k]))
    decreases |d|
  {
    hide UnitText, NormalInverse, Secret;
    if |d| > 3 {
      UnitTranslates(d[..3], if k < 4 then k else 0);
      TextFits(true, d[3..]);
      TextFits(false, d[3..]);
      if k >= 4 {
        SecretTextTranslates(d[3..], k - 4);
      }
    } else {
      UnitTranslates(d, k);
    }
  }

  lemma UnitTranslates(d: seq<bv8>, k: nat)
    requires 1 <= |d| <= 3 && k < 4
    ensures UnitText(true, d)[k] == if UnitText(false, d)[k] == 0x3d then 0x23 else Secret(NormalInverse(UnitText(false, d)[k]))
  {
    hide Normal, Secret, NormalInverse, Group, Sextet0, Sextet1, Sextet2, Sextet3;
    var g := Group(d[0], if |d| > 1 then d[1] else 0, if |d| > 2 then d[2] else 0);
    NormalRange(Sextet0(g));
    NormalRange(Sextet1(g));
    NormalRange(Sextet2(g));
    NormalRange(Sextet3(g));
    CodeOfNormal(Sextet0(g));
    CodeOfNormal(Sextet1(g));
    CodeOfNormal(Sextet2(g));
    CodeOfNormal(Sextet3(g));
  }

  // Base64Encode, then Base64Decode with the same alphabet: -1 for empty data and for texts
  // that are too long.
  method EncodeThenDecode(s: array<bv8>, length: int32, chSet: int32)
    returns (outcome: Outcome, buf: array?<bv8>, n: int)
    requires length <= s.Length
    ensures outcome == if 0 < length && 4 * ((length + 2) / 3) <= INT_MAX then Return(0) else Return(-1)
    ensures outcome == Return(-1) ==> buf == null && n == 0
    ensures outcome == Return(0) ==> buf != null && 0 <= n <= buf.Length
    ensures outcome == Return(0) ==>
      (buf[..n] == s[..length] <==> IsFaithful(s[..length]) && !(chSet == 1 && HasEndDigit(s[..length])))
  {
    hide Text, Smear, IsFaithful, HasEndDigit, DecodeResult, StaysInBounds;
    var secret := chSet == BASE64_CH_SECRET;
    ghost var d := s[..if length < 0 then 0 else length];
    var text := EncodeText(s, length, chSet);
    TextStaysInBounds(secret, Smear(d));
    RoundTrip(secret, d);
    outcome, buf, n := DecodeText(text, chSet, null, 0);
    assert length > 0 ==> s[..length] == d;
  }
}
