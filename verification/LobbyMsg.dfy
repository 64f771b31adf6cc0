// The message UserCommNotifyRequest (message/cpp/LobbyMsg.pb.cc:3305-3618, LobbyMsg.pb.h:2587-2690):
// two optional int32 fields, one optional bytes field, no unknown fields.
module LobbyMsg {
  import opened WireFormat

  datatype Option<T> = None | Some(value: T)

  datatype Message = Message(msgType: Option<int32>, msgId: Option<int32>, data: Option<seq<byte>>)

  const EMPTY: Message := Message(None, None, None)

  function Later<T>(a: Option<T>, b: Option<T>): Option<T> { if b.Some? then b else a }

  // The fields of b, and those of a that b does not have.
  function Merge(a: Message, b: Message): Message {
    Message(Later(a.msgType, b.msgType), Later(a.msgId, b.msgId), Later(a.data, b.data))
  }

  lemma MergedFields(a: Message, b: Message)
    ensures Merge(a, b).msgType == if b.msgType.Some? then b.msgType else a.msgType
    ensures Merge(a, b).msgId == if b.msgId.Some? then b.msgId else a.msgId
    ensures Merge(a, b).data == if b.data.Some? then b.data else a.data
  {
  }

  // ---------- The encoding ----------

  function TypeBytes(m: Message): seq<byte> { if m.msgType.Some? then Int32Field(1, m.msgType.value) else [] }
  function IdBytes(m: Message): seq<byte> { if m.msgId.Some? then Int32Field(2, m.msgId.value) else [] }
  function DataBytes(m: Message): seq<byte> { if m.data.Some? then BytesField(3, m.data.value) else [] }

  function Serialize(m: Message): seq<byte> { TypeBytes(m) + IdBytes(m) + DataBytes(m) }

  // The fields in the order of their numbers, each behind its tag byte.
  lemma SerializeLayout(m: Message)
    ensures Serialize(m) ==
      (if m.msgType.Some? then [8] + Varint(if m.msgType.value < 0 then m.msgType.value + 0x1_0000_0000_0000_0000 else m.msgType.value) else [])
      + (if m.msgId.Some? then [16] + Varint(if m.msgId.value < 0 then m.msgId.value + 0x1_0000_0000_0000_0000 else m.msgId.value) else [])
      + (if m.data.Some? then [26] + Varint(|m.data.value| % 0x1_0000_0000) + m.data.value else [])
  {
    hide Varint;
    FirstByte(8);
    FirstByte(16);
    FirstByte(26);
  }

  lemma SerializeExamples()
    ensures Serialize(Message(Some(1), Some(2), Some([7]))) == [8, 1, 16, 2, 26, 1, 7]
    ensures Serialize(Message(Some(300), None, Some([]))) == [8, 0xac, 0x02, 26, 0]
    ensures Serialize(Message(None, Some(-1), None)) == [16, 0xff, 0xff, 0xff, 0xff, 0xff, 0xff, 0xff, 0xff, 0xff, 0x01]
  {
    hide Serialize, Varint;
    SerializeLayout(Message(Some(1), Some(2), Some([7])));
    SerializeLayout(Message(Some(300), None, Some([])));
    SerializeLayout(Message(None, Some(-1), None));
    FirstByte(0);
    FirstByte(1);
    FirstByte(2);
    FirstByte(300);
    VarintOfMinusOne();
  }

  lemma VarintOfMinusOne()
    ensures Varint(0xffff_ffff_ffff_ffff) == [0xff, 0xff, 0xff, 0xff, 0xff, 0xff, 0xff, 0xff, 0xff, 0x01]
  {
    hide Varint;
    FirstByte(0xffff_ffff_ffff_ffff);
    FirstByte(0x1ff_ffff_ffff_ffff);
    FirstByte(0x3_ffff_ffff_ffff);
    FirstByte(0x7ff_ffff_ffff);
    FirstByte(0xf_ffff_ffff);
    FirstByte(0x1fff_ffff);
    FirstByte(0x3f_ffff);
    FirstByte(0x7fff);
    FirstByte(0xff);
    FirstByte(1);
  }

  // How reading ends: at the end of the input, at the limit of the stream with more input
  // behind it, at a zero or unreadable tag, at a field that is not there in full, or at a field
  // this message does not have. In the first three cases the source returns true.
  datatype Parsed = AtEnd(m: Message) | LimitReached(m: Message) | ZeroTag(m: Message) | Failed | UnknownField

  // .. and the same as the object reports it.
  datatype Outcome = ReadAll | Limited | Stopped | Failure | OtherField

  // A stream delivers at most limit bytes, INT_MAX when nothing has been read from it yet
  // (3rd/protobuf/google/protobuf/io/coded_stream.h:643, coded_stream.cc:578-616). A field that
  // goes on behind the limit fails like one that is cut off.
  function ReadUpTo(limit: nat, m: Message, input: seq<byte>): Parsed {
    if |input| <= limit then Parse(m, input) else AtLimit(Parse(m, input[..limit]))
  }

  function AtLimit(p: Parsed): Parsed { if p.AtEnd? then LimitReached(p.m) else p }

  function Read(m: Message, input: seq<byte>): Parsed { ReadUpTo(INT_MAX, m, input) }

  // Reads the fields in s, all of which are delivered, into m.
  function Parse(m: Message, s: seq<byte>): (r: Parsed)
    ensures !r.LimitReached?
    decreases |s|
  {
    if |s| == 0 then AtEnd(m)
    else
      match ReadVarint(s, MAX_VARINT_BYTES)
      case Malformed => ZeroTag(m)
      case Got(value, size) => ParseField(m, value % TWO32, s[size..])
  }

  function ParseField(m: Message, tag: nat, s: seq<byte>): (r: Parsed)
    ensures !r.LimitReached?
    decreases |s|
  {
    if tag == 0 then ZeroTag(m)
    else if tag == 8 || tag == 16 then
      match ReadVarint(s, MAX_VARINT_BYTES)
      case Malformed => Failed
      case Got(value, size) =>
        if tag == 8 then Parse(m.(msgType := Some(Truncated(value))), s[size..])
        else Parse(m.(msgId := Some(Truncated(value))), s[size..])
    else if tag == 26 then
      match ReadVarint(s, MAX_VARINT_BYTES)
      case Malformed => Failed
      case Got(value, size) =>
        var length := value % TWO32;
        if length > INT_MAX || size + length > |s| then Failed
        else Parse(m.(data := Some(s[size..size + length])), s[size + length..])
    else UnknownField
  }

  // ---------- Reading back ----------

  // The length of a bytes field is read as a signed 32-bit number.
  predicate DataFits(m: Message) { m.data.Some? ==> |m.data.value| <= INT_MAX }

  lemma TagByte(field: nat, wireType: nat, rest: seq<byte>)
    requires 0 < Tag(field, wireType) < 0x80
    ensures |Varint(Tag(field, wireType)) + rest| > 0
    ensures ReadVarint(Varint(Tag(field, wireType)) + rest, MAX_VARINT_BYTES) == Got(Tag(field, wireType), 1)
    ensures (Varint(Tag(field, wireType)) + rest)[1..] == rest
  {
  }

  lemma ParseInt32Field(m: Message, field: nat, v: int32, rest: seq<byte>)
    requires field == 1 || field == 2
    ensures Parse(m, Int32Field(field, v) + rest) ==
      Parse(if field == 1 then m.(msgType := Some(v)) else m.(msgId := Some(v)), rest)
  {
    hide Varint, ReadVarint;
    var body := Varint(SignExtended(v)) + rest;
    assert Int32Field(field, v) + rest == Varint(Tag(field, VARINT)) + body;
    TagByte(field, VARINT, body);
    TenBytesSuffice(SignExtended(v));
    ReadVarintOfVarint(SignExtended(v), MAX_VARINT_BYTES, rest);
    TruncatedSignExtended(v);
    assert body[|Varint(SignExtended(v))|..] == rest;
  }

  lemma ParseBytesField(m: Message, d: seq<byte>, rest: seq<byte>)
    requires |d| <= INT_MAX
    ensures Parse(m, BytesField(3, d) + rest) == Parse(m.(data := Some(d)), rest)
  {
    hide Varint, ReadVarint;
    var body := Varint(|d|) + (d + rest);
    assert BytesField(3, d) + rest == Varint(Tag(3, LENGTH_DELIMITED)) + body;
    TagByte(3, LENGTH_DELIMITED, body);
    TenBytesSuffice(|d|);
    ReadVarintOfVarint(|d|, MAX_VARINT_BYTES, d + rest);
    var size := |Varint(|d|)|;
    assert body[size..size + |d|] == d && body[size + |d|..] == rest;
  }

  // Reading what was written for a merges a into the message, whatever follows it.
  lemma ParseSerialized(m: Message, a: Message, rest: seq<byte>)
    requires DataFits(a)
    ensures Parse(m, Serialize(a) + rest) == Parse(Merge(m, a), rest)
  {
    hide Parse, Int32Field, BytesField;
    var behindId := DataBytes(a) + rest;
    var behindType := IdBytes(a) + behindId;
    assert Serialize(a) + rest == TypeBytes(a) + behindType;
    var m1 := m.(msgType := Later(m.msgType, a.msgType));
    var m2 := m1.(msgId := Later(m.msgId, a.msgId));
    if a.msgType.Some? {
      ParseInt32Field(m, 1, a.msgType.value, behindType);
    } else {
      assert TypeBytes(a) + behindType == behindType && m1 == m;
    }
    if a.msgId.Some? {
      ParseInt32Field(m1, 2, a.msgId.value, behindId);
    } else {
      assert behindType == behindId && m2 == m1;
    }
    if a.data.Some? {
      ParseBytesField(m2, a.data.value, rest);
    } else {
      assert behindId == rest && m2 == Merge(m, a);
    }
  }

  lemma ParseNothing(m: Message)
    ensures Parse(m, []) == AtEnd(m)
  {
  }

  lemma DataInSize(a: Message)
    ensures |Serialize(a)| <= INT_MAX ==> DataFits(a)
  {
  }

  // The same on a stream: what was written for a uses up its size of the limit.
  lemma ReadSerialized(limit: nat, m: Message, a: Message, rest: seq<byte>)
    requires |Serialize(a)| <= limit <= INT_MAX
    ensures ReadUpTo(limit, m, Serialize(a) + rest) == ReadUpTo(limit - |Serialize(a)|, Merge(m, a), rest)
  {
    hide Parse, Serialize;
    DataInSize(a);
    var size := |Serialize(a)|;
    if size + |rest| <= limit {
      ParseSerialized(m, a, rest);
    } else {
      assert (Serialize(a) + rest)[..limit] == Serialize(a) + rest[..limit - size];
      ParseSerialized(m, a, rest[..limit - size]);
    }
  }

  // Reading two messages one after the other is merging them, for exactly those that fit
  // the stream together.
  lemma ParseOfConcatenation(a: Message, b: Message)
    ensures Read(EMPTY, Serialize(a) + Serialize(b)) == AtEnd(Merge(a, b))
      <==> |Serialize(a)| + |Serialize(b)| <= 0x7fff_ffff
  {
    hide Serialize, Parse;
    if |Serialize(a)| + |Serialize(b)| <= INT_MAX {
      var left := INT_MAX - |Serialize(a)|;
      ReadSerialized(INT_MAX, EMPTY, a, Serialize(b));
      ReadSerialized(left, a, b, []);
      assert Merge(EMPTY, a) == a && Serialize(b) + [] == Serialize(b);
      ParseNothing(Merge(a, b));
    }
  }

  // A message that ends at the limit is taken for the whole input, whatever follows it.
  lemma RestUnread(a: Message, rest: seq<byte>)
    requires |Serialize(a)| == INT_MAX && rest != []
    ensures Read(EMPTY, Serialize(a) + rest) == LimitReached(a)
  {
    hide Serialize, Parse;
    ReadSerialized(INT_MAX, EMPTY, a, rest);
    assert Merge(EMPTY, a) == a && rest[..0] == [];
    ParseNothing(a);
  }

  // No read leaves data of more than INT_MAX bytes.
  lemma {:induction false} ParsedDataFits(m: Message, s: seq<byte>)
    requires DataFits(m)
    ensures Parse(m, s).AtEnd? || Parse(m, s).ZeroTag? ==> DataFits(Parse(m, s).m)
    decreases |s|
  {
    hide ReadVarint;
    if |s| > 0 && ReadVarint(s, MAX_VARINT_BYTES).Got? {
      var first := ReadVarint(s, MAX_VARINT_BYTES);
      var tag, t := first.value % TWO32, s[first.size..];
      var r := ReadVarint(t, MAX_VARINT_BYTES);
      if r.Got? {
        if tag == 8 {
          ParsedDataFits(m.(msgType := Some(Truncated(r.value))), t[r.size..]);
        } else if tag == 16 {
          ParsedDataFits(m.(msgId := Some(Truncated(r.value))), t[r.size..]);
        } else if tag == 26 {
          var length := r.value % TWO32;
          if length <= INT_MAX && r.size + length <= |t| {
            ParsedDataFits(m.(data := Some(t[r.size..r.size + length])), t[r.size + length..]);
          }
        }
      }
    }
  }

  // A bytes field of which only the first n bytes are there.
  lemma ParseCutBytesField(m: Message, d: seq<byte>, n: nat)
    requires |d| <= INT_MAX && 6 <= n < |BytesField(3, d)|
    ensures Parse(m, BytesField(3, d)[..n]) == Failed
  {
    hide Varint, ReadVarint;
    VarintSizes(|d|);
    TagByte(3, LENGTH_DELIMITED, []);
    var size := |Varint(|d|)|;
    var part := d[..n - 1 - size];
    var body := Varint(|d|) + part;
    assert BytesField(3, d)[..n] == Varint(Tag(3, LENGTH_DELIMITED)) + body;
    TagByte(3, LENGTH_DELIMITED, body);
    TenBytesSuffice(|d|);
    ReadVarintOfVarint(|d|, MAX_VARINT_BYTES, part);
  }

  lemma HeadSize(a: Message)
    ensures |TypeBytes(a) + IdBytes(a)| <= 22
  {
    hide Int32Field;
    if a.msgType.Some? { Int32FieldSize(1, a.msgType.value); }
    if a.msgId.Some? { Int32FieldSize(2, a.msgId.value); }
  }

  // A message that does not fit the stream is cut in its data.
  lemma ReadTooLong(a: Message)
    requires DataFits(a) && |Serialize(a)| > INT_MAX
    ensures Read(EMPTY, Serialize(a)) == Failed
  {
    hide Parse, Varint;
    HeadSize(a);
    var head := a.(data := None);
    var d := a.data.value;
    var n := INT_MAX - |Serialize(head)|;
    assert Serialize(head) == TypeBytes(a) + IdBytes(a);
    assert Serialize(a)[..INT_MAX] == Serialize(head) + BytesField(3, d)[..n];
    ParseSerialized(EMPTY, head, BytesField(3, d)[..n]);
    ParseCutBytesField(Merge(EMPTY, head), d, n);
  }

  // So a message survives for exactly the sizes up to INT_MAX; beyond, it is never returned.
  lemma RoundTrip(a: Message)
    ensures Read(EMPTY, Serialize(a)) == AtEnd(a) <==> |Serialize(a)| <= 0x7fff_ffff
    ensures |Serialize(a)| > INT_MAX ==>
      var p := Read(EMPTY, Serialize(a)); p != AtEnd(a) && p != LimitReached(a) && p != ZeroTag(a)
  {
    hide Parse, Serialize;
    ParseOfConcatenation(EMPTY, a);
    SerializeEmpty();
    assert [] + Serialize(a) == Serialize(a);
    if |Serialize(a)| > INT_MAX {
      if DataFits(a) {
        ReadTooLong(a);
      } else {
        ParsedDataFits(EMPTY, Serialize(a)[..INT_MAX]);
      }
    }
  }

  lemma SerializeEmpty()
    ensures Serialize(EMPTY) == []
  {
  }

  // The longest data of a message with no other field.
  lemma LongestData(d: seq<byte>)
    ensures |d| == 2147483641 ==> Read(EMPTY, Serialize(Message(None, None, Some(d)))) == AtEnd(Message(None, None, Some(d)))
    ensures |d| == 2147483642 ==> Read(EMPTY, Serialize(Message(None, None, Some(d)))) == Failed
  {
    hide Read, Serialize, BytesField;
    var m := Message(None, None, Some(d));
    assert Serialize(m) == BytesField(3, d) by { OnlyData(d); }
    BytesSizes(3, d);
    RoundTrip(m);
    if |d| == 2147483642 {
      ReadTooLong(m);
    }
  }

  lemma OnlyData(d: seq<byte>)
    ensures Serialize(Message(None, None, Some(d))) == BytesField(3, d)
  {
    hide BytesField;
  }

  // Some inputs that no serialisation writes: a repeated field, a tag in two bytes, a number
  // of more than 32 bits, zero and unreadable tags, fields that are cut off, another field.
  lemma ReadExamples()
    ensures Read(EMPTY, [8, 1, 8, 2]) == AtEnd(Message(Some(2), None, None))
    ensures Read(EMPTY, [0x90, 0, 5]) == AtEnd(Message(None, Some(5), None))
    ensures Read(EMPTY, [16, 0x85, 0x80, 0x80, 0x80, 0x10]) == AtEnd(Message(None, Some(5), None))
    ensures Read(EMPTY, [8, 1, 0, 8, 2]) == ZeroTag(Message(Some(1), None, None))
    ensures Read(EMPTY, [0x88]) == ZeroTag(EMPTY)
    ensures Read(EMPTY, [8]) == Failed && Read(EMPTY, [16, 0x80]) == Failed && Read(EMPTY, [26, 2, 7]) == Failed
    ensures Read(EMPTY, [10, 0]) == UnknownField && Read(EMPTY, [32, 1]) == UnknownField
  {
    hide Parse;
    RepeatedField();
    LongTag();
    LongNumber();
    ZeroTagBetween();
    CutOff();
    OtherFields();
  }

  lemma OneByte(s: seq<byte>, pos: nat)
    requires pos < |s| && s[pos] < 0x80
    ensures ReadVarint(s[pos..], MAX_VARINT_BYTES) == Got(s[pos], 1)
  {
    FirstByteRead(s[pos..], MAX_VARINT_BYTES);
  }

  // Tag and value of a field 1, in one byte each.
  lemma ShortTypeField(m: Message, s: seq<byte>, pos: nat)
    requires pos + 2 <= |s| && s[pos] == 8 && s[pos + 1] < 0x80
    ensures Parse(m, s[pos..]) == Parse(m.(msgType := Some(s[pos + 1])), s[pos + 2..])
  {
    hide Parse, ParseField, ReadVarint;
    OneByte(s, pos);
    OneByte(s, pos + 1);
    ParseTag(m, s, pos);
    ParseBehindTag(m, 8, s, pos + 1);
  }

  lemma RepeatedField()
    ensures Parse(EMPTY, [8, 1, 8, 2]) == AtEnd(Message(Some(2), None, None))
  {
    hide Parse;
    var s: seq<byte> := [8, 1, 8, 2];
    assert s[0..] == s;
    ShortTypeField(EMPTY, s, 0);
    ShortTypeField(EMPTY.(msgType := Some(1)), s, 2);
    ParseTag(EMPTY.(msgType := Some(2)), s, 4);
  }

  lemma ZeroTagBetween()
    ensures Parse(EMPTY, [8, 1, 0, 8, 2]) == ZeroTag(Message(Some(1), None, None))
  {
    hide Parse, ReadVarint;
    var s: seq<byte> := [8, 1, 0, 8, 2];
    assert s[0..] == s;
    ShortTypeField(EMPTY, s, 0);
    OneByte(s, 2);
    ParseTag(EMPTY.(msgType := Some(1)), s, 2);
  }

  lemma LongTag()
    ensures Parse(EMPTY, [0x90, 0, 5]) == AtEnd(Message(None, Some(5), None))
  {
    hide Parse, ParseField, ReadVarint;
    var s: seq<byte> := [0x90, 0, 5];
    assert s[0..] == s;
    FirstByteRead(s, 10);
    FirstByteRead(s[1..], 9);
    OneByte(s, 2);
    ParseTag(EMPTY, s, 0);
    ParseBehindTag(EMPTY, 16, s, 2);
    ParseTag(EMPTY.(msgId := Some(5)), s, 3);
  }

  lemma LongNumber()
    ensures Parse(EMPTY, [16, 0x85, 0x80, 0x80, 0x80, 0x10]) == AtEnd(Message(None, Some(5), None))
  {
    hide Parse, ParseField, ReadVarint;
    var s: seq<byte> := [16, 0x85, 0x80, 0x80, 0x80, 0x10];
    assert s[0..] == s;
    OneByte(s, 0);
    FirstByteRead(s[1..], 10);
    assert s[1..][1..] == s[2..];
    FirstByteRead(s[2..], 9);
    assert s[2..][1..] == s[3..];
    FirstByteRead(s[3..], 8);
    assert s[3..][1..] == s[4..];
    FirstByteRead(s[4..], 7);
    assert s[4..][1..] == s[5..];
    FirstByteRead(s[5..], 6);
    ParseTag(EMPTY, s, 0);
    ParseBehindTag(EMPTY, 16, s, 1);
    ParseTag(EMPTY.(msgId := Some(5)), s, 6);
  }

  lemma CutOff()
    ensures Parse(EMPTY, [0x88]) == ZeroTag(EMPTY)
    ensures Parse(EMPTY, [8]) == Failed && Parse(EMPTY, [16, 0x80]) == Failed && Parse(EMPTY, [26, 2, 7]) == Failed
  {
    hide Parse, ParseField, ReadVarint;
    var r: seq<byte>, s: seq<byte>, t: seq<byte>, u: seq<byte> := [0x88], [8], [16, 0x80], [26, 2, 7];
    assert r[0..] == r && s[0..] == s && t[0..] == t && u[0..] == u;
    FirstByteRead(r, 10);
    FirstByteRead(r[1..], 9);
    ParseTag(EMPTY, r, 0);
    OneByte(s, 0);
    FirstByteRead(s[1..], 10);
    ParseTag(EMPTY, s, 0);
    ParseBehindTag(EMPTY, 8, s, 1);
    OneByte(t, 0);
    FirstByteRead(t[1..], 10);
    FirstByteRead(t[1..][1..], 9);
    ParseTag(EMPTY, t, 0);
    ParseBehindTag(EMPTY, 16, t, 1);
    OneByte(u, 0);
    OneByte(u, 1);
    ParseTag(EMPTY, u, 0);
    ParseBehindTag(EMPTY, 26, u, 1);
  }

  lemma OtherFields()
    ensures Parse(EMPTY, [10, 0]) == UnknownField && Parse(EMPTY, [32, 1]) == UnknownField
  {
    hide Parse, ParseField, ReadVarint;
    var s: seq<byte>, t: seq<byte> := [10, 0], [32, 1];
    assert s[0..] == s && t[0..] == t;
    OneByte(s, 0);
    OneByte(t, 0);
    ParseTag(EMPTY, s, 0);
    ParseTag(EMPTY, t, 0);
    ParseBehindTag(EMPTY, 10, s, 1);
    ParseBehindTag(EMPTY, 32, t, 1);
  }

  // ---------- Writing what was read ----------

  // The least number of bytes that a reader accepts for a value.
  function Narrow(v: int32): nat { VarintSize32(if v < 0 then v + TWO32 else v) }

  function Int32Weight(v: Option<int32>): nat { if v.Some? then 1 + Narrow(v.value) else 0 }

  function Weight(m: Message): nat {
    Int32Weight(m.msgType) + Int32Weight(m.msgId) + if m.data.Some? then 1 + BytesSize(m.data.value) else 0
  }

  lemma {:induction false} ReadVarintBound(s: seq<byte>, limit: nat)
    ensures ReadVarint(s, limit).Got? ==> ReadVarint(s, limit).value < Power128(ReadVarint(s, limit).size)
    decreases limit
  {
    if |s| > 0 && limit > 0 && s[0] >= 0x80 {
      ReadVarintBound(s[1..], limit - 1);
    } else {
      assert Power128(1) == 0x80;
    }
  }

  lemma NarrowOfRead(s: seq<byte>)
    ensures var r := ReadVarint(s, MAX_VARINT_BYTES); r.Got? ==>
      VarintSize32(r.value % TWO32) <= r.size && Narrow(Truncated(r.value)) <= r.size
  {
    hide ReadVarint;
    ReadVarintBound(s, MAX_VARINT_BYTES);
    assert Power128(1) == 0x80 && Power128(2) == 0x4000 && Power128(3) == 0x20_0000 && Power128(4) == 0x1000_0000;
  }

  lemma WeightOfUpdates(m: Message, v: int32, d: seq<byte>)
    ensures Weight(m.(msgType := Some(v))) <= Weight(m) + 1 + Narrow(v)
    ensures Weight(m.(msgId := Some(v))) <= Weight(m) + 1 + Narrow(v)
    ensures Weight(m.(data := Some(d))) <= Weight(m) + 1 + VarintSize32(|d| % TWO32) + |d|
  {
    hide Narrow, VarintSize32;
  }

  // What is read weighs no more than the bytes it was read from.
  lemma {:induction false} ParsedWeight(m: Message, s: seq<byte>)
    requires DataFits(m)
    ensures Parse(m, s).AtEnd? ==> Weight(Parse(m, s).m) <= Weight(m) + |s|
    decreases |s|
  {
    hide ReadVarint, Weight, Narrow, VarintSize32, Truncated;
    if |s| > 0 && ReadVarint(s, MAX_VARINT_BYTES).Got? {
      var first := ReadVarint(s, MAX_VARINT_BYTES);
      var tag, t := first.value % TWO32, s[first.size..];
      var r := ReadVarint(t, MAX_VARINT_BYTES);
      NarrowOfRead(t);
      if r.Got? {
        var v := Truncated(r.value);
        WeightOfUpdates(m, v, []);
        if tag == 8 {
          ParsedWeight(m.(msgType := Some(v)), t[r.size..]);
        } else if tag == 16 {
          ParsedWeight(m.(msgId := Some(v)), t[r.size..]);
        } else if tag == 26 {
          var length := r.value % TWO32;
          if length <= INT_MAX && r.size + length <= |t| {
            var d := t[r.size..r.size + length];
            WeightOfUpdates(m, v, d);
            ParsedWeight(m.(data := Some(d)), t[r.size + length..]);
          }
        }
      }
    }
  }

  lemma SerializeWeight(m: Message)
    ensures |Serialize(m)| <= Weight(m) + 10
  {
    hide Int32Field, BytesField, BytesSize;
    if m.msgType.Some? { Int32FieldSize(1, m.msgType.value); }
    if m.msgId.Some? { Int32FieldSize(2, m.msgId.value); }
    if m.data.Some? { BytesSizes(3, m.data.value); }
  }

  // Whatever was read in full is rewritten in at most ten bytes more, five for each negative
  // value that came in five bytes, and can be read again for exactly the sizes up to INT_MAX.
  lemma Reparse(s: seq<byte>)
    ensures var p := Read(EMPTY, s); p.AtEnd? ==>
      && |Serialize(p.m)| <= |s| + 10
      && (Read(EMPTY, Serialize(p.m)) == p <==> |Serialize(p.m)| <= INT_MAX)
  {
    hide Parse, Serialize, Weight;
    var p := Read(EMPTY, s);
    ParsedDataFits(EMPTY, s);
    ParsedWeight(EMPTY, s);
    NoWeight();
    if p.AtEnd? {
      SerializeWeight(p.m);
      RoundTrip(p.m);
    }
  }

  lemma NoWeight()
    ensures Weight(EMPTY) == 0
  {
  }

  // An input of INT_MAX bytes with the value -1 in five of them is read, but not what is
  // written for it.
  lemma ReparseFails(d: seq<byte>)
    requires |d| == INT_MAX - 12
    ensures var s, m := [8, 0xff, 0xff, 0xff, 0xff, 0x0f] + BytesField(3, d), Message(Some(-1), None, Some(d));
      Read(EMPTY, s) == AtEnd(m) && Read(EMPTY, Serialize(m)) == Failed
  {
    hide Serialize, BytesField;
    var s, m := [8, 0xff, 0xff, 0xff, 0xff, 0x0f] + BytesField(3, d), Message(Some(-1), None, Some(d));
    BytesSizes(3, d);
    FiveByteMinusOne(BytesField(3, d));
    assert BytesField(3, d) + [] == BytesField(3, d);
    ParseBytesField(EMPTY.(msgType := Some(-1)), d, []);
    SizeWithMinusOne(d);
    ReadTooLong(m);
  }

  lemma SizeWithMinusOne(d: seq<byte>)
    ensures |Serialize(Message(Some(-1), None, Some(d)))| == 11 + |BytesField(3, d)|
  {
    hide Int32Field, BytesField;
    Int32FieldSize(1, -1);
  }

  lemma FiveByteMinusOne(rest: seq<byte>)
    ensures Parse(EMPTY, [8, 0xff, 0xff, 0xff, 0xff, 0x0f] + rest) == Parse(EMPTY.(msgType := Some(-1)), rest)
  {
    var body := [0xff, 0xff, 0xff, 0xff, 0x0f] + rest;
    var s := [8] + body;
    assert [8, 0xff, 0xff, 0xff, 0xff, 0x0f] + rest == s;
    assert s[1..] == body;
    assert ReadVarint(s, 10) == Got(8, 1);
    FiveBytes(rest);
    assert body[5..] == rest;
  }

  lemma FiveBytes(rest: seq<byte>)
    ensures ReadVarint([0xff, 0xff, 0xff, 0xff, 0x0f] + rest, 10) == Got(0xffff_ffff, 5)
  {
    assert ([0x0f] + rest)[0] == 0x0f;
    assert ([0xff, 0x0f] + rest)[1..] == [0x0f] + rest;
    assert ([0xff, 0xff, 0x0f] + rest)[1..] == [0xff, 0x0f] + rest;
    assert ([0xff, 0xff, 0xff, 0x0f] + rest)[1..] == [0xff, 0xff, 0x0f] + rest;
    assert ([0xff, 0xff, 0xff, 0xff, 0x0f] + rest)[1..] == [0xff, 0xff, 0xff, 0x0f] + rest;
    assert ReadVarint([0x0f] + rest, 6) == Got(0x0f, 1);
    assert ReadVarint([0xff, 0x0f] + rest, 7) == Got(0x7ff, 2);
    assert ReadVarint([0xff, 0xff, 0x0f] + rest, 8) == Got(0x3_ffff, 3);
    assert ReadVarint([0xff, 0xff, 0xff, 0x0f] + rest, 9) == Got(0x1ff_ffff, 4);
  }

  // ---------- The object ----------

  const DATA_BIT: bv32 := 1
  const TYPE_BIT: bv32 := 2
  const ID_BIT: bv32 := 4

  predicate HasBit(h: bv32, bit: bv32) { h & bit != 0 }

  function Union(h: bv32, g: bv32): bv32 { h | g }

  lemma BitsOfUnion(h: bv32, g: bv32)
    ensures HasBit(Union(h, g), DATA_BIT) <==> HasBit(h, DATA_BIT) || HasBit(g, DATA_BIT)
    ensures HasBit(Union(h, g), TYPE_BIT) <==> HasBit(h, TYPE_BIT) || HasBit(g, TYPE_BIT)
    ensures HasBit(Union(h, g), ID_BIT) <==> HasBit(h, ID_BIT) || HasBit(g, ID_BIT)
  {
  }

  lemma BitsOfMasks(h: bv32)
    ensures h & 7 == 0 ==> !HasBit(h, DATA_BIT) && !HasBit(h, TYPE_BIT) && !HasBit(h, ID_BIT)
    ensures h & 6 == 0 ==> !HasBit(h, TYPE_BIT) && !HasBit(h, ID_BIT)
  {
  }

  lemma SingleBits()
    ensures forall bit :: bit == DATA_BIT || bit == TYPE_BIT || bit == ID_BIT ==>
      !HasBit(0, bit) && (HasBit(DATA_BIT, bit) <==> bit == DATA_BIT)
      && (HasBit(TYPE_BIT, bit) <==> bit == TYPE_BIT) && (HasBit(ID_BIT, bit) <==> bit == ID_BIT)
  {
  }

  class UserCommNotifyRequest {
    var hasBits: bv32
    var notifyData: seq<byte>
    var notifyMsgType: int32
    var notifyMsgId: int32

    // A field that is not set has its default value.
    ghost predicate Valid()
      reads this
    {
      && (!HasBit(hasBits, DATA_BIT) ==> notifyData == [])
      && (!HasBit(hasBits, TYPE_BIT) ==> notifyMsgType == 0)
      && (!HasBit(hasBits, ID_BIT) ==> notifyMsgId == 0)
    }

    ghost function Value(): Message
      reads this
    {
      Message(if HasBit(hasBits, TYPE_BIT) then Some(notifyMsgType) else None,
              if HasBit(hasBits, ID_BIT) then Some(notifyMsgId) else None,
              if HasBit(hasBits, DATA_BIT) then Some(notifyData) else None)
    }

    // The fields behind the bits 1, 2 and 4 of the first word of has-bits.
    lemma FieldsOfBits()
      requires Valid()
      ensures Value().data == if hasBits & 1 != 0 then Some(notifyData) else None
      ensures Value().msgType == if hasBits & 2 != 0 then Some(notifyMsgType) else None
      ensures Value().msgId == if hasBits & 4 != 0 then Some(notifyMsgId) else None
      ensures hasBits & 1 == 0 ==> notifyData == []
      ensures hasBits & 2 == 0 ==> notifyMsgType == 0
      ensures hasBits & 4 == 0 ==> notifyMsgId == 0
    {
    }

    constructor ()
      ensures Valid() && Value() == EMPTY
    {
      hasBits, notifyData, notifyMsgType, notifyMsgId := 0, [], 0, 0;
      new;
      SingleBits();
    }

    method SetNotifyMsgType(v: int32)
      requires Valid()
      modifies this
      ensures Valid() && Value() == old(Value()).(msgType := Some(v))
    {
      hide HasBit, Union;
      SetBit(TYPE_BIT);
      notifyMsgType := v;
    }

    method SetNotifyMsgId(v: int32)
      requires Valid()
      modifies this
      ensures Valid() && Value() == old(Value()).(msgId := Some(v))
    {
      hide HasBit, Union;
      SetBit(ID_BIT);
      notifyMsgId := v;
    }

    method SetNotifyData(d: seq<byte>)
      requires Valid()
      modifies this
      ensures Valid() && Value() == old(Value()).(data := Some(d))
    {
      hide HasBit, Union;
      SetBit(DATA_BIT);
      notifyData := d;
    }

    // The HasBitSetters of LobbyMsg.pb.cc.
    method SetBit(bit: bv32)
      requires bit == DATA_BIT || bit == TYPE_BIT || bit == ID_BIT
      modifies this`hasBits
      ensures HasBit(hasBits, bit)
      ensures forall other :: other != bit && (other == DATA_BIT || other == TYPE_BIT || other == ID_BIT) ==>
        HasBit(hasBits, other) == HasBit(old(hasBits), other)
    {
      hide HasBit, Union;
      SingleBits();
      BitsOfUnion(hasBits, bit);
      hasBits := Union(hasBits, bit);
    }

    // Clear: resets only what the has-bits say is set.
    method Clear()
      requires Valid()
      modifies this
      ensures Valid() && Value() == EMPTY
    {
      hide HasBit, Union;
      SingleBits();
      BitsOfMasks(hasBits);
      if HasBit(hasBits, 1) {
        notifyData := [];
      }
      if hasBits & 6 != 0 {
        notifyMsgType, notifyMsgId := 0, 0;
      }
      hasBits := 0;
    }

    method MergeFrom(from: UserCommNotifyRequest)
      requires Valid() && from.Valid()
      modifies this
      ensures Valid() && Value() == Merge(old(Value()), old(from.Value()))
    {
      hide HasBit, Union;
      var cached := from.hasBits;
      BitsOfMasks(cached);
      if cached & 7 != 0 {
        if HasBit(cached, DATA_BIT) {
          SetBit(DATA_BIT);
          notifyData := from.notifyData;
        }
        if HasBit(cached, TYPE_BIT) {
          notifyMsgType := from.notifyMsgType;
        }
        if HasBit(cached, ID_BIT) {
          notifyMsgId := from.notifyMsgId;
        }
        BitsOfUnion(hasBits, cached);
        hasBits := Union(hasBits, cached);
      }
    }

    method CopyFrom(from: UserCommNotifyRequest)
      requires Valid() && from.Valid()
      modifies this
      ensures Valid() && Value() == old(from.Value())
    {
      hide HasBit, Union;
      if from == this {
        return;
      }
      Clear();
      MergeFrom(from);
    }

    // MergePartialFromCodedStream: reads fields until the stream ends. A has-bit is set
    // before its value is read, so a failure may leave a field set but not read.
    method MergePartialFromCodedStream(input: seq<byte>) returns (r: Outcome)
      requires Valid()
      modifies this
      ensures Valid()
      ensures match Read(old(Value()), input)
        case AtEnd(m) => r == ReadAll && Value() == m
        case LimitReached(m) => r == Limited && Value() == m
        case ZeroTag(m) => r == Stopped && Value() == m
        case Failed => r == Failure
        case UnknownField => r == OtherField
    {
      hide HasBit, Union, Parse, ReadVarint;
      var delivered := if |input| <= INT_MAX then input else input[..INT_MAX];
      ghost var whole := Parse(old(Value()), delivered);
      var pos := 0;
      assert delivered[pos..] == delivered;
      while true
        invariant 0 <= pos <= |delivered| && Valid()
        invariant whole == Parse(Value(), delivered[pos..])
        decreases |delivered| - pos
      {
        ParseTag(Value(), delivered, pos);
        if pos == |delivered| {
          return if |delivered| == |input| then ReadAll else Limited;
        }
        var ok, tag, next := ReadVarint32(delivered, pos);
        if !ok || tag == 0 {
          return Stopped;
        }
        r, pos := ReadField(tag, delivered, next);
        if r != ReadAll {
          return r;
        }
      }
    }

    // One pass of the loop, behind the tag.
    method ReadField(tag: nat, input: seq<byte>, from: nat) returns (r: Outcome, pos: nat)
      requires Valid() && from <= |input| && tag != 0
      modifies this
      ensures Valid() && from <= pos <= |input|
      ensures r != Stopped && r != Limited
      ensures r == ReadAll ==> ParseField(old(Value()), tag, input[from..]) == Parse(Value(), input[pos..])
      ensures r == Failure ==> ParseField(old(Value()), tag, input[from..]) == Failed
      ensures r == OtherField ==> ParseField(old(Value()), tag, input[from..]) == UnknownField
    {
      hide HasBit, Union, Parse, ParseField, ReadVarint, Truncated;
      ParseBehindTag(Value(), tag, input, from);
      var field := tag / 8;
      var ok, value;
      if field == 1 && tag % 0x100 == 8 {
        SetBit(TYPE_BIT);
        ok, value, pos := ReadVarint32(input, from);
        if !ok {
          return Failure, pos;
        }
        notifyMsgType := Truncated(value);
      } else if field == 2 && tag % 0x100 == 16 {
        SetBit(ID_BIT);
        ok, value, pos := ReadVarint32(input, from);
        if !ok {
          return Failure, pos;
        }
        notifyMsgId := Truncated(value);
      } else if field == 3 && tag % 0x100 == 26 {
        SetBit(DATA_BIT);
        ok, value, pos := ReadVarint32(input, from);
        if !ok || value > INT_MAX {
          return Failure, pos;
        }
        if value > |input| - pos {
          notifyData := *;
          return Failure, pos;
        }
        notifyData := input[pos..pos + value];
        pos := pos + value;
      } else {
        return OtherField, from;
      }
      r := ReadAll;
    }

    // The number of bytes that SerializeToArray writes.
    method ByteSizeLong() returns (total: nat)
      ensures total == |Serialize(Value())|
    {
      hide HasBit, Varint;
      total := 0;
      BitsOfMasks(hasBits);
      if hasBits & 7 != 0 {
        if HasBit(hasBits, DATA_BIT) {
          total := total + 1 + BytesSize(notifyData);
          BytesSizes(3, notifyData);
        }
        if HasBit(hasBits, TYPE_BIT) {
          total := total + 1 + Int32Size(notifyMsgType);
          Int32FieldSize(1, notifyMsgType);
        }
        if HasBit(hasBits, ID_BIT) {
          total := total + 1 + Int32Size(notifyMsgId);
          Int32FieldSize(2, notifyMsgId);
        }
      }
    }

    // InternalSerializeWithCachedSizesToArray: the fields that are set, in the order of
    // their numbers.
    method SerializeToArray(target: array<byte>, at: nat) returns (end: nat)
      requires at + |Serialize(Value())| <= target.Length
      modifies target
      ensures end == at + |Serialize(Value())|
      ensures target[..] == old(target[..at]) + Serialize(Value()) + old(target[end..])
    {
      hide HasBit, Serialize;
      ghost var v := target[..];
      end := WriteFields(target, at);
      WrittenMeans(v, target[..], at, Serialize(Value()));
    }

    // The body of it (lines 3499-3517).
    method WriteFields(target: array<byte>, at: nat) returns (end: nat)
      requires at + |Serialize(Value())| <= target.Length
      modifies target
      ensures end == at + |Serialize(Value())|
      ensures Written(old(target[..]), target[..], at, Serialize(Value()))
    {
      hide HasBit, Int32Field, BytesField, Written;
      end := at;
      var cached := hasBits;
      ghost var m, v0 := Value(), target[..];
      NothingWritten(v0, at);
      if HasBit(cached, TYPE_BIT) {
        end := WriteInt32(1, notifyMsgType, target, end);
      }
      ghost var v1 := target[..];
      NothingWritten(v1, end);
      if HasBit(cached, ID_BIT) {
        end := WriteInt32(2, notifyMsgId, target, end);
      }
      ghost var v2 := target[..];
      NothingWritten(v2, end);
      WrittenBehind(v0, v1, v2, at, TypeBytes(m), IdBytes(m));
      if HasBit(cached, DATA_BIT) {
        end := WriteBytes(3, notifyData, target, end);
      }
      WrittenBehind(v0, v2, target[..], at, TypeBytes(m) + IdBytes(m), DataBytes(m));
    }
  }

  // Parse and ParseField on the rest of the input behind a position.
  lemma ParseTag(m: Message, input: seq<byte>, pos: nat)
    requires pos <= |input|
    ensures Parse(m, input[pos..]) ==
      if pos == |input| then AtEnd(m)
      else
        match ReadVarint(input[pos..], MAX_VARINT_BYTES)
        case Malformed => ZeroTag(m)
        case Got(value, size) => if value % TWO32 == 0 then ZeroTag(m) else ParseField(m, value % TWO32, input[pos + size..])
  {
    hide ReadVarint;
    match ReadVarint(input[pos..], MAX_VARINT_BYTES)
    case Malformed =>
    case Got(value, size) => assert input[pos..][size..] == input[pos + size..];
  }

  lemma ParseBehindTag(m: Message, tag: nat, input: seq<byte>, from: nat)
    requires from <= |input| && tag != 0
    ensures ParseField(m, tag, input[from..]) ==
      if tag != 8 && tag != 16 && tag != 26 then UnknownField
      else
        match ReadVarint(input[from..], MAX_VARINT_BYTES)
        case Malformed => Failed
        case Got(n, size) =>
          var pos, value := from + size, n % TWO32;
          if tag == 8 then Parse(m.(msgType := Some(Truncated(value))), input[pos..])
          else if tag == 16 then Parse(m.(msgId := Some(Truncated(value))), input[pos..])
          else if value > INT_MAX || value > |input| - pos then Failed
          else Parse(m.(data := Some(input[pos..pos + value])), input[pos + value..])
  {
    hide Parse, ReadVarint;
    match ReadVarint(input[from..], MAX_VARINT_BYTES)
    case Malformed =>
    case Got(n, size) =>
      var rest, pos, value := input[from..], from + size, n % TWO32;
      assert rest[size..] == input[pos..];
      if value <= |input| - pos {
        assert rest[size..size + value] == input[pos..pos + value];
        assert rest[size + value..] == input[pos + value..];
      }
  }

  // WireFormatLite::BytesSize.
  function BytesSize(d: seq<byte>): nat { VarintSize32(|d| % TWO32) + |d| }

  lemma BytesSizes(field: nat, d: seq<byte>)
    requires Tag(field, LENGTH_DELIMITED) < 0x80
    ensures |BytesField(field, d)| == 1 + BytesSize(d)
  {
    VarintSizes(|d| % TWO32);
  }

  lemma Int32FieldSize(field: nat, v: int32)
    requires Tag(field, VARINT) < 0x80
    ensures |Int32Field(field, v)| == 1 + Int32Size(v)
  {
    Int32Sizes(v);
  }
}
