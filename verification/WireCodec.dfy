/**
 * The hand-written proto3 codec of web/src/lib/ws.ts, in the wire format of the Protocol Buffers Encoding
 * specification (sections "Base 128 Varints" and "Message Structure"). Strings on the wire are bytes;
 * int64 fields are texts that BigInt reads, as in the web client.
 */
module WireCodec {
  import opened Framing
  import opened Options
  import Decimal

  datatype IMMessage = IMMessage(
    seqNo: string, msgId: string, cmd: int, from: Bytes, to: Bytes,
    chatType: int, msgType: int, content: Bytes, timestamp: string, needAck: bool)

  const BLANK := IMMessage("0", "0", 0, [], [], 1, 1, [], "0", false)

  // ---- varints -------------------------------------------------------------------------------

  /** The last value pushed is stored in a Uint8Array, which keeps it modulo 256; that matters for negative numbers only. */
  function EncodeVarint(v: int): (bs: Bytes)
    ensures |bs| >= 1
    decreases if v > 0 then v else 0
  {
    if v > 127 then [(v % 128 + 128) as Byte] + EncodeVarint(v / 128) else [(v % 256) as Byte]
  }

  /** The value read at the front of `bs` and how far reading moved: a missing byte reads as 0 and still counts. */
  function Varint(bs: Bytes): (r: (nat, nat))
    ensures 1 <= r.1 <= |bs| + 1
  {
    if bs == [] then (0, 1)
    else if bs[0] < 128 then (bs[0] as nat, 1)
    else
      var (v, used) := Varint(bs[1..]);
      (bs[0] as nat - 128 + 128 * v, used + 1)
  }

  /** v shifted right by i groups of seven bits. */
  function Shifted(v: nat, i: nat): nat { if i == 0 then v else Shifted(v / 128, i - 1) }

  /** Seven bits to a byte, the lowest group first, with the top bit set on all bytes but the last. */
  lemma {:induction false} VarintBytes(v: nat, i: nat)
    requires i < |EncodeVarint(v)|
    ensures EncodeVarint(v)[i] as nat == Shifted(v, i) % 128 + if i + 1 < |EncodeVarint(v)| then 128 else 0
    ensures i + 1 < |EncodeVarint(v)| <==> Shifted(v, i) >= 128
  {
    if v > 127 && i > 0 { VarintBytes(v / 128, i - 1); }
  }

  lemma {:induction false} VarintRoundTrip(v: nat, rest: Bytes)
    ensures Varint(EncodeVarint(v) + rest) == (v, |EncodeVarint(v)|)
  {
    if v > 127 {
      VarintRoundTrip(v / 128, rest);
      var bs := EncodeVarint(v) + rest;
      assert bs[1..] == EncodeVarint(v / 128) + rest;
      assert v == v % 128 + 128 * (v / 128);
    }
  }

  // ---- fields ----------------------------------------------------------------------------------

  datatype Field = Number(num: nat, value: int) | Text(num: nat, bytes: Bytes)

  function EncodeTag(num: nat, wireType: nat): (tag: Byte)
    requires num < 16 && wireType < 8
  {
    (num * 8 + wireType) as Byte
  }

  function EncodeField(f: Field): Bytes
    requires f.num < 16
  {
    match f
    case Number(num, value) => [EncodeTag(num, 0)] + EncodeVarint(value)
    case Text(num, bytes) => [EncodeTag(num, 2)] + EncodeVarint(|bytes|) + bytes
  }

  ghost predicate Small(fs: seq<Field>) { forall f | f in fs :: f.num < 16 }

  ghost predicate NonNegative(fs: seq<Field>) { forall f | f in fs && f.Number? :: f.value >= 0 }

  function EncodeFields(fs: seq<Field>): Bytes
    requires Small(fs)
  {
    if fs == [] then [] else EncodeField(fs[0]) + EncodeFields(fs[1..])
  }

  /** The decoder's two switches; an unknown number leaves the message alone. */
  function SetField(m: IMMessage, f: Field): IMMessage {
    match f
    case Number(1, v) => m.(seqNo := Decimal.FormatInt(v))
    case Number(2, v) => m.(msgId := Decimal.FormatInt(v))
    case Number(3, v) => m.(cmd := v)
    case Number(6, v) => m.(chatType := v)
    case Number(7, v) => m.(msgType := v)
    case Number(9, v) => m.(timestamp := Decimal.FormatInt(v))
    case Number(10, v) => m.(needAck := v == 1)
    case Text(4, b) => m.(from := b)
    case Text(5, b) => m.(to := b)
    case Text(8, b) => m.(content := b)
    case _ => m
  }

  function SetFields(m: IMMessage, fs: seq<Field>): IMMessage
    decreases |fs|
  {
    if fs == [] then m else SetFields(SetField(m, fs[0]), fs[1..])
  }

  // ---- decoding --------------------------------------------------------------------------------

  /** Uint8Array.slice and a moved position both stop at the end of the data. */
  function Skip(bs: Bytes, n: nat): Bytes { if n >= |bs| then [] else bs[n..] }
  function Take(bs: Bytes, n: nat): Bytes { if n >= |bs| then bs else bs[..n] }

  /** One turn of the decoding loop: at most one field (other wire types carry none), and the bytes behind it. */
  function ReadOne(bs: Bytes): (r: (seq<Field>, Bytes))
    ensures bs != [] ==> |r.1| < |bs|
    ensures NonNegative(r.0)
  {
    var (tag, used) := Varint(bs);
    ReadBody(tag, Skip(bs, used))
  }

  function ReadBody(tag: nat, body: Bytes): (r: (seq<Field>, Bytes))
    ensures |r.1| <= |body| && NonNegative(r.0)
  {
    var (v, n) := Varint(body);
    var next := Skip(body, n);
    if tag % 8 == 0 then ([Number(tag / 8, v)], next)
    else if tag % 8 == 2 then ([Text(tag / 8, Take(next, v))], Skip(next, v))
    else ([], body)
  }

  /** The fields read from `bs`; every turn moves forward, so reading ends on all bytes. */
  function Tokens(bs: Bytes): (fs: seq<Field>)
    ensures NonNegative(fs)
    decreases |bs|
  {
    if bs == [] then []
    else
      var (f, rest) := ReadOne(bs);
      f + Tokens(rest)
  }

  function Decode(bs: Bytes): IMMessage { SetFields(BLANK, Tokens(bs)) }

  lemma TagRoundTrip(num: nat, wireType: nat, body: Bytes)
    requires num < 16 && wireType < 8
    ensures var bs := [EncodeTag(num, wireType)] + body;
            Varint(bs) == (num * 8 + wireType, 1) && Skip(bs, 1) == body
  {
  }

  lemma SkipFront(a: Bytes, b: Bytes)
    ensures Skip(a + b, |a|) == b && Take(a + b, |a|) == a
  {
  }

  lemma ReadNumber(num: nat, v: nat, rest: Bytes)
    requires num < 16
    ensures ReadOne(EncodeField(Number(num, v)) + rest) == ([Number(num, v)], rest)
  {
    var size := EncodeVarint(v);
    TagRoundTrip(num, 0, size + rest);
    VarintRoundTrip(v, rest);
    SkipFront(size, rest);
    assert EncodeField(Number(num, v)) + rest == [EncodeTag(num, 0)] + (size + rest);
  }

  lemma ReadTextBody(num: nat, b: Bytes, rest: Bytes, body: Bytes, n: nat)
    requires Varint(body) == (|b|, n) && Skip(body, n) == b + rest
    ensures ReadBody(num * 8 + 2, body) == ([Text(num, b)], rest)
  {
    SkipFront(b, rest);
  }

  lemma TextLayout(num: nat, b: Bytes, rest: Bytes)
    requires num < 16
    ensures EncodeField(Text(num, b)) + rest == [EncodeTag(num, 2)] + (EncodeVarint(|b|) + (b + rest))
  {
    Regroup([EncodeTag(num, 2)], EncodeVarint(|b|), b, rest);
  }

  lemma Regroup(a: Bytes, b: Bytes, c: Bytes, d: Bytes)
    ensures ((a + b) + c) + d == a + (b + (c + d))
  {
    assert (a + b) + c == a + (b + c);
    assert (b + c) + d == b + (c + d);
    assert (a + (b + c)) + d == a + ((b + c) + d);
  }

  lemma SizeRoundTrip(v: nat, rest: Bytes)
    ensures var size := EncodeVarint(v); Varint(size + rest) == (v, |size|) && Skip(size + rest, |size|) == rest
  {
    VarintRoundTrip(v, rest);
    SkipFront(EncodeVarint(v), rest);
  }

  lemma ReadText(num: nat, b: Bytes, rest: Bytes)
    requires num < 16
    ensures ReadOne(EncodeField(Text(num, b)) + rest) == ([Text(num, b)], rest)
  {
    var body := EncodeVarint(|b|) + (b + rest);
    TextLayout(num, b, rest);
    TagRoundTrip(num, 2, body);
    SizeRoundTrip(|b|, b + rest);
    ReadTextBody(num, b, rest, body, |EncodeVarint(|b|)|);
  }

  lemma TokensStep(f: Field, rest: Bytes)
    requires f.num < 16 && (f.Number? ==> f.value >= 0)
    ensures Tokens(EncodeField(f) + rest) == [f] + Tokens(rest)
  {
    match f {
      case Number(num, v) => ReadNumber(num, v, rest);
      case Text(num, b) => ReadText(num, b, rest);
    }
  }

  /** Any list of fields, in any order, known or not, repeated or not, is read back as it was written. */
  lemma {:induction false} TokensOfEncoding(fs: seq<Field>)
    requires Small(fs) && NonNegative(fs)
    ensures Tokens(EncodeFields(fs)) == fs
  {
    if fs != [] {
      assert fs[0] in fs;
      TokensStep(fs[0], EncodeFields(fs[1..]));
      TokensOfEncoding(fs[1..]);
      assert fs == [fs[0]] + fs[1..];
    }
  }

  // ---- messages -----------------------------------------------------------------------------------

  /** BigInt on text: the number read, or None where it throws. */
  type Parse = string -> Option<int>

  /** All that is asked of BigInt: it reads what String(BigInt) writes. */
  ghost predicate ReadsDigits(big: Parse) {
    forall s | Decimal.Canonical(s) :: big(s) == Some(Decimal.Value(s) as int)
  }

  /** An int64 text is left out when it is empty or "0", and is otherwise BigInt's to read. */
  predicate Reads(big: Parse, s: string) { s == "" || s == "0" || big(s).Some? }

  predicate Encodable(big: Parse, m: IMMessage) { Reads(big, m.seqNo) && Reads(big, m.msgId) && Reads(big, m.timestamp) }

  function Int64(big: Parse, s: string): int
    requires Reads(big, s)
  {
    if s == "" || s == "0" then 0 else big(s).value
  }

  function Int64Field(big: Parse, num: nat, s: string): (fs: seq<Field>)
    requires Reads(big, s)
    ensures num < 16 ==> Small(fs)
    ensures Int64(big, s) >= 0 ==> NonNegative(fs)
  {
    if s != "" && s != "0" then [Number(num, big(s).value)] else []
  }

  function IntField(num: nat, v: int): (fs: seq<Field>)
    ensures num < 16 ==> Small(fs)
    ensures v >= 0 ==> NonNegative(fs)
  {
    if v != 0 then [Number(num, v)] else []
  }

  function TextField(num: nat, b: Bytes): (fs: seq<Field>)
    ensures num < 16 ==> Small(fs)
    ensures NonNegative(fs)
  {
    if b != [] then [Text(num, b)] else []
  }

  function Opening(big: Parse, m: IMMessage): (fs: seq<Field>)
    requires Encodable(big, m)
    ensures Small(fs) && (Unsigned(big, m) ==> NonNegative(fs))
  {
    Int64Field(big, 1, m.seqNo) + Int64Field(big, 2, m.msgId) + IntField(3, m.cmd) + TextField(4, m.from) + TextField(5, m.to)
  }

  function Closing(big: Parse, m: IMMessage): (fs: seq<Field>)
    requires Encodable(big, m)
    ensures Small(fs) && (Unsigned(big, m) ==> NonNegative(fs))
  {
    IntField(6, m.chatType) + IntField(7, m.msgType) + TextField(8, m.content) + Int64Field(big, 9, m.timestamp)
    + IntField(10, if m.needAck then 1 else 0)
  }

  /** The fields encodeMessage writes, in its order; unset values are left out. */
  function Fields(big: Parse, m: IMMessage): (fs: seq<Field>)
    requires Encodable(big, m)
    ensures Small(fs) && (Unsigned(big, m) ==> NonNegative(fs))
  {
    Opening(big, m) + Closing(big, m)
  }

  /** No number of the message is negative. */
  predicate Unsigned(big: Parse, m: IMMessage)
    requires Encodable(big, m)
  {
    && Int64(big, m.seqNo) >= 0 && Int64(big, m.msgId) >= 0 && Int64(big, m.timestamp) >= 0
    && m.cmd >= 0 && m.chatType >= 0 && m.msgType >= 0
  }

  function Plain(big: Parse, s: string): string
    requires Reads(big, s)
  {
    Decimal.FormatInt(Int64(big, s))
  }

  /** What a message should become on the way: numbers in their usual decimal form, and unset types read as 1. */
  function Normal(big: Parse, m: IMMessage): IMMessage
    requires Encodable(big, m)
  {
    IMMessage(Plain(big, m.seqNo), Plain(big, m.msgId), m.cmd, m.from, m.to,
              if m.chatType == 0 then 1 else m.chatType, if m.msgType == 0 then 1 else m.msgType,
              m.content, Plain(big, m.timestamp), m.needAck)
  }

  lemma {:induction false} SetFieldsAppend(m: IMMessage, a: seq<Field>, b: seq<Field>)
    ensures SetFields(m, a + b) == SetFields(SetFields(m, a), b)
    decreases |a|
  {
    if a == [] {
      assert [] + b == b;
    } else {
      SetFieldsAppend(SetField(m, a[0]), a[1..], b);
      assert (a + b)[1..] == a[1..] + b;
    }
  }

  lemma SetInt64(big: Parse, m: IMMessage, num: nat, s: string)
    requires Reads(big, s)
    ensures num == 1 && m.seqNo == "0" ==> SetFields(m, Int64Field(big, num, s)) == m.(seqNo := Plain(big, s))
    ensures num == 2 && m.msgId == "0" ==> SetFields(m, Int64Field(big, num, s)) == m.(msgId := Plain(big, s))
    ensures num == 9 && m.timestamp == "0" ==> SetFields(m, Int64Field(big, num, s)) == m.(timestamp := Plain(big, s))
  {
    assert Decimal.FormatInt(0) == "0";
  }

  lemma FirstHalf(big: Parse, m: IMMessage)
    requires Encodable(big, m)
    ensures SetFields(BLANK, Opening(big, m))
            == BLANK.(seqNo := Plain(big, m.seqNo), msgId := Plain(big, m.msgId), cmd := m.cmd, from := m.from, to := m.to)
  {
    var a := Int64Field(big, 1, m.seqNo);
    var b := a + Int64Field(big, 2, m.msgId);
    var c := b + IntField(3, m.cmd);
    var d := c + TextField(4, m.from);
    var m1 := BLANK.(seqNo := Plain(big, m.seqNo));
    var m2 := m1.(msgId := Plain(big, m.msgId));
    SetInt64(big, BLANK, 1, m.seqNo);
    SetFieldsAppend(BLANK, a, Int64Field(big, 2, m.msgId));
    SetInt64(big, m1, 2, m.msgId);
    SetFieldsAppend(BLANK, b, IntField(3, m.cmd));
    SetFieldsAppend(BLANK, c, TextField(4, m.from));
    SetFieldsAppend(BLANK, d, TextField(5, m.to));
    assert SetFields(m2, IntField(3, m.cmd)) == m2.(cmd := m.cmd);
  }

  lemma SecondHalf(big: Parse, m: IMMessage, start: IMMessage)
    requires Encodable(big, m)
    requires start == Normal(big, m).(chatType := 1, msgType := 1, content := [], timestamp := "0", needAck := false)
    ensures SetFields(start, Closing(big, m)) == Normal(big, m)
  {
    var a := IntField(6, m.chatType);
    var b := a + IntField(7, m.msgType);
    var c := b + TextField(8, m.content);
    var d := c + Int64Field(big, 9, m.timestamp);
    var last := IntField(10, if m.needAck then 1 else 0);
    SetFieldsAppend(start, a, IntField(7, m.msgType));
    SetFieldsAppend(start, b, TextField(8, m.content));
    SetFieldsAppend(start, c, Int64Field(big, 9, m.timestamp));
    SetFieldsAppend(start, d, last);
    var m3 := SetFields(start, c);
    assert m3 == Normal(big, m).(timestamp := "0", needAck := false);
    SetInt64(big, m3, 9, m.timestamp);
    var m4 := SetFields(start, d);
    assert SetFields(m4, last) == m4.(needAck := m.needAck);
  }

  lemma FieldsSpellOut(big: Parse, m: IMMessage)
    requires Encodable(big, m)
    ensures SetFields(BLANK, Fields(big, m)) == Normal(big, m)
  {
    SetFieldsAppend(BLANK, Opening(big, m), Closing(big, m));
    FirstHalf(big, m);
    SecondHalf(big, m, SetFields(BLANK, Opening(big, m)));
  }

  /** What decoding can produce at all: canonical decimals and no negative number. */
  ghost predicate Clean(m: IMMessage) {
    && Decimal.Canonical(m.seqNo) && Decimal.Canonical(m.msgId) && Decimal.Canonical(m.timestamp)
    && m.cmd >= 0 && m.chatType >= 0 && m.msgType >= 0
  }

  lemma {:induction false} SetFieldsClean(m: IMMessage, fs: seq<Field>)
    requires Clean(m) && NonNegative(fs)
    ensures Clean(SetFields(m, fs))
    decreases |fs|
  {
    if fs != [] {
      assert fs[0] in fs;
      SetFieldsClean(SetField(m, fs[0]), fs[1..]);
    }
  }

  /** Every byte string whatever decodes to a clean message. */
  lemma DecodeIsClean(bs: Bytes)
    ensures Clean(Decode(bs))
  {
    SetFieldsClean(BLANK, Tokens(bs));
  }

  lemma CanonicalIsUnsigned(v: int)
    ensures Decimal.Canonical(Decimal.FormatInt(v)) <==> v >= 0
  {
    if v < 0 {
      var s := Decimal.FormatInt(v);
      assert s[0] == '-' && !Decimal.IsDigit(s[0]);
    }
  }

  /** Whenever encoding does not throw, decode after encode is normalisation if and only if no number is negative. */
  lemma DecodeEncodeIff(big: Parse, m: IMMessage)
    requires Encodable(big, m)
    ensures Decode(EncodeFields(Fields(big, m))) == Normal(big, m) <==> Unsigned(big, m)
  {
    if Unsigned(big, m) {
      TokensOfEncoding(Fields(big, m));
      FieldsSpellOut(big, m);
    } else {
      DecodeIsClean(EncodeFields(Fields(big, m)));
      CanonicalIsUnsigned(Int64(big, m.seqNo));
      CanonicalIsUnsigned(Int64(big, m.msgId));
      CanonicalIsUnsigned(Int64(big, m.timestamp));
    }
  }

  /** Any message at all survives encoding and decoding if and only if its decimals are canonical and its types are set. */
  lemma RoundTripIff(big: Parse, m: IMMessage)
    requires ReadsDigits(big)
    ensures Encodable(big, m) && Decode(EncodeFields(Fields(big, m))) == m <==> Clean(m) && m.chatType != 0 && m.msgType != 0
  {
    if Clean(m) {
      PlainIsSame(big, m.seqNo);
      PlainIsSame(big, m.msgId);
      PlainIsSame(big, m.timestamp);
      DecodeEncodeIff(big, m);
    } else if Encodable(big, m) {
      DecodeIsClean(EncodeFields(Fields(big, m)));
    }
  }

  lemma PlainIsSame(big: Parse, s: string)
    requires ReadsDigits(big) && Decimal.Canonical(s)
    ensures Reads(big, s) && Int64(big, s) >= 0 && Plain(big, s) == s
  {
    Decimal.FormatOfValue(s);
    assert s == "0" || big(s) == Some(Decimal.Value(s) as int);
    assert Decimal.FormatInt(0) == "0";
  }

  // ---- the wire format itself -----------------------------------------------------------------------

  /** One more field, or none, at the end adds its bytes at the end. */
  lemma EncodePiece(fs: seq<Field>, piece: seq<Field>)
    requires Small(fs) && Small(piece) && |piece| <= 1
    ensures Small(fs + piece) && EncodeFields(fs + piece) == EncodeFields(fs) + EncodeFields(piece)
  {
    if piece == [] {
      assert fs + piece == fs;
    } else {
      var f := piece[0];
      assert piece == [f] && f in piece;
      EncodeSnoc(fs, f);
      EncodeOne(f);
    }
  }

  lemma EncodeOne(f: Field)
    requires f.num < 16
    ensures Small([f]) && EncodeFields([f]) == EncodeField(f)
  {
    assert [f][1..] == [];
    assert EncodeFields([f]) == EncodeField(f) + [];
  }

  function NumberPart(tag: Byte, present: bool, v: int): Bytes { if present then [tag] + EncodeVarint(v) else [] }

  function TextPart(tag: Byte, b: Bytes): Bytes { if b == [] then [] else [tag] + EncodeVarint(|b|) + b }

  predicate Present(s: string) { s != "" && s != "0" }

  /** The first five fields on the wire, by their tag bytes. */
  lemma OpeningBytes(big: Parse, m: IMMessage)
    requires Encodable(big, m)
    ensures EncodeFields(Opening(big, m)) ==
            NumberPart(0x08, Present(m.seqNo), Int64(big, m.seqNo)) + NumberPart(0x10, Present(m.msgId), Int64(big, m.msgId))
            + NumberPart(0x18, m.cmd != 0, m.cmd) + TextPart(0x22, m.from) + TextPart(0x2A, m.to)
  {
    var a, b := Int64Field(big, 1, m.seqNo), Int64Field(big, 2, m.msgId);
    var c, d, e := IntField(3, m.cmd), TextField(4, m.from), TextField(5, m.to);
    EncodePiece(a, b);
    EncodePiece(a + b, c);
    EncodePiece(a + b + c, d);
    EncodePiece(a + b + c + d, e);
    Int64Bytes(big, 1, m.seqNo);
    Int64Bytes(big, 2, m.msgId);
    IntBytes(3, m.cmd);
    TextBytes(4, m.from);
    TextBytes(5, m.to);
  }

  /** The other five behind them. */
  lemma ClosingBytes(big: Parse, m: IMMessage)
    requires Encodable(big, m)
    ensures EncodeFields(Fields(big, m)) ==
            EncodeFields(Opening(big, m))
            + NumberPart(0x30, m.chatType != 0, m.chatType) + NumberPart(0x38, m.msgType != 0, m.msgType) + TextPart(0x42, m.content)
            + NumberPart(0x48, Present(m.timestamp), Int64(big, m.timestamp)) + NumberPart(0x50, m.needAck, 1)
  {
    var o, a, b, c := Opening(big, m), IntField(6, m.chatType), IntField(7, m.msgType), TextField(8, m.content);
    var d, e := Int64Field(big, 9, m.timestamp), IntField(10, if m.needAck then 1 else 0);
    EncodePiece(o, a);
    EncodePiece(o + a, b);
    EncodePiece(o + a + b, c);
    EncodePiece(o + a + b + c, d);
    EncodePiece(o + a + b + c + d, e);
    RegroupClosing(big, m);
    IntBytes(6, m.chatType);
    IntBytes(7, m.msgType);
    TextBytes(8, m.content);
    Int64Bytes(big, 9, m.timestamp);
    IntBytes(10, if m.needAck then 1 else 0);
  }

  lemma Int64Bytes(big: Parse, num: nat, s: string)
    requires num < 16 && Reads(big, s)
    ensures EncodeFields(Int64Field(big, num, s)) == NumberPart((num * 8) as Byte, Present(s), Int64(big, s))
  {
    if Present(s) { EncodeOne(Number(num, big(s).value)); }
  }

  lemma IntBytes(num: nat, v: int)
    requires num < 16
    ensures EncodeFields(IntField(num, v)) == NumberPart((num * 8) as Byte, v != 0, v)
  {
    if v != 0 { EncodeOne(Number(num, v)); }
  }

  lemma TextBytes(num: nat, b: Bytes)
    requires num < 16
    ensures EncodeFields(TextField(num, b)) == TextPart((num * 8 + 2) as Byte, b)
  {
    if b != [] { EncodeOne(Text(num, b)); }
  }

  /**
   * The bytes of any message: its set fields in ascending order, each behind its tag byte. seq is 08, msg_id 10,
   * cmd 18, from 22, to 2A, chat_type 30, msg_type 38, content 42, timestamp 48 and need_ack 50.
   */
  lemma WireFormat(big: Parse, m: IMMessage)
    requires Encodable(big, m)
    ensures EncodeFields(Fields(big, m)) ==
            NumberPart(0x08, Present(m.seqNo), Int64(big, m.seqNo)) + NumberPart(0x10, Present(m.msgId), Int64(big, m.msgId))
            + NumberPart(0x18, m.cmd != 0, m.cmd) + TextPart(0x22, m.from) + TextPart(0x2A, m.to)
            + NumberPart(0x30, m.chatType != 0, m.chatType) + NumberPart(0x38, m.msgType != 0, m.msgType) + TextPart(0x42, m.content)
            + NumberPart(0x48, Present(m.timestamp), Int64(big, m.timestamp)) + NumberPart(0x50, m.needAck, 1)
  {
    OpeningBytes(big, m);
    ClosingBytes(big, m);
  }

  const UNSET := IMMessage("", "", 0, [], [], 0, 0, [], "", false)

  /** A message with one text set, and nothing else, is that text behind its tag and its length. */
  lemma TextAlone(big: Parse, b: Bytes)
    requires b != []
    ensures EncodeFields(Fields(big, UNSET.(from := b))) == [0x22] + EncodeVarint(|b|) + b
    ensures EncodeFields(Fields(big, UNSET.(to := b))) == [0x2A] + EncodeVarint(|b|) + b
    ensures EncodeFields(Fields(big, UNSET.(content := b))) == [0x42] + EncodeVarint(|b|) + b
  {
    FromAlone(big, b);
    ToAlone(big, b);
    ContentAlone(big, b);
    TagBytes(0, b);
  }

  lemma FromAlone(big: Parse, b: Bytes)
    requires b != []
    ensures EncodeFields(Fields(big, UNSET.(from := b))) == EncodeField(Text(4, b))
  {
    assert Fields(big, UNSET.(from := b)) == [Text(4, b)];
    EncodeOne(Text(4, b));
  }

  lemma ToAlone(big: Parse, b: Bytes)
    requires b != []
    ensures EncodeFields(Fields(big, UNSET.(to := b))) == EncodeField(Text(5, b))
  {
    assert Fields(big, UNSET.(to := b)) == [Text(5, b)];
    EncodeOne(Text(5, b));
  }

  lemma ContentAlone(big: Parse, b: Bytes)
    requires b != []
    ensures EncodeFields(Fields(big, UNSET.(content := b))) == EncodeField(Text(8, b))
  {
    assert Fields(big, UNSET.(content := b)) == [Text(8, b)];
    EncodeOne(Text(8, b));
  }

  /** The tag bytes: field number times 8, plus 0 for a varint and 2 for a length-delimited text. */
  lemma TagBytes(v: int, b: Bytes)
    ensures EncodeField(Number(1, v)) == [0x08] + EncodeVarint(v) && EncodeField(Number(2, v)) == [0x10] + EncodeVarint(v)
    ensures EncodeField(Number(3, v)) == [0x18] + EncodeVarint(v) && EncodeField(Number(6, v)) == [0x30] + EncodeVarint(v)
    ensures EncodeField(Number(7, v)) == [0x38] + EncodeVarint(v) && EncodeField(Number(9, v)) == [0x48] + EncodeVarint(v)
    ensures EncodeField(Number(10, v)) == [0x50] + EncodeVarint(v) && EncodeField(Text(4, b)) == [0x22] + EncodeVarint(|b|) + b
    ensures EncodeField(Text(5, b)) == [0x2A] + EncodeVarint(|b|) + b && EncodeField(Text(8, b)) == [0x42] + EncodeVarint(|b|) + b
  {
  }

  /** `bs` anywhere in a message turns m into d: that is what reading these bytes does. */
  ghost predicate Sets(bs: Bytes, m: IMMessage, d: IMMessage) { SetFields(m, Tokens(bs)) == d }

  lemma NumberSets(m: IMMessage, num: nat, tag: Byte, v: nat, d: IMMessage)
    requires num < 16 && tag as nat == num * 8 && d == SetField(m, Number(num, v))
    ensures Sets([tag] + EncodeVarint(v), m, d)
  {
    assert EncodeTag(num, 0) == tag;
    OneToken(m, Number(num, v));
  }

  lemma TextSets(m: IMMessage, num: nat, tag: Byte, b: Bytes, d: IMMessage)
    requires num < 16 && tag as nat == num * 8 + 2 && d == SetField(m, Text(num, b))
    ensures Sets([tag] + EncodeVarint(|b|) + b, m, d)
  {
    TextFieldBytes(num, tag, b);
    FieldSets(m, Text(num, b), [tag] + EncodeVarint(|b|) + b, d);
  }

  lemma TextFieldBytes(num: nat, tag: Byte, b: Bytes)
    requires num < 16 && tag as nat == num * 8 + 2
    ensures EncodeField(Text(num, b)) == [tag] + EncodeVarint(|b|) + b
  {
    assert EncodeTag(num, 2) == tag;
  }

  lemma FieldSets(m: IMMessage, f: Field, bs: Bytes, d: IMMessage)
    requires f.num < 16 && (f.Number? ==> f.value >= 0) && bs == EncodeField(f) && d == SetField(m, f)
    ensures Sets(bs, m, d)
  {
    OneToken(m, f);
  }

  lemma OneToken(m: IMMessage, f: Field)
    requires f.num < 16 && (f.Number? ==> f.value >= 0)
    ensures SetFields(m, Tokens(EncodeField(f))) == SetField(m, f)
  {
    EncodeOne(f);
    TokensOfEncoding([f]);
    assert [f][1..] == [];
  }

  // What each tag byte means to the decoder, met anywhere in a message.

  lemma SeqTag(m: IMMessage, v: nat)
    ensures Sets([0x08] + EncodeVarint(v), m, m.(seqNo := Decimal.Format(v)))
  {
    NumberSets(m, 1, 0x08, v, m.(seqNo := Decimal.Format(v)));
  }

  lemma MsgIdTag(m: IMMessage, v: nat)
    ensures Sets([0x10] + EncodeVarint(v), m, m.(msgId := Decimal.Format(v)))
  {
    NumberSets(m, 2, 0x10, v, m.(msgId := Decimal.Format(v)));
  }

  lemma CmdTag(m: IMMessage, v: nat)
    ensures Sets([0x18] + EncodeVarint(v), m, m.(cmd := v))
  {
    NumberSets(m, 3, 0x18, v, m.(cmd := v));
  }

  lemma FromTag(m: IMMessage, b: Bytes)
    ensures Sets([0x22] + EncodeVarint(|b|) + b, m, m.(from := b))
  {
    TextSets(m, 4, 0x22, b, m.(from := b));
  }

  lemma ToTag(m: IMMessage, b: Bytes)
    ensures Sets([0x2A] + EncodeVarint(|b|) + b, m, m.(to := b))
  {
    TextSets(m, 5, 0x2A, b, m.(to := b));
  }

  lemma ChatTypeTag(m: IMMessage, v: nat)
    ensures Sets([0x30] + EncodeVarint(v), m, m.(chatType := v))
  {
    NumberSets(m, 6, 0x30, v, m.(chatType := v));
  }

  lemma MsgTypeTag(m: IMMessage, v: nat)
    ensures Sets([0x38] + EncodeVarint(v), m, m.(msgType := v))
  {
    NumberSets(m, 7, 0x38, v, m.(msgType := v));
  }

  lemma ContentTag(m: IMMessage, b: Bytes)
    ensures Sets([0x42] + EncodeVarint(|b|) + b, m, m.(content := b))
  {
    TextSets(m, 8, 0x42, b, m.(content := b));
  }

  lemma TimestampTag(m: IMMessage, v: nat)
    ensures Sets([0x48] + EncodeVarint(v), m, m.(timestamp := Decimal.Format(v)))
  {
    NumberSets(m, 9, 0x48, v, m.(timestamp := Decimal.Format(v)));
  }

  lemma NeedAckTag(m: IMMessage, v: nat)
    ensures Sets([0x50] + EncodeVarint(v), m, m.(needAck := v == 1))
  {
    NumberSets(m, 10, 0x50, v, m.(needAck := v == 1));
  }

  /** Every other field number is passed over, in either wire type, and without any field the defaults remain. */
  lemma UnknownFields(m: IMMessage, f: Field)
    requires f.Number? ==> f.num !in {1, 2, 3, 6, 7, 9, 10}
    requires f.Text? ==> f.num !in {4, 5, 8}
    ensures SetField(m, f) == m
    ensures Decode([]) == IMMessage("0", "0", 0, [], [], 1, 1, [], "0", false)
  {
  }

  /** A tag of any other wire type is passed over by itself. */
  lemma OtherWireTypes(tag: Byte, rest: Bytes)
    requires tag < 128 && tag % 8 != 0 && tag % 8 != 2
    ensures Tokens([tag] + rest) == Tokens(rest)
  {
    var bs := [tag] + rest;
    assert Varint(bs) == (tag as nat, 1) && Skip(bs, 1) == rest;
    assert ReadOne(bs) == ([], rest);
    assert [] + Tokens(rest) == Tokens(rest);
  }

  // ---- the loops of the source --------------------------------------------------------------------

  method EncodeVarintLoop(value: int) returns (bytes: Bytes)
    ensures bytes == EncodeVarint(value)
  {
    bytes := [];
    var v := value;
    while v > 127
      invariant bytes + EncodeVarint(v) == EncodeVarint(value)
    {
      bytes := bytes + [(v % 128 + 128) as Byte];
      v := v / 128;
    }
    bytes := bytes + [(v % 256) as Byte];
  }

  function ValueAt(data: Bytes, pos: nat): nat { Varint(Skip(data, pos)).0 }

  function EndAt(data: Bytes, pos: nat): (end: nat)
    ensures end > pos
  {
    pos + Varint(Skip(data, pos)).1
  }

  /** decodeVarint's accumulation; `result` holds only bits below `scale`, so OR-ing a group in is adding it. */
  function Accumulate(bs: Bytes, result: nat, scale: nat): nat {
    var byte := if bs == [] then 0 else bs[0];
    var r := WithGroup(result, scale, byte);
    if byte >= 128 then Accumulate(bs[1..], r, scale * 128) else r
  }

  function WithGroup(result: nat, scale: nat, byte: Byte): nat { result + scale * (byte as nat % 128) }

  lemma {:induction false} AccumulateIsVarint(bs: Bytes, result: nat, scale: nat)
    ensures Accumulate(bs, result, scale) == result + scale * Varint(bs).0
    decreases |bs|
  {
    if bs != [] && bs[0] >= 128 {
      var low, high := bs[0] as nat % 128, Varint(bs[1..]).0;
      AccumulateIsVarint(bs[1..], result + scale * low, scale * 128);
      Group(scale, low, high);
    }
  }

  lemma Group(scale: nat, low: nat, high: nat)
    ensures scale * (low + 128 * high) == scale * low + (scale * 128) * high
  {
  }

  function ByteAt(data: Bytes, pos: nat): Byte { if pos < |data| then data[pos] else 0 }

  lemma OneGroup(data: Bytes, pos: nat, result: nat, scale: nat)
    ensures var byte := ByteAt(data, pos);
            var r := WithGroup(result, scale, byte);
            && EndAt(data, pos) == (if byte >= 128 then EndAt(data, pos + 1) else pos + 1)
            && Accumulate(Skip(data, pos), result, scale) ==
               (if byte >= 128 then Accumulate(Skip(data, pos + 1), r, scale * 128) else r)
  {
    if pos < |data| {
      assert Skip(data, pos)[1..] == Skip(data, pos + 1);
    }
  }

  method DecodeVarintLoop(data: Bytes, offset: nat) returns (result: nat, pos: nat)
    ensures result == ValueAt(data, offset) && pos == EndAt(data, offset)
  {
    result, pos := 0, offset;
    var scale: nat := 1;
    var more := true;
    AccumulateIsVarint(Skip(data, offset), 0, 1);
    while more
      invariant more ==> Accumulate(Skip(data, pos), result, scale) == ValueAt(data, offset)
      invariant more ==> EndAt(data, pos) == EndAt(data, offset)
      invariant !more ==> result == ValueAt(data, offset) && pos == EndAt(data, offset)
      decreases more, |data| - pos
    {
      OneGroup(data, pos, result, scale);
      var byte := ByteAt(data, pos);
      result, scale, pos := WithGroup(result, scale, byte), scale * 128, pos + 1;
      more := byte >= 128;
    }
  }

  lemma {:induction false} EncodeSnoc(fs: seq<Field>, f: Field)
    requires Small(fs) && f.num < 16
    ensures Small(fs + [f]) && EncodeFields(fs + [f]) == EncodeFields(fs) + EncodeField(f)
  {
    var all := fs + [f];
    assert Small(all);
    if fs == [] {
      assert all == [f];
    } else {
      EncodeSnoc(fs[1..], f);
      assert all[0] == fs[0] && all[1..] == fs[1..] + [f];
      assert EncodeFields(all) == EncodeField(fs[0]) + (EncodeFields(fs[1..]) + EncodeField(f));
    }
  }

  function Flat(parts: seq<Bytes>): Bytes {
    if parts == [] then [] else Flat(parts[..|parts| - 1]) + parts[|parts| - 1]
  }

  lemma FlatTwo(parts: seq<Bytes>, a: Bytes, b: Bytes)
    ensures Flat(parts + [a, b]) == Flat(parts) + (a + b)
  {
    assert (parts + [a, b])[..|parts| + 1] == parts + [a];
    assert (parts + [a])[..|parts|] == parts;
  }

  method PushInt(parts: seq<Bytes>, ghost fs: seq<Field>, num: nat, value: int) returns (more: seq<Bytes>)
    requires num < 16 && Small(fs) && Flat(parts) == EncodeFields(fs)
    ensures Small(fs + IntField(num, value)) && Flat(more) == EncodeFields(fs + IntField(num, value))
  {
    if value != 0 {
      more := PushNumber(parts, fs, num, value);
    } else {
      more := parts;
      assert fs + [] == fs;
    }
  }

  method PushInt64(big: Parse, parts: seq<Bytes>, ghost fs: seq<Field>, num: nat, s: string) returns (more: seq<Bytes>)
    requires num < 16 && Small(fs) && Flat(parts) == EncodeFields(fs) && Reads(big, s)
    ensures Small(fs + Int64Field(big, num, s)) && Flat(more) == EncodeFields(fs + Int64Field(big, num, s))
  {
    if s != "" && s != "0" {
      more := PushNumber(parts, fs, num, big(s).value);
    } else {
      more := parts;
      assert fs + [] == fs;
    }
  }

  method PushNumber(parts: seq<Bytes>, ghost fs: seq<Field>, num: nat, value: int) returns (more: seq<Bytes>)
    requires num < 16 && Small(fs) && Flat(parts) == EncodeFields(fs)
    ensures Small(fs + [Number(num, value)]) && Flat(more) == EncodeFields(fs + [Number(num, value)])
  {
    var v := EncodeVarintLoop(value);
    var part := [EncodeTag(num, 0)] + v;
    more := parts + [part];
    assert more[..|parts|] == parts;
    EncodeSnoc(fs, Number(num, value));
  }

  method PushText(parts: seq<Bytes>, ghost fs: seq<Field>, num: nat, text: Bytes) returns (more: seq<Bytes>)
    requires num < 16 && Small(fs) && Flat(parts) == EncodeFields(fs)
    ensures Small(fs + TextField(num, text)) && Flat(more) == EncodeFields(fs + TextField(num, text))
  {
    if text == [] {
      assert fs + [] == fs;
      return parts;
    }
    var v := EncodeVarintLoop(|text|);
    var part := [EncodeTag(num, 2)] + v;
    more := parts + [part, text];
    FlatTwo(parts, part, text);
    EncodeSnoc(fs, Text(num, text));
  }

  /** encodeMessage: each set field is pushed as its own part; the parts are then laid end to end. None where BigInt throws. */
  method EncodeMessage(big: Parse, m: IMMessage) returns (r: Option<Bytes>)
    ensures r.Some? <==> Encodable(big, m)
    ensures r.Some? ==> r.value == EncodeFields(Fields(big, m))
  {
    if !Encodable(big, m) { return None; }
    var parts := PushOpening(big, m);
    parts := PushClosing(big, m, parts);
    var bytes := [];
    for i := 0 to |parts|
      invariant bytes == Flat(parts[..i])
    {
      assert parts[..i + 1][..i] == parts[..i];
      bytes := bytes + parts[i];
    }
    assert parts[..|parts|] == parts;
    return Some(bytes);
  }

  method PushOpening(big: Parse, m: IMMessage) returns (parts: seq<Bytes>)
    requires Encodable(big, m)
    ensures Flat(parts) == EncodeFields(Opening(big, m))
  {
    assert [] + Int64Field(big, 1, m.seqNo) == Int64Field(big, 1, m.seqNo);
    ghost var a := Int64Field(big, 1, m.seqNo);
    ghost var b := a + Int64Field(big, 2, m.msgId);
    ghost var c := b + IntField(3, m.cmd);
    ghost var d := c + TextField(4, m.from);
    parts := PushInt64(big, [], [], 1, m.seqNo);
    parts := PushInt64(big, parts, a, 2, m.msgId);
    parts := PushInt(parts, b, 3, m.cmd);
    parts := PushText(parts, c, 4, m.from);
    parts := PushText(parts, d, 5, m.to);
  }

  lemma RegroupFive<T>(o: seq<T>, a: seq<T>, b: seq<T>, c: seq<T>, d: seq<T>, e: seq<T>)
    ensures ((((o + a) + b) + c) + d) + e == o + ((((a + b) + c) + d) + e)
  {
    var ab := a + b;
    assert (o + a) + b == o + ab;
    var abc := ab + c;
    assert (o + ab) + c == o + abc;
    var abcd := abc + d;
    assert (o + abc) + d == o + abcd;
    assert (o + abcd) + e == o + (abcd + e);
  }

  lemma RegroupClosing(big: Parse, m: IMMessage)
    requires Encodable(big, m)
    ensures Opening(big, m) + IntField(6, m.chatType) + IntField(7, m.msgType) + TextField(8, m.content)
            + Int64Field(big, 9, m.timestamp) + IntField(10, if m.needAck then 1 else 0) == Fields(big, m)
  {
    RegroupFive(Opening(big, m), IntField(6, m.chatType), IntField(7, m.msgType), TextField(8, m.content),
                Int64Field(big, 9, m.timestamp), IntField(10, if m.needAck then 1 else 0));
  }

  method PushClosing(big: Parse, m: IMMessage, begun: seq<Bytes>) returns (parts: seq<Bytes>)
    requires Encodable(big, m) && Flat(begun) == EncodeFields(Opening(big, m))
    ensures Flat(parts) == EncodeFields(Fields(big, m))
  {
    ghost var a := Opening(big, m) + IntField(6, m.chatType);
    ghost var b := a + IntField(7, m.msgType);
    ghost var c := b + TextField(8, m.content);
    ghost var d := c + Int64Field(big, 9, m.timestamp);
    parts := PushInt(begun, Opening(big, m), 6, m.chatType);
    parts := PushInt(parts, a, 7, m.msgType);
    parts := PushText(parts, b, 8, m.content);
    parts := PushInt64(big, parts, c, 9, m.timestamp);
    parts := PushInt(parts, d, 10, if m.needAck then 1 else 0);
    RegroupClosing(big, m);
  }

  lemma SkipMore(data: Bytes, pos: nat, n: nat)
    ensures Skip(Skip(data, pos), n) == Skip(data, pos + n)
  {
  }

  /** One turn in positions: the field found, if any, and where the next turn begins. */
  function FieldAt(data: Bytes, tag: nat, body: nat, value: nat, next: nat): (seq<Field>, nat) {
    if tag % 8 == 0 then ([Number(tag / 8, value)], next)
    else if tag % 8 == 2 then ([Text(tag / 8, Take(Skip(data, next), value))], next + value)
    else ([], body)
  }

  lemma ReadAt(data: Bytes, pos: nat, tag: nat, body: nat, value: nat, next: nat)
    requires tag == ValueAt(data, pos) && body == EndAt(data, pos) && value == ValueAt(data, body) && next == EndAt(data, body)
    ensures var (fs, end) := FieldAt(data, tag, body, value, next);
            ReadOne(Skip(data, pos)) == (fs, Skip(data, end)) && end > pos
  {
    var bs := Skip(data, pos);
    assert Skip(bs, Varint(bs).1) == Skip(data, body) by { SkipMore(data, pos, Varint(bs).1); }
    var rest := Skip(data, body);
    assert Skip(rest, Varint(rest).1) == Skip(data, next) by { SkipMore(data, body, Varint(rest).1); }
    SkipMore(data, next, value);
  }

  /** One turn of the decoding loop, in positions. */
  method ReadField(data: Bytes, pos: nat) returns (fs: seq<Field>, end: nat)
    ensures ReadOne(Skip(data, pos)) == (fs, Skip(data, end)) && end > pos
  {
    var tag, body := DecodeVarintLoop(data, pos);
    var value, next := DecodeVarintLoop(data, body);
    fs, end := [], body;
    if tag % 8 == 0 {
      fs, end := [Number(tag / 8, value)], next;
    } else if tag % 8 == 2 {
      fs, end := [Text(tag / 8, Take(Skip(data, next), value))], next + value;
    }
    assert (fs, end) == FieldAt(data, tag, body, value, next);
    ReadAt(data, pos, tag, body, value, next);
  }

  /** decodeMessage, for every byte string whatever. */
  method DecodeMessage(data: Bytes) returns (m: IMMessage)
    ensures m == Decode(data)
  {
    m := BLANK;
    var pos := 0;
    assert Skip(data, 0) == data;
    while pos < |data|
      invariant SetFields(m, Tokens(Skip(data, pos))) == Decode(data)
    {
      var fs, end := ReadField(data, pos);
      SetFieldsAppend(m, fs, Tokens(Skip(data, end)));
      m := SetFields(m, fs);
      pos := end;
    }
  }
}
