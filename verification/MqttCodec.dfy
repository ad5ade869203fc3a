/** MQTT on the wire, as functions on bytes: the remaining-length field and the PUBLISH message. */
module MqttCodec {
  import opened Common

  const MAX_HDR_LENGTH := 5
  const MAX_MSG_LENGTH := 268435455
  const PUBLISH := 3

  /** A string of the characters that UTF-8 writes as one byte. */
  type Ascii = s: string | forall i :: 0 <= i < |s| ==> s[i] < 128 as char

  datatype Publish = Publish(dup: bool, qos: int, retain: bool, topicName: Ascii, msgId: int, payload: seq<Byte>)

  /** What becomes of received bytes: a PUBLISH, an exception, a topic beyond ASCII, or another
      type of message. */
  datatype Parse = Parsed(publish: Publish) | Failed | NotAscii | OtherType

  // ----- the width of an int

  /** Java's conversion to int: two's complement in 32 bits. */
  function Int32(x: int): int { (x + 0x8000_0000) % 0x1_0000_0000 - 0x8000_0000 }

  /** Java's conversion of an int to a byte, taken unsigned. */
  function ToByte(x: int): Byte { x % 256 }

  /** Java's / and % round towards zero. */
  function JavaDiv(x: int, y: int): int
    requires y > 0
  {
    if x >= 0 then x / y else -(-x / y)
  }

  function JavaRem(x: int, y: int): int
    requires y > 0
  {
    x - JavaDiv(x, y) * y
  }

  // ----- the remaining-length field

  function EncodeLength(n: nat): seq<Byte> {
    if n < 128 then [n] else [n % 128 + 128] + EncodeLength(n / 128)
  }

  /** The value of a field's bytes, lowest digit first. */
  function Value(d: seq<Byte>): nat {
    if d == [] then 0 else d[0] % 128 + 128 * Value(d[1..])
  }

  /** All bytes but the last carry the continuation bit. */
  ghost predicate IsLength(d: seq<Byte>) {
    && d != [] && d[|d| - 1] < 128
    && forall i :: 0 <= i < |d| - 1 ==> d[i] >= 128
  }

  /** The field is well-formed, stands for n and takes at most four bytes for every legal length. */
  lemma {:induction false} EncodedLength(n: nat)
    ensures IsLength(EncodeLength(n)) && Value(EncodeLength(n)) == n
    ensures n < 0x10000000 ==> |EncodeLength(n)| <= 4
    ensures n < 0x200000 ==> |EncodeLength(n)| <= 3
    ensures n < 0x4000 ==> |EncodeLength(n)| <= 2
    ensures n >= 0x10000000 ==> |EncodeLength(n)| > 4
    ensures n >= 0x200000 ==> |EncodeLength(n)| > 3
    ensures n >= 0x4000 ==> |EncodeLength(n)| > 2
    ensures n >= 0x80 ==> |EncodeLength(n)| > 1
  {
    if n >= 128 {
      EncodedLength(n / 128);
      assert EncodeLength(n)[1..] == EncodeLength(n / 128);
    }
  }

  /** No other well-formed field for n is shorter, and none of the same length differs. */
  lemma {:induction false} LengthIsMinimal(d: seq<Byte>)
    requires IsLength(d)
    ensures |EncodeLength(Value(d))| <= |d|
    ensures |EncodeLength(Value(d))| == |d| ==> EncodeLength(Value(d)) == d
  {
    if |d| > 1 {
      LengthIsMinimal(d[1..]);
      assert Value(d) / 128 == Value(d[1..]) && Value(d) % 128 == d[0] % 128;
      assert d == [d[0]] + d[1..];
    }
  }

  /** decodeMsgLength, from one byte on: an int multiplier, a long sum, no bound but the array's. */
  function DecodeLength(data: seq<Byte>, offset: nat, multiplier: int, sum: int): Option<int>
    decreases |data| - offset
  {
    if offset >= |data| then None
    else
      var sum' := sum + Int32(data[offset] % 128 * multiplier);
      if data[offset] >= 128 then DecodeLength(data, offset + 1, Int32(multiplier * 128), sum') else Some(sum')
  }

  lemma Int32Same(x: int)
    requires -0x8000_0000 <= x < 0x8000_0000
    ensures Int32(x) == x
  {
  }

  lemma Positive(a: int, b: int)
    requires a >= 1 && b >= 1
    ensures a * b >= a && a * b >= b
  {
  }

  /** Splitting off the lowest digit of a field whose value, so scaled, is legal. */
  lemma DigitSum(n: nat, m: nat, q: nat, r: nat)
    requires n >= 128 && m > 0 && q == n / 128 && r == n % 128 && n * m <= MAX_MSG_LENGTH
    ensures r * m + q * (m * 128) == n * m
    ensures 0 <= r * m <= n * m && m * 128 <= q * (m * 128) <= n * m
  {
    calc {
      n * m;
      (128 * q + r) * m;
      128 * q * m + r * m;
      r * m + q * (m * 128);
    }
    Positive(q, m * 128);
    if r > 0 {
      Positive(r, m);
    }
  }

  lemma {:induction false} DecodeLengthFrom(data: seq<Byte>, offset: nat, n: nat, m: nat, sum: int)
    requires 0 < m && n * m <= MAX_MSG_LENGTH
    requires offset <= |data| && EncodeLength(n) <= data[offset..]
    ensures DecodeLength(data, offset, m, sum) == Some(sum + n * m)
    decreases n
  {
    assert data[offset] == EncodeLength(n)[0];
    var q, r := n / 128, n % 128;
    if n >= 128 {
      DigitSum(n, m, q, r);
      Int32Same(r * m);
      Int32Same(m * 128);
      assert data[offset + 1..] == data[offset..][1..];
      assert EncodeLength(n)[1..] == EncodeLength(q);
      DecodeLengthFrom(data, offset + 1, q, m * 128, sum + r * m);
    } else {
      Int32Same(n * m);
    }
  }

  /** Decoding what the field says gives the length back. */
  lemma DecodeEncodedLength(first: Byte, n: nat, rest: seq<Byte>)
    requires n <= MAX_MSG_LENGTH
    ensures DecodeLength([first] + EncodeLength(n) + rest, 1, 1, 0) == Some(n)
  {
    var data := [first] + EncodeLength(n) + rest;
    assert data[1..] == EncodeLength(n) + rest;
    DecodeLengthFrom(data, 1, n, 1, 0);
  }

  // ----- strings

  function Codes(s: Ascii): (r: seq<Byte>)
    ensures |r| == |s|
  {
    seq(|s|, i requires 0 <= i < |s| => s[i] as int)
  }

  /** StringToUTF: two length bytes, of which the upper is cut to a byte, and the characters. */
  function StringToUTF(s: Ascii): seq<Byte> {
    [ToByte(|s| / 256), ToByte(|s| % 256)] + Codes(s)
  }

  /** The length an UTF string at the offset announces. */
  function NameLength(data: seq<Byte>, offset: nat): nat
    requires offset + 2 <= |data|
  {
    data[offset] as int * 256 + data[offset + 1] as int
  }

  predicate AllAscii(bytes: seq<Byte>) {
    forall i :: 0 <= i < |bytes| ==> bytes[i] < 128
  }

  function Chars(bytes: seq<Byte>): (s: Ascii)
    requires AllAscii(bytes)
    ensures |s| == |bytes|
  {
    seq(|bytes|, i requires 0 <= i < |bytes| => bytes[i] as char)
  }

  // ----- PUBLISH

  function Bit(b: bool): int { if b then 1 else 0 }

  function FirstByte(m: Publish): Byte {
    PUBLISH * 16 + 8 * Bit(m.dup) + 2 * (m.qos % 4) + Bit(m.retain)
  }

  /** Two bytes, most significant first; each is cut to a byte. */
  function IdBytes(msgId: int): seq<Byte> {
    [ToByte(JavaDiv(msgId, 256)), ToByte(JavaRem(msgId, 256))]
  }

  /** Everything after the fixed header. */
  function Rest(m: Publish): seq<Byte> {
    StringToUTF(m.topicName)
    + (if m.qos > 0 then IdBytes(m.msgId) else [])
    + m.payload
  }

  /** toBytes; None is the exception when the length does not fit four bytes. */
  function ToBytes(m: Publish): Option<seq<Byte>> {
    if |Rest(m)| > MAX_MSG_LENGTH then None
    else Some([FirstByte(m)] + EncodeLength(|Rest(m)|) + Rest(m))
  }

  /** The constructor from bytes, once the fixed header's length is known. */
  function ParseFrom(data: seq<Byte>, h: int): Parse
    requires data != []
  {
    if h < 0 || h + 2 > |data| then Failed
    else
      var n := NameLength(data, h);
      if h + 2 + n > |data| then Failed
      else if !AllAscii(data[h + 2..h + 2 + n]) then NotAscii
      else
        var dup, qos, retain := data[0] / 8 % 2 == 1, data[0] / 2 % 4, data[0] % 2 == 1;
        var topicName := Chars(data[h + 2..h + 2 + n]);
        if qos > 0 then
          if h + 4 + n > |data| then Failed
          else Parsed(Publish(dup, qos, retain, topicName, NameLength(data, h + 2 + n), data[h + 4 + n..]))
        else Parsed(Publish(dup, qos, retain, topicName, 0, data[h + 2 + n..]))
  }

  /** The constructor from bytes. */
  function FromBytes(data: seq<Byte>): Parse
    requires data != []
  {
    match DecodeLength(data, 1, 1, 0)
    case None => Failed
    case Some(remaining) => ParseFrom(data, Int32(|data| - remaining))
  }

  /** A message whose fields fit the wire format; a QoS 0 message has no message id. */
  predicate Fits(m: Publish) {
    && 0 <= m.qos <= 3
    && |m.topicName| <= 65535
    && (if m.qos > 0 then 0 <= m.msgId <= 65535 else m.msgId == 0)
  }

  lemma ParsedFits(data: seq<Byte>, h: int)
    requires data != [] && ParseFrom(data, h).Parsed?
    ensures Fits(ParseFrom(data, h).publish)
  {
  }

  lemma FirstByteBits(m: Publish)
    requires 0 <= m.qos <= 3
    ensures var b := FirstByte(m);
            b / 8 % 2 == Bit(m.dup) && b / 2 % 4 == m.qos && b % 2 == Bit(m.retain) && b / 16 == PUBLISH
  {
  }

  lemma CodesChars(s: Ascii)
    ensures AllAscii(Codes(s)) && Chars(Codes(s)) == s
  {
  }

  /** Behind any header, a length-prefixed name is found, and what follows it. */
  lemma NameFound(header: seq<Byte>, name: seq<Byte>, more: seq<Byte>, hi: Byte, lo: Byte)
    requires hi as int * 256 + lo as int == |name|
    ensures var data, h := header + ([hi, lo] + name + more), |header|;
            && h + 2 + |name| <= |data| && NameLength(data, h) == |name|
            && data[h + 2..h + 2 + |name|] == name && data[h + 2 + |name|..] == more
  {
  }

  lemma TwoBytes(x: nat)
    requires x <= 65535
    ensures IdBytes(x) == [x / 256, x % 256] && x / 256 * 256 + x % 256 == x
  {
  }

  /** The message id and the payload are found behind the name. */
  lemma TailFound(data: seq<Byte>, t: nat, id: seq<Byte>, payload: seq<Byte>)
    requires t <= |data| && data[t..] == id + payload
    ensures |id| == 2 ==> t + 2 <= |data| && NameLength(data, t) == id[0] as int * 256 + id[1] as int && data[t + 2..] == payload
    ensures id == [] ==> data[t..] == payload
  {
    if |id| == 2 {
      assert data[t] == data[t..][0] && data[t + 1] == data[t..][1];
      assert data[t + 2..] == data[t..][2..];
    }
  }

  function MsgId(m: Publish): seq<Byte> {
    if m.qos > 0 then IdBytes(m.msgId) else []
  }

  lemma RestParts(m: Publish)
    requires |m.topicName| <= 65535
    ensures var n := |m.topicName|; Rest(m) == [n / 256, n % 256] + Codes(m.topicName) + (MsgId(m) + m.payload)
  {
    Associative(StringToUTF(m.topicName), MsgId(m), m.payload);
  }

  /** What the constructor reads off bytes whose parts are known. */
  lemma ParseParts(data: seq<Byte>, h: nat, t: nat, m: Publish)
    requires 0 <= m.qos <= 3 && data != [] && data[0] == FirstByte(m)
    requires h + 2 <= t <= |data| && NameLength(data, h) == t - h - 2
    requires AllAscii(data[h + 2..t]) && Chars(data[h + 2..t]) == m.topicName
    requires if m.qos > 0 then t + 2 <= |data| && NameLength(data, t) == m.msgId && data[t + 2..] == m.payload
             else m.msgId == 0 && data[t..] == m.payload
    ensures ParseFrom(data, h) == Parsed(m)
  {
    FirstByteBits(m);
  }

  lemma ParseRest(m: Publish, header: seq<Byte>)
    requires Fits(m) && header != [] && header[0] == FirstByte(m)
    ensures ParseFrom(header + Rest(m), |header|) == Parsed(m)
  {
    var n, h := |m.topicName|, |header|;
    var name, more := Codes(m.topicName), MsgId(m) + m.payload;
    RestParts(m);
    var data := header + ([n / 256, n % 256] + name + more);
    CodesChars(m.topicName);
    NameFound(header, name, more, n / 256, n % 256);
    TailFound(data, h + 2 + n, MsgId(m), m.payload);
    if m.qos > 0 {
      TwoBytes(m.msgId);
    }
    ParseParts(data, h, h + 2 + n, m);
  }

  /** The fixed header is found again. */
  lemma HeaderFound(first: Byte, rest: seq<Byte>)
    requires |rest| <= MAX_MSG_LENGTH
    ensures var header := [first] + EncodeLength(|rest|);
            FromBytes(header + rest) == ParseFrom(header + rest, |header|)
  {
    var n := |rest|;
    DecodeEncodedLength(first, n, rest);
    EncodedLength(n);
    Int32Same(1 + |EncodeLength(n)|);
  }

  /** Writing the message and reparsing the bytes returns it. */
  predicate Survives(m: Publish) {
    ToBytes(m).Some? && FromBytes(ToBytes(m).value) == Parsed(m)
  }

  /** Main result: a message survives exactly if its fields fit and it is not too long to write. */
  lemma RoundTripExact(m: Publish)
    ensures Survives(m) <==> Fits(m) && |Rest(m)| <= MAX_MSG_LENGTH
  {
    if |Rest(m)| <= MAX_MSG_LENGTH {
      var header := [FirstByte(m)] + EncodeLength(|Rest(m)|);
      HeaderFound(FirstByte(m), Rest(m));
      if Fits(m) {
        ParseRest(m, header);
      } else if ParseFrom(header + Rest(m), |header|) == Parsed(m) {
        ParsedFits(header + Rest(m), |header|);
      }
    }
  }

  /** What of the message goes on the wire: at QoS 0 the message id does not. */
  function Normal(m: Publish): Publish {
    if m.qos == 0 then m.(msgId := 0) else m
  }

  lemma SameBytes(m: Publish)
    ensures Rest(Normal(m)) == Rest(m) && ToBytes(Normal(m)) == ToBytes(m)
  {
  }
}
