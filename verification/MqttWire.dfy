/** The bytes of a PUBLISH, part by part, as section 3.3 of MQTT 3.1.1 lays them out. */
module MqttWire {
  import opened Common
  import opened MqttCodec
  import MqttStream

  predicate BigEndian(d: seq<Byte>, i: nat, n: int) {
    i + 2 <= |d| && d[i] as int * 256 + d[i + 1] as int == n
  }

  /** The bytes after the fixed header: the topic with its length, the message id at QoS 1 and above, the
      payload. */
  ghost predicate Body(m: Publish, r: seq<Byte>) {
    var n := |m.topicName|;
    var p := 2 + n + if m.qos > 0 then 2 else 0;
    && p <= |r| && BigEndian(r, 0, n)
    && (forall i :: 0 <= i < n ==> r[2 + i] == m.topicName[i] as int)
    && (m.qos > 0 ==> BigEndian(r, 2 + n, m.msgId))
    && r[p..] == m.payload
  }

  lemma ThreeParts(a: seq<Byte>, b: seq<Byte>, c: seq<Byte>)
    ensures var s := a + b + c;
            && |s| == |a| + |b| + |c| && s[|a| + |b|..] == c
            && (forall i :: 0 <= i < |a| ==> s[i] == a[i])
            && (forall i :: 0 <= i < |b| ==> s[|a| + i] == b[i])
  {
  }

  lemma NameFormat(s: Ascii)
    requires |s| <= 65535
    ensures var d := StringToUTF(s);
            |d| == 2 + |s| && BigEndian(d, 0, |s|) && forall i :: 0 <= i < |s| ==> d[2 + i] == s[i] as int
  {
  }

  lemma IdFormat(msgId: int)
    requires 0 <= msgId <= 65535
    ensures BigEndian(IdBytes(msgId), 0, msgId) && |IdBytes(msgId)| == 2
  {
  }

  lemma RestFormat(m: Publish)
    requires Fits(m)
    ensures Body(m, Rest(m))
  {
    var id := if m.qos > 0 then IdBytes(m.msgId) else [];
    NameFormat(m.topicName);
    ThreeParts(StringToUTF(m.topicName), id, m.payload);
    if m.qos > 0 {
      IdFormat(m.msgId);
    }
  }

  /** Packet type 3 in the upper half, then DUP, two bits of QoS and RETAIN. */
  function TypeAndFlags(m: Publish): int {
    48 + (if m.dup then 8 else 0) + 2 * m.qos + (if m.retain then 1 else 0)
  }

  lemma FirstByteFormat(m: Publish)
    requires 0 <= m.qos <= 3
    ensures FirstByte(m) == TypeAndFlags(m)
  {
  }

  /** Where each part of a PUBLISH lies in its bytes: packet type 3 and the flags in the first byte, then
      the remaining length in one to four bytes, then that many bytes of body. */
  lemma WireFormat(m: Publish) returns (h: nat)
    requires Fits(m) && ToBytes(m).Some?
    ensures var d := ToBytes(m).value;
            && 2 <= h <= 5 && h <= |d|
            && d[0] == TypeAndFlags(m)
            && IsLength(d[1..h]) && Value(d[1..h]) == |d| - h
            && Body(m, d[h..])
  {
    h := 1 + |EncodeLength(|Rest(m)|)|;
    EncodedLength(|Rest(m)|);
    Parts(FirstByte(m), EncodeLength(|Rest(m)|), Rest(m));
    FirstByteFormat(m);
    RestFormat(m);
  }

  lemma Parts(first: Byte, len: seq<Byte>, rest: seq<Byte>)
    ensures var d := [first] + len + rest;
            d[0] == first && d[1..1 + |len|] == len && d[1 + |len|..] == rest && |d| - (1 + |len|) == |rest|
  {
  }

  // ----- reading

  /** The flags of the first byte are the message's. */
  predicate Flags(m: Publish, first: Byte) {
    (m.dup <==> first / 8 % 2 == 1) && m.qos == first / 2 % 4 && (m.retain <==> first % 2 == 1)
  }

  /** Bytes are read as m exactly if the first one holds its flags and what follows the header is its body;
      without a message id it is 0. */
  lemma ParsesExactly(data: seq<Byte>, h: int, m: Publish)
    requires data != []
    ensures ParseFrom(data, h) == Parsed(m) <==>
              0 <= h <= |data| && Flags(m, data[0]) && Body(m, data[h..]) && (m.qos == 0 ==> m.msgId == 0)
  {
    if 0 <= h <= |data| {
      var r := data[h..];
      if Body(m, r) && Flags(m, data[0]) && (m.qos == 0 ==> m.msgId == 0) {
        BodyParses(data, h, m);
      }
      if ParseFrom(data, h) == Parsed(m) {
        ParsedBody(data, h, m);
      }
    }
  }

  /** Byte i of what follows the header is byte h + i. */
  lemma Shifted(data: seq<Byte>, h: nat)
    requires h <= |data|
    ensures forall i :: 0 <= i < |data| - h ==> data[h..][i] == data[h + i]
  {
  }

  lemma TailShifted(data: seq<Byte>, h: nat, i: nat)
    requires h + i <= |data|
    ensures data[h..][i..] == data[h + i..]
  {
  }

  lemma NameShifted(data: seq<Byte>, h: nat, n: nat)
    requires h + 2 + n <= |data|
    ensures var name := data[h + 2..h + 2 + n]; forall i :: 0 <= i < n ==> name[i] == data[h + 2 + i]
  {
  }

  lemma BodyParses(data: seq<Byte>, h: nat, m: Publish)
    requires data != [] && h <= |data| && Body(m, data[h..]) && Flags(m, data[0]) && (m.qos == 0 ==> m.msgId == 0)
    ensures ParseFrom(data, h) == Parsed(m)
  {
    var n := |m.topicName|;
    Shifted(data, h);
    assert NameLength(data, h) == n;
    NameShifted(data, h, n);
    TailShifted(data, h, 2 + n + if m.qos > 0 then 2 else 0);
    var name := data[h + 2..h + 2 + n];
    assert forall i :: 0 <= i < n ==> name[i] == data[h..][2 + i] == m.topicName[i] as int;
    assert Chars(name) == m.topicName;
    assert m.qos > 0 ==> NameLength(data, h + 2 + n) == m.msgId;
  }

  lemma ParsedBody(data: seq<Byte>, h: nat, m: Publish)
    requires data != [] && h <= |data| && ParseFrom(data, h) == Parsed(m)
    ensures Body(m, data[h..]) && Flags(m, data[0]) && (m.qos == 0 ==> m.msgId == 0)
  {
    Shifted(data, h);
    NameShifted(data, h, NameLength(data, h));
    TailShifted(data, h, 2 + NameLength(data, h) + if m.qos > 0 then 2 else 0);
  }

  /** The topic lies within the bytes, but a byte of it is beyond ASCII. */
  predicate ForeignTopic(data: seq<Byte>, h: int) {
    && 0 <= h && h + 2 <= |data| && h + 2 + data[h] as int * 256 + data[h + 1] as int <= |data|
    && exists i :: h + 2 <= i < h + 2 + data[h] as int * 256 + data[h + 1] as int && data[i] >= 128
  }

  lemma ForeignExactly(data: seq<Byte>, h: int)
    requires data != []
    ensures ParseFrom(data, h) == NotAscii <==> ForeignTopic(data, h)
    ensures ParseFrom(data, h) != OtherType
  {
    if 0 <= h && h + 2 <= |data| && h + 2 + NameLength(data, h) <= |data| {
      var n := NameLength(data, h);
      var name := data[h + 2..h + 2 + n];
      assert forall i :: 0 <= i < n ==> name[i] == data[h + 2 + i];
      if ForeignTopic(data, h) {
        var i :| h + 2 <= i < h + 2 + n && data[i] >= 128;
        assert name[i - h - 2] >= 128;
      }
    }
  }

  /** The header's length is what the remaining length leaves of the array, as a 32-bit number; a message of
      a type other than 3 is not read as a PUBLISH at all. */
  lemma HeaderExactly(data: seq<Byte>) returns (h: int)
    requires data != []
    ensures MqttStream.DecodeMsg(data) == OtherType <==> data[0] < 48 || data[0] >= 64
    ensures var remaining := DecodeLength(data, 1, 1, 0);
            if remaining.None? then FromBytes(data) == Failed
            else
              && FromBytes(data) == ParseFrom(data, h)
              && -0x8000_0000 <= h < 0x8000_0000 && (|data| - remaining.value - h) % 0x1_0000_0000 == 0
  {
    var remaining := DecodeLength(data, 1, 1, 0);
    h := if remaining.None? then 0 else Int32(|data| - remaining.value);
    if remaining.Some? {
      ForeignExactly(data, h);
    }
  }
}
