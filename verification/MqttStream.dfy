/** The stream from the broker: messages written one after the other are read back one by one. */
module MqttStream {
  import opened Common
  import opened MqttCodec

  /** What one readMsg yields. */
  datatype Reading = Body(data: seq<Byte>) | NotValid | EndOfStream

  /** How many length bytes readMsg takes, at most the given number; None at the end of the stream. */
  function LengthBytes(s: seq<Byte>, max: nat): (r: Option<nat>)
    requires max > 0
    ensures r.Some? ==> 1 <= r.value <= max && r.value <= |s|
  {
    if s == [] then None
    else if s[0] >= 128 && max > 1 then
      match LengthBytes(s[1..], max - 1)
      case None => None
      case Some(k) => Some(k + 1)
    else Some(1)
  }

  /** readMsg: what it yields and what is left of the stream. */
  function ReadMsg(s: seq<Byte>): (Reading, seq<Byte>) {
    if s == [] then (EndOfStream, [])
    else
      match LengthBytes(s[1..], MAX_HDR_LENGTH - 1)
      case None => (EndOfStream, [])
      case Some(k) =>
        var remaining := Value(s[1..1 + k]);
        if remaining > MAX_MSG_LENGTH then (NotValid, s[1 + k..])
        else if 1 + k + remaining > |s| then (EndOfStream, [])
        else (Body(s[..1 + k + remaining]), s[1 + k + remaining..])
  }

  /** decodeMsg, for what is built from a PUBLISH. */
  function DecodeMsg(data: seq<Byte>): Parse
    requires data != []
  {
    if data[0] / 16 == PUBLISH then FromBytes(data) else OtherType
  }

  /** Up to n messages, as long as the stream yields some. */
  function ReadMany(s: seq<Byte>, n: nat): (seq<Parse>, seq<Byte>) {
    if n == 0 then ([], s)
    else
      match ReadMsg(s)
      case (Body(data), rest) =>
        if data == [] then ([], rest)
        else
          var more := ReadMany(rest, n - 1);
          ([DecodeMsg(data)] + more.0, more.1)
      case (_, rest) => ([], rest)
  }

  // ----- one message

  lemma {:induction false} ValueBound(d: seq<Byte>)
    requires |d| <= 4
    ensures Value(d) <= MAX_MSG_LENGTH
    ensures |d| <= 3 ==> Value(d) < 0x200000
    ensures |d| <= 2 ==> Value(d) < 0x4000
    ensures |d| <= 1 ==> Value(d) < 0x80
  {
    if d != [] {
      ValueBound(d[1..]);
    }
  }

  /** The check for an overlong message is never taken: four length bytes cannot say that much. */
  lemma NeverNotValid(s: seq<Byte>)
    ensures ReadMsg(s).0 != NotValid
  {
    if s != [] {
      match LengthBytes(s[1..], 4)
      case None =>
      case Some(k) => ValueBound(s[1..1 + k]);
    }
  }

  lemma {:induction false} LengthBytesOf(d: seq<Byte>, rest: seq<Byte>, max: nat)
    requires IsLength(d) && |d| <= max
    ensures LengthBytes(d + rest, max) == Some(|d|)
  {
    assert (d + rest)[0] == d[0];
    if |d| > 1 {
      assert (d + rest)[1..] == d[1..] + rest;
      LengthBytesOf(d[1..], rest, max - 1);
    }
  }

  lemma Slices(first: Byte, d: seq<Byte>, body: seq<Byte>, tail: seq<Byte>)
    ensures var frame := [first] + d + body;
            && (frame + tail)[1..] == d + (body + tail)
            && (frame + tail)[1..1 + |d|] == d
            && (frame + tail)[..|frame|] == frame && (frame + tail)[|frame|..] == tail
  {
  }

  lemma FieldRead(first: Byte, d: seq<Byte>, body: seq<Byte>, tail: seq<Byte>)
    requires IsLength(d) && |d| <= 4 && Value(d) == |body| <= MAX_MSG_LENGTH
    ensures var frame := [first] + d + body;
            ReadMsg(frame + tail) == (Body(frame), tail)
  {
    Slices(first, d, body, tail);
    LengthBytesOf(d, body + tail, 4);
  }

  /** A frame with its length in front is read off the stream whole, whatever follows. */
  lemma FrameRead(first: Byte, body: seq<Byte>, tail: seq<Byte>)
    requires |body| <= MAX_MSG_LENGTH
    ensures var frame := [first] + EncodeLength(|body|) + body;
            ReadMsg(frame + tail) == (Body(frame), tail)
  {
    EncodedLength(|body|);
    FieldRead(first, EncodeLength(|body|), body, tail);
  }

  // ----- lists of messages

  /** A message that can be written and comes back, but for the message id at QoS 0. */
  predicate Sendable(m: Publish) {
    && 0 <= m.qos <= 3
    && |m.topicName| <= 65535
    && (m.qos > 0 ==> 0 <= m.msgId <= 65535)
    && |Rest(m)| <= MAX_MSG_LENGTH
  }

  /** Exactly these messages come back. */
  lemma ComesBackExactly(m: Publish)
    ensures ToBytes(m).Some? && FromBytes(ToBytes(m).value) == Parsed(Normal(m)) <==> Sendable(m)
  {
    SameBytes(m);
    RoundTripExact(Normal(m));
  }

  predicate AllSendable(ms: seq<Publish>) {
    ms == [] || (Sendable(ms[0]) && AllSendable(ms[1..]))
  }

  function Wire(ms: seq<Publish>): seq<Byte>
    requires AllSendable(ms)
  {
    if ms == [] then [] else ToBytes(ms[0]).value + Wire(ms[1..])
  }

  lemma MessageRead(m: Publish, tail: seq<Byte>)
    requires Sendable(m)
    ensures var data := ToBytes(m).value;
            ReadMsg(data + tail) == (Body(data), tail) && data != [] && DecodeMsg(data) == Parsed(Normal(m))
  {
    FrameRead(FirstByte(m), Rest(m), tail);
    FirstByteBits(m);
    ComesBackExactly(m);
  }

  lemma ReadManyStep(data: seq<Byte>, rest: seq<Byte>, n: nat)
    requires data != [] && ReadMsg(data + rest) == (Body(data), rest)
    ensures var more := ReadMany(rest, n);
            ReadMany(data + rest, n + 1) == ([DecodeMsg(data)] + more.0, more.1)
  {
  }

  /** The messages as they come back. */
  function AllParsed(ms: seq<Publish>): seq<Parse> {
    if ms == [] then [] else [Parsed(Normal(ms[0]))] + AllParsed(ms[1..])
  }

  lemma WireSplit(ms: seq<Publish>, tail: seq<Byte>)
    requires ms != [] && AllSendable(ms)
    ensures Sendable(ms[0]) && Wire(ms) + tail == ToBytes(ms[0]).value + (Wire(ms[1..]) + tail)
    ensures AllParsed(ms) == [Parsed(Normal(ms[0]))] + AllParsed(ms[1..])
  {
    assert Sendable(ms[0]);
    Associative(ToBytes(ms[0]).value, Wire(ms[1..]), tail);
  }

  /** Main result: any list of messages written back to back is read and reparsed as that list, but
      for message ids at QoS 0, which are not sent; the stream is left at what follows it. */
  lemma {:induction false} StreamRoundTrip(ms: seq<Publish>, tail: seq<Byte>)
    requires AllSendable(ms)
    ensures ReadMany(Wire(ms) + tail, |ms|) == (AllParsed(ms), tail)
  {
    if ms == [] {
      assert Wire(ms) + tail == tail;
    } else {
      WireSplit(ms, tail);
      var data, rest := ToBytes(ms[0]).value, Wire(ms[1..]) + tail;
      MessageRead(ms[0], rest);
      StreamRoundTrip(ms[1..], tail);
      ReadManyStep(data, rest, |ms| - 1);
    }
  }
}
