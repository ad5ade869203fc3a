/** The methods that build, parse and frame MQTT messages in byte arrays and on the stream. */
module MqttBroker {
  import opened Common
  import opened MqttCodec
  import opened MqttStream

  function Power128(k: nat): nat { if k == 0 then 1 else 128 * Power128(k - 1) }

  function Plus(r: Option<nat>, k: nat): Option<nat> {
    match r
    case None => None
    case Some(n) => Some(n + k)
  }

  lemma {:induction false} ValueAppend(d: seq<Byte>, b: Byte)
    ensures Value(d + [b]) == Value(d) + b % 128 * Power128(|d|)
  {
    if d != [] {
      assert (d + [b])[1..] == d[1..] + [b];
      ValueAppend(d[1..], b);
      assert 128 * (b % 128 * Power128(|d| - 1)) == b % 128 * (128 * Power128(|d| - 1));
    } else {
      assert d + [b] == [b];
    }
  }

  /** System.arraycopy, from values. */
  method CopyInto(bytes: seq<Byte>, dst: array<Byte>, pos: nat)
    requires pos + |bytes| <= dst.Length
    modifies dst
    ensures dst[..] == old(dst[..pos]) + bytes + old(dst[pos + |bytes|..])
  {
    forall i | 0 <= i < |bytes| {
      dst[pos + i] := bytes[i];
    }
  }

  lemma FourDigits(n: nat)
    ensures |EncodeLength(n)| <= 4 <==> n <= MAX_MSG_LENGTH
  {
    EncodedLength(n);
  }

  lemma DigitStep(before: seq<Byte>, size: nat)
    ensures before + EncodeLength(size)
            == if size / 128 == 0 then before + [size % 128]
               else before + [size % 128 + 128] + EncodeLength(size / 128)
  {
    if size >= 128 {
      Associative(before, [size % 128 + 128], EncodeLength(size / 128));
    }
  }

  /** The digits of a length, lowest first; None where a fifth would overrun the scratch array. */
  method LengthDigits(n: nat) returns (r: Option<seq<Byte>>)
    ensures r.None? <==> n > MAX_MSG_LENGTH
    ensures r.Some? ==> r.value == EncodeLength(n)
  {
    var size := n;
    var pos := 0;
    var tmp := new Byte[4];
    ghost var all := EncodeLength(n);
    while true
      invariant 0 <= pos <= 4 && 0 <= size
      invariant all == tmp[..pos] + EncodeLength(size)
      decreases 5 - pos
    {
      if pos == 4 {
        FourDigits(n);
        return None;
      }
      var digit := size % 128;
      ghost var before := tmp[..pos];
      DigitStep(before, size);
      size := size / 128;
      if size > 0 {
        digit := digit + 128;
      }
      tmp[pos] := digit;
      pos := pos + 1;
      assert tmp[..pos] == before + [digit];
      if size == 0 {
        break;
      }
    }
    FourDigits(n);
    r := Some(tmp[..pos]);
  }

  /** The remaining-length field goes in after the first byte. */
  method EncodeMsgLength(data: array<Byte>) returns (r: Option<array<Byte>>)
    requires data.Length >= 1
    ensures r.None? <==> data.Length - 1 > MAX_MSG_LENGTH
    ensures r.Some? ==> fresh(r.value)
                        && r.value[..] == [data[0]] + EncodeLength(data.Length - 1) + data[1..]
  {
    var tmp := LengthDigits(data.Length - 1);
    if tmp.None? {
      return None;
    }
    var digits, pos := tmp.value, |tmp.value|;
    var buffer := new Byte[data.Length + pos];
    buffer[0] := data[0];
    CopyInto(digits, buffer, 1);
    CopyInto(data[1..], buffer, pos + 1);
    assert buffer[..] == buffer[..pos + 1] + data[1..];
    r := Some(buffer);
  }

  method DecodeMsgLength(data: array<Byte>) returns (r: Option<int>)
    ensures r == DecodeLength(data[..], 1, 1, 0)
  {
    var msgLength, multiplier, offset := 0, 1, 1;
    while true
      invariant 1 <= offset
      invariant DecodeLength(data[..], 1, 1, 0) == DecodeLength(data[..], offset, multiplier, msgLength)
      decreases data.Length - offset
    {
      if offset >= data.Length {
        return None;
      }
      var digit := data[offset];
      msgLength := msgLength + Int32(digit % 128 * multiplier);
      multiplier := Int32(multiplier * 128);
      offset := offset + 1;
      if digit < 128 {
        break;
      }
    }
    r := Some(msgLength);
  }

  method PutMsgId(msgId: int, data: array<Byte>, pos: nat)
    requires pos + 2 <= data.Length
    modifies data
    ensures data[..] == old(data[..pos]) + IdBytes(msgId) + old(data[pos + 2..])
  {
    data[pos] := ToByte(JavaDiv(msgId, 256));
    data[pos + 1] := ToByte(JavaRem(msgId, 256));
  }

  /** Fills a buffer from front to back, then adds the length. */
  method ToBytes(m: Publish) returns (r: Option<array<Byte>>)
    ensures r.Some? <==> MqttCodec.ToBytes(m).Some?
    ensures r.Some? ==> fresh(r.value) && r.value[..] == MqttCodec.ToBytes(m).value
  {
    var byteString := StringToUTF(m.topicName);
    var data := new Byte[|byteString| + (if m.qos > 0 then 3 else 1) + |m.payload|];
    data[0] := FirstByte(m);
    var pos := 1;
    CopyInto(byteString, data, pos);
    pos := pos + |byteString|;
    assert data[..pos] == [FirstByte(m)] + byteString;
    if m.qos > 0 {
      PutMsgId(m.msgId, data, pos);
      pos := pos + 2;
      assert data[..pos] == [FirstByte(m)] + byteString + IdBytes(m.msgId);
    }
    CopyInto(m.payload, data, pos);
    assert data[..] == [FirstByte(m)] + Rest(m);
    r := EncodeMsgLength(data);
  }

  method FromBytes(data: array<Byte>) returns (r: Parse)
    requires data.Length >= 1
    ensures r == MqttCodec.FromBytes(data[..])
  {
    var remaining := DecodeMsgLength(data);
    if remaining.None? {
      return Failed;
    }
    var h := Int32(data.Length - remaining.value);
    if h < 0 || h + 2 > data.Length {
      return Failed;
    }
    var n := data[h] as int * 256 + data[h + 1] as int;
    if h + 2 + n > data.Length {
      return Failed;
    }
    if !AllAscii(data[h + 2..h + 2 + n]) {
      return NotAscii;
    }
    var dup, qos, retain := data[0] / 8 % 2 == 1, data[0] / 2 % 4, data[0] % 2 == 1;
    var topicName := Chars(data[h + 2..h + 2 + n]);
    if qos > 0 {
      if h + 4 + n > data.Length {
        return Failed;
      }
      var msgId := data[h + 2 + n] as int * 256 + data[h + 2 + n + 1] as int;
      r := Parsed(Publish(dup, qos, retain, topicName, msgId, data[h + 4 + n..]));
    } else {
      r := Parsed(Publish(dup, qos, retain, topicName, 0, data[h + 2 + n..]));
    }
  }

  lemma HeaderStep(s: seq<Byte>, k: nat)
    requires 1 <= k < |s|
    ensures s[..k + 1] == s[..k] + [s[k]] && s[k + 1..] == s[k..][1..]
    ensures Value(s[1..k + 1]) == Value(s[1..k]) + s[k] % 128 * Power128(k - 1)
  {
    ValueAppend(s[1..k], s[k]);
    assert s[1..k + 1] == s[1..k] + [s[k]];
  }

  datatype MqttHeader = MqttHeader(header: seq<Byte>, remainingLength: int)

  /** How long the fixed header at the front of the stream is. */
  function TotalHeader(s: seq<Byte>): (r: Option<nat>)
    ensures r.Some? ==> 2 <= r.value <= MAX_HDR_LENGTH && r.value <= |s|
  {
    if s == [] then None else Plus(LengthBytes(s[1..], MAX_HDR_LENGTH - 1), 1)
  }

  function HeaderOf(s: seq<Byte>, total: Option<nat>): Option<MqttHeader>
    requires total.Some? ==> 1 <= total.value <= |s|
  {
    if total.None? then None else Some(MqttHeader(s[..total.value], Value(s[1..total.value])))
  }

  /** The reading end of the connection to the broker; streamIn is what is still to arrive. */
  class TCPBrokerInterface {
    var streamIn: seq<Byte>

    /** The next byte, or -1 at the end of the stream. */
    method Read() returns (res: int)
      modifies this
      ensures old(streamIn) == [] ==> res == -1 && streamIn == []
      ensures old(streamIn) != [] ==> res == old(streamIn)[0] && streamIn == old(streamIn)[1..]
    {
      if streamIn == [] {
        return -1;
      }
      res := streamIn[0];
      streamIn := streamIn[1..];
    }

    /** The first byte and the length; None at the end of the stream. */
    method ReadHeader() returns (r: Option<MqttHeader>)
      modifies this
      ensures var total := TotalHeader(old(streamIn));
              && r == HeaderOf(old(streamIn), total)
              && streamIn == if total.None? then [] else old(streamIn)[total.value..]
    {
      ghost var s := streamIn;
      var header := new Byte[MAX_HDR_LENGTH];
      var res := Read();
      if res == -1 {
        return None;
      }
      header[0] := res;
      var headerLength, multiplier, remainingLength := 1, 1, 0;
      while true
        invariant 1 <= headerLength < MAX_HDR_LENGTH && headerLength <= |s|
        invariant header[..headerLength] == s[..headerLength] && streamIn == s[headerLength..]
        invariant multiplier == Power128(headerLength - 1)
        invariant remainingLength == Value(s[1..headerLength])
        invariant TotalHeader(s) == Plus(LengthBytes(streamIn, MAX_HDR_LENGTH - headerLength), headerLength)
        decreases MAX_HDR_LENGTH - headerLength
      {
        res := Read();
        if res == -1 {
          return None;
        }
        header[headerLength] := res;
        HeaderStep(s, headerLength);
        assert header[..headerLength + 1] == header[..headerLength] + [res];
        headerLength := headerLength + 1;
        remainingLength := remainingLength + res % 128 * multiplier;
        multiplier := multiplier * 128;
        if res < 128 || headerLength >= MAX_HDR_LENGTH {
          assert TotalHeader(s) == Some(headerLength);
          break;
        }
      }
      r := Some(MqttHeader(header[..headerLength], remainingLength));
    }

    method ReadMsg() returns (r: Reading)
      modifies this
      ensures (r, streamIn) == MqttStream.ReadMsg(old(streamIn))
    {
      var hdr := ReadHeader();
      if hdr.None? {
        return EndOfStream;
      }
      var header, remainingLength := hdr.value.header, hdr.value.remainingLength;
      if |header| > MAX_HDR_LENGTH || remainingLength > MAX_MSG_LENGTH || remainingLength < 0 {
        return NotValid;
      }
      if remainingLength > |streamIn| {
        streamIn := [];
        return EndOfStream;
      }
      r := Body(header + streamIn[..remainingLength]);
      assert r.data == old(streamIn)[..|header| + remainingLength];
      streamIn := streamIn[remainingLength..];
    }
  }
}
