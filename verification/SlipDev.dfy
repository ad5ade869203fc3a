/** The two encoders as the programs run them: the host's buffer updated in place, the radio's byte loop. */
module SlipDevice {
  import opened Common
  import opened SlipCodec
  import opened SlipWriter

  class SlipDev {
    const slipBuf: array<Byte>
    var slipEnd: nat
    var slipBegin: nat
    var slipPacketEnd: nat
    var slipPacketCount: int

    ghost function State(): Writer
      requires slipEnd <= slipBuf.Length
      reads this, slipBuf
    {
      Writer(slipBuf[..slipEnd], slipBegin, slipPacketEnd, slipPacketCount)
    }

    ghost predicate Valid()
      reads this, slipBuf
    {
      && slipBuf.Length == BUF_SIZE && slipEnd <= BUF_SIZE
      && WriterOk(State())
    }

    constructor ()
      ensures Valid() && fresh(slipBuf)
      ensures State() == Writer([], 0, 0, 0)
    {
      slipBuf := new Byte[BUF_SIZE](_ => 0);
      slipEnd, slipBegin, slipPacketEnd, slipPacketCount := 0, 0, 0, 0;
    }

    /** ok is false when the buffer is full: the program then exits with an error. */
    method SlipSend(c: Byte) returns (ok: bool)
      requires Valid()
      modifies this`slipEnd, this`slipPacketEnd, this`slipPacketCount, slipBuf
      ensures Valid()
      ensures ok <==> Put(old(State()), c).Some?
      ensures State() == if ok then Put(old(State()), c).value else old(State())
    {
      ghost var w0 := State();
      if slipEnd >= BUF_SIZE {
        return false;
      }
      slipBuf[slipEnd] := c;
      slipEnd := slipEnd + 1;
      if c == SLIP_END {
        slipPacketCount := slipPacketCount + 1;
        if slipPacketEnd == 0 {
          slipPacketEnd := slipEnd;
        }
      }
      assert slipBuf[..slipEnd] == w0.buf + [c];
      ok := true;
    }

    method SlipEmpty() returns (empty: bool)
      ensures empty <==> slipPacketEnd == 0
    {
      empty := slipPacketEnd == 0;
    }

    /** n is what write() returns: how many bytes it took, or -1 for a full outqueue. */
    method SlipFlushbuf(n: int) returns (out: seq<Byte>)
      requires Valid() && -1 <= n <= slipPacketEnd - slipBegin
      modifies this`slipEnd, this`slipBegin, this`slipPacketEnd, this`slipPacketCount, slipBuf
      ensures Valid() && (State(), out) == Flush(old(State()), n)
    {
      ghost var w0 := State();
      FlushOk(w0, n);
      out := [];
      var empty := SlipEmpty();
      if empty || n == -1 {
        return;
      }
      out := slipBuf[slipBegin..slipBegin + n];
      assert out == w0.buf[w0.begin..w0.begin + n];
      slipBegin := slipBegin + n;
      if slipBegin == slipPacketEnd {
        assert slipBuf[slipPacketEnd..slipEnd] == w0.buf[w0.packetEnd..];
        NextPacket();
      } else {
        assert State() == w0.(begin := w0.begin + n);
      }
      assert State() == Flush(w0, n).0;
    }

    /** The packet is out: move what follows to the front and look for its END from index 1.
        The overlapping copy is taken to have the effect of a move. */
    method NextPacket()
      requires slipBuf.Length == BUF_SIZE && slipPacketEnd <= slipEnd <= BUF_SIZE
      modifies this`slipEnd, this`slipBegin, this`slipPacketEnd, this`slipPacketCount, slipBuf
      ensures slipEnd <= BUF_SIZE
      ensures var rest := old(slipBuf[slipPacketEnd..slipEnd]);
              State() == Writer(rest, 0, EndFrom(rest, 1), old(slipPacketCount) - 1)
    {
      slipPacketCount := slipPacketCount - 1;
      ghost var rest := slipBuf[slipPacketEnd..slipEnd];
      if slipEnd > slipPacketEnd {
        forall i | 0 <= i < slipEnd - slipPacketEnd {
          slipBuf[i] := slipBuf[slipPacketEnd + i];
        }
      }
      slipEnd := slipEnd - slipPacketEnd;
      slipBegin, slipPacketEnd := 0, 0;
      assert slipBuf[..slipEnd] == rest;
      if slipEnd > 0 {
        FindPacketEnd();
      }
    }

    method FindPacketEnd()
      requires slipBuf.Length == BUF_SIZE && 0 < slipEnd <= BUF_SIZE && slipPacketEnd == 0
      modifies this`slipPacketEnd
      ensures slipPacketEnd == EndFrom(slipBuf[..slipEnd], 1)
    {
      var n := 1;
      while n < slipEnd
        invariant 1 <= n <= slipEnd && slipPacketEnd == 0
        invariant EndFrom(slipBuf[..slipEnd], 1) == EndFrom(slipBuf[..slipEnd], n)
      {
        if slipBuf[n] == SLIP_END {
          slipPacketEnd := n + 1;
          break;
        }
        n := n + 1;
      }
    }

    /** One byte of a packet, escaped. */
    method SendEscaped(c: Byte) returns (ok: bool)
      requires Valid()
      modifies this`slipEnd, this`slipPacketEnd, this`slipPacketCount, slipBuf
      ensures Valid()
      ensures ok <==> PutAll(old(State()), EscapeByte(c)).Some?
      ensures ok ==> State() == PutAll(old(State()), EscapeByte(c)).value
    {
      assert forall w, x :: PutAll(w, [x]) == Put(w, x) by {
        assert forall x: Byte :: [x][1..] == [];
      }
      if c == SLIP_END || c == SLIP_ESC {
        var second := if c == SLIP_END then SLIP_ESC_END else SLIP_ESC_ESC;
        PutAllConcat(State(), [SLIP_ESC], [second]);
        assert EscapeByte(c) == [SLIP_ESC] + [second];
        ok := SlipSend(SLIP_ESC);
        if ok {
          ok := SlipSend(second);
        }
      } else {
        ok := SlipSend(c);
      }
    }

    /** write_to_serial: the whole encoded packet, or an exit on the way. */
    method WriteToSerial(p: seq<Byte>) returns (ok: bool)
      requires Valid()
      modifies this`slipEnd, this`slipPacketEnd, this`slipPacketCount, slipBuf
      ensures Valid()
      ensures ok <==> PutAll(old(State()), Encode(p)).Some?
      ensures ok ==> State() == PutAll(old(State()), Encode(p)).value
    {
      ghost var w0 := State();
      assert p[..0] == [];
      var i := 0;
      while i < |p|
        invariant 0 <= i <= |p| && Valid()
        invariant PutAll(w0, Escape(p[..i])) == Some(State())
      {
        EscapeNext(p, i);
        PutAllConcat(w0, Escape(p[..i]), EscapeByte(p[i]));
        ok := SendEscaped(p[i]);
        if !ok {
          OverflowsEarly(w0, p, i + 1);
          return;
        }
        i := i + 1;
      }
      assert p[..i] == p;
      EndOfPacket(w0, p);
      ok := SlipSend(SLIP_END);
    }
  }

  /** If part of a packet does not fit, the packet does not. */
  lemma OverflowsEarly(w: Writer, p: seq<Byte>, i: nat)
    requires i <= |p| && PutAll(w, Escape(p[..i])).None?
    ensures PutAll(w, Encode(p)).None?
  {
    assert p == p[..i] + p[i..];
    EscapeConcat(p[..i], p[i..]);
    assert Encode(p) == Escape(p[..i]) + (Escape(p[i..]) + [SLIP_END]);
    PutAllConcat(w, Escape(p[..i]), Escape(p[i..]) + [SLIP_END]);
  }

  lemma EndOfPacket(w: Writer, p: seq<Byte>)
    requires PutAll(w, Escape(p)).Some?
    ensures PutAll(w, Encode(p)) == Put(PutAll(w, Escape(p)).value, SLIP_END)
  {
    assert [SLIP_END][1..] == [];
    PutAllConcat(w, Escape(p), [SLIP_END]);
  }

  /** The radio node's slip_send_packet: the bytes it writes to the serial port. */
  method SlipSendPacket(p: seq<Byte>) returns (out: seq<Byte>)
    requires |p| <= 0xFFFF
    ensures out == EncodeNode(p)
  {
    out := [SLIP_END];
    var i := 0;
    assert p[..0] == [];
    while i < |p|
      invariant 0 <= i <= |p|
      invariant out == [SLIP_END] + Escape(p[..i])
    {
      EscapeNext(p, i);
      ghost var before := out;
      var c := p[i];
      if c == SLIP_END {
        out := out + [SLIP_ESC];
        c := SLIP_ESC_END;
      } else if c == SLIP_ESC {
        out := out + [SLIP_ESC];
        c := SLIP_ESC_ESC;
      }
      out := out + [c];
      assert out == before + EscapeByte(p[i]);
      i := i + 1;
    }
    assert p[..i] == p;
    out := out + [SLIP_END];
    assert out == [SLIP_END] + (Escape(p) + [SLIP_END]);
  }
}
