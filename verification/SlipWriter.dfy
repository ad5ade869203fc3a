/** The host's output buffer: packets go in encoded and leave one at a time, as much as each write accepts. */
module SlipWriter {
  import opened Common
  import opened SlipCodec

  /** buf is slip_buf up to slip_end; packetEnd is one past the END of the packet being written,
      or 0; count is slip_packet_count. */
  datatype Writer = Writer(buf: seq<Byte>, begin: nat, packetEnd: nat, count: int)

  /** The bytes given but not yet accepted by the port. */
  function Pending(w: Writer): seq<Byte> {
    if w.begin <= |w.buf| then w.buf[w.begin..] else []
  }

  /** One past the first END at or after position i, or 0 if there is none. */
  function EndFrom(s: seq<Byte>, i: nat): (r: nat)
    ensures r == 0 ==> forall j :: i <= j < |s| ==> s[j] != SLIP_END
    ensures r > 0 ==> i < r <= |s| && s[r - 1] == SLIP_END && forall j :: i <= j < r - 1 ==> s[j] != SLIP_END
    decreases |s| - i
  {
    if i >= |s| then 0 else if s[i] == SLIP_END then i + 1 else EndFrom(s, i + 1)
  }

  /** The number of packets that end in s. */
  function Ends(s: seq<Byte>): nat {
    if s == [] then 0 else (if s[0] == SLIP_END then 1 else 0) + Ends(s[1..])
  }

  lemma {:induction false} EndsConcat(a: seq<Byte>, b: seq<Byte>)
    ensures Ends(a + b) == Ends(a) + Ends(b)
  {
    if a == [] {
      assert a + b == b;
    } else {
      assert (a + b)[1..] == a[1..] + b;
      EndsConcat(a[1..], b);
    }
  }

  lemma {:induction false} NoEnds(s: seq<Byte>)
    requires forall i :: 0 <= i < |s| ==> s[i] != SLIP_END
    ensures Ends(s) == 0
  {
    if s != [] {
      NoEnds(s[1..]);
    }
  }

  // ----- the operations

  /** slip_send: None when the buffer is full and the program exits. */
  function Put(w: Writer, c: Byte): Option<Writer> {
    if |w.buf| >= BUF_SIZE then None
    else if c != SLIP_END then Some(w.(buf := w.buf + [c]))
    else Some(w.(buf := w.buf + [c], count := w.count + 1,
                 packetEnd := if w.packetEnd == 0 then |w.buf| + 1 else w.packetEnd))
  }

  function PutAll(w: Writer, s: seq<Byte>): Option<Writer>
    decreases |s|
  {
    if s == [] then Some(w)
    else
      var w1 := Put(w, s[0]);
      if w1.None? then None else PutAll(w1.value, s[1..])
  }

  lemma {:induction false} PutAllConcat(w: Writer, a: seq<Byte>, b: seq<Byte>)
    ensures PutAll(w, a + b) == if PutAll(w, a).None? then None else PutAll(PutAll(w, a).value, b)
    decreases |a|
  {
    if a == [] {
      assert a + b == b;
    } else {
      assert (a + b)[0] == a[0] && (a + b)[1..] == a[1..] + b;
      if Put(w, a[0]).Some? {
        PutAllConcat(Put(w, a[0]).value, a[1..], b);
      }
    }
  }

  /** slip_flushbuf when write() returns n; -1 stands for a full outqueue. */
  function Flush(w: Writer, n: int): (Writer, seq<Byte>)
    requires WriterOk(w) && -1 <= n <= w.packetEnd - w.begin
  {
    if w.packetEnd == 0 || n == -1 then (w, [])
    else
      var out := w.buf[w.begin..w.begin + n];
      if w.begin + n < w.packetEnd then (w.(begin := w.begin + n), out)
      else
        var rest := w.buf[w.packetEnd..];
        (Writer(rest, 0, EndFrom(rest, 1), w.count - 1), out)
  }

  /** The indices are in order: this needs nothing of the packets. */
  ghost predicate WriterOk(w: Writer) {
    && |w.buf| <= BUF_SIZE && w.packetEnd <= |w.buf|
    && (w.packetEnd == 0 ==> w.begin == 0)
    && (w.packetEnd > 0 ==> w.begin < w.packetEnd && w.buf[w.packetEnd - 1] == SLIP_END)
  }

  /** The bookkeeping is exact: packetEnd marks the first END of the buffer, so a write never
      reaches past the packet it is in, and count is the number of ENDs still in the buffer. */
  ghost predicate Framed(w: Writer) {
    WriterOk(w) && w.packetEnd == EndFrom(w.buf, 0) && w.count == Ends(w.buf)
  }

  // ----- the buffer refines an unbounded FIFO

  /** Bytes go in at the back, in order; a packet goes in whole or the program exits. */
  lemma {:induction false} PutAllFifo(w: Writer, s: seq<Byte>)
    requires WriterOk(w)
    ensures PutAll(w, s).Some? <==> |w.buf| + |s| <= BUF_SIZE
    ensures PutAll(w, s).Some? ==>
              var w' := PutAll(w, s).value;
              && WriterOk(w') && w'.buf == w.buf + s && w'.begin == w.begin
              && Pending(w') == Pending(w) + s
              && (Framed(w) ==> Framed(w'))
    decreases |s|
  {
    if s == [] {
      assert w.buf + s == w.buf && Pending(w) + s == Pending(w);
    } else if |w.buf| < BUF_SIZE {
      var w1 := Put(w, s[0]).value;
      PutFramed(w, s[0]);
      PutAllFifo(w1, s[1..]);
      assert w1.buf + s[1..] == w.buf + s;
    }
  }

  lemma PutFramed(w: Writer, c: Byte)
    requires WriterOk(w) && |w.buf| < BUF_SIZE
    ensures var w' := Put(w, c).value; WriterOk(w') && (Framed(w) ==> Framed(w'))
  {
    var w' := Put(w, c).value;
    EndsConcat(w.buf, [c]);
    assert Ends([c]) == if c == SLIP_END then 1 else 0 by {
      assert [c][1..] == [];
    }
    EndFromPrefix(w.buf, [c], 0);
  }

  /** The first END of s is still the first END when bytes are added at the back. */
  lemma EndFromPrefix(s: seq<Byte>, t: seq<Byte>, i: nat)
    ensures EndFrom(s, i) > 0 ==> EndFrom(s + t, i) == EndFrom(s, i)
    ensures EndFrom(s, i) == 0 && i <= |s| && t != [] ==>
              (EndFrom(s + [t[0]], i) == if t[0] == SLIP_END then |s| + 1 else 0)
  {
    var a, b := EndFrom(s, i), EndFrom(s + t, i);
    if a > 0 {
      assert (s + t)[a - 1] == s[a - 1];
      assert forall j :: i <= j < a - 1 ==> (s + t)[j] == s[j];
    } else if i <= |s| && t != [] {
      assert forall j :: i <= j < |s| ==> (s + [t[0]])[j] == s[j];
      assert (s + [t[0]])[|s|] == t[0];
    }
  }

  lemma FlushOk(w: Writer, n: int)
    requires WriterOk(w) && -1 <= n <= w.packetEnd - w.begin
    ensures WriterOk(Flush(w, n).0)
  {
  }

  lemma SplitAt(s: seq<Byte>, i: nat, j: nat)
    requires i <= j <= |s|
    ensures s[i..] == s[i..j] + s[j..]
  {
  }

  lemma PendingFront(rest: seq<Byte>, packetEnd: nat, count: int)
    ensures Pending(Writer(rest, 0, packetEnd, count)) == rest
  {
  }

  /** Bytes come out at the front, in order, whatever write() accepts. */
  lemma FlushFifo(w: Writer, n: int)
    requires WriterOk(w) && -1 <= n <= w.packetEnd - w.begin
    ensures var (w', out) := Flush(w, n);
            WriterOk(w') && out + Pending(w') == Pending(w)
  {
    FlushOk(w, n);
    var (w', out) := Flush(w, n);
    if w.packetEnd == 0 || n == -1 {
      assert out == [] && w' == w;
    } else {
      var i := w.begin + n;
      SplitAt(w.buf, w.begin, i);
      if i == w.packetEnd {
        PendingFront(w.buf[i..], w'.packetEnd, w'.count);
      }
      assert out == w.buf[w.begin..i] && Pending(w') == w.buf[i..];
    }
  }

  lemma DropPacketCount(w: Writer)
    requires Framed(w) && w.packetEnd > 0
    ensures Ends(w.buf[w.packetEnd..]) == w.count - 1
  {
    var head, rest := w.buf[..w.packetEnd - 1], w.buf[w.packetEnd..];
    assert w.buf == head + ([SLIP_END] + rest);
    EndsConcat(head, [SLIP_END] + rest);
    NoEnds(head);
    assert ([SLIP_END] + rest)[1..] == rest;
  }

  /** Where the packet boundary lies in the bytes a write accepts: only at their very end. */
  lemma FlushWithinPacket(w: Writer, n: int)
    requires Framed(w) && -1 <= n <= w.packetEnd - w.begin
    ensures var out := Flush(w, n).1;
            forall i :: 0 <= i < |out| ==> (out[i] == SLIP_END <==> w.begin + i == w.packetEnd - 1)
  {
    var out := Flush(w, n).1;
    forall i | 0 <= i < |out| ensures out[i] == SLIP_END <==> w.begin + i == w.packetEnd - 1 {
      assert out[i] == w.buf[w.begin + i];
    }
  }

  /** The bookkeeping survives a flush exactly unless the flush completes a packet and the byte
      after it is END, that is, unless the next packet is empty: once it is moved to the front,
      the scan for its END starts at index 1. */
  lemma FlushFramedExact(w: Writer, n: int)
    requires Framed(w) && -1 <= n <= w.packetEnd - w.begin
    ensures var w' := Flush(w, n).0;
            && w'.count == Ends(w'.buf)
            && (Framed(w') <==>
                  !(w.packetEnd > 0 && w.begin + n == w.packetEnd
                    && w.packetEnd < |w.buf| && w.buf[w.packetEnd] == SLIP_END))
  {
    FlushFifo(w, n);
    if w.packetEnd > 0 && w.begin + n == w.packetEnd {
      DropPacketCount(w);
    }
  }

  /** The failing family is not empty: after a one-byte packet and an empty one, flushing the
      first leaves the END of the second in the buffer with nothing left to flush. */
  lemma EmptyPacketStalls() returns (w: Writer)
    ensures Some(w) == PutAll(Writer([], 0, 0, 0), Encode([1]) + Encode([]))
    ensures Framed(w) && w.packetEnd - w.begin == 2
    ensures Flush(w, 2).0 == Writer([SLIP_END], 0, 0, 1) && !Framed(Flush(w, 2).0)
  {
    OneByteThenNothing();
    w := PutIntoEmpty([1, SLIP_END, SLIP_END]);
    StalledFlush(w);
  }

  lemma PutIntoEmpty(s: seq<Byte>) returns (w: Writer)
    requires |s| <= BUF_SIZE
    ensures Some(w) == PutAll(Writer([], 0, 0, 0), s) && Framed(w) && w.buf == s && w.begin == 0
  {
    PutAllFifo(Writer([], 0, 0, 0), s);
    w := PutAll(Writer([], 0, 0, 0), s).value;
  }

  lemma StalledFlush(w: Writer)
    requires Framed(w) && w.buf == [1, SLIP_END, SLIP_END] && w.begin == 0
    ensures w.packetEnd == 2 && Flush(w, 2).0 == Writer([SLIP_END], 0, 0, 1)
    ensures !Framed(Flush(w, 2).0)
  {
    assert EndFrom(w.buf, 0) == 2;
    assert w.buf[2..] == [SLIP_END];
    FlushFramedExact(w, 2);
    assert Ends([SLIP_END]) == 1 by { assert [SLIP_END][1..] == []; }
  }

  lemma OneByteThenNothing()
    ensures Encode([1]) + Encode([]) == [1, SLIP_END, SLIP_END]
  {
    assert Escape([1]) == [1] by { assert [1][1..] == []; }
  }

  // ----- without empty packets

  /** No packet of s is empty: no END at the front or right after another END. */
  ghost predicate NoEmptyPackets(s: seq<Byte>) {
    (s != [] ==> s[0] != SLIP_END) && forall i :: 0 < i < |s| ==> s[i] != SLIP_END || s[i - 1] != SLIP_END
  }

  lemma {:induction false} EscapeHasNoEnd(p: seq<Byte>)
    ensures forall i :: 0 <= i < |Escape(p)| ==> Escape(p)[i] != SLIP_END
    ensures |p| <= |Escape(p)| <= 2 * |p|
  {
    if p != [] {
      EscapeHasNoEnd(p[1..]);
    }
  }

  lemma WritePacketKeeps(w: Writer, p: seq<Byte>)
    requires Framed(w) && NoEmptyPackets(w.buf) && p != []
    ensures var w' := PutAll(w, Encode(p)); w'.Some? ==> Framed(w'.value) && NoEmptyPackets(w'.value.buf)
  {
    PutAllFifo(w, Encode(p));
    EscapeHasNoEnd(p);
  }

  lemma FlushNoEmptyPackets(w: Writer, n: int)
    requires WriterOk(w) && NoEmptyPackets(w.buf) && -1 <= n <= w.packetEnd - w.begin
    ensures NoEmptyPackets(Flush(w, n).0.buf)
  {
    if w.packetEnd > 0 && w.begin + n == w.packetEnd {
      var rest := w.buf[w.packetEnd..];
      assert rest != [] ==> rest[0] == w.buf[w.packetEnd];
      forall i | 0 < i < |rest| ensures rest[i] != SLIP_END || rest[i - 1] != SLIP_END {
        assert rest[i] == w.buf[w.packetEnd + i] && rest[i - 1] == w.buf[w.packetEnd + i - 1];
      }
    }
  }

  /** Exact bookkeeping never stalls: a complete packet in the buffer can be flushed. */
  lemma FramedProgress(w: Writer)
    requires Framed(w)
    ensures Ends(w.buf) > 0 <==> w.packetEnd > w.begin
  {
    if w.packetEnd == 0 {
      NoEnds(w.buf);
    } else {
      var a, b := w.buf[..w.packetEnd - 1], w.buf[w.packetEnd - 1..];
      assert w.buf == a + b;
      EndsConcat(a, b);
    }
  }

  /** Without empty packets every flush keeps the bookkeeping exact. */
  lemma FlushKeeps(w: Writer, n: int)
    requires Framed(w) && NoEmptyPackets(w.buf) && -1 <= n <= w.packetEnd - w.begin
    ensures Framed(Flush(w, n).0) && NoEmptyPackets(Flush(w, n).0.buf)
  {
    FlushNoEmptyPackets(w, n);
    FlushFramedExact(w, n);
  }
}
