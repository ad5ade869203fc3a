/** SLIP framing (RFC 1055) on values: the escaping encoder and the decoder as a byte-at-a-time automaton. */
module SlipCodec {
  import opened Common

  const SLIP_END: Byte := 192
  const SLIP_ESC: Byte := 219
  const SLIP_ESC_END: Byte := 220
  const SLIP_ESC_ESC: Byte := 221
  const BUF_SIZE := 2048
  const NEWLINE: Byte := 10

  // ----- encoder

  function EscapeByte(c: Byte): seq<Byte> {
    if c == SLIP_END then [SLIP_ESC, SLIP_ESC_END]
    else if c == SLIP_ESC then [SLIP_ESC, SLIP_ESC_ESC]
    else [c]
  }

  function Escape(p: seq<Byte>): seq<Byte> {
    if p == [] then [] else EscapeByte(p[0]) + Escape(p[1..])
  }

  lemma {:induction false} EscapeConcat(a: seq<Byte>, b: seq<Byte>)
    ensures Escape(a + b) == Escape(a) + Escape(b)
  {
    if a == [] {
      assert a + b == b;
    } else {
      assert (a + b)[0] == a[0] && (a + b)[1..] == a[1..] + b;
      EscapeConcat(a[1..], b);
      assert EscapeByte(a[0]) + (Escape(a[1..]) + Escape(b)) == (EscapeByte(a[0]) + Escape(a[1..])) + Escape(b);
    }
  }

  /** Escaping works byte by byte. */
  lemma EscapeNext(p: seq<Byte>, i: nat)
    requires i < |p|
    ensures Escape(p[..i + 1]) == Escape(p[..i]) + EscapeByte(p[i])
  {
    assert p[..i + 1] == p[..i] + [p[i]];
    EscapeConcat(p[..i], [p[i]]);
    assert [p[i]][1..] == [];
    assert EscapeByte(p[i]) + [] == EscapeByte(p[i]);
  }

  /** The host's encoding of a packet. */
  function Encode(p: seq<Byte>): seq<Byte> { Escape(p) + [SLIP_END] }

  /** The framing of RFC 1055: END is 192 and closes the packet; 192 and 219 in a packet become 219 220
      and 219 221, every other byte stands for itself. */
  lemma {:induction false} Rfc1055(p: seq<Byte>)
    ensures Encode([]) == [192]
    ensures p != [] ==>
              Encode(p) == (if p[0] == 192 then [219, 220] else if p[0] == 219 then [219, 221] else [p[0]]) + Encode(p[1..])
  {
  }

  /** The radio node's encoding: it also starts with END. */
  function EncodeNode(p: seq<Byte>): seq<Byte> { [SLIP_END] + Encode(p) }

  // ----- decoder

  /** What the host does with a completed frame, by its first byte and its text-likeness. */
  datatype Event =
    | Command(data: seq<Byte>)   // '!'
    | Query(data: seq<Byte>)     // '?'
    | Debug(data: seq<Byte>)     // '\r'
    | Text(data: seq<Byte>)
    | Packet(data: seq<Byte>)

  /** The static input buffer, and whether an ESC was put back for lack of its second byte. */
  datatype Reader = Reader(inbuf: seq<Byte>, esc: bool)

  predicate SensibleByte(b: Byte) {
    b == 0 || b == 13 || b == NEWLINE || b == 9 || 32 <= b <= 126
  }

  /** is_sensible_string: the first byte is not looked at. */
  predicate Sensible(s: seq<Byte>) {
    forall i :: 1 <= i < |s| ==> SensibleByte(s[i])
  }

  function Classify(f: seq<Byte>): Event
    requires f != []
  {
    if f[0] == 33 then Command(f)
    else if f[0] == 63 then Query(f)
    else if f[0] == 13 then Debug(f)
    else if Sensible(f) then Text(f)
    else Packet(f)
  }

  /** At verbosity 2, 3, 5 and above a text line is echoed and taken out of the buffer. */
  predicate EatsLine(verbose: nat, buf: seq<Byte>) {
    verbose >= 2 && verbose != 4 && buf != [] && buf[|buf| - 1] == NEWLINE && Sensible(buf)
  }

  /** Store one decoded byte; a full buffer is dropped before the next byte is read. */
  function Store(verbose: nat, buf: seq<Byte>, c: Byte): seq<Byte> {
    var b := buf + [c];
    if EatsLine(verbose, b) || |b| >= BUF_SIZE then [] else b
  }

  function Unescape(c: Byte): Byte {
    if c == SLIP_ESC_END then SLIP_END else if c == SLIP_ESC_ESC then SLIP_ESC else c
  }

  function Complete(buf: seq<Byte>): seq<Event> {
    if buf == [] then [] else [Classify(buf)]
  }

  function Feed(verbose: nat, r: Reader, c: Byte): (Reader, seq<Event>) {
    if r.esc then (Reader(Store(verbose, r.inbuf, Unescape(c)), false), [])
    else if c == SLIP_END then (Reader([], false), Complete(r.inbuf))
    else if c == SLIP_ESC then (Reader(r.inbuf, true), [])
    else (Reader(Store(verbose, r.inbuf, c), false), [])
  }

  function FeedAll(verbose: nat, r: Reader, s: seq<Byte>): (Reader, seq<Event>)
    decreases |s|
  {
    if s == [] then (r, [])
    else
      var (r1, e1) := Feed(verbose, r, s[0]);
      var (r2, e2) := FeedAll(verbose, r1, s[1..]);
      (r2, e1 + e2)
  }

  function After(verbose: nat, r: Reader, s: seq<Byte>): Reader { FeedAll(verbose, r, s).0 }

  function Events(verbose: nat, r: Reader, s: seq<Byte>): seq<Event> { FeedAll(verbose, r, s).1 }

  /** Main result: how the stream is cut into chunks makes no difference, not even a cut between
      an ESC and its second byte. */
  lemma {:induction false} ChunkIndependence(verbose: nat, r: Reader, a: seq<Byte>, b: seq<Byte>)
    ensures After(verbose, r, a + b) == After(verbose, After(verbose, r, a), b)
    ensures Events(verbose, r, a + b) == Events(verbose, r, a) + Events(verbose, After(verbose, r, a), b)
    decreases |a|
  {
    if a == [] {
      assert a + b == b;
    } else {
      assert (a + b)[0] == a[0] && (a + b)[1..] == a[1..] + b;
      ChunkIndependence(verbose, Feed(verbose, r, a[0]).0, a[1..], b);
    }
  }

  // ----- what a packet turns into at the other end

  function StoreAll(verbose: nat, buf: seq<Byte>, p: seq<Byte>): seq<Byte>
    decreases |p|
  {
    if p == [] then buf else StoreAll(verbose, Store(verbose, buf, p[0]), p[1..])
  }

  lemma FeedOne(verbose: nat, r: Reader, c: Byte)
    ensures FeedAll(verbose, r, [c]) == Feed(verbose, r, c)
  {
    var (r1, e1) := Feed(verbose, r, c);
    assert [c][1..] == [] && FeedAll(verbose, r1, []) == (r1, []) && e1 + [] == e1;
  }

  lemma FeedEscaped(verbose: nat, buf: seq<Byte>, c: Byte)
    ensures FeedAll(verbose, Reader(buf, false), EscapeByte(c)) == (Reader(Store(verbose, buf, c), false), [])
  {
    var s := EscapeByte(c);
    if |s| == 2 {
      assert s == [s[0]] + [s[1]];
      ChunkIndependence(verbose, Reader(buf, false), [s[0]], [s[1]]);
      FeedOne(verbose, Reader(buf, false), s[0]);
      FeedOne(verbose, Reader(buf, true), s[1]);
    } else {
      FeedOne(verbose, Reader(buf, false), c);
    }
  }

  /** Decoding inverts escaping, from any buffer content. */
  lemma {:induction false} DecodeEscaped(verbose: nat, buf: seq<Byte>, p: seq<Byte>)
    ensures FeedAll(verbose, Reader(buf, false), Escape(p)) == (Reader(StoreAll(verbose, buf, p), false), [])
    decreases |p|
  {
    if p != [] {
      FeedEscaped(verbose, buf, p[0]);
      ChunkIndependence(verbose, Reader(buf, false), EscapeByte(p[0]), Escape(p[1..]));
      DecodeEscaped(verbose, Store(verbose, buf, p[0]), p[1..]);
    }
  }

  /** The frames an encoded packet yields at an idle decoder: none or one. */
  function Received(verbose: nat, p: seq<Byte>): seq<Event> { Complete(StoreAll(verbose, [], p)) }

  lemma DecodeEncode(verbose: nat, p: seq<Byte>)
    ensures FeedAll(verbose, Reader([], false), Encode(p)) == (Reader([], false), Received(verbose, p))
    ensures FeedAll(verbose, Reader([], false), EncodeNode(p)) == (Reader([], false), Received(verbose, p))
  {
    DecodeEscaped(verbose, [], p);
    ChunkIndependence(verbose, Reader([], false), Escape(p), [SLIP_END]);
    FeedOne(verbose, Reader(StoreAll(verbose, [], p), false), SLIP_END);
    assert [] + Received(verbose, p) == Received(verbose, p);
    ChunkIndependence(verbose, Reader([], false), [SLIP_END], Encode(p));
    FeedOne(verbose, Reader([], false), SLIP_END);
  }

  /** The radio node's leading END separates the packet from noise on the line: whatever the buffer held
      becomes a frame of its own, and the packet comes out as from an empty one. */
  lemma NodeResyncs(verbose: nat, noise: seq<Byte>, p: seq<Byte>)
    ensures FeedAll(verbose, Reader(noise, false), EncodeNode(p))
            == (Reader([], false), Complete(noise) + Received(verbose, p))
  {
    ChunkIndependence(verbose, Reader(noise, false), [SLIP_END], Encode(p));
    FeedOne(verbose, Reader(noise, false), SLIP_END);
    DecodeEncode(verbose, p);
  }

  // ----- when the packet itself comes out

  lemma {:induction false} StoreAllShrinks(verbose: nat, buf: seq<Byte>, p: seq<Byte>)
    ensures |StoreAll(verbose, buf, p)| <= |buf| + |p|
    decreases |p|
  {
    if p != [] {
      StoreAllShrinks(verbose, Store(verbose, buf, p[0]), p[1..]);
    }
  }

  /** A packet survives from buffer content buf on: it fits, and no prefix is eaten as a line. */
  predicate Survives(verbose: nat, buf: seq<Byte>, p: seq<Byte>) {
    |buf| + |p| < BUF_SIZE && forall i :: 1 <= i <= |p| ==> !EatsLine(verbose, buf + p[..i])
  }

  lemma SurvivesStep(verbose: nat, buf: seq<Byte>, p: seq<Byte>)
    requires p != []
    ensures Survives(verbose, buf, p) <==>
            |buf| + |p| < BUF_SIZE && !EatsLine(verbose, buf + [p[0]])
            && Survives(verbose, buf + [p[0]], p[1..])
  {
    assert p[..1] == [p[0]];
    forall i | 1 <= i < |p| ensures buf + p[..i + 1] == (buf + [p[0]]) + p[1..][..i] {
    }
    if Survives(verbose, buf + [p[0]], p[1..]) && !EatsLine(verbose, buf + [p[0]]) {
      forall i | 1 <= i <= |p| ensures |buf| + |p| < BUF_SIZE ==> !EatsLine(verbose, buf + p[..i]) {
        if i > 1 {
          assert buf + p[..i] == (buf + [p[0]]) + p[1..][..i - 1];
        }
      }
    }
  }

  lemma {:induction false} StoreAllExact(verbose: nat, buf: seq<Byte>, p: seq<Byte>)
    requires |buf| < BUF_SIZE
    ensures StoreAll(verbose, buf, p) == buf + p <==> Survives(verbose, buf, p)
    decreases |p|
  {
    if p == [] {
      assert buf + p == buf;
    } else {
      var b := buf + [p[0]];
      assert b + p[1..] == buf + p;
      SurvivesStep(verbose, buf, p);
      if EatsLine(verbose, b) || |b| >= BUF_SIZE {
        StoreAllShrinks(verbose, [], p[1..]);
      } else {
        StoreAllExact(verbose, b, p[1..]);
      }
    }
  }

  /** Main result: a packet is received as sent if and only if it is not empty, is shorter than
      the input buffer, and (at the verbosity levels that echo lines) no prefix of it is a
      text line. */
  lemma RoundTripExact(verbose: nat, p: seq<Byte>)
    ensures (|Received(verbose, p)| == 1 && Received(verbose, p)[0].data == p)
            <==> p != [] && Survives(verbose, [], p)
    ensures verbose <= 1 || verbose == 4 ==>
              (Survives(verbose, [], p) <==> |p| < BUF_SIZE)
  {
    StoreAllExact(verbose, [], p);
    assert [] + p == p;
  }

  // ----- what the reader takes the bytes and frames for, in plain numbers and characters

  /** A control character of text lines, or a printable one. */
  predicate TextByte(b: Byte) { b == 0 || b == 9 || b == 10 || b == 13 || (b >= 32 && b < 127) }

  /** Every byte but the first, which is not looked at, is text. */
  predicate TextTail(f: seq<Byte>) {
    f != [] && forall b :: b in f[1..] ==> TextByte(b)
  }

  lemma SensibleIsText(f: seq<Byte>)
    requires f != []
    ensures Sensible(f) <==> TextTail(f)
  {
    assert forall i :: 1 <= i < |f| ==> f[i] == f[1..][i - 1] && f[i] in f[1..];
  }

  /** A frame is handled by its first byte, '!', '?' or carriage return, and else as a text line if the
      rest of it is text; and it is handed on as it is. */
  lemma FrameKinds(f: seq<Byte>)
    requires f != []
    ensures Classify(f).data == f
    ensures Classify(f).Command? <==> f[0] == '!' as int
    ensures Classify(f).Query? <==> f[0] == '?' as int
    ensures Classify(f).Debug? <==> f[0] == '\r' as int
    ensures Classify(f).Text? <==> f[0] !in ['!' as int, '?' as int, '\r' as int] && TextTail(f)
  {
    SensibleIsText(f);
  }

  /** q is a text line that is printed and taken out of the buffer at this verbosity. */
  predicate PrintedLine(verbose: nat, q: seq<Byte>) {
    verbose !in [0, 1, 4] && TextTail(q) && q[|q| - 1] == '\n' as int
  }

  /** A packet survives exactly if it is shorter than 2048 bytes and no part of it from its start is a
      text line that is printed. */
  lemma SurvivesExact(verbose: nat, p: seq<Byte>)
    ensures Survives(verbose, [], p) <==>
              |p| < 2048 && forall k :: 0 < k <= |p| ==> !PrintedLine(verbose, p[..k])
  {
    forall k | 0 < k <= |p| ensures EatsLine(verbose, [] + p[..k]) <==> PrintedLine(verbose, p[..k]) {
      assert [] + p[..k] == p[..k];
      SensibleIsText(p[..k]);
    }
  }

  /** One byte of the line: 192 ends a frame, an empty one being ignored; after 219, 220 and 221 stand for
      192 and 219 and any other byte, 192 included, for itself. */
  lemma ReaderBytes(verbose: nat, buf: seq<Byte>, c: Byte)
    ensures FeedAll(verbose, Reader(buf, false), [192])
            == (Reader([], false), if buf == [] then [] else [Classify(buf)])
    ensures FeedAll(verbose, Reader(buf, false), [219]) == (Reader(buf, true), [])
    ensures c !in [192, 219] ==>
              FeedAll(verbose, Reader(buf, false), [c]) == (Reader(Store(verbose, buf, c), false), [])
    ensures FeedAll(verbose, Reader(buf, true), [c])
            == (Reader(Store(verbose, buf, if c == 220 then 192 else if c == 221 then 219 else c), false), [])
  {
    FeedOne(verbose, Reader(buf, false), 192);
    FeedOne(verbose, Reader(buf, false), 219);
    FeedOne(verbose, Reader(buf, false), c);
    FeedOne(verbose, Reader(buf, true), c);
  }
}
