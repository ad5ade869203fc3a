/** Both ends of the serial line: packets are written, flushed in any pieces and read in any chunks. */
module SlipLink {
  import opened Common
  import opened SlipCodec
  import opened SlipWriter

  /** packets: those written; wire: the bytes the port accepted, of which the reader has taken
      the first `taken`; events: the frames the reader completed. */
  datatype Link = Link(w: Writer, packets: seq<seq<Byte>>, wire: seq<Byte>, taken: nat,
                       r: Reader, events: seq<Event>)

  datatype Step = Write(p: seq<Byte>) | FlushSome(n: int) | Read(k: nat)

  /** A packet that does not fit makes the program exit, so such a step does not happen. */
  ghost predicate Enabled(l: Link, s: Step) {
    match s
    case Write(p) => PutAll(l.w, Encode(p)).Some?
    case FlushSome(n) => WriterOk(l.w) && -1 <= n <= l.w.packetEnd - l.w.begin
    case Read(k) => k > 0 && l.taken + k <= |l.wire|
  }

  ghost function Next(verbose: nat, l: Link, s: Step): Link
    requires Enabled(l, s)
  {
    match s
    case Write(p) => l.(w := PutAll(l.w, Encode(p)).value, packets := l.packets + [p])
    case FlushSome(n) => var (w', out) := Flush(l.w, n); l.(w := w', wire := l.wire + out)
    case Read(k) =>
      var chunk := l.wire[l.taken..l.taken + k];
      l.(taken := l.taken + k, r := After(verbose, l.r, chunk),
         events := l.events + Events(verbose, l.r, chunk))
  }

  ghost predicate Run(verbose: nat, ls: seq<Link>, steps: seq<Step>) {
    && |ls| == |steps| + 1
    && ls[0] == Link(Writer([], 0, 0, 0), [], [], 0, Reader([], false), [])
    && forall t :: 0 <= t < |steps| ==> Enabled(ls[t], steps[t]) && ls[t + 1] == Next(verbose, ls[t], steps[t])
  }

  function EncodeAll(ps: seq<seq<Byte>>): seq<Byte> {
    if ps == [] then [] else EncodeAll(ps[..|ps| - 1]) + Encode(ps[|ps| - 1])
  }

  /** The frames the packets turn into, each taken by itself. */
  function ReceivedAll(verbose: nat, ps: seq<seq<Byte>>): seq<Event> {
    if ps == [] then [] else ReceivedAll(verbose, ps[..|ps| - 1]) + Received(verbose, ps[|ps| - 1])
  }

  lemma {:induction false} DecodeAll(verbose: nat, ps: seq<seq<Byte>>)
    ensures FeedAll(verbose, Reader([], false), EncodeAll(ps)) == (Reader([], false), ReceivedAll(verbose, ps))
  {
    if ps != [] {
      DecodeAll(verbose, ps[..|ps| - 1]);
      DecodeEncode(verbose, ps[|ps| - 1]);
      ChunkIndependence(verbose, Reader([], false), EncodeAll(ps[..|ps| - 1]), Encode(ps[|ps| - 1]));
    }
  }

  /** Nothing is lost between the packets and the wire, and the reader's state depends only on
      the bytes it has taken. */
  ghost predicate LinkInv(verbose: nat, l: Link) {
    && WriterOk(l.w) && l.taken <= |l.wire|
    && l.wire + Pending(l.w) == EncodeAll(l.packets)
    && (l.r, l.events) == FeedAll(verbose, Reader([], false), l.wire[..l.taken])
  }

  lemma EncodeMore(ps: seq<seq<Byte>>, p: seq<Byte>)
    ensures EncodeAll(ps + [p]) == EncodeAll(ps) + Encode(p)
  {
    assert (ps + [p])[..|ps|] == ps;
  }

  lemma WriteKeeps(verbose: nat, l: Link, p: seq<Byte>)
    requires LinkInv(verbose, l) && Enabled(l, Write(p))
    ensures LinkInv(verbose, Next(verbose, l, Write(p)))
  {
    PutAllFifo(l.w, Encode(p));
    EncodeMore(l.packets, p);
    Associative(l.wire, Pending(l.w), Encode(p));
  }

  lemma Regroup(a: seq<Byte>, b: seq<Byte>, c: seq<Byte>, k: nat)
    requires k <= |a|
    ensures (a + b) + c == a + (b + c) && (a + b)[..k] == a[..k]
  {
  }

  lemma FlushKeepsLink(verbose: nat, l: Link, n: int)
    requires LinkInv(verbose, l) && Enabled(l, FlushSome(n))
    ensures LinkInv(verbose, Next(verbose, l, FlushSome(n)))
  {
    FlushFifo(l.w, n);
    var (w', out) := Flush(l.w, n);
    Regroup(l.wire, out, Pending(w'), l.taken);
  }

  lemma ReadKeeps(verbose: nat, l: Link, k: nat)
    requires LinkInv(verbose, l) && Enabled(l, Read(k))
    ensures LinkInv(verbose, Next(verbose, l, Read(k)))
  {
    assert l.wire[..l.taken + k] == l.wire[..l.taken] + l.wire[l.taken..l.taken + k];
    ChunkIndependence(verbose, Reader([], false), l.wire[..l.taken], l.wire[l.taken..l.taken + k]);
  }

  lemma {:induction false} RunLinkInv(verbose: nat, ls: seq<Link>, steps: seq<Step>, t: nat)
    requires Run(verbose, ls, steps) && t < |ls|
    ensures LinkInv(verbose, ls[t])
  {
    if t > 0 {
      RunLinkInv(verbose, ls, steps, t - 1);
      match steps[t - 1] {
        case Write(p) => WriteKeeps(verbose, ls[t - 1], p);
        case FlushSome(n) => FlushKeepsLink(verbose, ls[t - 1], n);
        case Read(k) => ReadKeeps(verbose, ls[t - 1], k);
      }
    }
  }

  /** Main result, for packets of any content: in every state of every run the frames completed
      are a prefix of what the written packets turn into, and all of it once both the buffer
      and the line are empty. */
  lemma EndToEnd(verbose: nat, ls: seq<Link>, steps: seq<Step>, t: nat)
    requires Run(verbose, ls, steps) && t < |ls|
    ensures ls[t].events <= ReceivedAll(verbose, ls[t].packets)
    ensures Pending(ls[t].w) == [] && ls[t].taken == |ls[t].wire| ==>
              ls[t].events == ReceivedAll(verbose, ls[t].packets)
  {
    RunLinkInv(verbose, ls, steps, t);
    LinkFrames(verbose, ls[t]);
  }

  lemma TakenAndLeft(wire: seq<Byte>, taken: nat, pending: seq<Byte>)
    requires taken <= |wire|
    ensures wire[..taken] + (wire[taken..] + pending) == wire + pending
    ensures pending == [] && taken == |wire| ==> wire[..taken] == wire
  {
  }

  lemma LinkFrames(verbose: nat, l: Link)
    requires LinkInv(verbose, l)
    ensures l.events <= ReceivedAll(verbose, l.packets)
    ensures Pending(l.w) == [] && l.taken == |l.wire| ==> l.events == ReceivedAll(verbose, l.packets)
  {
    var pending := Pending(l.w);
    DecodeAll(verbose, l.packets);
    TakenAndLeft(l.wire, l.taken, pending);
    ChunkIndependence(verbose, Reader([], false), l.wire[..l.taken], l.wire[l.taken..] + pending);
    if pending == [] {
      assert l.wire + pending == l.wire;
    }
  }

  /** The frames are the packets. */
  ghost predicate Same(fs: seq<Event>, ps: seq<seq<Byte>>) {
    |fs| == |ps| && forall i :: 0 <= i < |ps| ==> fs[i].data == ps[i]
  }

  ghost predicate AllSurvive(verbose: nat, ps: seq<seq<Byte>>) {
    forall i :: 0 <= i < |ps| ==> ps[i] != [] && Survives(verbose, [], ps[i])
  }

  /** At a verbosity that does not consume text lines, these are the packets of 1 to 2047 bytes. */
  lemma SurviveBySize(verbose: nat, ps: seq<seq<Byte>>)
    requires verbose <= 1 || verbose == 4
    ensures AllSurvive(verbose, ps) <==> forall i :: 0 <= i < |ps| ==> 1 <= |ps[i]| < BUF_SIZE
  {
    forall p: seq<Byte> ensures Survives(verbose, [], p) <==> |p| < BUF_SIZE {
      RoundTripExact(verbose, p);
    }
  }

  lemma {:induction false} AtMostOneEach(verbose: nat, ps: seq<seq<Byte>>)
    ensures |ReceivedAll(verbose, ps)| <= |ps|
  {
    if ps != [] {
      AtMostOneEach(verbose, ps[..|ps| - 1]);
    }
  }

  /** With at most one frame for each packet, the frames are the packets exactly if those before the
      last are and the last one's is. */
  lemma SameMore(fs: seq<Event>, before: seq<seq<Byte>>, f: seq<Event>, p: seq<Byte>)
    requires |fs| <= |before| && |f| <= 1
    ensures Same(fs + f, before + [p]) <==> Same(fs, before) && Same(f, [p])
  {
    var all, ps := fs + f, before + [p];
    if Same(all, ps) {
      assert forall i :: 0 <= i < |before| ==> fs[i] == all[i] && before[i] == ps[i];
      assert f[0] == all[|before|] && p == ps[|before|];
    }
  }

  lemma SurviveMore(verbose: nat, before: seq<seq<Byte>>, p: seq<Byte>)
    ensures AllSurvive(verbose, before + [p])
      <==> AllSurvive(verbose, before) && p != [] && Survives(verbose, [], p)
  {
    var ps := before + [p];
    assert forall i :: 0 <= i < |before| ==> before[i] == ps[i];
    assert ps[|before|] == p;
  }

  lemma OneExact(verbose: nat, p: seq<Byte>)
    ensures Same(Received(verbose, p), [p]) <==> p != [] && Survives(verbose, [], p)
  {
    RoundTripExact(verbose, p);
  }

  /** A list of packets comes out as it went in exactly if every packet of it survives. */
  lemma {:induction false} ListExact(verbose: nat, ps: seq<seq<Byte>>)
    ensures Same(ReceivedAll(verbose, ps), ps) <==> AllSurvive(verbose, ps)
  {
    if ps != [] {
      var before, p := ps[..|ps| - 1], ps[|ps| - 1];
      assert ps == before + [p];
      ListExact(verbose, before);
      AtMostOneEach(verbose, before);
      OneExact(verbose, p);
      SameMore(ReceivedAll(verbose, before), before, Received(verbose, p), p);
      SurviveMore(verbose, before, p);
    }
  }

  /** Main result, at every verbosity: once drained, the frames are the packets exactly if every
      packet survives; and if so, they are a prefix of them at any time. */
  lemma PacketsArrive(verbose: nat, ls: seq<Link>, steps: seq<Step>, t: nat)
    requires Run(verbose, ls, steps) && t < |ls|
    ensures Pending(ls[t].w) == [] && ls[t].taken == |ls[t].wire| ==>
              (Same(ls[t].events, ls[t].packets) <==> AllSurvive(verbose, ls[t].packets))
    ensures AllSurvive(verbose, ls[t].packets) ==>
              && |ls[t].events| <= |ls[t].packets|
              && Same(ls[t].events, ls[t].packets[..|ls[t].events|])
  {
    EndToEnd(verbose, ls, steps, t);
    ListExact(verbose, ls[t].packets);
  }

  ghost predicate AllNonEmpty(ps: seq<seq<Byte>>) {
    forall i :: 0 <= i < |ps| ==> ps[i] != []
  }

  /** While every packet written is non-empty, packetEnd marks the first END of the buffer and
      count the packets in it, and the line never stalls: whatever of a complete packet is
      still in the buffer, a flush can write. */
  lemma {:induction false} NeverStalls(verbose: nat, ls: seq<Link>, steps: seq<Step>, t: nat)
    requires Run(verbose, ls, steps) && t < |ls| && AllNonEmpty(ls[t].packets)
    ensures Framed(ls[t].w) && NoEmptyPackets(ls[t].w.buf)
    ensures Ends(ls[t].w.buf) > 0 ==> ls[t].w.packetEnd > ls[t].w.begin
  {
    if t > 0 {
      var l := ls[t - 1];
      assert AllNonEmpty(l.packets) by {
        assert forall i :: 0 <= i < |l.packets| ==> l.packets[i] == ls[t].packets[i];
      }
      NeverStalls(verbose, ls, steps, t - 1);
      match steps[t - 1] {
        case Write(p) =>
          assert ls[t].packets[|l.packets|] == p;
          WritePacketKeeps(l.w, p);
        case FlushSome(n) => FlushKeeps(l.w, n);
        case Read(k) =>
      }
    }
    FramedProgress(ls[t].w);
  }
}
