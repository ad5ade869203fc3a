/** The connection object of a node: its callbacks update the queue, the packet buffers and the
    hand-off lock in place.  Each is proved to do what the node functions say. */
module DtnConnection {
  import opened Common
  import opened DtnNode

  class DtnConn {
    const addr: Addr
    var q: seq<Item>            // the packet queue, oldest first
    const bufs: array<Hdr>      // the pool of packet buffers
    var seqno: nat
    var handoffQb: Option<nat>  // the buffer of the message being handed off
    var handoffHdr: Hdr         // its header when the hand-off began

    ghost function State(): NodeState
      reads this, bufs
    {
      NodeState(addr, q, bufs[..], seqno, handoffQb, handoffHdr)
    }

    ghost predicate Valid()
      reads this, bufs
    {
      WellFormed(State())
    }

    /** dtn_open: an empty queue, packet ids from zero, the lock free. */
    constructor (addr: Addr, pool: array<Hdr>, junk: Hdr)
      ensures Valid() && this.addr == addr && bufs == pool
      ensures State() == NodeState(addr, [], pool[..], 0, None, junk)
    {
      this.addr, bufs := addr, pool;
      q, seqno, handoffQb, handoffHdr := [], 0, None, junk;
    }

    method QueueFind(h: Hdr) returns (r: Option<nat>)
      requires Valid()
      ensures r == Find(State(), KeyOf(h))
    {
      var i := 0;
      while i < |q|
        invariant 0 <= i <= |q|
        invariant Find(State(), KeyOf(h)) == FindFrom(State(), KeyOf(h), i)
      {
        var b := bufs[q[i].slot];
        if h.esender == b.esender && h.epacketid == b.epacketid {
          return Some(i);
        }
        i := i + 1;
      }
      return None;
    }

    /** One pass over the queue; the headers broadcast, in order. */
    method QueueSpray() returns (sprayed: seq<Hdr>)
      requires Valid()
      ensures sprayed == SprayFrames(State())
    {
      sprayed := [];
      var i := 0;
      while i < |q|
        invariant 0 <= i <= |q|
        invariant sprayed + SprayFrom(State(), i) == SprayFrames(State())
      {
        var b := bufs[q[i].slot];
        if q[i].status == Ready && b.copies != 0 {
          sprayed := sprayed + [b];
        }
        i := i + 1;
      }
    }

    /** packetqueue_enqueue_packetbuf, with the buffer the allocator found, if any. */
    method EnqueuePacketbuf(h: Hdr, status: Status, alloc: Option<nat>) returns (ok: bool)
      requires Valid() && (alloc.Some? ==> FreeSlot(State(), alloc.value))
      modifies this`q, bufs
      ensures var e := Enqueue(old(State()), h, status, alloc);
              (ok <==> e.Some?) && State() == if ok then e.value else old(State())
    {
      if |q| >= DTN_QUEUE_MAX || alloc.None? {
        return false;
      }
      bufs[alloc.value] := h;
      q := q + [Item(alloc.value, status)];
      return true;
    }

    method SprayRecv(h: Hdr, alloc: Option<nat>) returns (request: Option<Hdr>, recv: Option<Key>)
      requires Valid() && (alloc.Some? ==> FreeSlot(State(), alloc.value))
      modifies this`q, bufs
      ensures Valid()
      ensures SprayOut(State(), request, recv) == DtnNode.SprayRecv(old(State()), h, alloc)
    {
      request, recv := None, None;
      if !ValidHdr(h) || h.esender == addr {
        return;
      }
      if h.ereceiver == addr {
        return Some(h), Some(KeyOf(h));
      }
      if h.copies == 1 {
        return;
      }
      var item := QueueFind(h);
      if item.Some? {
        if q[item.value].status != Ready {
          request := Some(h);
        }
        return;
      }
      var ok := EnqueuePacketbuf(h.(copies := 0), Pending, alloc);
      if ok {
        request := Some(h.(copies := 0));
      }
    }

    method RequestRecv(from: Addr, h: Hdr) returns (handoff: Option<Hdr>)
      requires Valid()
      modifies this`handoffQb, this`handoffHdr, bufs
      ensures Valid()
      ensures RequestOut(State(), handoff) == DtnNode.RequestRecv(old(State()), from, h)
    {
      handoff := None;
      if !ValidHdr(h) {
        return;
      }
      var item := QueueFind(h);
      if item.None? || q[item.value].status != Ready {
        return;
      }
      var slot := q[item.value].slot;
      if bufs[slot].ereceiver == from {
        bufs[slot] := bufs[slot].(copies := 0);
        return;
      }
      if bufs[slot].copies == 1 || bufs[slot].copies == 0 || handoffQb.Some? {
        return;
      }
      handoffQb := Some(slot);
      handoffHdr := bufs[slot];
      handoff := Some(bufs[slot].(copies := bufs[slot].copies / 2));
    }

    method HandoffRecv(h: Hdr) returns (sprayed: seq<Hdr>)
      requires Valid()
      modifies this`q, bufs
      ensures Valid() && State() == DtnNode.HandoffRecv(old(State()), h)
      ensures sprayed == if ValidHdr(h) && Find(old(State()), KeyOf(h)).Some?
                         then SprayFrames(State()) else []
    {
      if !ValidHdr(h) {
        return [];
      }
      var item := QueueFind(h);
      if item.None? {
        return [];
      }
      var slot := q[item.value].slot;
      var copies := (bufs[slot].copies + h.copies) % 0x1_0000;
      bufs[slot] := bufs[slot].(copies := copies);
      if bufs[slot].copies > DTN_L_COPIES {
        bufs[slot] := bufs[slot].(copies := DTN_L_COPIES);
      }
      q := q[item.value := q[item.value].(status := Ready)];
      sprayed := QueueSpray();
    }

    method HandoffSent()
      requires Valid() && handoffQb.Some?
      modifies this`handoffQb, bufs
      ensures Valid() && State() == DtnNode.HandoffSent(old(State()))
    {
      var slot := handoffQb.value;
      if bufs[slot].esender == handoffHdr.esender && bufs[slot].epacketid == handoffHdr.epacketid {
        var sentCopies := bufs[slot].copies / 2;
        bufs[slot] := bufs[slot].(copies := bufs[slot].copies - sentCopies);
      }
      handoffQb := None;
    }

    method HandoffTimedOut()
      requires Valid()
      modifies this`handoffQb
      ensures Valid() && State() == DtnNode.HandoffTimedOut(old(State()))
    {
      handoffQb := None;
    }

    method Send(to: Addr, alloc: Option<nat>) returns (ok: bool, recv: Option<Key>, sprayed: seq<Hdr>)
      requires Valid() && (alloc.Some? ==> FreeSlot(State(), alloc.value))
      modifies this`q, this`seqno, bufs
      ensures Valid()
      ensures SendOut(State(), ok, recv) == DtnNode.Send(old(State()), to, alloc)
      ensures sprayed == if ok && to != addr then SprayFrames(State()) else []
    {
      recv, sprayed := None, [];
      if to == addr {
        recv := Some(Key(to, seqno));
        seqno := seqno + 1;
        return true, recv, [];
      }
      var hdr := Hdr(DTN_VERSION, 'S', 'W', DTN_L_COPIES, addr, to, seqno);
      seqno := seqno + 1;
      ok := EnqueuePacketbuf(hdr, Ready, alloc);
      if ok {
        sprayed := QueueSpray();
      }
    }
  }
}
