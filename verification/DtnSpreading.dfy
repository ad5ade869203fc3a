/** Copies only flow from nodes READY earlier to nodes READY later, and none is lost before delivery. */
module DtnSpreading {
  import opened Common
  import opened DtnNode
  import opened DtnPotential
  import opened DtnCallbacks
  import opened DtnNetwork
  import opened DtnSafety

  /** The position of x in the readiness order; nodes not READY come last. */
  function Rank(o: seq<Addr>, x: Addr): (r: nat)
    ensures r <= |o|
    ensures x in o <==> r < |o|
    ensures r < |o| ==> o[r] == x
  {
    if o == [] then 0 else if o[0] == x then 0 else 1 + Rank(o[1..], x)
  }

  /** Appending a node never lowers a rank, and moves no node that already has one. */
  lemma {:induction false} RankAppend(o: seq<Addr>, z: Addr, x: Addr)
    ensures Rank(o, x) <= Rank(o + [z], x)
    ensures x in o ==> Rank(o + [z], x) == Rank(o, x)
    ensures x !in o && x != z ==> x !in o + [z]
    ensures z !in o ==> Rank(o + [z], z) == |o|
  {
    if o != [] {
      assert (o + [z])[1..] == o[1..] + [z];
      RankAppend(o[1..], z, x);
      if z !in o {
        RankAppend(o[1..], z, z);
      }
    }
  }

  ghost predicate Distinct(o: seq<Addr>) {
    forall a, b :: 0 <= a < b < |o| ==> o[a] != o[b]
  }

  function Range(n: nat): (r: set<Addr>)
    ensures |r| == n
    ensures forall x: Addr :: x in r <==> x < n
  {
    if n == 0 then {} else Range(n - 1) + {n - 1}
  }

  /** Distinct addresses below n number at most n. */
  lemma {:induction false} Pigeonhole(o: seq<Addr>, s: set<Addr>)
    requires Distinct(o) && forall x :: x in o ==> x in s
    ensures |o| <= |s|
  {
    if o != [] {
      forall x | x in o[1..] ensures x in s - {o[0]} {
      }
      Pigeonhole(o[1..], s - {o[0]});
    }
  }

  ghost predicate ReadyFor(n: Node, k: Key) {
    Find(n, k).Some? && n.q[Find(n, k).value].status == Ready
  }

  /** The order lists the READY nodes, its origin first, perhaps no longer READY, and every frame
      in the air respects it. */
  ghost predicate OrderOk(net: Net, k: Key)
    requires k in net.order
  {
    var o := net.order[k];
    && o != [] && o[0] == k.esender && Distinct(o)
    && (forall x :: x in o ==> x < |net.stations|)
    && (forall i :: 0 <= i < |net.stations| && ReadyFor(net.stations[i].node, k) ==> i in o)
    && (forall i :: 0 <= i < |net.stations| && i in o && i != k.esender ==> ReadyFor(net.stations[i].node, k))
    && (forall s :: s in net.sprays && KeyOf(s.hdr) == k ==> s.from in o)
    && (forall r :: r in net.requests && KeyOf(r.hdr) == k ==> Rank(o, r.to) < Rank(o, r.from))
    && (forall h :: h in net.handoffs && KeyOf(h.hdr) == k ==> Rank(o, h.from) < Rank(o, h.to))
  }

  ghost predicate SpreadInv(net: Net, k: Key) {
    && (k !in net.submitted ==> net.completed[k] == 0 && k !in net.order)
    && (k in net.order && k !in net.forgotten ==> OrderOk(net, k))
  }

  // ----- readiness, one callback at a time

  lemma SprayRecvReady(n: NodeState, h: Hdr, alloc: Option<nat>, k: Key)
    requires NodeInv(n)
    requires alloc.Some? ==> FreeSlot(n, alloc.value)
    ensures var out := SprayRecv(n, h, alloc);
            && NodeInv(out.n) && (ReadyFor(out.n, k) <==> ReadyFor(n, k))
            && (out.request.Some? && k == KeyOf(h) ==> !ReadyFor(n, k) || h.ereceiver == n.addr)
  {
    var out := SprayRecv(n, h, alloc);
    if out.n != n {
      EnqueueKeeps(n, h.(copies := 0), Pending, alloc.value);
      EnqueueEffect(n, h.(copies := 0), Pending, alloc.value, k);
    }
  }

  lemma RequestRecvReady(n: NodeState, from: Addr, h: Hdr, k: Key)
    requires NodeInv(n)
    ensures var out := RequestRecv(n, from, h);
            && NodeInv(out.n) && (ReadyFor(out.n, k) <==> ReadyFor(n, k))
  {
    var out := RequestRecv(n, from, h);
    RequestRecvKeepsNode(n, from, h);
    if out.handoff.Some? {
      LockKeepsQueue(n, out.n, k);
    } else if out.n != n {
      SetCopiesEffect(n, Find(n, KeyOf(h)).value, 0, k);
    }
  }

  lemma HandoffRecvReady(n: NodeState, h: Hdr, k: Key)
    requires NodeInv(n) && ValidHdr(h) && h.copies <= DTN_L_COPIES && Find(n, KeyOf(h)).Some?
    ensures ReadyFor(HandoffRecv(n, h), k) <==> ReadyFor(n, k) || k == KeyOf(h)
  {
    HandoffRecvQueue(n, h, k);
    HandoffRecvQueue(n, h, KeyOf(h));
  }

  lemma ReadyAsBefore(n: NodeState, h: Hdr, k: Key)
    requires NodeInv(n) && ValidHdr(h) && h.copies <= DTN_L_COPIES && Find(n, KeyOf(h)).Some?
    requires k == KeyOf(h) ==> ReadyFor(n, k)
    ensures ReadyFor(HandoffRecv(n, h), k) <==> ReadyFor(n, k)
  {
    HandoffRecvReady(n, h, k);
  }

  lemma SendReady(n: NodeState, to: Addr, alloc: Option<nat>, k: Key)
    requires NodeInv(n)
    requires alloc.Some? ==> FreeSlot(n, alloc.value)
    ensures var out := Send(n, to, alloc);
            && NodeInv(out.n)
            && (ReadyFor(out.n, k) <==>
                  ReadyFor(n, k) || (k == Key(n.addr, n.seqno) && out.ok && to != n.addr))
  {
    var n1 := n.(seqno := n.seqno + 1);
    var out := Send(n, to, alloc);
    NextIdKeeps(n, k);
    NextIdKeeps(n, Key(n.addr, n.seqno));
    if out.ok && to != n.addr {
      EnqueueKeeps(n1, NewHdr(n, to), Ready, alloc.value);
      EnqueueEffect(n1, NewHdr(n, to), Ready, alloc.value, k);
    }
  }

  lemma ExpireReady(n: NodeState, j: nat, k: Key)
    requires NodeInv(n) && j < |n.q| && KeyOf(HdrAt(n, j)) != k
    ensures ReadyFor(Expire(n, j), k) <==> ReadyFor(n, k)
  {
    var n' := Expire(n, j);
    ExpireShape(n, j);
    ExpireEffect(n, j, k);
    if Find(n, k).Some? {
      var f := Find(n, k).value;
      FindIs(n', k, if f < j then f else f - 1);
    }
  }

  lemma ExpireOwn(n: NodeState, j: nat)
    requires NodeInv(n) && j < |n.q|
    ensures var k := KeyOf(HdrAt(n, j));
            !ReadyFor(Expire(n, j), k) && (ReadyFor(n, k) <==> n.q[j].status == Ready)
  {
    ExpireShape(n, j);
    FindIs(n, KeyOf(HdrAt(n, j)), j);
  }

  /** A READY entry's spray comes from a READY node. */
  lemma SprayFramesReady(n: NodeState, h: Hdr)
    requires NodeInv(n) && h in SprayFrames(n)
    ensures ReadyFor(n, KeyOf(h))
  {
    var j :| 0 <= j < |n.q| && n.q[j].status == Ready && HdrAt(n, j) == h;
    FindIs(n, KeyOf(h), j);
  }

  /** The destination never queues the message, so it never enters the order. */
  lemma DestinationNotReady(net: Net, i: Addr, h: Hdr)
    requires Inv(net) && Known(net, h) && i == h.ereceiver && i < |net.stations|
    ensures !ReadyFor(net.stations[i].node, KeyOf(h))
  {
    var n := net.stations[i].node;
    assert StationOk(net, i);
    forall j | 0 <= j < |n.q| ensures KeyOf(HdrAt(n, j)) != KeyOf(h) {
      assert EntryOk(n, j) && EntryKnown(net, n, j);
    }
  }

  // ----- one lemma per event

  /** Only station i changes, it is READY as before, and the new frames respect the order. */
  lemma OrderSame(net: Net, net': Net, i: Addr, k: Key)
    requires SpreadInv(net, k) && k in net.order && k !in net.forgotten && i < |net.stations|
    requires |net'.stations| == |net.stations| && k in net'.order && net'.order[k] == net.order[k]
    requires forall j :: 0 <= j < |net.stations| && j != i ==> net'.stations[j] == net.stations[j]
    requires ReadyFor(net'.stations[i].node, k) ==> ReadyFor(net.stations[i].node, k)
    requires ReadyFor(net.stations[i].node, k) ==> ReadyFor(net'.stations[i].node, k) || i == k.esender
    requires forall s :: s in net'.sprays && KeyOf(s.hdr) == k ==> s in net.sprays || s.from in net.order[k]
    requires forall r :: r in net'.requests && KeyOf(r.hdr) == k ==>
               r in net.requests || Rank(net.order[k], r.to) < Rank(net.order[k], r.from)
    requires forall h :: h in net'.handoffs && KeyOf(h.hdr) == k ==>
               h in net.handoffs || Rank(net.order[k], h.from) < Rank(net.order[k], h.to)
    ensures OrderOk(net', k)
  {
  }

  lemma BroadcastSpread(net: Net, i: Addr, k: Key)
    requires Inv(net) && SpreadInv(net, k) && i < |net.stations|
    ensures SpreadInv(Broadcast(net, i), k)
  {
    if k in net.order && k !in net.forgotten {
      assert StationOk(net, i);
      forall h | h in SprayFrames(net.stations[i].node) && KeyOf(h) == k ensures i in net.order[k] {
        SprayFramesReady(net.stations[i].node, h);
      }
      OrderSame(net, Broadcast(net, i), i, k);
    }
  }

  /** A fresh message: only its origin is READY and nothing of it is in the air. */
  lemma FreshOrder(net: Net, net': Net, i: Addr, k: Key)
    requires Inv(net) && k !in net.submitted && i < |net.stations| && k.esender == i
    requires |net'.stations| == |net.stations|
    requires forall j :: 0 <= j < |net.stations| && j != i ==> net'.stations[j] == net.stations[j]
    requires ReadyFor(net'.stations[i].node, k)
    requires k in net'.order && net'.order[k] == [i]
    requires forall s :: s in net'.sprays ==> s in net.sprays || s.from == i
    requires net'.requests == net.requests && net'.handoffs == net.handoffs
    ensures OrderOk(net', k)
  {
    forall j | 0 <= j < |net.stations| && j != i ensures !ReadyFor(net'.stations[j].node, k) {
      assert StationOk(net, j);
      var n := net.stations[j].node;
      forall m | 0 <= m < |n.q| ensures KeyOf(HdrAt(n, m)) != k {
        assert EntryKnown(net, n, m);
      }
    }
    assert forall s :: s in net.sprays ==> SprayOk(net, s);
    assert forall r :: r in net.requests ==> RequestOk(net, r);
    assert forall h :: h in net.handoffs ==> HandoffOk(net, h);
  }

  /** The frames sprayed right after a submission come from READY entries. */
  lemma SendSprays(net: Net, i: Addr, to: Addr, alloc: Option<nat>, k: Key)
    requires Inv(net) && CanSend(net, i, alloc)
    ensures var n' := Send(net.stations[i].node, to, alloc).n;
            forall s :: s in SendNext(net, i, to, alloc).sprays && KeyOf(s.hdr) == k ==>
              s in net.sprays || (s.from == i && ReadyFor(n', k))
  {
    assert StationOk(net, i);
    var n' := Send(net.stations[i].node, to, alloc).n;
    SendReady(net.stations[i].node, to, alloc, k);
    forall h | h in SprayFrames(n') && KeyOf(h) == k ensures ReadyFor(n', k) {
      SprayFramesReady(n', h);
    }
  }

  lemma SendOthersSpread(net: Net, i: Addr, to: Addr, alloc: Option<nat>, k: Key)
    requires Inv(net) && SpreadInv(net, k) && CanSend(net, i, alloc)
    requires k != Key(i, net.stations[i].node.seqno)
    ensures SpreadInv(SendNext(net, i, to, alloc), k)
  {
    assert StationOk(net, i);
    var net' := SendNext(net, i, to, alloc);
    assert (k in net'.submitted <==> k in net.submitted) && (k in net'.order <==> k in net.order);
    assert net'.completed == net.completed && net'.forgotten == net.forgotten;
    if k in net.order && k !in net.forgotten {
      SendReady(net.stations[i].node, to, alloc, k);
      SendSprays(net, i, to, alloc, k);
      OrderSame(net, net', i, k);
    }
  }

  lemma SendSpread(net: Net, i: Addr, to: Addr, alloc: Option<nat>, k: Key)
    requires Inv(net) && SpreadInv(net, k) && CanSend(net, i, alloc)
    ensures SpreadInv(SendNext(net, i, to, alloc), k)
  {
    assert StationOk(net, i);
    var n := net.stations[i].node;
    if k == Key(i, n.seqno) {
      assert k in net.submitted ==> SubmittedOk(net, k);
      SendReady(n, to, alloc, k);
      SendSprays(net, i, to, alloc, k);
      if to != i && Send(n, to, alloc).ok {
        FreshOrder(net, SendNext(net, i, to, alloc), i, k);
      }
    } else {
      SendOthersSpread(net, i, to, alloc, k);
    }
  }

  /** A node asks only while it is not READY, and the node it asks is. */
  lemma NewRequestOrdered(net: Net, i: Addr, from: Addr, h: Hdr, alloc: Option<nat>, k: Key)
    requires Inv(net) && k in net.order && OrderOk(net, k) && CanSprayRecv(net, i, from, h, alloc)
    ensures var request := SprayRecv(net.stations[i].node, h, alloc).request;
            request.Some? && KeyOf(request.value) == k ==> Rank(net.order[k], from) < Rank(net.order[k], i)
  {
    assert StationOk(net, i);
    var n := net.stations[i].node;
    SprayRecvReady(n, h, alloc, k);
    SprayRecvOutputs(n, h, alloc);
    if ValidHdr(h) {
      assert SprayOk(net, Spray(from, h));
      if h.ereceiver == i {
        DestinationNotReady(net, i, h);
      }
    }
  }

  lemma SprayRecvSpread(net: Net, i: Addr, from: Addr, h: Hdr, alloc: Option<nat>, k: Key)
    requires Inv(net) && SpreadInv(net, k) && CanSprayRecv(net, i, from, h, alloc)
    ensures SpreadInv(SprayRecvNext(net, i, from, h, alloc), k)
  {
    if k in net.order && k !in net.forgotten {
      assert StationOk(net, i);
      SprayRecvReady(net.stations[i].node, h, alloc, k);
      NewRequestOrdered(net, i, from, h, alloc, k);
      OrderSame(net, SprayRecvNext(net, i, from, h, alloc), i, k);
    }
  }

  /** A hand-off goes to a node that asked. */
  lemma NewHandoffKnown(n: NodeState, from: Addr, h: Hdr)
    requires NodeInv(n)
    ensures var out := RequestRecv(n, from, h);
            out.handoff.Some? ==> ValidHdr(h) && KeyOf(out.handoff.value) == KeyOf(h)
  {
  }

  lemma RequestRecvSpread(net: Net, i: Addr, from: Addr, h: Hdr, k: Key)
    requires Inv(net) && SpreadInv(net, k) && CanRequestRecv(net, i, from, h)
    ensures SpreadInv(RequestRecvNext(net, i, from, h), k)
  {
    if k in net.order && k !in net.forgotten {
      assert StationOk(net, i);
      RequestRecvReady(net.stations[i].node, from, h, k);
      NewHandoffKnown(net.stations[i].node, from, h);
      OrderSame(net, RequestRecvNext(net, i, from, h), i, k);
    }
  }

  /** Appending the node that has just become READY keeps every frame in order. */
  lemma AppendOrder(net: Net, net': Net, z: Addr, k: Key)
    requires k in net.order && k !in net.forgotten && OrderOk(net, k) && z !in net.order[k]
    requires z < |net.stations| && |net'.stations| == |net.stations|
    requires k in net'.order && net'.order[k] == net.order[k] + [z]
    requires forall j :: 0 <= j < |net.stations| && j != z ==> net'.stations[j] == net.stations[j]
    requires ReadyFor(net'.stations[z].node, k)
    requires forall s :: s in net'.sprays && KeyOf(s.hdr) == k ==> s in net.sprays || s.from == z
    requires net'.requests == net.requests && net'.handoffs == net.handoffs
    ensures OrderOk(net', k)
  {
    var o := net.order[k];
    assert Distinct(o + [z]);
    forall x: Addr, y: Addr | Rank(o, x) < Rank(o, y) ensures Rank(o + [z], x) < Rank(o + [z], y) {
      RankAppend(o, z, x);
      RankAppend(o, z, y);
    }
  }

  /** The frames a node sprays after processing a hand-off come from READY entries. */
  lemma DeliverSprays(net: Net, to: Addr, h: Hdr, k: Key)
    requires to < |net.stations| && NodeInv(net.stations[to].node)
    requires ValidHdr(h) && h.copies <= DTN_L_COPIES && Find(net.stations[to].node, KeyOf(h)).Some?
    ensures var n' := HandoffRecv(net.stations[to].node, h);
            forall s :: s in Deliver(net, to, h).sprays && KeyOf(s.hdr) == k ==>
              s in net.sprays || (s.from == to && ReadyFor(n', k))
  {
    var n' := HandoffRecv(net.stations[to].node, h);
    HandoffRecvQueue(net.stations[to].node, h, k);
    forall f | f in SprayFrames(n') && KeyOf(f) == k ensures ReadyFor(n', k) {
      SprayFramesReady(n', f);
    }
  }

  /** A listed node that holds an entry is READY: the origin never queues its own message as PENDING. */
  lemma ListedReady(net: Net, i: Addr, k: Key)
    requires Inv(net) && k in net.order && OrderOk(net, k)
    requires i < |net.stations| && i in net.order[k] && Find(net.stations[i].node, k).Some?
    ensures ReadyFor(net.stations[i].node, k)
  {
    assert StationOk(net, i);
    assert EntryOk(net.stations[i].node, Find(net.stations[i].node, k).value);
  }

  lemma DeliverStations(net: Net, to: Addr, h: Hdr)
    requires to < |net.stations| && ValidHdr(h) && Find(net.stations[to].node, KeyOf(h)).Some?
    ensures Deliver(net, to, h).stations
            == net.stations[to := net.stations[to].(node := HandoffRecv(net.stations[to].node, h))]
  {
  }

  lemma DeliverReadySame(net: Net, to: Addr, h: Hdr, k: Key)
    requires Inv(net) && SpreadInv(net, k) && k in net.order && k !in net.forgotten
    requires to < |net.stations| && ValidHdr(h) && h.copies <= DTN_L_COPIES
    requires Find(net.stations[to].node, KeyOf(h)).Some? && (k == KeyOf(h) ==> to in net.order[k])
    ensures ReadyFor(HandoffRecv(net.stations[to].node, h), k) <==> ReadyFor(net.stations[to].node, k)
    ensures ReadyFor(net.stations[to].node, k) ==> to in net.order[k]
  {
    assert StationOk(net, to);
    if k == KeyOf(h) {
      ListedReady(net, to, k);
    }
    ReadyAsBefore(net.stations[to].node, h, k);
  }

  lemma DeliverHistorySame(net: Net, to: Addr, h: Hdr, k: Key)
    requires to < |net.stations| && k in net.order && (k == KeyOf(h) ==> to in net.order[k])
    ensures var net' := Deliver(net, to, h);
            && k in net'.order && net'.order[k] == net.order[k]
            && net'.requests == net.requests && net'.handoffs == net.handoffs
  {
  }

  /** A hand-off that makes no node newly READY for k. */
  lemma DeliverSameOrder(net: Net, to: Addr, h: Hdr, k: Key)
    requires Inv(net) && SpreadInv(net, k) && k in net.order && k !in net.forgotten
    requires to < |net.stations| && ValidHdr(h) && h.copies <= DTN_L_COPIES
    requires Find(net.stations[to].node, KeyOf(h)).Some? && (k == KeyOf(h) ==> to in net.order[k])
    ensures OrderOk(Deliver(net, to, h), k)
  {
    assert StationOk(net, to);
    var net' := Deliver(net, to, h);
    DeliverReadySame(net, to, h, k);
    DeliverSprays(net, to, h, k);
    DeliverStations(net, to, h);
    DeliverHistorySame(net, to, h, k);
    OrderSame(net, net', to, k);
  }

  /** A hand-off that makes its addressee READY. */
  lemma DeliverNewReady(net: Net, to: Addr, h: Hdr)
    requires var k := KeyOf(h);
             Inv(net) && SpreadInv(net, k) && k in net.order && k !in net.forgotten && to !in net.order[k]
    requires to < |net.stations| && ValidHdr(h) && h.copies <= DTN_L_COPIES
    requires Find(net.stations[to].node, KeyOf(h)).Some?
    ensures OrderOk(Deliver(net, to, h), KeyOf(h))
  {
    assert StationOk(net, to);
    HandoffRecvReady(net.stations[to].node, h, KeyOf(h));
    DeliverSprays(net, to, h, KeyOf(h));
    AppendOrder(net, Deliver(net, to, h), to, KeyOf(h));
  }

  lemma DeliverSpread(net: Net, from: Addr, to: Addr, h: Hdr, k: Key)
    requires Inv(net) && SpreadInv(net, k)
    requires to < |net.stations| && Handoff(from, to, h) in net.handoffs
    ensures SpreadInv(Deliver(net, to, h), k)
  {
    assert HandoffOk(net, Handoff(from, to, h));
    if Find(net.stations[to].node, KeyOf(h)).Some? && k in net.order && k !in net.forgotten {
      if k == KeyOf(h) && to !in net.order[k] {
        DeliverNewReady(net, to, h);
      } else {
        DeliverSameOrder(net, to, h, k);
      }
    }
  }

  lemma ReportSpread(net: Net, i: Addr, k: Key)
    requires Inv(net) && SpreadInv(net, k) && i < |net.stations| && net.stations[i].tx.Some?
    ensures net.stations[i].node.handoffQb.Some?
    ensures SpreadInv(SetStation(net, i, Station(HandoffSent(net.stations[i].node), None)), k)
    ensures SpreadInv(TimedOutNext(net, i), k)
  {
    assert StationOk(net, i);
    var n := net.stations[i].node;
    HandoffSentEffect(n, k);
    LockKeepsQueue(n, HandoffTimedOut(n), k);
    if k in net.order && k !in net.forgotten {
      OrderSame(net, SetStation(net, i, Station(HandoffSent(n), None)), i, k);
      OrderSame(net, SetStation(net, i, Station(HandoffTimedOut(n), None)), i, k);
    }
  }

  lemma ExpireSpread(net: Net, i: Addr, j: nat, k: Key)
    requires Inv(net) && SpreadInv(net, k) && CanExpire(net, i, j)
    ensures SpreadInv(ExpireNext(net, i, j), k)
  {
    var n := net.stations[i].node;
    assert StationOk(net, i);
    if k != KeyOf(HdrAt(n, j)) {
      ExpireReady(n, j, k);
    } else {
      ExpireOwn(n, j);
    }
    if k in net.order && k !in ExpireNext(net, i, j).forgotten {
      OrderSame(net, ExpireNext(net, i, j), i, k);
    }
  }

  lemma OverwriteSpread(net: Net, i: Addr, slot: nat, h: Hdr, k: Key)
    requires Inv(net) && SpreadInv(net, k) && CanOverwrite(net, i, slot)
    ensures SpreadInv(OverwriteNext(net, i, slot, h), k)
  {
    assert StationOk(net, i);
    OverwriteEffect(net.stations[i].node, slot, h, k);
    if k in net.order && k !in net.forgotten {
      OrderSame(net, OverwriteNext(net, i, slot, h), i, k);
    }
  }

  lemma MarkDeliveredSpread(net: Net, i: Addr, k: Key)
    requires SpreadInv(net, k) && i < |net.stations| && net.stations[i].tx.Some?
    ensures SpreadInv(MarkDelivered(net, i), k)
  {
    if k in net.order && k !in net.forgotten {
      OrderSame(net, MarkDelivered(net, i), i, k);
    }
  }

  lemma NextSpread(net: Net, e: Event, k: Key)
    requires Inv(net) && SpreadInv(net, k) && Enabled(net, e)
    ensures SpreadInv(Next(net, e), k)
  {
    match e
    case DoSend(i, to, alloc) => SendSpread(net, i, to, alloc, k);
    case DoSpray(i) => BroadcastSpread(net, i, k);
    case DoSprayRecv(i, from, hdr, alloc) => SprayRecvSpread(net, i, from, hdr, alloc, k);
    case DoRequestRecv(i, from, hdr) => RequestRecvSpread(net, i, from, hdr, k);
    case DoHandoffRecv(i) =>
      assert StationOk(net, i);
      MarkDeliveredSpread(net, i, k);
      DeliveredFlagKeeps(net, i);
      DeliverSpread(MarkDelivered(net, i), i, net.stations[i].tx.value.to, net.stations[i].tx.value.hdr, k);
    case DoSent(i) => ReportSpread(net, i, k);
    case DoTimedOut(i) => ReportSpread(net, i, k);
    case DoExpire(i, j) => ExpireSpread(net, i, j, k);
    case DoOverwrite(i, slot, hdr) => OverwriteSpread(net, i, slot, hdr, k);
    case LostAck(i) => ReportSpread(net, i, k);
    case Redelivered(from, to, hdr) => DeliverSpread(net, from, to, hdr, k);
  }

  lemma {:induction false} RunSpread(nets: seq<Net>, events: seq<Event>, t: nat, k: Key)
    requires Run(nets, events) && t < |nets|
    ensures SpreadInv(nets[t], k)
  {
    if t > 0 {
      RunSpread(nets, events, t - 1, k);
      RunInv(nets, events, t - 1);
      NextSpread(nets[t - 1], events[t - 1], k);
    }
  }

  // ----- the origin's own entry

  /** The lifetime of k's entry at its origin runs out. */
  predicate ExpiresOrigin(net: Net, e: Event, k: Key)
    requires Enabled(net, e)
  {
    e.DoExpire? && e.i == k.esender && KeyOf(HdrAt(net.stations[e.i].node, e.j)) == k
  }

  lemma DeliverStays(net: Net, to: Addr, h: Hdr, x: Addr, k: Key)
    requires to < |net.stations| && x < |net.stations| && NodeInv(net.stations[to].node)
    requires ValidHdr(h) ==> h.copies <= DTN_L_COPIES
    requires ReadyFor(net.stations[x].node, k)
    ensures ReadyFor(Deliver(net, to, h).stations[x].node, k)
  {
    if ValidHdr(h) && Find(net.stations[to].node, KeyOf(h)).Some? && x == to {
      HandoffRecvReady(net.stations[to].node, h, k);
    }
  }

  lemma ReportStays(n: NodeState, k: Key)
    requires NodeInv(n) && n.handoffQb.Some?
    ensures ReadyFor(HandoffSent(n), k) <==> ReadyFor(n, k)
    ensures ReadyFor(HandoffTimedOut(n), k) <==> ReadyFor(n, k)
  {
    HandoffSentEffect(n, k);
    LockKeepsQueue(n, HandoffTimedOut(n), k);
  }

  lemma HandoffStays(net: Net, i: Addr, k: Key)
    requires Inv(net) && CanHandoffRecv(net, i)
    requires k.esender < |net.stations| && ReadyFor(net.stations[k.esender].node, k)
    ensures ReadyFor(HandoffRecvNext(net, i).stations[k.esender].node, k)
  {
    assert StationOk(net, i);
    var t := net.stations[i].tx.value;
    assert HandoffOk(net, Handoff(i, t.to, t.hdr)) && StationOk(net, t.to);
    DeliverStays(MarkDelivered(net, i), t.to, t.hdr, k.esender, k);
  }

  lemma RedeliveredStays(net: Net, from: Addr, to: Addr, h: Hdr, k: Key)
    requires Inv(net) && CanRedeliver(net, from, to, h)
    requires k.esender < |net.stations| && ReadyFor(net.stations[k.esender].node, k)
    ensures ReadyFor(RedeliveredNext(net, from, to, h).stations[k.esender].node, k)
  {
    assert HandoffOk(net, Handoff(from, to, h)) && StationOk(net, to);
    DeliverStays(net, to, h, k.esender, k);
  }

  lemma SendStays(net: Net, i: Addr, to: Addr, alloc: Option<nat>, k: Key)
    requires Inv(net) && CanSend(net, i, alloc)
    requires k.esender < |net.stations| && ReadyFor(net.stations[k.esender].node, k)
    ensures ReadyFor(SendNext(net, i, to, alloc).stations[k.esender].node, k)
  {
    assert StationOk(net, i);
    SendReady(net.stations[i].node, to, alloc, k);
    SendStations(net, i, to, alloc);
  }

  lemma FramesStay(net: Net, e: Event, k: Key)
    requires Inv(net) && Enabled(net, e) && (e.DoSend? || e.DoSprayRecv? || e.DoRequestRecv?)
    requires k.esender < |net.stations| && ReadyFor(net.stations[k.esender].node, k)
    ensures ReadyFor(Next(net, e).stations[k.esender].node, k)
  {
    assert StationOk(net, e.i);
    match e
    case DoSend(i, to, alloc) => SendStays(net, i, to, alloc, k);
    case DoSprayRecv(i, from, hdr, alloc) => SprayRecvReady(net.stations[i].node, hdr, alloc, k);
    case DoRequestRecv(i, from, hdr) => RequestRecvReady(net.stations[i].node, from, hdr, k);
  }

  lemma ReportsStay(net: Net, e: Event, k: Key)
    requires Inv(net) && Enabled(net, e) && (e.DoSent? || e.DoTimedOut? || e.LostAck?)
    requires k.esender < |net.stations| && ReadyFor(net.stations[k.esender].node, k)
    ensures ReadyFor(Next(net, e).stations[k.esender].node, k)
  {
    assert StationOk(net, e.i);
    ReportStays(net.stations[e.i].node, k);
  }

  /** A READY entry stays READY until it expires, whatever else happens, faults included. */
  lemma ReadyStays(net: Net, e: Event, k: Key)
    requires Inv(net) && Enabled(net, e) && !ExpiresOrigin(net, e, k)
    requires k.esender < |net.stations| && ReadyFor(net.stations[k.esender].node, k)
    ensures ReadyFor(Next(net, e).stations[k.esender].node, k)
  {
    match e
    case DoSpray(_) =>
    case DoHandoffRecv(i) => HandoffStays(net, i, k);
    case Redelivered(from, to, hdr) => RedeliveredStays(net, from, to, hdr, k);
    case DoExpire(i, j) =>
      assert StationOk(net, i);
      if i == k.esender {
        ExpireReady(net.stations[i].node, j, k);
      }
    case DoOverwrite(i, slot, hdr) =>
      assert StationOk(net, i);
      OverwriteEffect(net.stations[i].node, slot, hdr, k);
    case _ =>
      if e.DoSend? || e.DoSprayRecv? || e.DoRequestRecv? {
        FramesStay(net, e, k);
      } else {
        ReportsStay(net, e, k);
      }
  }

  /** Only an accepted submission brings a message into the order, and it makes its origin READY. */
  lemma EntersReady(net: Net, e: Event, k: Key)
    requires Inv(net) && Enabled(net, e) && k !in net.order && k in Next(net, e).order
    ensures k.esender < |net.stations| && ReadyFor(Next(net, e).stations[k.esender].node, k)
  {
    assert e.DoSend?;
    assert StationOk(net, e.i);
    SendReady(net.stations[e.i].node, e.to, e.alloc, k);
  }

  /** No entry of k at its origin expired in the first t steps. */
  ghost predicate OriginKept(nets: seq<Net>, events: seq<Event>, t: nat, k: Key)
    requires Run(nets, events) && t < |nets|
  {
    forall u :: 0 <= u < t ==> !ExpiresOrigin(nets[u], events[u], k)
  }

  /** The origin of an accepted message is READY for it. */
  ghost predicate OriginInv(net: Net, k: Key) {
    k in net.order ==> k.esender < |net.stations| && ReadyFor(net.stations[k.esender].node, k)
  }

  lemma OriginStep(net: Net, e: Event, k: Key)
    requires Inv(net) && Enabled(net, e) && !ExpiresOrigin(net, e, k) && OriginInv(net, k)
    ensures OriginInv(Next(net, e), k)
  {
    if k in net.order {
      ReadyStays(net, e, k);
    } else if k in Next(net, e).order {
      EntersReady(net, e, k);
    }
  }

  lemma {:induction false} OriginReady(nets: seq<Net>, events: seq<Event>, t: nat, k: Key)
    requires Run(nets, events) && t < |nets| && OriginKept(nets, events, t, k)
    ensures OriginInv(nets[t], k)
  {
    if t > 0 {
      RunInv(nets, events, t - 1);
      OriginReady(nets, events, t - 1, k);
      OriginStep(nets[t - 1], events[t - 1], k);
    }
  }

  /** Main result: no copy is lost before delivery.  In every state of every run, channel faults
      included: a READY entry without copies means the destination's recv callback has run for
      that message; and as long as the origin's own entry of an accepted message has not expired,
      whatever expires elsewhere, it is READY and holds a copy until the destination has the
      message. */
  lemma NoCopyLost(nets: seq<Net>, events: seq<Event>, t: nat, k: Key, i: Addr)
    requires Run(nets, events) && t < |nets| && i < |nets[t].stations|
    ensures ReadyFor(nets[t].stations[i].node, k) && Count(nets[t].stations[i].node, k) == 0 ==>
              k in nets[t].submitted && Received(nets[t].submitted[k], k) in nets[t].received
    ensures k in nets[t].order && OriginKept(nets, events, t, k) ==>
              && k in nets[t].submitted
              && k.esender < |nets[t].stations| && ReadyFor(nets[t].stations[k.esender].node, k)
              && (Count(nets[t].stations[k.esender].node, k) > 0
                  || Received(nets[t].submitted[k], k) in nets[t].received)
  {
    var net := nets[t];
    RunInv(nets, events, t);
    RunSpread(nets, events, t, k);
    EmptyMeansReceived(net, i, k);
    if k in net.order && OriginKept(nets, events, t, k) {
      OriginReady(nets, events, t, k);
      EmptyMeansReceived(net, k.esender, k);
    }
  }

  lemma EmptyMeansReceived(net: Net, i: Addr, k: Key)
    requires Inv(net) && i < |net.stations|
    ensures ReadyFor(net.stations[i].node, k) && Count(net.stations[i].node, k) == 0 ==>
              k in net.submitted && Received(net.submitted[k], k) in net.received
  {
    var n := net.stations[i].node;
    assert StationOk(net, i);
    if ReadyFor(n, k) {
      assert EntryKnown(net, n, Find(n, k).value);
    }
  }
}
