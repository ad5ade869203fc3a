/** The invariant of the network and the proof that every event keeps it: the structure of every
    queue, the hand-off under way at every node, and where frames and callbacks come from.  It
    holds in every run, channel faults and expiry included. */
module DtnSafety {
  import opened Common
  import opened DtnNode
  import opened DtnPotential
  import opened DtnCallbacks
  import opened DtnNetwork

  /** The header belongs to a message its origin submitted, for that destination, another node. */
  ghost predicate Known(net: Net, h: Hdr) {
    && ValidHdr(h) && h.ereceiver != h.esender
    && KeyOf(h) in net.submitted && net.submitted[KeyOf(h)] == h.ereceiver
  }

  ghost predicate Delivered(net: Net, h: Hdr) {
    Received(h.ereceiver, KeyOf(h)) in net.received
  }

  /** A READY entry runs out of copies only once the destination has the message. */
  ghost predicate EntryKnown(net: Net, n: Node, j: nat)
    requires j < |n.q|
  {
    && Known(net, HdrAt(n, j))
    && (n.q[j].status == Ready && HdrAt(n, j).copies == 0 ==> Delivered(net, HdrAt(n, j)))
  }

  ghost predicate NodeOk(net: Net, n: Node, i: Addr) {
    && NodeInv(n) && n.addr == i
    && (forall j :: 0 <= j < |n.q| ==> EntryKnown(net, n, j))
  }

  ghost predicate TxOk(net: Net, i: Addr, tx: Option<Tx>) {
    tx.Some? ==> Handoff(i, tx.value.to, tx.value.hdr) in net.handoffs
  }

  ghost predicate StationOk(net: Net, i: Addr)
    requires i < |net.stations|
  {
    var s := net.stations[i];
    NodeOk(net, s.node, i) && LockOk(s.node, s.tx) && TxOk(net, i, s.tx)
  }

  ghost predicate SprayOk(net: Net, s: Spray) {
    s.from < |net.stations| && Known(net, s.hdr)
  }

  ghost predicate RequestOk(net: Net, r: Request) {
    && r.from < |net.stations| && r.from != r.to && Known(net, r.hdr)
    && (r.from == r.hdr.ereceiver ==> Delivered(net, r.hdr))
  }

  ghost predicate HandoffOk(net: Net, h: Handoff) {
    && h.from < |net.stations| && h.to < |net.stations| && h.from != h.to
    && Known(net, h.hdr) && 1 <= h.hdr.copies <= DTN_MAX_HANDOFF
  }

  ghost predicate SubmittedOk(net: Net, k: Key) {
    k.esender < |net.stations| && k.epacketid < net.stations[k.esender].node.seqno
  }

  /** recv callbacks fire at the destination, for messages that were submitted. */
  ghost predicate ReceivedOk(net: Net, r: Received) {
    r.key in net.submitted && net.submitted[r.key] == r.at
  }

  ghost predicate FramesOk(net: Net) {
    && (forall s :: s in net.sprays ==> SprayOk(net, s))
    && (forall r :: r in net.requests ==> RequestOk(net, r))
    && (forall h :: h in net.handoffs ==> HandoffOk(net, h))
  }

  ghost predicate HistoryOk(net: Net) {
    && (forall k :: k in net.submitted ==> SubmittedOk(net, k))
    && (forall r :: r in net.received ==> ReceivedOk(net, r))
  }

  ghost predicate Inv(net: Net) {
    && (forall i :: 0 <= i < |net.stations| ==> StationOk(net, i))
    && FramesOk(net) && HistoryOk(net)
  }

  // ----- what only grows

  ghost predicate Grows(net: Net, net': Net) {
    && |net'.stations| == |net.stations|
    && (forall k :: k in net.submitted ==> k in net'.submitted && net'.submitted[k] == net.submitted[k])
    && net.received <= net'.received && net.handoffs <= net'.handoffs
    && (forall i :: 0 <= i < |net.stations| ==>
          net.stations[i].node.seqno <= net'.stations[i].node.seqno)
  }

  lemma NodeOkGrows(net: Net, net': Net, n: Node, i: Addr)
    requires Grows(net, net') && NodeOk(net, n, i)
    ensures NodeOk(net', n, i)
  {
    forall j | 0 <= j < |n.q| ensures EntryKnown(net', n, j) {
      assert EntryKnown(net, n, j);
    }
  }

  /** Everything a step leaves in place stays in order while the history grows. */
  lemma OldFactsGrow(net: Net, net': Net)
    requires Inv(net) && Grows(net, net')
    ensures forall i :: 0 <= i < |net.stations| && net'.stations[i] == net.stations[i] ==> StationOk(net', i)
    ensures forall s :: s in net.sprays ==> SprayOk(net', s)
    ensures forall r :: r in net.requests ==> RequestOk(net', r)
    ensures forall h :: h in net.handoffs ==> HandoffOk(net', h)
    ensures forall k :: k in net.submitted ==> SubmittedOk(net', k)
    ensures forall r :: r in net.received ==> ReceivedOk(net', r)
  {
    forall i | 0 <= i < |net.stations| && net'.stations[i] == net.stations[i] ensures StationOk(net', i) {
      assert StationOk(net, i);
      NodeOkGrows(net, net', net.stations[i].node, i);
    }
  }

  lemma SprayFramesKnown(net: Net, i: Addr)
    requires i < |net.stations| && NodeOk(net, net.stations[i].node, i)
    ensures forall h :: h in SprayFrames(net.stations[i].node) ==> SprayOk(net, Spray(i, h))
  {
    var n := net.stations[i].node;
    forall h | h in SprayFrames(n) ensures SprayOk(net, Spray(i, h)) {
      var j :| 0 <= j < |n.q| && n.q[j].status == Ready && HdrAt(n, j) == h && h.copies != 0;
      assert EntryKnown(net, n, j);
    }
  }

  lemma BroadcastKeeps(net: Net, i: Addr)
    requires Inv(net) && i < |net.stations|
    ensures Inv(Broadcast(net, i))
  {
    var net' := Broadcast(net, i);
    assert StationOk(net, i);
    SprayFramesKnown(net, i);
    OldFactsGrow(net, net');
    assert forall s :: s in net'.sprays ==> SprayOk(net', s);
  }

  /** A step that replaces one station by a station that is in order keeps the invariant. */
  lemma SetStationKeeps(net: Net, net': Net, i: Addr)
    requires Inv(net) && Grows(net, net') && i < |net.stations|
    requires forall j :: 0 <= j < |net.stations| && j != i ==> net'.stations[j] == net.stations[j]
    requires StationOk(net', i)
    requires net'.sprays == net.sprays
    requires forall r :: r in net'.requests ==> r in net.requests || RequestOk(net', r)
    requires forall h :: h in net'.handoffs ==> h in net.handoffs || HandoffOk(net', h)
    requires forall k :: k in net'.submitted ==> k in net.submitted || SubmittedOk(net', k)
    requires forall r :: r in net'.received ==> r in net.received || ReceivedOk(net', r)
    ensures Inv(net')
  {
    OldFactsGrow(net, net');
  }

  /** The common case: only station i changes, and the history stays. */
  lemma ReplaceStation(net: Net, i: Addr, s: Station)
    requires Inv(net) && i < |net.stations|
    requires NodeOk(net, s.node, i) && LockOk(s.node, s.tx) && TxOk(net, i, s.tx)
    requires s.node.seqno == net.stations[i].node.seqno
    ensures Inv(SetStation(net, i, s))
  {
    var net' := SetStation(net, i, s);
    NodeOkGrows(net, net', s.node, i);
    SetStationKeeps(net, net', i);
  }

  // ----- one lemma per event

  lemma SendNodeOk(net: Net, net': Net, i: Addr, to: Addr, alloc: Option<nat>)
    requires CanSend(net, i, alloc)
    requires NodeOk(net, net.stations[i].node, i) && Grows(net, net')
    requires var n := net.stations[i].node;
             Key(i, n.seqno) in net'.submitted && net'.submitted[Key(i, n.seqno)] == to
    ensures NodeOk(net', Send(net.stations[i].node, to, alloc).n, i)
  {
    var n := net.stations[i].node;
    var n' := Send(n, to, alloc).n;
    SendEffect(n, to, alloc, Key(i, n.seqno));
    NodeOkGrows(net, net', n, i);
    forall j | 0 <= j < |n'.q| ensures EntryKnown(net', n', j) {
      if j < |n.q| {
        assert EntryKnown(net', n, j) && HdrAt(n', j) == HdrAt(n, j) && n'.q[j] == n.q[j];
      } else {
        assert HdrAt(n', j) == NewHdr(n, to);
      }
    }
  }

  /** Before anything is sprayed. */
  lemma SubmitKeeps(net: Net, net': Net, i: Addr, to: Addr, alloc: Option<nat>)
    requires Inv(net) && CanSend(net, i, alloc)
    requires var k := Key(i, net.stations[i].node.seqno);
             var mid := SetNode(net, i, Send(net.stations[i].node, to, alloc).n)
                        .(submitted := net.submitted[k := to]);
             net' == mid || (to == i && net' == mid.(received := net.received + {Received(i, k)}))
    ensures Inv(net')
  {
    assert StationOk(net, i);
    var k := Key(i, net.stations[i].node.seqno);
    SendEffect(net.stations[i].node, to, alloc, k);
    assert k in net.submitted ==> SubmittedOk(net, k);
    SendNodeOk(net, net', i, to, alloc);
    SetStationKeeps(net, net', i);
  }

  lemma SendKeeps(net: Net, i: Addr, to: Addr, alloc: Option<nat>)
    requires Inv(net) && CanSend(net, i, alloc)
    ensures Inv(SendNext(net, i, to, alloc))
  {
    assert StationOk(net, i);
    var k := Key(i, net.stations[i].node.seqno);
    var mid := SetNode(net, i, Send(net.stations[i].node, to, alloc).n).(submitted := net.submitted[k := to]);
    if to == i {
      SubmitKeeps(net, SendNext(net, i, to, alloc), i, to, alloc);
    } else {
      SubmitKeeps(net, mid, i, to, alloc);
      BroadcastKeeps(mid, i);
      InvIgnoresHistory(Broadcast(mid, i), SendNext(net, i, to, alloc));
    }
  }

  /** Nothing above depends on the readiness order, the counters or the fault log. */
  lemma InvIgnoresHistory(net: Net, net': Net)
    requires Inv(net)
    requires net' == net.(order := net'.order, completed := net'.completed,
                          forgotten := net'.forgotten, faults := net'.faults)
          || (net'.sprays <= net.sprays &&
              net' == net.(order := net'.order, completed := net'.completed, sprays := net'.sprays,
                           forgotten := net'.forgotten, faults := net'.faults))
    ensures Inv(net')
  {
    OldFactsGrow(net, net');
  }

  lemma SprayRecvNodeOk(net: Net, n: Node, i: Addr, h: Hdr, alloc: Option<nat>)
    requires NodeOk(net, n, i) && (ValidHdr(h) ==> Known(net, h))
    requires alloc.Some? ==> FreeSlot(n, alloc.value)
    ensures NodeOk(net, SprayRecv(n, h, alloc).n, i)
  {
    var n' := SprayRecv(n, h, alloc).n;
    SprayRecvKeepsNode(n, h, alloc);
    forall j | 0 <= j < |n'.q| ensures EntryKnown(net, n', j) {
      if j < |n.q| {
        assert EntryKnown(net, n, j) && HdrAt(n', j) == HdrAt(n, j) && n'.q[j] == n.q[j];
      } else {
        assert HdrAt(n', j) == h.(copies := 0);
      }
    }
  }

  lemma SprayRecvKeepsNode(n: Node, h: Hdr, alloc: Option<nat>)
    requires NodeInv(n)
    requires alloc.Some? ==> FreeSlot(n, alloc.value)
    ensures NodeInv(SprayRecv(n, h, alloc).n)
  {
    if SprayRecv(n, h, alloc).n != n {
      EnqueueKeeps(n, h.(copies := 0), Pending, alloc.value);
    }
  }

  /** The request a spray triggers, and the callback that goes with it at the destination. */
  lemma SprayRecvOutputs(n: Node, h: Hdr, alloc: Option<nat>)
    requires alloc.Some? ==> FreeSlot(n, alloc.value)
    ensures var out := SprayRecv(n, h, alloc);
            && (out.recv.Some? ==> ValidHdr(h) && out.recv.value == KeyOf(h) && h.ereceiver == n.addr)
            && (out.request.Some? ==>
                  && ValidHdr(h)
                  && (out.request.value == h || out.request.value == h.(copies := 0))
                  && (h.ereceiver == n.addr ==> out.recv == Some(KeyOf(h))))
  {
  }

  lemma SprayRecvKeeps(net: Net, i: Addr, from: Addr, h: Hdr, alloc: Option<nat>)
    requires Inv(net) && CanSprayRecv(net, i, from, h, alloc)
    ensures Inv(SprayRecvNext(net, i, from, h, alloc))
  {
    assert StationOk(net, i);
    var n := net.stations[i].node;
    var net' := SprayRecvNext(net, i, from, h, alloc);
    if ValidHdr(h) {
      assert SprayOk(net, Spray(from, h));
    }
    SprayRecvNodeOk(net, n, i, h, alloc);
    SprayRecvOutputs(n, h, alloc);
    SprayRecvEffect(n, h, alloc, net.stations[i].tx, KeyOf(h));
    NodeOkGrows(net, net', SprayRecv(n, h, alloc).n, i);
    SetStationKeeps(net, net', i);
  }

  lemma RequestRecvKeepsNode(n: Node, from: Addr, h: Hdr)
    requires NodeInv(n)
    ensures NodeInv(RequestRecv(n, from, h).n)
  {
    var out := RequestRecv(n, from, h);
    if out.handoff.Some? {
      LockKeepsQueue(n, out.n, KeyOf(h));
    } else if out.n != n {
      SetCopiesKeeps(n, Find(n, KeyOf(h)).value, 0);
    }
  }

  lemma RequestRecvNodeOk(net: Net, n: Node, i: Addr, from: Addr, h: Hdr)
    requires NodeOk(net, n, i)
    requires ValidHdr(h) ==> RequestOk(net, Request(from, i, h))
    ensures NodeOk(net, RequestRecv(n, from, h).n, i)
  {
    var n' := RequestRecv(n, from, h).n;
    RequestRecvKeepsNode(n, from, h);
    var f := Find(n, KeyOf(h));
    forall j | 0 <= j < |n'.q| ensures EntryKnown(net, n', j) {
      assert EntryKnown(net, n, j) && n'.q[j] == n.q[j];
      assert HdrAt(n', j) == HdrAt(n, j) || (f == Some(j) && HdrAt(n, j).ereceiver == from
                                             && HdrAt(n', j) == HdrAt(n, j).(copies := 0));
    }
  }

  lemma RequestRecvKeeps(net: Net, i: Addr, from: Addr, h: Hdr)
    requires Inv(net) && CanRequestRecv(net, i, from, h)
    ensures Inv(RequestRecvNext(net, i, from, h))
  {
    assert StationOk(net, i);
    var n := net.stations[i].node;
    var out := RequestRecv(n, from, h);
    var net' := RequestRecvNext(net, i, from, h);
    RequestRecvEffect(n, from, h, net.stations[i].tx, KeyOf(h));
    if ValidHdr(h) {
      assert RequestOk(net, Request(from, i, h));
    }
    RequestRecvNodeOk(net, n, i, from, h);
    NodeOkGrows(net, net', out.n, i);
    if out.handoff.Some? {
      var f := Find(n, KeyOf(h)).value;
      assert EntryOk(n, f) && EntryKnown(net, n, f);
    }
    SetStationKeeps(net, net', i);
  }

  lemma HandoffRecvNodeOk(net: Net, n: Node, i: Addr, h: Hdr)
    requires NodeOk(net, n, i) && ValidHdr(h) && 1 <= h.copies <= DTN_L_COPIES
    ensures NodeOk(net, HandoffRecv(n, h), i)
  {
    var n' := HandoffRecv(n, h);
    HandoffRecvQueue(n, h, KeyOf(h));
    var f := Find(n, KeyOf(h));
    forall j | 0 <= j < |n'.q| ensures EntryKnown(net, n', j) {
      assert EntryOk(n, j) && EntryKnown(net, n, j);
      assert f != Some(j) ==> HdrAt(n', j) == HdrAt(n, j) && n'.q[j] == n.q[j];
    }
  }

  lemma HandoffRecvStation(net: Net, to: Addr, h: Hdr)
    requires Inv(net) && to < |net.stations| && ValidHdr(h) && 1 <= h.copies <= DTN_L_COPIES
    ensures Inv(SetNode(net, to, HandoffRecv(net.stations[to].node, h)))
  {
    assert StationOk(net, to);
    var s := net.stations[to];
    HandoffRecvNodeOk(net, s.node, to, h);
    HandoffRecvEffect(s.node, h, s.tx, KeyOf(h));
    ReplaceStation(net, to, s.(node := HandoffRecv(s.node, h)));
  }

  lemma DeliverKeeps(net: Net, from: Addr, to: Addr, h: Hdr)
    requires Inv(net) && to < |net.stations| && Handoff(from, to, h) in net.handoffs
    ensures Inv(Deliver(net, to, h))
  {
    assert HandoffOk(net, Handoff(from, to, h));
    if Find(net.stations[to].node, KeyOf(h)).Some? {
      var mid := SetNode(net, to, HandoffRecv(net.stations[to].node, h));
      HandoffRecvStation(net, to, h);
      BroadcastKeeps(mid, to);
      InvIgnoresHistory(Broadcast(mid, to), Deliver(net, to, h));
    }
  }

  lemma ReportKeeps(net: Net, i: Addr)
    requires Inv(net) && i < |net.stations| && net.stations[i].tx.Some?
    ensures net.stations[i].node.handoffQb.Some?
    ensures Inv(SetStation(net, i, Station(HandoffSent(net.stations[i].node), None)))
    ensures Inv(TimedOutNext(net, i))
  {
    assert StationOk(net, i);
    var n := net.stations[i].node;
    var sent, timedOut := HandoffSent(n), HandoffTimedOut(n);
    HandoffSentEffect(n, KeyOf(n.handoffHdr));
    LockKeepsQueue(n, timedOut, KeyOf(n.handoffHdr));
    forall j | 0 <= j < |n.q| ensures EntryKnown(net, sent, j) && EntryKnown(net, timedOut, j) {
      assert EntryKnown(net, n, j) && HdrAt(timedOut, j) == HdrAt(n, j);
      assert HdrAt(sent, j) == HdrAt(n, j)
          || HdrAt(sent, j) == HdrAt(n, j).(copies := HdrAt(n, j).copies - HdrAt(n, j).copies / 2);
    }
    ReplaceStation(net, i, Station(sent, None));
    ReplaceStation(net, i, Station(timedOut, None));
  }

  lemma ExpireKeeps(net: Net, i: Addr, j: nat)
    requires Inv(net) && CanExpire(net, i, j)
    ensures Inv(ExpireNext(net, i, j))
  {
    assert StationOk(net, i);
    var n := net.stations[i].node;
    var n' := Expire(n, j);
    ExpireShape(n, j);
    ExpirePotential(n, j, net.stations[i].tx, KeyOf(HdrAt(n, j)));
    forall m | 0 <= m < |n'.q| ensures EntryKnown(net, n', m) {
      assert EntryKnown(net, n, if m < j then m else m + 1);
    }
    ReplaceStation(net, i, net.stations[i].(node := n'));
    InvIgnoresHistory(SetNode(net, i, n'), ExpireNext(net, i, j));
  }

  lemma OverwriteKeepsNet(net: Net, i: Addr, slot: nat, h: Hdr)
    requires Inv(net) && CanOverwrite(net, i, slot)
    ensures Inv(OverwriteNext(net, i, slot, h))
  {
    assert StationOk(net, i);
    var n := net.stations[i].node;
    var n' := Overwrite(n, slot, h);
    OverwriteKeeps(n, slot, h);
    forall j | 0 <= j < |n'.q| ensures EntryKnown(net, n', j) {
      assert EntryKnown(net, n, j) && HdrAt(n', j) == HdrAt(n, j);
    }
    ReplaceStation(net, i, net.stations[i].(node := n'));
  }

  lemma DeliveredFlagKeeps(net: Net, i: Addr)
    requires Inv(net) && i < |net.stations| && net.stations[i].tx.Some?
    ensures Inv(MarkDelivered(net, i))
  {
    assert StationOk(net, i);
    ReplaceStation(net, i, net.stations[i].(tx := Some(net.stations[i].tx.value.(delivered := true))));
  }

  /** Every event keeps the invariant. */
  lemma NextKeeps(net: Net, e: Event)
    requires Inv(net) && Enabled(net, e)
    ensures Inv(Next(net, e))
  {
    match e
    case DoSend(i, to, alloc) => SendKeeps(net, i, to, alloc);
    case DoSpray(i) => BroadcastKeeps(net, i);
    case DoSprayRecv(i, from, hdr, alloc) => SprayRecvKeeps(net, i, from, hdr, alloc);
    case DoRequestRecv(i, from, hdr) => RequestRecvKeeps(net, i, from, hdr);
    case DoHandoffRecv(i) =>
      var t := net.stations[i].tx.value;
      assert StationOk(net, i);
      DeliveredFlagKeeps(net, i);
      DeliverKeeps(MarkDelivered(net, i), i, t.to, t.hdr);
    case DoSent(i) => ReportKeeps(net, i);
    case DoTimedOut(i) => ReportKeeps(net, i);
    case DoExpire(i, j) => ExpireKeeps(net, i, j);
    case DoOverwrite(i, slot, hdr) => OverwriteKeepsNet(net, i, slot, hdr);
    case LostAck(i) =>
      ReportKeeps(net, i);
      InvIgnoresHistory(Next(net, e).(faults := net.faults), Next(net, e));
    case Redelivered(from, to, hdr) =>
      DeliverKeeps(net, from, to, hdr);
      InvIgnoresHistory(Deliver(net, to, hdr), Next(net, e));
  }

  lemma InitInv(net: Net)
    requires Init(net)
    ensures Inv(net)
  {
  }

  /** Every state of every run satisfies the invariant. */
  lemma {:induction false} RunInv(nets: seq<Net>, events: seq<Event>, t: nat)
    requires Run(nets, events) && t < |nets|
    ensures Inv(nets[t])
  {
    if t == 0 {
      InitInv(nets[0]);
    } else {
      RunInv(nets, events, t - 1);
      NextKeeps(nets[t - 1], events[t - 1]);
    }
  }
}
