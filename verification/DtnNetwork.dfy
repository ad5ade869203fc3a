/** The whole network as a state machine.  Broadcast sprays and unicast requests may be lost,
    reordered and repeated at will: every frame ever sent stays deliverable.  A hand-off is a
    reliable unicast whose outcome is reported to its sender. */
module DtnNetwork {
  import opened Common
  import opened DtnNode
  import opened DtnPotential

  datatype Station = Station(node: Node, tx: Option<Tx>)

  datatype Spray = Spray(from: Addr, hdr: Hdr)
  datatype Request = Request(from: Addr, to: Addr, hdr: Hdr)
  datatype Handoff = Handoff(from: Addr, to: Addr, hdr: Hdr)
  datatype Received = Received(at: Addr, key: Key)

  /** The stations, the frames ever sent, and the history the properties speak about:
      submitted (every dtn_send and its destination), received (every recv callback), order
      (the nodes that became READY for a message, in that order), completed (hand-offs
      processed), forgotten (messages a READY entry of which expired elsewhere than at their
      origin) and faults (broken promises of the hand-off channel, by message). */
  datatype Net = Net(stations: seq<Station>, sprays: set<Spray>, requests: set<Request>,
                     handoffs: set<Handoff>, submitted: map<Key, Addr>, received: set<Received>,
                     order: map<Key, seq<Addr>>, completed: multiset<Key>, forgotten: set<Key>,
                     faults: multiset<Key>)

  datatype Event =
    | DoSend(i: Addr, to: Addr, alloc: Option<nat>)
    | DoSpray(i: Addr)                                         // the periodic spray timer
    | DoSprayRecv(i: Addr, from: Addr, hdr: Hdr, alloc: Option<nat>)
    | DoRequestRecv(i: Addr, from: Addr, hdr: Hdr)
    | DoHandoffRecv(i: Addr)                                   // i's hand-off reaches its addressee
    | DoSent(i: Addr)                                          // ... is reported acknowledged
    | DoTimedOut(i: Addr)                                      // ... is reported undelivered
    | DoExpire(i: Addr, j: nat)
    | DoOverwrite(i: Addr, slot: nat, hdr: Hdr)
    | LostAck(i: Addr)                                         // fault: delivered, reported undelivered
    | Redelivered(from: Addr, to: Addr, hdr: Hdr)              // fault: a copy arrives again, or late

  predicate AllocOk(net: Net, i: Addr, alloc: Option<nat>)
    requires i < |net.stations|
  {
    alloc.Some? ==> FreeSlot(net.stations[i].node, alloc.value)
  }

  // ----- when an event can happen

  predicate CanSend(net: Net, i: Addr, alloc: Option<nat>) {
    i < |net.stations| && AllocOk(net, i, alloc)
  }

  /** A radio does not hear itself; frames with a foreign header can arrive at any time. */
  predicate CanSprayRecv(net: Net, i: Addr, from: Addr, h: Hdr, alloc: Option<nat>) {
    && i < |net.stations| && from != i && AllocOk(net, i, alloc)
    && (Spray(from, h) in net.sprays || !ValidHdr(h))
  }

  predicate CanRequestRecv(net: Net, i: Addr, from: Addr, h: Hdr) {
    i < |net.stations| && (Request(from, i, h) in net.requests || !ValidHdr(h))
  }

  /** Node i has a hand-off in progress that its addressee has, or has not, processed. */
  predicate InProgress(net: Net, i: Addr, delivered: bool) {
    i < |net.stations| && net.stations[i].tx.Some? && net.stations[i].tx.value.delivered == delivered
  }

  predicate CanHandoffRecv(net: Net, i: Addr) {
    InProgress(net, i, false) && net.stations[i].tx.value.to < |net.stations|
  }

  /** The acknowledgement reads through the lock. */
  predicate CanReportSent(net: Net, i: Addr) {
    InProgress(net, i, true) && net.stations[i].node.handoffQb.Some?
  }

  predicate CanExpire(net: Net, i: Addr, j: nat) {
    i < |net.stations| && j < |net.stations[i].node.q|
  }

  predicate CanOverwrite(net: Net, i: Addr, slot: nat) {
    i < |net.stations| && FreeSlot(net.stations[i].node, slot)
  }

  predicate CanRedeliver(net: Net, from: Addr, to: Addr, h: Hdr) {
    to < |net.stations| && Handoff(from, to, h) in net.handoffs
  }

  predicate Enabled(net: Net, e: Event) {
    match e
    case DoSend(i, to, alloc) => CanSend(net, i, alloc)
    case DoSpray(i) => i < |net.stations|
    case DoSprayRecv(i, from, hdr, alloc) => CanSprayRecv(net, i, from, hdr, alloc)
    case DoRequestRecv(i, from, hdr) => CanRequestRecv(net, i, from, hdr)
    case DoHandoffRecv(i) => CanHandoffRecv(net, i)
    case DoSent(i) => CanReportSent(net, i)
    case DoTimedOut(i) => InProgress(net, i, false)
    case DoExpire(i, j) => CanExpire(net, i, j)
    case DoOverwrite(i, slot, hdr) => CanOverwrite(net, i, slot)
    case LostAck(i) => InProgress(net, i, true)
    case Redelivered(from, to, hdr) => CanRedeliver(net, from, to, hdr)
  }

  // ----- what it does

  /** Neither the submissions nor the faults change. */
  predicate SameBooks(net: Net, r: Net) {
    r.submitted == net.submitted && r.faults == net.faults
  }

  /** No node becomes READY and no hand-off completes. */
  predicate SameSpread(net: Net, r: Net) {
    r.order == net.order && r.completed == net.completed && net.forgotten <= r.forgotten
  }

  /** No hand-off begins, ends or is delivered. */
  ghost predicate SameTx(net: Net, r: Net) {
    |r.stations| == |net.stations|
    && forall i :: 0 <= i < |net.stations| ==> r.stations[i].tx == net.stations[i].tx
  }

  function SetStation(net: Net, i: Addr, s: Station): (r: Net)
    requires i < |net.stations|
    ensures |r.stations| == |net.stations|
    ensures SameSpread(net, r)
    ensures SameBooks(net, r)
  {
    net.(stations := net.stations[i := s])
  }

  function SetNode(net: Net, i: Addr, n: Node): (r: Net)
    requires i < |net.stations|
    ensures |r.stations| == |net.stations|
    ensures SameSpread(net, r)
    ensures SameTx(net, r)
    ensures SameBooks(net, r)
  {
    SetStation(net, i, net.stations[i].(node := n))
  }

  function MarkDelivered(net: Net, i: Addr): (r: Net)
    requires i < |net.stations| && net.stations[i].tx.Some?
    ensures |r.stations| == |net.stations|
    ensures SameSpread(net, r)
    ensures SameBooks(net, r)
  {
    SetStation(net, i, net.stations[i].(tx := Some(net.stations[i].tx.value.(delivered := true))))
  }

  /** One pass of node i's spray loop. */
  function Broadcast(net: Net, i: Addr): (r: Net)
    requires i < |net.stations|
    ensures |r.stations| == |net.stations|
    ensures SameSpread(net, r)
    ensures SameTx(net, r)
    ensures SameBooks(net, r)
  {
    net.(sprays := net.sprays + set h | h in SprayFrames(net.stations[i].node) :: Spray(i, h))
  }

  /** Node `to` processes a hand-off frame. */
  function Deliver(net: Net, to: Addr, h: Hdr): (r: Net)
    requires to < |net.stations|
    ensures |r.stations| == |net.stations|
    ensures SameTx(net, r)
    ensures SameBooks(net, r)
  {
    var n := net.stations[to].node;
    var k := KeyOf(h);
    if !ValidHdr(h) || Find(n, k).None? then net
    else
      Broadcast(SetNode(net, to, HandoffRecv(n, h)), to)
      .(order := if k in net.order && to !in net.order[k]
                 then net.order[k := net.order[k] + [to]] else net.order,
        completed := net.completed + multiset{k})
  }

  function SendNext(net: Net, i: Addr, to: Addr, alloc: Option<nat>): (r: Net)
    requires CanSend(net, i, alloc)
    ensures |r.stations| == |net.stations|
    ensures SameTx(net, r)
  {
    var n := net.stations[i].node;
    var k := Key(n.addr, n.seqno);
    var out := Send(n, to, alloc);
    var next := SetNode(net, i, out.n).(submitted := net.submitted[k := to]);
    if out.recv.Some? then next.(received := net.received + {Received(i, out.recv.value)})
    else if out.ok then Broadcast(next, i).(order := net.order[k := [i]])
    else next
  }

  /** Submitting changes only the node of its own station. */
  lemma SendStations(net: Net, i: Addr, to: Addr, alloc: Option<nat>)
    requires CanSend(net, i, alloc)
    ensures SendNext(net, i, to, alloc).stations
            == net.stations[i := net.stations[i].(node := Send(net.stations[i].node, to, alloc).n)]
  {
  }

  function SprayRecvNext(net: Net, i: Addr, from: Addr, hdr: Hdr, alloc: Option<nat>): (r: Net)
    requires i < |net.stations| && AllocOk(net, i, alloc)
    ensures |r.stations| == |net.stations|
    ensures SameSpread(net, r)
    ensures SameTx(net, r)
    ensures SameBooks(net, r)
  {
    var out := SprayRecv(net.stations[i].node, hdr, alloc);
    SetNode(net, i, out.n)
    .(requests := net.requests + (if out.request.Some? then {Request(i, from, out.request.value)} else {}),
      received := net.received + (if out.recv.Some? then {Received(i, out.recv.value)} else {}))
  }

  function RequestRecvNext(net: Net, i: Addr, from: Addr, hdr: Hdr): (r: Net)
    requires i < |net.stations|
    ensures |r.stations| == |net.stations|
    ensures SameSpread(net, r)
    ensures SameBooks(net, r)
  {
    var out := RequestRecv(net.stations[i].node, from, hdr);
    if out.handoff.None? then SetNode(net, i, out.n)
    else
      SetStation(net, i, Station(out.n, Some(Tx(from, out.handoff.value, false))))
      .(handoffs := net.handoffs + {Handoff(i, from, out.handoff.value)})
  }

  function HandoffRecvNext(net: Net, i: Addr): (r: Net)
    requires CanHandoffRecv(net, i)
    ensures |r.stations| == |net.stations|
    ensures SameBooks(net, r)
  {
    var t := net.stations[i].tx.value;
    Deliver(MarkDelivered(net, i), t.to, t.hdr)
  }

  function SentNext(net: Net, i: Addr): (r: Net)
    requires CanReportSent(net, i)
    ensures |r.stations| == |net.stations|
    ensures SameSpread(net, r)
    ensures SameBooks(net, r)
  {
    SetStation(net, i, Station(HandoffSent(net.stations[i].node), None))
  }

  function TimedOutNext(net: Net, i: Addr): (r: Net)
    requires i < |net.stations|
    ensures |r.stations| == |net.stations|
    ensures SameSpread(net, r)
    ensures SameBooks(net, r)
  {
    SetStation(net, i, Station(HandoffTimedOut(net.stations[i].node), None))
  }

  function ExpireNext(net: Net, i: Addr, j: nat): (r: Net)
    requires CanExpire(net, i, j)
    ensures |r.stations| == |net.stations|
    ensures SameSpread(net, r)
    ensures SameTx(net, r)
    ensures SameBooks(net, r)
  {
    var n := net.stations[i].node;
    var k := KeyOf(HdrAt(n, j));
    SetNode(net, i, Expire(n, j))
    .(forgotten := if n.q[j].status == Ready && i != k.esender then net.forgotten + {k} else net.forgotten)
  }

  function OverwriteNext(net: Net, i: Addr, slot: nat, h: Hdr): (r: Net)
    requires CanOverwrite(net, i, slot)
    ensures |r.stations| == |net.stations|
    ensures SameSpread(net, r)
    ensures SameTx(net, r)
    ensures SameBooks(net, r)
  {
    SetNode(net, i, Overwrite(net.stations[i].node, slot, h))
  }

  function LostAckNext(net: Net, i: Addr): (r: Net)
    requires InProgress(net, i, true)
    ensures |r.stations| == |net.stations|
  {
    TimedOutNext(net, i).(faults := net.faults + multiset{KeyOf(net.stations[i].tx.value.hdr)})
  }

  function RedeliveredNext(net: Net, from: Addr, to: Addr, h: Hdr): (r: Net)
    requires CanRedeliver(net, from, to, h)
    ensures |r.stations| == |net.stations|
    ensures SameTx(net, r)
  {
    Deliver(net, to, h).(faults := net.faults + multiset{KeyOf(h)})
  }

  function Next(net: Net, e: Event): (r: Net)
    requires Enabled(net, e)
    ensures |r.stations| == |net.stations|
  {
    match e
    case DoSend(i, to, alloc) => SendNext(net, i, to, alloc)
    case DoSpray(i) => Broadcast(net, i)
    case DoSprayRecv(i, from, hdr, alloc) => SprayRecvNext(net, i, from, hdr, alloc)
    case DoRequestRecv(i, from, hdr) => RequestRecvNext(net, i, from, hdr)
    case DoHandoffRecv(i) => HandoffRecvNext(net, i)
    case DoSent(i) => SentNext(net, i)
    case DoTimedOut(i) => TimedOutNext(net, i)
    case DoExpire(i, j) => ExpireNext(net, i, j)
    case DoOverwrite(i, slot, hdr) => OverwriteNext(net, i, slot, hdr)
    case LostAck(i) => LostAckNext(net, i)
    case Redelivered(from, to, hdr) => RedeliveredNext(net, from, to, hdr)
  }

  /** dtn_open on every node: empty queues, free lock, nothing in the air. */
  ghost predicate Init(net: Net) {
    && (forall i :: 0 <= i < |net.stations| ==>
          var n := net.stations[i].node;
          n.addr == i && n.q == [] && n.seqno == 0 && n.handoffQb == None && net.stations[i].tx == None)
    && net.sprays == {} && net.requests == {} && net.handoffs == {}
    && net.submitted == map[] && net.received == {} && net.order == map[]
    && net.completed == multiset{} && net.forgotten == {} && net.faults == multiset{}
  }

  /** A run: it starts in an initial state and takes enabled events. */
  ghost predicate Run(nets: seq<Net>, events: seq<Event>) {
    && |nets| == |events| + 1
    && Init(nets[0])
    && forall t :: 0 <= t < |events| ==> Enabled(nets[t], events[t]) && nets[t + 1] == Next(nets[t], events[t])
  }
}
