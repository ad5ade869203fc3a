/** What every event does, exactly: each frame, each recv callback and each change of a queue entry. */
module DtnExact {
  import opened Common
  import opened DtnNode
  import opened DtnPotential
  import opened DtnCallbacks
  import opened DtnNetwork
  import opened DtnSafety

  predicate IsDtn(h: Hdr) { h.version == 1 && h.magic0 == 'S' && h.magic1 == 'W' }

  predicate QueuedAs(n: Node, k: Key, status: Status) {
    exists j :: 0 <= j < |n.q| && KeyOf(HdrAt(n, j)) == k && n.q[j].status == status
  }

  predicate Absent(n: Node, k: Key) {
    forall j :: 0 <= j < |n.q| ==> KeyOf(HdrAt(n, j)) != k
  }

  // ----- one pass of the spray loop

  predicate Sprayable(n: Node, j: nat)
    requires j < |n.q|
  {
    n.q[j].status == Ready && HdrAt(n, j).copies != 0
  }

  /** js lists the READY entries with copies from position i on, all of them and in queue order. */
  ghost predicate ListsSprayable(n: Node, i: nat, js: seq<nat>) {
    && (forall a :: 0 <= a < |js| ==> i <= js[a] < |n.q| && Sprayable(n, js[a]))
    && (forall a, b :: 0 <= a < b < |js| ==> js[a] < js[b])
    && (forall j :: i <= j < |n.q| && Sprayable(n, j) ==> j in js)
  }

  /** The frames are the headers of exactly these entries, in this order. */
  lemma {:induction false} SprayFromExact(n: Node, i: nat) returns (js: seq<nat>)
    requires i <= |n.q|
    ensures ListsSprayable(n, i, js) && |SprayFrom(n, i)| == |js|
    ensures forall a :: 0 <= a < |js| ==> SprayFrom(n, i)[a] == HdrAt(n, js[a])
    decreases |n.q| - i
  {
    if i == |n.q| {
      js := [];
    } else {
      var rest := SprayFromExact(n, i + 1);
      if Sprayable(n, i) {
        js := [i] + rest;
        OneMore(n, i, rest);
        assert SprayFrom(n, i) == [HdrAt(n, i)] + SprayFrom(n, i + 1);
      } else {
        js := rest;
      }
    }
  }

  lemma OneMore(n: Node, i: nat, rest: seq<nat>)
    requires i < |n.q| && Sprayable(n, i) && ListsSprayable(n, i + 1, rest)
    ensures ListsSprayable(n, i, [i] + rest)
  {
    var js := [i] + rest;
    forall a, b | 0 <= a < b < |js| ensures js[a] < js[b] {
      assert js[b] == rest[b - 1] && (a > 0 ==> js[a] == rest[a - 1]);
    }
    forall j | i <= j < |n.q| && Sprayable(n, j) ensures j in js {
      assert j == i || j in rest;
    }
  }

  /** Station i's queue holds the header, READY and with copies. */
  predicate Offers(n: Node, h: Hdr) {
    h.copies != 0 && exists j :: 0 <= j < |n.q| && n.q[j].status == Ready && HdrAt(n, j) == h
  }

  lemma FramesAreOffers(n: Node, h: Hdr)
    ensures h in SprayFrames(n) <==> Offers(n, h)
  {
    var js := SprayFromExact(n, 0);
    if Offers(n, h) {
      var j :| 0 <= j < |n.q| && n.q[j].status == Ready && HdrAt(n, j) == h;
      assert Sprayable(n, j) && j in js;
      var a :| 0 <= a < |js| && js[a] == j;
      assert SprayFrames(n)[a] == h;
    }
  }

  // ----- what one event sends

  /** Station i makes a pass over its queue. */
  predicate Passes(net: Net, e: Event, i: Addr)
    requires Enabled(net, e) && i < |net.stations|
  {
    match e
    case DoSpray(x) => x == i
    case DoSend(x, to, alloc) => x == i && to != i && |net.stations[i].node.q| < 5 && alloc.Some?
    case DoHandoffRecv(x) =>
      var t := net.stations[x].tx.value; t.to == i && !Absent(net.stations[i].node, KeyOf(t.hdr))
    case Redelivered(_, to, h) => to == i && !Absent(net.stations[i].node, KeyOf(h))
    case _ => false
  }

  /** A node answers a spray of another node's message with the request r: it is the destination, or its
      entry is PENDING, or it has none and can queue one. */
  predicate Wants(n: Node, h: Hdr, alloc: Option<nat>, r: Hdr) {
    && IsDtn(h) && h.esender != n.addr
    && if h.ereceiver == n.addr then r == h
       else
         && h.copies != 1
         && (|| (QueuedAs(n, KeyOf(h), Pending) && r == h)
             || (Absent(n, KeyOf(h)) && |n.q| < 5 && alloc.Some? && r == h.(copies := 0)))
  }

  /** A node can give half of at least two copies to a node other than the destination. */
  predicate Halves(n: Node, k: Key, to: Addr, g: Hdr) {
    exists j ::
      && 0 <= j < |n.q| && n.q[j].status == Ready && KeyOf(HdrAt(n, j)) == k
      && HdrAt(n, j).ereceiver != to && HdrAt(n, j).copies >= 2
      && g == HdrAt(n, j).(copies := HdrAt(n, j).copies / 2)
  }

  /** Station i answers a spray of station `to` with the request r. */
  predicate Requests(net: Net, e: Event, i: Addr, to: Addr, r: Hdr)
    requires Enabled(net, e) && i < |net.stations|
  {
    e.DoSprayRecv? && e.i == i && e.from == to && Wants(net.stations[i].node, e.hdr, e.alloc, r)
  }

  /** Station i answers a request of station `to`, not the destination, with half of its copies. */
  predicate HandsOff(net: Net, e: Event, i: Addr, to: Addr, g: Hdr)
    requires Enabled(net, e) && i < |net.stations|
  {
    && e.DoRequestRecv? && e.i == i && e.from == to && IsDtn(e.hdr)
    && net.stations[i].tx.None? && Halves(net.stations[i].node, KeyOf(e.hdr), to, g)
  }

  /** Station i's recv callback runs for k: a spray of it reaches its destination, or i sends to itself. */
  predicate Receives(net: Net, e: Event, i: Addr, k: Key)
    requires Enabled(net, e) && i < |net.stations|
  {
    match e
    case DoSprayRecv(x, _, h, _) => x == i && IsDtn(h) && KeyOf(h) == k && h.ereceiver == i && k.esender != i
    case DoSend(x, to, _) => x == i && to == i && k == Key(i, net.stations[i].node.seqno)
    case _ => false
  }

  lemma FoundIff(n: Node, k: Key)
    ensures Find(n, k).None? <==> Absent(n, k)
  {
  }

  lemma DeliverSprayed(net: Net, to: Addr, g: Hdr, i: Addr, h: Hdr)
    requires to < |net.stations| && i < |net.stations| && ValidHdr(g)
    ensures Spray(i, h) in Deliver(net, to, g).sprays <==>
              || Spray(i, h) in net.sprays
              || (to == i && !Absent(net.stations[i].node, KeyOf(g)) && Offers(Deliver(net, to, g).stations[i].node, h))
  {
    FoundIff(net.stations[to].node, KeyOf(g));
    if Find(net.stations[to].node, KeyOf(g)).Some? {
      FramesAreOffers(HandoffRecv(net.stations[to].node, g), h);
    }
  }

  lemma SendSprayed(net: Net, x: Addr, to: Addr, alloc: Option<nat>, i: Addr, h: Hdr)
    requires CanSend(net, x, alloc) && i < |net.stations| && net.stations[x].node.addr == x
    ensures Spray(i, h) in SendNext(net, x, to, alloc).sprays <==>
              || Spray(i, h) in net.sprays
              || (x == i && to != i && |net.stations[i].node.q| < 5 && alloc.Some?
                  && Offers(SendNext(net, x, to, alloc).stations[i].node, h))
  {
    FramesAreOffers(Send(net.stations[x].node, to, alloc).n, h);
  }

  lemma StepSprays(net: Net, e: Event, i: Addr, h: Hdr)
    requires Inv(net) && Enabled(net, e) && i < |net.stations|
    ensures Spray(i, h) in Next(net, e).sprays <==>
              Spray(i, h) in net.sprays || (Passes(net, e, i) && Offers(Next(net, e).stations[i].node, h))
  {
    match e
    case DoSpray(x) => FramesAreOffers(net.stations[x].node, h);
    case DoSend(x, to, alloc) =>
      assert StationOk(net, x);
      SendSprayed(net, x, to, alloc, i, h);
    case DoHandoffRecv(x) =>
      var t := net.stations[x].tx.value;
      assert StationOk(net, x) && HandoffOk(net, Handoff(x, t.to, t.hdr));
      DeliverSprayed(MarkDelivered(net, x), t.to, t.hdr, i, h);
    case Redelivered(from, to, g) =>
      assert HandoffOk(net, Handoff(from, to, g));
      DeliverSprayed(net, to, g, i, h);
    case _ =>
  }

  lemma OnlyOne(n: Node, k: Key)
    requires NodeInv(n) && Find(n, k).Some?
    ensures forall j :: 0 <= j < |n.q| && KeyOf(HdrAt(n, j)) == k ==> Find(n, k) == Some(j)
  {
  }

  /** The answer to a spray. */
  lemma SprayAnswered(n: Node, h: Hdr, alloc: Option<nat>, r: Hdr)
    requires NodeInv(n) && (alloc.Some? ==> FreeSlot(n, alloc.value))
    ensures SprayRecv(n, h, alloc).request == Some(r) <==> Wants(n, h, alloc, r)
    ensures SprayRecv(n, h, alloc).recv == if IsDtn(h) && h.ereceiver == n.addr && h.esender != n.addr
                                           then Some(KeyOf(h)) else None
  {
    FoundIff(n, KeyOf(h));
    if Find(n, KeyOf(h)).Some? {
      OnlyOne(n, KeyOf(h));
      assert KeyOf(HdrAt(n, Find(n, KeyOf(h)).value)) == KeyOf(h);
    }
  }

  lemma StepRequests(net: Net, e: Event, i: Addr, to: Addr, r: Hdr)
    requires Inv(net) && Enabled(net, e) && i < |net.stations|
    ensures Request(i, to, r) in Next(net, e).requests <==>
              Request(i, to, r) in net.requests || Requests(net, e, i, to, r)
  {
    if e.DoSprayRecv? && e.i == i {
      assert StationOk(net, i);
      SprayAnswered(net.stations[i].node, e.hdr, e.alloc, r);
    }
  }

  /** The answer to a request. */
  lemma RequestAnswered(n: Node, from: Addr, h: Hdr, g: Hdr)
    requires NodeInv(n)
    ensures RequestRecv(n, from, h).handoff == Some(g) <==> IsDtn(h) && n.handoffQb.None? && Halves(n, KeyOf(h), from, g)
  {
    var k := KeyOf(h);
    FoundIff(n, k);
    if Find(n, k).Some? {
      OnlyOne(n, k);
      assert KeyOf(HdrAt(n, Find(n, k).value)) == k;
    }
  }

  lemma StepHandoffs(net: Net, e: Event, i: Addr, to: Addr, g: Hdr)
    requires Inv(net) && Enabled(net, e) && i < |net.stations|
    ensures Handoff(i, to, g) in Next(net, e).handoffs <==>
              Handoff(i, to, g) in net.handoffs || HandsOff(net, e, i, to, g)
  {
    if e.DoRequestRecv? && e.i == i {
      assert StationOk(net, i);
      RequestAnswered(net.stations[i].node, to, e.hdr, g);
    }
  }

  lemma SprayReceives(net: Net, x: Addr, from: Addr, h: Hdr, alloc: Option<nat>, i: Addr, k: Key)
    requires Inv(net) && CanSprayRecv(net, x, from, h, alloc) && i < |net.stations|
    ensures Received(i, k) in SprayRecvNext(net, x, from, h, alloc).received <==>
              Received(i, k) in net.received || Receives(net, DoSprayRecv(x, from, h, alloc), i, k)
  {
    assert StationOk(net, x);
    SprayAnswered(net.stations[x].node, h, alloc, h);
  }

  lemma SendReceives(net: Net, x: Addr, to: Addr, alloc: Option<nat>, i: Addr, k: Key)
    requires Inv(net) && CanSend(net, x, alloc) && i < |net.stations|
    ensures Received(i, k) in SendNext(net, x, to, alloc).received <==>
              Received(i, k) in net.received || Receives(net, DoSend(x, to, alloc), i, k)
  {
    assert StationOk(net, x);
  }

  lemma StepReceives(net: Net, e: Event, i: Addr, k: Key)
    requires Inv(net) && Enabled(net, e) && i < |net.stations|
    ensures Received(i, k) in Next(net, e).received <==>
              Received(i, k) in net.received || Receives(net, e, i, k)
  {
    match e
    case DoSprayRecv(x, from, h, alloc) => SprayReceives(net, x, from, h, alloc, i, k);
    case DoSend(x, to, alloc) => SendReceives(net, x, to, alloc, i, k);
    case _ =>
  }

  // ----- what one event does to a queue entry

  datatype Entry = Entry(status: Status, hdr: Hdr)

  function EntryOf(n: Node, k: Key): Option<Entry> {
    var j := Find(n, k);
    if j.None? then None else Some(Entry(n.q[j.value].status, HdrAt(n, j.value)))
  }

  function WithCopies(e: Entry, c: U16): Entry { Entry(e.status, e.hdr.(copies := c)) }

  function ToppedUp(e: Option<Entry>, h: Hdr): Option<Entry>
    requires e.Some? ==> e.value.hdr.copies <= 8 && h.copies <= 8
  {
    if e.None? then None else Some(Entry(Ready, e.value.hdr.(copies := Min(8, e.value.hdr.copies + h.copies))))
  }

  /** The entry of k at station i after the event, by the entry before it. */
  function EntryAfter(net: Net, e: Event, i: Addr, k: Key): Option<Entry>
    requires Inv(net) && Enabled(net, e) && i < |net.stations|
  {
    assert StationOk(net, i);
    var n := net.stations[i].node;
    var was := EntryOf(n, k);
    assert was.Some? ==> EntryOk(n, Find(n, k).value);
    match e
    case DoSend(x, to, alloc) =>
      if x == i && to != i && k == Key(i, n.seqno) && |n.q| < 5 && alloc.Some?
      then Some(Entry(Ready, Hdr(1, 'S', 'W', 8, i, to, n.seqno))) else was
    case DoSprayRecv(x, _, h, alloc) =>
      if x == i && KeyOf(h) == k && IsDtn(h) && k.esender != i && h.ereceiver != i && h.copies != 1
         && was.None? && |n.q| < 5 && alloc.Some?
      then Some(Entry(Pending, h.(copies := 0))) else was
    case DoRequestRecv(x, from, h) =>
      if x == i && KeyOf(h) == k && IsDtn(h) && was.Some? && was.value.status == Ready && was.value.hdr.ereceiver == from
      then Some(WithCopies(was.value, 0)) else was
    case DoHandoffRecv(x) =>
      var t := net.stations[x].tx.value;
      assert StationOk(net, x);
      if t.to == i && KeyOf(t.hdr) == k then ToppedUp(was, t.hdr) else was
    case Redelivered(from, to, h) =>
      assert HandoffOk(net, Handoff(from, to, h));
      if to == i && KeyOf(h) == k then ToppedUp(was, h) else was
    case DoSent(x) =>
      if x == i && KeyOf(net.stations[i].tx.value.hdr) == k && was.Some? && Matched(n, k)
      then Some(WithCopies(was.value, was.value.hdr.copies - was.value.hdr.copies / 2)) else was
    case DoExpire(x, j) => if x == i && KeyOf(HdrAt(n, j)) == k then None else was
    case _ => was
  }

  lemma SendEntry(n: Node, to: Addr, alloc: Option<nat>, k: Key)
    requires NodeInv(n) && (alloc.Some? ==> FreeSlot(n, alloc.value))
    ensures EntryOf(Send(n, to, alloc).n, k) ==
            if to != n.addr && k == Key(n.addr, n.seqno) && |n.q| < 5 && alloc.Some?
            then Some(Entry(Ready, Hdr(1, 'S', 'W', 8, n.addr, to, n.seqno))) else EntryOf(n, k)
  {
    var n1 := n.(seqno := n.seqno + 1);
    NextIdKeeps(n, k);
    NextIdKeeps(n, Key(n.addr, n.seqno));
    if to != n.addr && Send(n, to, alloc).ok {
      EnqueueShape(n1, NewHdr(n, to), Ready, alloc.value);
      EnqueueEffect(n1, NewHdr(n, to), Ready, alloc.value, k);
    }
  }

  lemma SprayRecvEntry(n: Node, h: Hdr, alloc: Option<nat>, k: Key)
    requires NodeInv(n) && (alloc.Some? ==> FreeSlot(n, alloc.value))
    ensures EntryOf(SprayRecv(n, h, alloc).n, k) ==
            if KeyOf(h) == k && IsDtn(h) && k.esender != n.addr && h.ereceiver != n.addr && h.copies != 1
               && EntryOf(n, k).None? && |n.q| < 5 && alloc.Some?
            then Some(Entry(Pending, h.(copies := 0))) else EntryOf(n, k)
  {
    if SprayRecv(n, h, alloc).n != n {
      EnqueueShape(n, h.(copies := 0), Pending, alloc.value);
      EnqueueEffect(n, h.(copies := 0), Pending, alloc.value, k);
    }
  }

  lemma RequestRecvEntry(n: Node, from: Addr, h: Hdr, k: Key)
    requires NodeInv(n)
    ensures var was := EntryOf(n, k);
            EntryOf(RequestRecv(n, from, h).n, k) ==
            if KeyOf(h) == k && IsDtn(h) && was.Some? && was.value.status == Ready && was.value.hdr.ereceiver == from
            then Some(WithCopies(was.value, 0)) else was
  {
    var out, f := RequestRecv(n, from, h), Find(n, KeyOf(h));
    if out.handoff.Some? {
      LockKeepsQueue(n, out.n, k);
    } else if f.Some? {
      SetCopiesEntry(n, f.value, 0, k);
    }
  }

  lemma SetCopiesEntry(n: Node, i: nat, c: U16, k: Key)
    requires NodeInv(n) && i < |n.q|
    ensures var n' := SetCopies(n, n.q[i].slot, c);
            EntryOf(n', k) == if KeyOf(HdrAt(n, i)) == k then Some(WithCopies(Entry(n.q[i].status, HdrAt(n, i)), c))
                              else EntryOf(n, k)
  {
    SetCopiesEffect(n, i, c, k);
    if KeyOf(HdrAt(n, i)) == k {
      FindIs(n, k, i);
    } else if Find(n, k).Some? {
      SlotsDiffer(n, i, Find(n, k).value, c);
    }
  }

  /** Writing the count of one entry leaves the header of another alone. */
  lemma SlotsDiffer(n: Node, i: nat, j: nat, c: U16)
    requires i < |n.q| && j < |n.q| && i != j
    ensures HdrAt(SetCopies(n, n.q[i].slot, c), j) == HdrAt(n, j)
  {
  }

  lemma HandoffRecvEntry(n: Node, h: Hdr, k: Key)
    requires NodeInv(n) && ValidHdr(h) && h.copies <= 8
    requires EntryOf(n, k).Some? ==> EntryOf(n, k).value.hdr.copies <= 8
    ensures EntryOf(HandoffRecv(n, h), k) == if KeyOf(h) == k then ToppedUp(EntryOf(n, k), h) else EntryOf(n, k)
  {
    HandoffRecvQueue(n, h, k);
    var f, g := Find(n, KeyOf(h)), Find(n, k);
    if f.Some? && g.Some? && k != KeyOf(h) {
      assert n.q[f.value].slot != n.q[g.value].slot;
    }
  }

  lemma HandoffSentEntry(n: Node, k: Key)
    requires NodeInv(n) && n.handoffQb.Some?
    ensures var was := EntryOf(n, k);
            EntryOf(HandoffSent(n), k) ==
            if KeyOf(n.handoffHdr) == k && was.Some? && Matched(n, k)
            then Some(WithCopies(was.value, was.value.hdr.copies - was.value.hdr.copies / 2)) else was
  {
    HandoffSentEffect(n, k);
  }

  lemma ExpireEntry(n: Node, j: nat, k: Key)
    requires NodeInv(n) && j < |n.q|
    ensures EntryOf(Expire(n, j), k) == if KeyOf(HdrAt(n, j)) == k then None else EntryOf(n, k)
  {
    ExpireShape(n, j);
    ExpireEffect(n, j, k);
    if Find(n, k).Some? && KeyOf(HdrAt(n, j)) != k {
      var f := Find(n, k).value;
      FindIs(Expire(n, j), k, if f < j then f else f - 1);
    }
  }

  lemma OverwriteEntry(n: Node, slot: nat, h: Hdr, k: Key)
    requires NodeInv(n) && FreeSlot(n, slot)
    ensures EntryOf(Overwrite(n, slot, h), k) == EntryOf(n, k)
  {
    OverwriteEffect(n, slot, h, k);
  }

  lemma LockEntry(n: Node, n': Node, k: Key)
    requires NodeInv(n) && n' == n.(handoffQb := n'.handoffQb, handoffHdr := n'.handoffHdr)
    ensures EntryOf(n', k) == EntryOf(n, k)
  {
    LockKeepsQueue(n, n', k);
  }

  lemma SendStep(net: Net, x: Addr, to: Addr, alloc: Option<nat>, i: Addr, k: Key)
    requires Inv(net) && CanSend(net, x, alloc) && i < |net.stations|
    ensures EntryOf(SendNext(net, x, to, alloc).stations[i].node, k) == EntryAfter(net, DoSend(x, to, alloc), i, k)
  {
    assert StationOk(net, i);
    if x == i {
      SendEntry(net.stations[i].node, to, alloc, k);
    }
  }

  lemma SprayRecvStep(net: Net, x: Addr, from: Addr, h: Hdr, alloc: Option<nat>, i: Addr, k: Key)
    requires Inv(net) && CanSprayRecv(net, x, from, h, alloc) && i < |net.stations|
    ensures EntryOf(SprayRecvNext(net, x, from, h, alloc).stations[i].node, k)
            == EntryAfter(net, DoSprayRecv(x, from, h, alloc), i, k)
  {
    assert StationOk(net, i);
    if x == i {
      SprayRecvEntry(net.stations[i].node, h, alloc, k);
    }
  }

  lemma RequestRecvStep(net: Net, x: Addr, from: Addr, h: Hdr, i: Addr, k: Key)
    requires Inv(net) && CanRequestRecv(net, x, from, h) && i < |net.stations|
    ensures EntryOf(RequestRecvNext(net, x, from, h).stations[i].node, k)
            == EntryAfter(net, DoRequestRecv(x, from, h), i, k)
  {
    assert StationOk(net, i);
    assert RequestRecvNext(net, x, from, h).stations[x].node == RequestRecv(net.stations[x].node, from, h).n;
    if x == i {
      RequestRecvEntry(net.stations[i].node, from, h, k);
    }
  }

  lemma ReportStep(net: Net, e: Event, i: Addr, k: Key)
    requires Inv(net) && Enabled(net, e) && i < |net.stations| && (e.DoSent? || e.DoTimedOut? || e.LostAck?)
    ensures EntryOf(Next(net, e).stations[i].node, k) == EntryAfter(net, e, i, k)
  {
    assert StationOk(net, i);
    var n := net.stations[i].node;
    if e.i == i {
      if e.DoSent? {
        HandoffSentEntry(n, k);
      } else {
        LockEntry(n, HandoffTimedOut(n), k);
      }
    }
  }

  lemma PoolStep(net: Net, e: Event, i: Addr, k: Key)
    requires Inv(net) && Enabled(net, e) && i < |net.stations| && (e.DoExpire? || e.DoOverwrite?)
    ensures EntryOf(Next(net, e).stations[i].node, k) == EntryAfter(net, e, i, k)
  {
    assert StationOk(net, i);
    var n := net.stations[i].node;
    match e
    case DoExpire(x, j) => if x == i { ExpireEntry(n, j, k); }
    case DoOverwrite(x, slot, h) => if x == i { OverwriteEntry(n, slot, h, k); }
  }

  lemma HandoffStep(net: Net, e: Event, i: Addr, k: Key)
    requires Inv(net) && Enabled(net, e) && i < |net.stations| && (e.DoHandoffRecv? || e.Redelivered?)
    ensures EntryOf(Next(net, e).stations[i].node, k) == EntryAfter(net, e, i, k)
  {
    assert StationOk(net, i);
    match e
    case DoHandoffRecv(x) =>
      assert StationOk(net, x);
      DeliverEntry(MarkDelivered(net, x), net.stations[x].tx.value.to, net.stations[x].tx.value.hdr, i, k);
    case Redelivered(from, to, h) =>
      assert HandoffOk(net, Handoff(from, to, h));
      DeliverEntry(net, to, h, i, k);
  }

  /** Each queue entry changes as EntryAfter says, whatever the event, at every station. */
  lemma StepEntry(net: Net, e: Event, i: Addr, k: Key)
    requires Inv(net) && Enabled(net, e) && i < |net.stations|
    ensures EntryOf(Next(net, e).stations[i].node, k) == EntryAfter(net, e, i, k)
  {
    match e
    case DoSpray(_) =>
    case DoSend(x, to, alloc) => SendStep(net, x, to, alloc, i, k);
    case DoSprayRecv(x, from, h, alloc) => SprayRecvStep(net, x, from, h, alloc, i, k);
    case DoRequestRecv(x, from, h) => RequestRecvStep(net, x, from, h, i, k);
    case DoHandoffRecv(_) => HandoffStep(net, e, i, k);
    case Redelivered(_, _, _) => HandoffStep(net, e, i, k);
    case DoSent(_) => ReportStep(net, e, i, k);
    case DoTimedOut(_) => ReportStep(net, e, i, k);
    case LostAck(_) => ReportStep(net, e, i, k);
    case DoExpire(_, _) => PoolStep(net, e, i, k);
    case DoOverwrite(_, _, _) => PoolStep(net, e, i, k);
  }

  lemma DeliverEntry(net: Net, to: Addr, h: Hdr, i: Addr, k: Key)
    requires to < |net.stations| && i < |net.stations| && NodeInv(net.stations[i].node)
    requires ValidHdr(h) && h.copies <= 8
    ensures EntryOf(net.stations[i].node, k).Some? ==> EntryOf(net.stations[i].node, k).value.hdr.copies <= 8
    ensures EntryOf(Deliver(net, to, h).stations[i].node, k) ==
            if to == i && KeyOf(h) == k then ToppedUp(EntryOf(net.stations[i].node, k), h)
            else EntryOf(net.stations[i].node, k)
  {
    var n := net.stations[i].node;
    if Find(n, k).Some? {
      assert EntryOk(n, Find(n, k).value);
    }
    if to == i {
      HandoffRecvEntry(n, h, k);
    }
  }

  // ----- over runs

  lemma {:induction false} StationsStay(nets: seq<Net>, events: seq<Event>, t: nat)
    requires Run(nets, events) && t < |nets|
    ensures |nets[t].stations| == |nets[0].stations|
  {
    if t > 0 {
      StationsStay(nets, events, t - 1);
    }
  }

  /** Event u of a run, at station i. */
  predicate Happens(nets: seq<Net>, events: seq<Event>, u: nat, i: Addr) {
    u < |events| && u + 1 < |nets| && i < |nets[u].stations| && i < |nets[u + 1].stations| && Enabled(nets[u], events[u])
  }

  lemma RunStep(nets: seq<Net>, events: seq<Event>, u: nat, i: Addr)
    requires Run(nets, events) && u < |events| && i < |nets[0].stations|
    ensures Happens(nets, events, u, i) && Inv(nets[u]) && nets[u + 1] == Next(nets[u], events[u])
  {
    StationsStay(nets, events, u);
    StationsStay(nets, events, u + 1);
    RunInv(nets, events, u);
  }

  predicate PassedAt(nets: seq<Net>, events: seq<Event>, u: nat, i: Addr, h: Hdr) {
    Happens(nets, events, u, i) && Passes(nets[u], events[u], i) && Offers(nets[u + 1].stations[i].node, h)
  }

  lemma SprayedStep(nets: seq<Net>, events: seq<Event>, u: nat, i: Addr, h: Hdr)
    requires Run(nets, events) && u < |events| && i < |nets[0].stations|
    ensures Spray(i, h) in nets[u + 1].sprays <==> Spray(i, h) in nets[u].sprays || PassedAt(nets, events, u, i, h)
  {
    RunStep(nets, events, u, i);
    StepSprays(nets[u], events[u], i, h);
  }

  predicate SprayedBefore(nets: seq<Net>, events: seq<Event>, t: nat, i: Addr, h: Hdr) {
    t > 0 && (SprayedBefore(nets, events, t - 1, i, h) || PassedAt(nets, events, t - 1, i, h))
  }

  lemma {:induction false} SprayedSome(nets: seq<Net>, events: seq<Event>, t: nat, i: Addr, h: Hdr)
    ensures SprayedBefore(nets, events, t, i, h) <==> exists u: nat :: u < t && PassedAt(nets, events, u, i, h)
  {
    if t > 0 {
      SprayedSome(nets, events, t - 1, i, h);
    }
  }

  lemma {:induction false} SprayedTrace(nets: seq<Net>, events: seq<Event>, t: nat, i: Addr, h: Hdr)
    requires Run(nets, events) && t < |nets| && i < |nets[0].stations|
    ensures Spray(i, h) in nets[t].sprays <==> SprayedBefore(nets, events, t, i, h)
  {
    if t > 0 {
      SprayedTrace(nets, events, t - 1, i, h);
      SprayedStep(nets, events, t - 1, i, h);
    }
  }

  /** Main results.  In every state of every run, what is in the air and what was received is there
      exactly because of an earlier event.  First, sprays: a pass of their sender over its queue, while
      it held the message READY with these copies. */
  lemma SprayedExactly(nets: seq<Net>, events: seq<Event>, t: nat, i: Addr, h: Hdr)
    requires Run(nets, events) && t < |nets| && i < |nets[0].stations|
    ensures Spray(i, h) in nets[t].sprays <==> exists u: nat :: u < t && PassedAt(nets, events, u, i, h)
  {
    SprayedTrace(nets, events, t, i, h);
    SprayedSome(nets, events, t, i, h);
  }

  predicate RequestedAt(nets: seq<Net>, events: seq<Event>, u: nat, i: Addr, to: Addr, r: Hdr) {
    Happens(nets, events, u, i) && Requests(nets[u], events[u], i, to, r)
  }

  lemma RequestedStep(nets: seq<Net>, events: seq<Event>, u: nat, i: Addr, to: Addr, r: Hdr)
    requires Run(nets, events) && u < |events| && i < |nets[0].stations|
    ensures Request(i, to, r) in nets[u + 1].requests <==>
              Request(i, to, r) in nets[u].requests || RequestedAt(nets, events, u, i, to, r)
  {
    RunStep(nets, events, u, i);
    StepRequests(nets[u], events[u], i, to, r);
  }

  predicate RequestedBefore(nets: seq<Net>, events: seq<Event>, t: nat, i: Addr, to: Addr, r: Hdr) {
    t > 0 && (RequestedBefore(nets, events, t - 1, i, to, r) || RequestedAt(nets, events, t - 1, i, to, r))
  }

  lemma {:induction false} RequestedSome(nets: seq<Net>, events: seq<Event>, t: nat, i: Addr, to: Addr, r: Hdr)
    ensures RequestedBefore(nets, events, t, i, to, r) <==>
              exists u: nat :: u < t && RequestedAt(nets, events, u, i, to, r)
  {
    if t > 0 {
      RequestedSome(nets, events, t - 1, i, to, r);
    }
  }

  lemma {:induction false} RequestedTrace(nets: seq<Net>, events: seq<Event>, t: nat, i: Addr, to: Addr, r: Hdr)
    requires Run(nets, events) && t < |nets| && i < |nets[0].stations|
    ensures Request(i, to, r) in nets[t].requests <==> RequestedBefore(nets, events, t, i, to, r)
  {
    if t > 0 {
      RequestedTrace(nets, events, t - 1, i, to, r);
      RequestedStep(nets, events, t - 1, i, to, r);
    }
  }

  /** Requests: a spray that their sender heard and wanted. */
  lemma RequestedExactly(nets: seq<Net>, events: seq<Event>, t: nat, i: Addr, to: Addr, r: Hdr)
    requires Run(nets, events) && t < |nets| && i < |nets[0].stations|
    ensures Request(i, to, r) in nets[t].requests <==>
              exists u: nat :: u < t && RequestedAt(nets, events, u, i, to, r)
  {
    RequestedTrace(nets, events, t, i, to, r);
    RequestedSome(nets, events, t, i, to, r);
  }

  predicate HandedOffAt(nets: seq<Net>, events: seq<Event>, u: nat, i: Addr, to: Addr, g: Hdr) {
    Happens(nets, events, u, i) && HandsOff(nets[u], events[u], i, to, g)
  }

  lemma HandedOffStep(nets: seq<Net>, events: seq<Event>, u: nat, i: Addr, to: Addr, g: Hdr)
    requires Run(nets, events) && u < |events| && i < |nets[0].stations|
    ensures Handoff(i, to, g) in nets[u + 1].handoffs <==>
              Handoff(i, to, g) in nets[u].handoffs || HandedOffAt(nets, events, u, i, to, g)
  {
    RunStep(nets, events, u, i);
    StepHandoffs(nets[u], events[u], i, to, g);
  }

  predicate HandedOffBefore(nets: seq<Net>, events: seq<Event>, t: nat, i: Addr, to: Addr, g: Hdr) {
    t > 0 && (HandedOffBefore(nets, events, t - 1, i, to, g) || HandedOffAt(nets, events, t - 1, i, to, g))
  }

  lemma {:induction false} HandedOffSome(nets: seq<Net>, events: seq<Event>, t: nat, i: Addr, to: Addr, g: Hdr)
    ensures HandedOffBefore(nets, events, t, i, to, g) <==>
              exists u: nat :: u < t && HandedOffAt(nets, events, u, i, to, g)
  {
    if t > 0 {
      HandedOffSome(nets, events, t - 1, i, to, g);
    }
  }

  lemma {:induction false} HandedOffTrace(nets: seq<Net>, events: seq<Event>, t: nat, i: Addr, to: Addr, g: Hdr)
    requires Run(nets, events) && t < |nets| && i < |nets[0].stations|
    ensures Handoff(i, to, g) in nets[t].handoffs <==> HandedOffBefore(nets, events, t, i, to, g)
  {
    if t > 0 {
      HandedOffTrace(nets, events, t - 1, i, to, g);
      HandedOffStep(nets, events, t - 1, i, to, g);
    }
  }

  /** Hand-offs: a request that found at least two copies, READY, and the lock free. */
  lemma HandedOffExactly(nets: seq<Net>, events: seq<Event>, t: nat, i: Addr, to: Addr, g: Hdr)
    requires Run(nets, events) && t < |nets| && i < |nets[0].stations|
    ensures Handoff(i, to, g) in nets[t].handoffs <==>
              exists u: nat :: u < t && HandedOffAt(nets, events, u, i, to, g)
  {
    HandedOffTrace(nets, events, t, i, to, g);
    HandedOffSome(nets, events, t, i, to, g);
  }

  predicate ReceivedAt(nets: seq<Net>, events: seq<Event>, u: nat, i: Addr, k: Key) {
    Happens(nets, events, u, i) && Receives(nets[u], events[u], i, k)
  }

  lemma ReceivedStep(nets: seq<Net>, events: seq<Event>, u: nat, i: Addr, k: Key)
    requires Run(nets, events) && u < |events| && i < |nets[0].stations|
    ensures Received(i, k) in nets[u + 1].received <==>
              Received(i, k) in nets[u].received || ReceivedAt(nets, events, u, i, k)
  {
    RunStep(nets, events, u, i);
    StepReceives(nets[u], events[u], i, k);
  }

  predicate ReceivedBefore(nets: seq<Net>, events: seq<Event>, t: nat, i: Addr, k: Key) {
    t > 0 && (ReceivedBefore(nets, events, t - 1, i, k) || ReceivedAt(nets, events, t - 1, i, k))
  }

  lemma {:induction false} ReceivedSome(nets: seq<Net>, events: seq<Event>, t: nat, i: Addr, k: Key)
    ensures ReceivedBefore(nets, events, t, i, k) <==> exists u: nat :: u < t && ReceivedAt(nets, events, u, i, k)
  {
    if t > 0 {
      ReceivedSome(nets, events, t - 1, i, k);
    }
  }

  lemma {:induction false} ReceivedTrace(nets: seq<Net>, events: seq<Event>, t: nat, i: Addr, k: Key)
    requires Run(nets, events) && t < |nets| && i < |nets[0].stations|
    ensures Received(i, k) in nets[t].received <==> ReceivedBefore(nets, events, t, i, k)
  {
    if t > 0 {
      ReceivedTrace(nets, events, t - 1, i, k);
      ReceivedStep(nets, events, t - 1, i, k);
    }
  }

  /** Recv callbacks: a spray that reached its destination, or a message a node sent to itself. */
  lemma ReceivedExactly(nets: seq<Net>, events: seq<Event>, t: nat, i: Addr, k: Key)
    requires Run(nets, events) && t < |nets| && i < |nets[0].stations|
    ensures Received(i, k) in nets[t].received <==> exists u: nat :: u < t && ReceivedAt(nets, events, u, i, k)
  {
    ReceivedTrace(nets, events, t, i, k);
    ReceivedSome(nets, events, t, i, k);
  }

  /** Queues: in every run each event changes each entry as EntryAfter says. */
  lemma EntriesExactly(nets: seq<Net>, events: seq<Event>, t: nat, i: Addr, k: Key)
    requires Run(nets, events) && t < |events| && i < |nets[t].stations|
    ensures Inv(nets[t]) && i < |nets[t + 1].stations|
    ensures EntryOf(nets[t + 1].stations[i].node, k) == EntryAfter(nets[t], events[t], i, k)
  {
    RunInv(nets, events, t);
    StepEntry(nets[t], events[t], i, k);
  }
}
