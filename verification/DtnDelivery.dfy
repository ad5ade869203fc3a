/** Progress is always possible: from any reachable state a copy can be delivered, and half of them passed on. */
module DtnDelivery {
  import opened Common
  import opened DtnNode
  import opened DtnPotential
  import opened DtnCallbacks
  import opened DtnNetwork
  import opened DtnSafety
  import opened DtnProperties
  import opened DtnExact

  /** Station i holds h, READY and with copies, and nothing else of that message. */
  lemma OfferedEntry(net: Net, i: Addr, h: Hdr)
    requires Inv(net) && i < |net.stations| && Offers(net.stations[i].node, h)
    ensures EntryOf(net.stations[i].node, KeyOf(h)) == Some(Entry(Ready, h))
    ensures ValidHdr(h) && IsDtn(h) && h.ereceiver != i && h.esender != h.ereceiver && h.copies <= 8
    ensures KeyOf(h) in net.submitted && net.submitted[KeyOf(h)] == h.ereceiver
  {
    var n := net.stations[i].node;
    assert StationOk(net, i);
    var j :| 0 <= j < |n.q| && n.q[j].status == Ready && HdrAt(n, j) == h;
    assert EntryOk(n, j) && EntryKnown(net, n, j);
    FindIs(n, KeyOf(h), j);
  }

  lemma OffersEntry(n: Node, h: Hdr)
    requires EntryOf(n, KeyOf(h)) == Some(Entry(Ready, h)) && h.copies != 0
    ensures Offers(n, h)
  {
    var j := Find(n, KeyOf(h)).value;
    assert n.q[j].status == Ready && HdrAt(n, j) == h;
  }

  /** The spray of station i that station d hears next. */
  lemma Sprays(net: Net, i: Addr, h: Hdr) returns (net': Net)
    requires Inv(net) && i < |net.stations| && Offers(net.stations[i].node, h)
    ensures Enabled(net, DoSpray(i)) && net' == Next(net, DoSpray(i)) && Inv(net')
    ensures net'.stations == net.stations && Spray(i, h) in net'.sprays
    ensures net'.received == net.received && net'.submitted == net.submitted
  {
    net' := Next(net, DoSpray(i));
    NextKeeps(net, DoSpray(i));
    FramesAreOffers(net.stations[i].node, h);
  }

  /** The destination hears it, tells its application and confirms. */
  lemma Confirms(net: Net, i: Addr, h: Hdr) returns (net': Net)
    requires Inv(net) && i < |net.stations| && h.ereceiver < |net.stations| && h.ereceiver != i
    requires Spray(i, h) in net.sprays
    ensures var e := DoSprayRecv(h.ereceiver, i, h, None); Enabled(net, e) && net' == Next(net, e) && Inv(net')
    ensures net'.stations[i] == net.stations[i] && |net'.stations| == |net.stations|
    ensures Request(h.ereceiver, i, h) in net'.requests && Received(h.ereceiver, KeyOf(h)) in net'.received
  {
    var d := h.ereceiver;
    var e := DoSprayRecv(d, i, h, None);
    net' := Next(net, e);
    assert SprayOk(net, Spray(i, h)) && StationOk(net, d);
    NextKeeps(net, e);
    StepRequests(net, e, d, i, h);
    StepReceives(net, e, d, KeyOf(h));
  }

  /** The confirmation empties the entry. */
  lemma Empties(net: Net, i: Addr, h: Hdr) returns (net': Net)
    requires Inv(net) && i < |net.stations| && Request(h.ereceiver, i, h) in net.requests
    requires EntryOf(net.stations[i].node, KeyOf(h)) == Some(Entry(Ready, h)) && IsDtn(h)
    ensures var e := DoRequestRecv(i, h.ereceiver, h); Enabled(net, e) && net' == Next(net, e)
    ensures EntryOf(net'.stations[i].node, KeyOf(h)) == Some(Entry(Ready, h.(copies := 0)))
    ensures net'.received == net.received
  {
    var e := DoRequestRecv(i, h.ereceiver, h);
    net' := Next(net, e);
    StepEntry(net, e, i, KeyOf(h));
  }

  /** Main result: in any reachable state, if a node holds a READY entry with copies for a destination
      in the network, then its next spray, heard by the destination and confirmed, delivers the message
      and leaves the node without copies of it. */
  lemma DeliveryPossible(h: History, i: Addr, m: Hdr) returns (h': History)
    requires Happened(h) && i < |Last(h).stations| && Offers(Last(h).stations[i].node, m)
    requires m.ereceiver < |Last(h).stations|
    ensures Happened(h') && h.nets <= h'.nets
    ensures h'.events == h.events + [DoSpray(i), DoSprayRecv(m.ereceiver, i, m, None), DoRequestRecv(i, m.ereceiver, m)]
    ensures KeyOf(m) in Last(h).submitted && Last(h).submitted[KeyOf(m)] == m.ereceiver
    ensures Received(m.ereceiver, KeyOf(m)) in Last(h').received
    ensures i < |Last(h').stations| && Count(Last(h').stations[i].node, KeyOf(m)) == 0
  {
    RunInv(h.nets, h.events, |h.events|);
    OfferedEntry(Last(h), i, m);
    var n1 := Sprays(Last(h), i, m);
    var n2 := Confirms(n1, i, m);
    var n3 := Empties(n2, i, m);
    h' := ThenThree(h, DoSpray(i), n1, DoSprayRecv(m.ereceiver, i, m, None), n2, DoRequestRecv(i, m.ereceiver, m), n3);
  }

  // ----- half of the copies to another node

  /** Station x can take the message: it is PENDING there, or there is room and a buffer for it. */
  predicate CanTake(n: Node, k: Key, alloc: Option<nat>) {
    QueuedAs(n, k, Pending) || (Absent(n, k) && |n.q| < 5 && alloc.Some? && FreeSlot(n, alloc.value))
  }

  /** What a relay asks with, by what it held before. */
  function AskHdr(n: Node, h: Hdr): Hdr {
    if Find(n, KeyOf(h)).Some? then h else h.(copies := 0)
  }

  /** A relay hears the spray, holds the message PENDING and without copies, and asks for it. */
  lemma HearsAndWants(net: Net, x: Addr, i: Addr, h: Hdr, alloc: Option<nat>) returns (net': Net)
    requires Inv(net) && i < |net.stations| && x < |net.stations| && x != i
    requires Spray(i, h) in net.sprays && h.esender != x && h.ereceiver != x && h.copies >= 2
    requires CanTake(net.stations[x].node, KeyOf(h), alloc) && AllocOk(net, x, alloc)
    ensures var e := DoSprayRecv(x, i, h, alloc); Enabled(net, e) && net' == Next(net, e) && Inv(net')
    ensures |net'.stations| == |net.stations| && net'.stations[i] == net.stations[i]
    ensures var r := AskHdr(net.stations[x].node, h);
            Request(x, i, r) in net'.requests && KeyOf(r) == KeyOf(h) && IsDtn(r)
    ensures var was := EntryOf(net'.stations[x].node, KeyOf(h));
            was.Some? && was.value.status == Pending && was.value.hdr.copies == 0
  {
    var e, n := DoSprayRecv(x, i, h, alloc), net.stations[x].node;
    net' := Next(net, e);
    assert SprayOk(net, Spray(i, h)) && StationOk(net, x);
    NextKeeps(net, e);
    TakerEntry(n, h, alloc);
    StepRequests(net, e, x, i, AskHdr(n, h));
    StepEntry(net, e, x, KeyOf(h));
  }

  lemma TakerEntry(n: Node, h: Hdr, alloc: Option<nat>)
    requires NodeInv(n) && CanTake(n, KeyOf(h), alloc) && IsDtn(h)
    requires h.esender != n.addr && h.ereceiver != n.addr && h.copies >= 2
    ensures Wants(n, h, alloc, AskHdr(n, h))
    ensures var was := EntryOf(n, KeyOf(h));
            if was.Some? then was.value.status == Pending && was.value.hdr.copies == 0
            else |n.q| < 5 && alloc.Some?
  {
    FoundIff(n, KeyOf(h));
    if Find(n, KeyOf(h)).Some? {
      OnlyOne(n, KeyOf(h));
      assert EntryOk(n, Find(n, KeyOf(h)).value);
    }
  }

  lemma GivesHalf(net: Net, i: Addr, x: Addr, h: Hdr, r: Hdr) returns (net': Net)
    requires Inv(net) && i < |net.stations| && x < |net.stations| && x != i
    requires Request(x, i, r) in net.requests && KeyOf(r) == KeyOf(h) && IsDtn(r) && h.ereceiver != x
    requires EntryOf(net.stations[i].node, KeyOf(h)) == Some(Entry(Ready, h)) && h.copies >= 2
    requires net.stations[i].tx.None?
    ensures var e := DoRequestRecv(i, x, r); Enabled(net, e) && net' == Next(net, e) && Inv(net')
    ensures |net'.stations| == |net.stations| && net'.stations[x] == net.stations[x]
    ensures net'.stations[i].tx == Some(Tx(x, h.(copies := h.copies / 2), false))
    ensures EntryOf(net'.stations[i].node, KeyOf(h)) == Some(Entry(Ready, h))
    ensures Matched(net'.stations[i].node, KeyOf(h))
  {
    var e := DoRequestRecv(i, x, r);
    net' := Next(net, e);
    assert StationOk(net, i);
    NextKeeps(net, e);
    StepEntry(net, e, i, KeyOf(h));
    LockKeepsQueue(net.stations[i].node, net'.stations[i].node, KeyOf(h));
  }

  lemma Arrives(net: Net, i: Addr, x: Addr, h: Hdr) returns (net': Net)
    requires Inv(net) && i < |net.stations| && x < |net.stations| && x != i && h.copies >= 2
    requires net.stations[i].tx == Some(Tx(x, h.(copies := h.copies / 2), false))
    requires EntryOf(net.stations[i].node, KeyOf(h)) == Some(Entry(Ready, h)) && Matched(net.stations[i].node, KeyOf(h))
    requires var was := EntryOf(net.stations[x].node, KeyOf(h)); was.Some? && was.value.hdr.copies == 0
    ensures var e := DoHandoffRecv(i); Enabled(net, e) && net' == Next(net, e) && Inv(net')
    ensures |net'.stations| == |net.stations|
    ensures net'.stations[i].node == net.stations[i].node
    ensures net'.stations[i].tx == Some(Tx(x, h.(copies := h.copies / 2), true))
    ensures var now := EntryOf(net'.stations[x].node, KeyOf(h));
            now.Some? && now.value.status == Ready && now.value.hdr.copies == h.copies / 2
  {
    var e := DoHandoffRecv(i);
    net' := Next(net, e);
    assert StationOk(net, i);
    NextKeeps(net, e);
    StepEntry(net, e, x, KeyOf(h));
  }

  lemma Acknowledged(net: Net, i: Addr, x: Addr, h: Hdr) returns (net': Net)
    requires Inv(net) && i < |net.stations| && x < |net.stations| && x != i
    requires net.stations[i].tx == Some(Tx(x, h.(copies := h.copies / 2), true))
    requires EntryOf(net.stations[i].node, KeyOf(h)) == Some(Entry(Ready, h)) && Matched(net.stations[i].node, KeyOf(h))
    ensures var e := DoSent(i); Enabled(net, e) && net' == Next(net, e)
    ensures |net'.stations| == |net.stations| && net'.stations[x] == net.stations[x] && net'.stations[i].tx.None?
    ensures EntryOf(net'.stations[i].node, KeyOf(h)) == Some(Entry(Ready, h.(copies := h.copies - h.copies / 2)))
  {
    var e := DoSent(i);
    assert StationOk(net, i);
    net' := Next(net, e);
    StepEntry(net, e, i, KeyOf(h));
  }

  lemma SpraysAndHears(net: Net, i: Addr, x: Addr, h: Hdr, alloc: Option<nat>) returns (n1: Net, n2: Net)
    requires Inv(net) && i < |net.stations| && x < |net.stations| && x != i
    requires Offers(net.stations[i].node, h) && h.copies >= 2 && h.esender != x && h.ereceiver != x
    requires CanTake(net.stations[x].node, KeyOf(h), alloc) && AllocOk(net, x, alloc)
    ensures Enabled(net, DoSpray(i)) && n1 == Next(net, DoSpray(i))
    ensures var e := DoSprayRecv(x, i, h, alloc); Enabled(n1, e) && n2 == Next(n1, e) && Inv(n2)
    ensures |n2.stations| == |net.stations| && n2.stations[i] == net.stations[i]
    ensures EntryOf(net.stations[i].node, KeyOf(h)) == Some(Entry(Ready, h))
    ensures var r := AskHdr(net.stations[x].node, h);
            Request(x, i, r) in n2.requests && KeyOf(r) == KeyOf(h) && IsDtn(r)
    ensures var was := EntryOf(n2.stations[x].node, KeyOf(h)); was.Some? && was.value.hdr.copies == 0
  {
    OfferedEntry(net, i, h);
    n1 := Sprays(net, i, h);
    n2 := HearsAndWants(n1, x, i, h, alloc);
  }

  /** The request has been made. */
  lemma Asked(h: History, i: Addr, x: Addr, m: Hdr, alloc: Option<nat>) returns (h': History)
    requires Happened(h) && i < |Last(h).stations| && x < |Last(h).stations| && x != i
    requires Offers(Last(h).stations[i].node, m) && m.copies >= 2 && m.esender != x && m.ereceiver != x
    requires CanTake(Last(h).stations[x].node, KeyOf(m), alloc) && AllocOk(Last(h), x, alloc)
    ensures Happened(h') && h.nets <= h'.nets && Inv(Last(h'))
    ensures h'.events == h.events + [DoSpray(i), DoSprayRecv(x, i, m, alloc)]
    ensures |Last(h').stations| == |Last(h).stations| && Last(h').stations[i] == Last(h).stations[i]
    ensures EntryOf(Last(h').stations[i].node, KeyOf(m)) == Some(Entry(Ready, m))
    ensures var r := AskHdr(Last(h).stations[x].node, m);
            Request(x, i, r) in Last(h').requests && KeyOf(r) == KeyOf(m) && IsDtn(r)
    ensures var was := EntryOf(Last(h').stations[x].node, KeyOf(m)); was.Some? && was.value.hdr.copies == 0
  {
    RunInv(h.nets, h.events, |h.events|);
    var n1, n2 := SpraysAndHears(Last(h), i, x, m, alloc);
    h' := ThenTwo(h, DoSpray(i), n1, DoSprayRecv(x, i, m, alloc), n2);
  }

  /** It is answered with half of the copies, and the answer is acknowledged. */
  lemma Answered(h: History, i: Addr, x: Addr, m: Hdr, r: Hdr) returns (h': History)
    requires Happened(h) && Inv(Last(h)) && i < |Last(h).stations| && x < |Last(h).stations| && x != i
    requires Last(h).stations[i].tx.None? && m.copies >= 2 && m.ereceiver != x
    requires EntryOf(Last(h).stations[i].node, KeyOf(m)) == Some(Entry(Ready, m))
    requires Request(x, i, r) in Last(h).requests && KeyOf(r) == KeyOf(m) && IsDtn(r)
    requires var was := EntryOf(Last(h).stations[x].node, KeyOf(m)); was.Some? && was.value.hdr.copies == 0
    ensures Happened(h') && h.nets <= h'.nets
    ensures h'.events == h.events + [DoRequestRecv(i, x, r), DoHandoffRecv(i), DoSent(i)]
    ensures i < |Last(h').stations| && x < |Last(h').stations| && Last(h').stations[i].tx.None?
    ensures EntryOf(Last(h').stations[i].node, KeyOf(m)) == Some(Entry(Ready, m.(copies := m.copies - m.copies / 2)))
    ensures var now := EntryOf(Last(h').stations[x].node, KeyOf(m));
            now.Some? && now.value.status == Ready && now.value.hdr.copies == m.copies / 2
  {
    var n1 := GivesHalf(Last(h), i, x, m, r);
    var n2 := Arrives(n1, i, x, m);
    var n3 := Acknowledged(n2, i, x, m);
    h' := ThenThree(h, DoRequestRecv(i, x, r), n1, DoHandoffRecv(i), n2, DoSent(i), n3);
  }

  /** Main result: in any reachable state, a node with a READY entry of at least two copies and no
      hand-off under way can pass half of them, rounded down, to any node that is neither origin nor
      destination and can take them: spray, request, hand-off and acknowledgement can follow each other,
      and then that node is READY with its half and the first keeps the rest. */
  lemma SpreadPossible(h: History, i: Addr, x: Addr, m: Hdr, alloc: Option<nat>) returns (h': History)
    requires Happened(h) && i < |Last(h).stations| && x < |Last(h).stations| && x != i
    requires Offers(Last(h).stations[i].node, m) && m.copies >= 2 && Last(h).stations[i].tx.None?
    requires m.esender != x && m.ereceiver != x
    requires CanTake(Last(h).stations[x].node, KeyOf(m), alloc) && AllocOk(Last(h), x, alloc)
    ensures Happened(h') && h.nets <= h'.nets
    ensures h'.events == h.events
      + [DoSpray(i), DoSprayRecv(x, i, m, alloc)]
      + [DoRequestRecv(i, x, AskHdr(Last(h).stations[x].node, m)), DoHandoffRecv(i), DoSent(i)]
    ensures i < |Last(h').stations| && x < |Last(h').stations| && Last(h').stations[i].tx.None?
    ensures Count(Last(h').stations[i].node, KeyOf(m)) == m.copies - m.copies / 2
    ensures Count(Last(h').stations[x].node, KeyOf(m)) == m.copies / 2
    ensures QueuedAs(Last(h').stations[x].node, KeyOf(m), Ready)
  {
    var h1 := Asked(h, i, x, m, alloc);
    h' := Answered(h1, i, x, m, AskHdr(Last(h).stations[x].node, m));
  }
}
