/** Concrete runs: what a lost acknowledgement costs, and why spreading must not outlive a relay's entry. */
module DtnWitnesses {
  import opened Common
  import opened DtnNode
  import opened DtnPotential
  import opened DtnNetwork
  import opened DtnConservation
  import opened DtnProperties

  // ----- nodes with one buffer, and one message for a destination out of reach

  const MESSAGE := Key(0, 0)
  const FAR: Addr := 3

  function Msg(copies: U16): Hdr { Hdr(DTN_VERSION, 'S', 'W', copies, 0, FAR, 0) }

  predicate Free(s: Station, i: Addr) {
    s.tx.None? && s.node.addr == i && s.node.q == [] && |s.node.bufs| == 1 && s.node.handoffQb.None?
  }

  predicate Has(s: Station, i: Addr, status: Status, c: U16) {
    && s.tx.None? && s.node.addr == i && s.node.handoffQb.None?
    && s.node.q == [Item(0, status)] && s.node.bufs == [Msg(c)]
  }

  /** Half of the c copies are being handed off. */
  predicate Gives(s: Station, i: Addr, c: U16, to: Addr, delivered: bool) {
    && s.tx == Some(Tx(to, Msg(c / 2), delivered)) && s.node.addr == i
    && s.node.handoffQb == Some(0) && KeyOf(s.node.handoffHdr) == MESSAGE
    && s.node.q == [Item(0, Ready)] && s.node.bufs == [Msg(c)]
  }

  /** Nothing is forgotten by the air, no fault happens, and only the stations i and j change. */
  ghost predicate Onward(net: Net, net': Net, i: Addr, j: Addr) {
    && |net'.stations| == |net.stations| && net.sprays <= net'.sprays && net.requests <= net'.requests
    && net'.faults == net.faults && net.submitted.Keys <= net'.submitted.Keys
    && forall x :: 0 <= x < |net.stations| && x != i && x != j ==> net'.stations[x] == net.stations[x]
  }

  lemma OnwardTwice(a: Net, b: Net, c: Net, i: Addr, j: Addr)
    requires Onward(a, b, i, j) && Onward(b, c, i, j)
    ensures Onward(a, c, i, j)
  {
  }

  lemma Holds(n: Node, status: Status, c: U16)
    requires n.q == [Item(0, status)] && n.bufs == [Msg(c)]
    ensures Find(n, MESSAGE) == Some(0) && Count(n, MESSAGE) == c
    ensures status == Ready && c != 0 ==> Msg(c) in SprayFrames(n)
  {
    assert HdrAt(n, 0) == Msg(c);
  }

  // ----- one step at a time

  lemma Submits(net: Net) returns (net': Net)
    requires |net.stations| > 0 && Free(net.stations[0], 0) && net.stations[0].node.seqno == 0
    ensures var e := DoSend(0, FAR, Some(0)); Enabled(net, e) && net' == Next(net, e)
    ensures Has(net'.stations[0], 0, Ready, 8) && Spray(0, Msg(8)) in net'.sprays
    ensures Onward(net, net', 0, 0) && net'.completed == net.completed && MESSAGE in net'.submitted
  {
    net' := Next(net, DoSend(0, FAR, Some(0)));
    var n := Send(net.stations[0].node, FAR, Some(0)).n;
    assert n.q == [Item(0, Ready)] && n.bufs == [Msg(8)];
    Holds(n, Ready, 8);
  }

  lemma Hears(net: Net, i: Addr, from: Addr, c: U16) returns (net': Net)
    requires i < |net.stations| && Free(net.stations[i], i) && i != 0 && i != FAR && from != i
    requires Spray(from, Msg(c)) in net.sprays && c != 1
    ensures var e := DoSprayRecv(i, from, Msg(c), Some(0)); Enabled(net, e) && net' == Next(net, e)
    ensures Has(net'.stations[i], i, Pending, 0) && Request(i, from, Msg(0)) in net'.requests
    ensures Onward(net, net', i, i) && net'.completed == net.completed
  {
    net' := Next(net, DoSprayRecv(i, from, Msg(c), Some(0)));
    var n := net.stations[i].node;
    assert Find(n, MESSAGE).None?;
    var n' := SprayRecv(n, Msg(c), Some(0)).n;
    assert n'.q == [Item(0, Pending)] && n'.bufs == [Msg(0)];
  }

  lemma Asks(net: Net, i: Addr, to: Addr, c: U16) returns (net': Net)
    requires i < |net.stations| && Has(net.stations[i], i, Ready, c) && c >= 2
    requires Request(to, i, Msg(0)) in net.requests && to != FAR
    ensures var e := DoRequestRecv(i, to, Msg(0)); Enabled(net, e) && net' == Next(net, e)
    ensures Gives(net'.stations[i], i, c, to, false)
    ensures Onward(net, net', i, i) && net'.completed == net.completed
  {
    net' := Next(net, DoRequestRecv(i, to, Msg(0)));
    Holds(net.stations[i].node, Ready, c);
    assert HdrAt(net.stations[i].node, 0) == Msg(c);
  }

  lemma ToppedUp(n: Node, status: Status, d: U16, copies: U16)
    requires n.q == [Item(0, status)] && n.bufs == [Msg(d)] && d + copies <= 8 && d + copies > 0
    ensures Find(n, MESSAGE).Some?
    ensures HandoffRecv(n, Msg(copies)) == n.(q := [Item(0, Ready)], bufs := [Msg(d + copies)])
    ensures Msg(d + copies) in SprayFrames(HandoffRecv(n, Msg(copies)))
  {
    Holds(n, status, d);
    assert HdrAt(n, 0) == Msg(d);
    var n' := HandoffRecv(n, Msg(copies));
    assert n'.q == [Item(0, Ready)] && n'.bufs == [Msg(d + copies)];
    Holds(n', Ready, d + copies);
  }

  lemma Arrives(net: Net, i: Addr, to: Addr, c: U16, status: Status, d: U16) returns (net': Net)
    requires i < |net.stations| && to < |net.stations| && i != to
    requires Gives(net.stations[i], i, c, to, false) && Has(net.stations[to], to, status, d)
    requires c >= 2 && d + c / 2 <= 8
    ensures var e := DoHandoffRecv(i); Enabled(net, e) && net' == Next(net, e)
    ensures Gives(net'.stations[i], i, c, to, true) && Has(net'.stations[to], to, Ready, d + c / 2)
    ensures Spray(to, Msg(d + c / 2)) in net'.sprays
    ensures Onward(net, net', i, to) && net'.completed == net.completed + multiset{MESSAGE}
  {
    net' := Next(net, DoHandoffRecv(i));
    ToppedUp(net.stations[to].node, status, d, c / 2);
  }

  lemma Acknowledged(net: Net, i: Addr, to: Addr, c: U16) returns (net': Net)
    requires i < |net.stations| && Gives(net.stations[i], i, c, to, true)
    ensures var e := DoSent(i); Enabled(net, e) && net' == Next(net, e)
    ensures Has(net'.stations[i], i, Ready, c - c / 2)
    ensures Onward(net, net', i, i) && net'.completed == net.completed
  {
    net' := Next(net, DoSent(i));
    assert net'.stations[i].node.bufs == [Msg(c - c / 2)];
  }

  lemma Moves(net: Net, i: Addr, j: Addr, c: U16, status: Status, d: U16) returns (n1: Net, n2: Net, n3: Net)
    requires i < |net.stations| && j < |net.stations| && i != j && j != FAR
    requires Has(net.stations[i], i, Ready, c) && Has(net.stations[j], j, status, d)
    requires c >= 2 && d + c / 2 <= 8 && Request(j, i, Msg(0)) in net.requests
    ensures var e := DoRequestRecv(i, j, Msg(0)); Enabled(net, e) && n1 == Next(net, e)
    ensures var e := DoHandoffRecv(i); Enabled(n1, e) && n2 == Next(n1, e)
    ensures var e := DoSent(i); Enabled(n2, e) && n3 == Next(n2, e)
    ensures Has(n3.stations[i], i, Ready, c - c / 2) && Has(n3.stations[j], j, Ready, d + c / 2)
    ensures Spray(j, Msg(d + c / 2)) in n3.sprays && n1.faults == n2.faults == net.faults
    ensures Onward(net, n3, i, j) && n3.completed == net.completed + multiset{MESSAGE}
  {
    n1 := Asks(net, i, j, c);
    n2 := Arrives(n1, i, j, c, status, d);
    n3 := Acknowledged(n2, i, j, c);
    OnwardTwice(net, n1, n2, i, j);
    OnwardTwice(net, n2, n3, i, j);
  }

  lemma Forgets(net: Net, i: Addr, status: Status, c: U16) returns (net': Net)
    requires i < |net.stations| && Has(net.stations[i], i, status, c)
    ensures var e := DoExpire(i, 0); Enabled(net, e) && net' == Next(net, e)
    ensures Free(net'.stations[i], i) && Onward(net, net', i, i) && net'.completed == net.completed
  {
    net' := Next(net, DoExpire(i, 0));
  }

  // ----- runs of three nodes

  /** A run of three nodes without a channel fault. */
  ghost predicate Calm(h: History) {
    Happened(h) && |h.nets[0].stations| == |Last(h).stations| == 3 && Last(h).faults == multiset{}
  }

  lemma Start() returns (h: History)
    ensures Calm(h) && h.events == []
    ensures Free(Last(h).stations[0], 0) && Free(Last(h).stations[1], 1) && Free(Last(h).stations[2], 2)
    ensures Last(h).stations[0].node.seqno == 0 && Last(h).completed == multiset{}
  {
    var stations := seq(3, i requires 0 <= i < 3 => Station(NodeState(i, [], [Msg(0)], 0, None, Msg(0)), None));
    h := History([Net(stations, {}, {}, {}, map[], {}, map[], multiset{}, {}, multiset{})], []);
  }

  /** A whole hand-off from i to j: asked for, processed, acknowledged. */
  lemma Passes(h: History, i: Addr, j: Addr, c: U16, status: Status, d: U16) returns (h': History)
    requires Calm(h) && i < 3 && j < 3 && i != j
    requires Has(Last(h).stations[i], i, Ready, c) && Has(Last(h).stations[j], j, status, d)
    requires c >= 2 && d + c / 2 <= 8 && Request(j, i, Msg(0)) in Last(h).requests
    ensures Calm(h') && h'.events == h.events + [DoRequestRecv(i, j, Msg(0)), DoHandoffRecv(i), DoSent(i)]
    ensures Has(Last(h').stations[i], i, Ready, c - c / 2) && Has(Last(h').stations[j], j, Ready, d + c / 2)
    ensures Spray(j, Msg(d + c / 2)) in Last(h').sprays
    ensures Onward(Last(h), Last(h'), i, j) && Last(h').completed == Last(h).completed + multiset{MESSAGE}
  {
    var n1, n2, n3 := Moves(Last(h), i, j, c, status, d);
    h' := ThenThree(h, DoRequestRecv(i, j, Msg(0)), n1, DoHandoffRecv(i), n2, DoSent(i), n3);
  }

  lemma NodeHears(h: History, i: Addr, from: Addr, c: U16) returns (h': History)
    requires Calm(h) && 0 < i < 3 && from != i && Free(Last(h).stations[i], i)
    requires Spray(from, Msg(c)) in Last(h).sprays && c != 1
    ensures Calm(h') && h'.events == h.events + [DoSprayRecv(i, from, Msg(c), Some(0))]
    ensures Has(Last(h').stations[i], i, Pending, 0) && Request(i, from, Msg(0)) in Last(h').requests
    ensures Onward(Last(h), Last(h'), i, i) && Last(h').completed == Last(h).completed
  {
    var net := Hears(Last(h), i, from, c);
    h' := Then(h, DoSprayRecv(i, from, Msg(c), Some(0)), net);
  }

  /** Node 0 submits the message and node 1 asks for it. */
  lemma Asked() returns (h: History)
    ensures Calm(h) && forall t :: 0 <= t < |h.events| ==> !h.events[t].DoExpire?
    ensures Has(Last(h).stations[0], 0, Ready, 8) && Has(Last(h).stations[1], 1, Pending, 0)
    ensures Free(Last(h).stations[2], 2) && Request(1, 0, Msg(0)) in Last(h).requests
    ensures MESSAGE in Last(h).submitted
  {
    h := Start();
    var net := Submits(Last(h));
    h := Then(h, DoSend(0, FAR, Some(0)), net);
    h := NodeHears(h, 1, 0, 8);
  }

  // ----- the fault term of the bound is needed

  /** With one lost acknowledgement twelve copies exist, L plus L/2: the bound of
      CopiesConserved is reached, and without its fault term it would be false. */
  lemma LostAckReachesBound() returns (nets: seq<Net>, events: seq<Event>)
    ensures Run(nets, events)
    ensures var last := nets[|events|];
            last.faults[MESSAGE] == 1 && Sum(Holdings(last, MESSAGE)) == 12 == Bound(last, MESSAGE)
  {
    var h := Asked();
    var n1 := Asks(Last(h), 0, 1, 8);
    var n2 := Arrives(n1, 0, 1, 8, Pending, 0);
    h := Then(h, DoRequestRecv(0, 1, Msg(0)), n1);
    h := Then(h, DoHandoffRecv(0), n2);
    AfterLostAck(n2);
    RunExtends(h.nets, h.events, LostAck(0), Next(n2, LostAck(0)));
    nets, events := h.nets + [Next(n2, LostAck(0))], h.events + [LostAck(0)];
  }

  lemma AfterLostAck(net: Net)
    requires |net.stations| == 3 && Gives(net.stations[0], 0, 8, 1, true)
    requires Has(net.stations[1], 1, Ready, 4) && Free(net.stations[2], 2)
    ensures var net' := Next(net, LostAck(0));
            && Enabled(net, LostAck(0)) && net'.faults == net.faults + multiset{MESSAGE}
            && net'.submitted == net.submitted && Sum(Holdings(net', MESSAGE)) == 12
  {
    var net' := Next(net, LostAck(0));
    assert Holdings(net', MESSAGE) == [8, 4, 0] by {
      AfterLostAckNodes(net');
    }
    SumOfThree(8, 4, 0);
  }

  lemma AfterLostAckNodes(net': Net)
    requires |net'.stations| == 3 && Has(net'.stations[0], 0, Ready, 8)
    requires Has(net'.stations[1], 1, Ready, 4) && Free(net'.stations[2], 2)
    ensures Holdings(net', MESSAGE) == [8, 4, 0]
  {
    Holds(net'.stations[0].node, Ready, 8);
    Holds(net'.stations[1].node, Ready, 4);
    assert Find(net'.stations[2].node, MESSAGE).None?;
  }

  lemma SumOfThree(a: int, b: int, c: int)
    ensures Sum([a, b, c]) == a + b + c
  {
    assert [c][1..] == [] && Sum([c]) == c;
    assert [b, c][1..] == [c] && Sum([b, c]) == b + c;
    assert [a, b, c][1..] == [b, c];
  }

  // ----- and so is the hypothesis of SpreadingStops

  /** Nodes 1 and 2 are READY with 3 and 1 copies, and each has once asked the other. */
  ghost predicate Swinging(net: Net) {
    && |net.stations| == 3 && Has(net.stations[1], 1, Ready, 3) && Has(net.stations[2], 2, Ready, 1)
    && Request(1, 2, Msg(0)) in net.requests && Request(2, 1, Msg(0)) in net.requests
  }

  ghost predicate OneExpiry(h: History, x: nat) {
    forall t :: 0 <= t < |h.events| && h.events[t].DoExpire? ==> t == x
  }

  /** Node 0 passes half of the message to node 1, and node 1 half of that to node 2. */
  lemma Spread() returns (h: History)
    ensures Calm(h) && forall t :: 0 <= t < |h.events| ==> !h.events[t].DoExpire?
    ensures Has(Last(h).stations[0], 0, Ready, 4) && Has(Last(h).stations[1], 1, Ready, 2)
    ensures Has(Last(h).stations[2], 2, Ready, 2) && Spray(2, Msg(2)) in Last(h).sprays
    ensures Request(1, 0, Msg(0)) in Last(h).requests && Request(2, 1, Msg(0)) in Last(h).requests
  {
    var h1 := Asked();
    var h2 := Passes(h1, 0, 1, 8, Pending, 0);
    var h3 := NodeHears(h2, 2, 1, 4);
    h := Passes(h3, 1, 2, 4, Pending, 0);
  }

  /** Node 1's entry expires, and node 1 hears of the message again and asks node 2 for it. */
  lemma Forgotten() returns (h: History, x: nat)
    ensures Calm(h) && OneExpiry(h, x)
    ensures Has(Last(h).stations[0], 0, Ready, 4) && Has(Last(h).stations[1], 1, Pending, 0)
    ensures Has(Last(h).stations[2], 2, Ready, 2) && Request(1, 0, Msg(0)) in Last(h).requests
    ensures Request(1, 2, Msg(0)) in Last(h).requests && Request(2, 1, Msg(0)) in Last(h).requests
  {
    var h1 := Spread();
    x := |h1.events|;
    var net := Forgets(Last(h1), 1, Ready, 2);
    var h2 := Then(h1, DoExpire(1, 0), net);
    h := NodeHears(h2, 1, 2, 2);
  }

  lemma StartsSwinging() returns (h: History, x: nat)
    ensures Calm(h) && OneExpiry(h, x) && Swinging(Last(h))
  {
    var h1;
    h1, x := Forgotten();
    var h2 := Passes(h1, 2, 1, 2, Pending, 0);
    h := Passes(h2, 0, 1, 4, Ready, 1);
  }

  /** After one relay's entry has expired, spreading need not stop: for every m there is a run of three
      nodes without a channel fault, and with that one expiry only, that completes m hand-offs of one
      message; the requests each relay once sent the other can be answered for ever. */
  lemma NeverStops(m: nat) returns (nets: seq<Net>, events: seq<Event>, x: nat)
    ensures Run(nets, events) && |nets[0].stations| == 3
    ensures var last := nets[|events|]; last.completed[MESSAGE] >= m && last.faults == multiset{}
    ensures forall t :: 0 <= t < |events| && events[t].DoExpire? ==> t == x
  {
    var h: History;
    h, x := Swings(m);
    nets, events := h.nets, h.events;
  }

  lemma {:induction false} Swings(m: nat) returns (h: History, x: nat)
    ensures Calm(h) && Swinging(Last(h)) && Last(h).completed[MESSAGE] >= m
    ensures OneExpiry(h, x)
  {
    if m == 0 {
      h, x := StartsSwinging();
    } else {
      var h1;
      h1, x := Swings(m - 1);
      var h2 := Passes(h1, 1, 2, 3, Ready, 1);
      h := Passes(h2, 2, 1, 2, Ready, 2);
    }
  }
}
