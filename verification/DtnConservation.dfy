/** Copies of a message are never multiplied; each fault of the hand-off channel adds at most L/2. */
module DtnConservation {
  import opened Common
  import opened DtnNode
  import opened DtnPotential
  import opened DtnCallbacks
  import opened DtnNetwork
  import opened DtnSafety

  function Potentials(net: Net, k: Key): (r: seq<int>)
    ensures |r| == |net.stations|
    ensures forall i :: 0 <= i < |r| ==> r[i] == Potential(net.stations[i].node, net.stations[i].tx, k)
  {
    seq(|net.stations|, i requires 0 <= i < |net.stations| =>
      Potential(net.stations[i].node, net.stations[i].tx, k))
  }

  /** The copies of k in the whole network, an unfinished hand-off counted once. */
  function Total(net: Net, k: Key): int { Sum(Potentials(net, k)) }

  /** L for a submitted message, plus L/2 for every fault of a hand-off of it. */
  function Bound(net: Net, k: Key): int {
    (if k in net.submitted then DTN_L_COPIES else 0) + 4 * net.faults[k]
  }

  /** Changing one station changes the total by the change of its potential. */
  lemma TotalSet(net: Net, net': Net, i: Addr, s: Station, k: Key)
    requires i < |net.stations| && net'.stations == net.stations[i := s]
    ensures Total(net', k) == Total(net, k) - Potential(net.stations[i].node, net.stations[i].tx, k)
                              + Potential(s.node, s.tx, k)
  {
    SumUpdate(Potentials(net, k), i, Potential(s.node, s.tx, k));
    assert Potentials(net', k) == Potentials(net, k)[i := Potential(s.node, s.tx, k)];
  }

  lemma TotalSame(net: Net, net': Net, k: Key)
    requires net'.stations == net.stations
    ensures Total(net', k) == Total(net, k)
  {
    assert Potentials(net', k) == Potentials(net, k);
  }

  /** No node accounts for more copies of k than before. */
  ghost predicate Shrinks(net: Net, net': Net, k: Key) {
    && |net'.stations| == |net.stations|
    && forall i :: 0 <= i < |net.stations| ==>
         Potential(net'.stations[i].node, net'.stations[i].tx, k)
         <= Potential(net.stations[i].node, net.stations[i].tx, k)
  }

  /** Only station i changes, and it does not come to account for more. */
  lemma ShrinksAt(net: Net, net': Net, i: Addr, k: Key)
    requires i < |net.stations| && |net'.stations| == |net.stations|
    requires forall j :: 0 <= j < |net.stations| && j != i ==> net'.stations[j] == net.stations[j]
    requires Potential(net'.stations[i].node, net'.stations[i].tx, k)
             <= Potential(net.stations[i].node, net.stations[i].tx, k)
    ensures Shrinks(net, net', k)
  {
  }

  lemma SendShrinks(net: Net, i: Addr, to: Addr, alloc: Option<nat>, k: Key)
    requires Inv(net) && CanSend(net, i, alloc) && k != Key(i, net.stations[i].node.seqno)
    ensures Shrinks(net, SendNext(net, i, to, alloc), k)
  {
    assert StationOk(net, i);
    SendEffect(net.stations[i].node, to, alloc, k);
    SendStations(net, i, to, alloc);
    ShrinksAt(net, SendNext(net, i, to, alloc), i, k);
  }

  lemma SprayRecvShrinks(net: Net, i: Addr, from: Addr, h: Hdr, alloc: Option<nat>, k: Key)
    requires Inv(net) && CanSprayRecv(net, i, from, h, alloc)
    ensures Shrinks(net, SprayRecvNext(net, i, from, h, alloc), k)
  {
    assert StationOk(net, i);
    SprayRecvEffect(net.stations[i].node, h, alloc, net.stations[i].tx, k);
    ShrinksAt(net, SprayRecvNext(net, i, from, h, alloc), i, k);
  }

  lemma RequestShrinks(net: Net, i: Addr, from: Addr, h: Hdr, k: Key)
    requires Inv(net) && CanRequestRecv(net, i, from, h)
    ensures Shrinks(net, RequestRecvNext(net, i, from, h), k)
  {
    assert StationOk(net, i);
    RequestRecvEffect(net.stations[i].node, from, h, net.stations[i].tx, k);
    ShrinksAt(net, RequestRecvNext(net, i, from, h), i, k);
  }

  lemma SentShrinks(net: Net, i: Addr, k: Key)
    requires Inv(net) && CanReportSent(net, i)
    ensures Shrinks(net, SentNext(net, i), k)
  {
    assert StationOk(net, i);
    SentPotential(net.stations[i].node, net.stations[i].tx, k);
    ShrinksAt(net, SentNext(net, i), i, k);
  }

  lemma TimedOutShrinks(net: Net, i: Addr, delivered: bool, k: Key)
    requires Inv(net) && InProgress(net, i, delivered)
    requires delivered ==> k != KeyOf(net.stations[i].tx.value.hdr)
    ensures Shrinks(net, TimedOutNext(net, i), k)
  {
    assert StationOk(net, i);
    TimedOutPotential(net.stations[i].node, net.stations[i].tx, k);
    ShrinksAt(net, TimedOutNext(net, i), i, k);
  }

  lemma ExpireShrinks(net: Net, i: Addr, j: nat, k: Key)
    requires Inv(net) && CanExpire(net, i, j)
    ensures Shrinks(net, ExpireNext(net, i, j), k)
  {
    assert StationOk(net, i);
    ExpirePotential(net.stations[i].node, j, net.stations[i].tx, k);
    ShrinksAt(net, ExpireNext(net, i, j), i, k);
  }

  lemma OverwriteShrinks(net: Net, i: Addr, slot: nat, h: Hdr, k: Key)
    requires Inv(net) && CanOverwrite(net, i, slot)
    ensures Shrinks(net, OverwriteNext(net, i, slot, h), k)
  {
    assert StationOk(net, i);
    OverwritePotential(net.stations[i].node, slot, h, net.stations[i].tx, k);
    ShrinksAt(net, OverwriteNext(net, i, slot, h), i, k);
  }

  lemma DeliverShrinks(net: Net, to: Addr, h: Hdr, k: Key)
    requires Inv(net) && to < |net.stations| && ValidHdr(h) && h.copies <= DTN_L_COPIES
    requires KeyOf(h) != k || Find(net.stations[to].node, k).None?
    ensures Shrinks(net, Deliver(net, to, h), k)
  {
    assert StationOk(net, to);
    HandoffRecvEffect(net.stations[to].node, h, net.stations[to].tx, k);
    ShrinksAt(net, Deliver(net, to, h), to, k);
  }

  /** Marking a hand-off of k delivered takes its copies off its sender's account. */
  lemma MarkPotential(net: Net, i: Addr, k: Key)
    requires Inv(net) && InProgress(net, i, false)
    ensures var s, s' := net.stations[i], MarkDelivered(net, i).stations[i];
            Potential(s'.node, s'.tx, k)
            + (if k == KeyOf(s.tx.value.hdr) then s.tx.value.hdr.copies else 0)
            <= Potential(s.node, s.tx, k)
    ensures Shrinks(net, MarkDelivered(net, i), k)
  {
    ShrinksAt(net, MarkDelivered(net, i), i, k);
  }

  /** A hand-off of another message, or one that finds no entry. */
  lemma QuietHandoff(net: Net, i: Addr, k: Key)
    requires Inv(net) && CanHandoffRecv(net, i)
    requires KeyOf(net.stations[i].tx.value.hdr) != k
          || Find(net.stations[net.stations[i].tx.value.to].node, k).None?
    ensures Shrinks(net, HandoffRecvNext(net, i), k)
  {
    assert StationOk(net, i);
    var t := net.stations[i].tx.value;
    assert HandoffOk(net, Handoff(i, t.to, t.hdr));
    MarkPotential(net, i, k);
    DeliveredFlagKeeps(net, i);
    DeliverShrinks(MarkDelivered(net, i), t.to, t.hdr, k);
    ShrinksTwice(net, MarkDelivered(net, i), HandoffRecvNext(net, i), k);
  }

  lemma ShrinksTwice(net: Net, mid: Net, net': Net, k: Key)
    requires Shrinks(net, mid, k) && Shrinks(mid, net', k)
    ensures Shrinks(net, net', k)
  {
  }

  /** Everything but a submission of k, a completed hand-off of k and a fault of k. */
  predicate Quiet(net: Net, e: Event, k: Key)
    requires Enabled(net, e)
  {
    match e
    case DoSend(i, to, alloc) => k != Key(i, net.stations[i].node.seqno)
    case DoHandoffRecv(i) =>
      (KeyOf(net.stations[i].tx.value.hdr) != k
       || Find(net.stations[net.stations[i].tx.value.to].node, k).None?)
    case LostAck(i) => k != KeyOf(net.stations[i].tx.value.hdr)
    case Redelivered(from, to, hdr) => k != KeyOf(hdr)
    case _ => true
  }

  lemma QuietShrinks(net: Net, e: Event, k: Key)
    requires Inv(net) && Enabled(net, e) && Quiet(net, e, k)
    ensures Shrinks(net, Next(net, e), k)
  {
    match e
    case DoSend(i, to, alloc) => SendShrinks(net, i, to, alloc, k);
    case DoSpray(i) =>
    case DoSprayRecv(i, from, hdr, alloc) => SprayRecvShrinks(net, i, from, hdr, alloc, k);
    case DoRequestRecv(i, from, hdr) => RequestShrinks(net, i, from, hdr, k);
    case DoHandoffRecv(i) => QuietHandoff(net, i, k);
    case DoSent(i) => SentShrinks(net, i, k);
    case DoTimedOut(i) => TimedOutShrinks(net, i, false, k);
    case DoExpire(i, j) => ExpireShrinks(net, i, j, k);
    case DoOverwrite(i, slot, hdr) => OverwriteShrinks(net, i, slot, hdr, k);
    case LostAck(i) => TimedOutShrinks(net, i, true, k);
    case Redelivered(from, to, hdr) =>
      assert HandoffOk(net, Handoff(from, to, hdr));
      DeliverShrinks(net, to, hdr, k);
  }

  // ----- the steps that are not quiet

  /** The step net -> net' creates no copies of k beyond what a submission or a fault allows. */
  ghost predicate Pays(net: Net, net': Net, k: Key) {
    Total(net', k) - Total(net, k) <= Bound(net', k) - Bound(net, k)
  }

  lemma SendPays(net: Net, i: Addr, to: Addr, alloc: Option<nat>)
    requires Inv(net) && CanSend(net, i, alloc)
    ensures Pays(net, SendNext(net, i, to, alloc), Key(i, net.stations[i].node.seqno))
  {
    assert StationOk(net, i);
    var s := net.stations[i];
    var id := Key(i, s.node.seqno);
    FreshPotential(net, i, to, alloc);
    TotalSet(net, SendNext(net, i, to, alloc), i, s.(node := Send(s.node, to, alloc).n), id);
  }

  /** The origin accounts for none of the new message before, and for at most L after. */
  lemma FreshPotential(net: Net, i: Addr, to: Addr, alloc: Option<nat>)
    requires Inv(net) && CanSend(net, i, alloc)
    ensures var s := net.stations[i];
            var id := Key(i, s.node.seqno);
            && id !in net.submitted && s.node.addr == i
            && Potential(s.node, s.tx, id) == 0
            && Potential(Send(s.node, to, alloc).n, s.tx, id) <= DTN_L_COPIES
  {
    assert StationOk(net, i);
    var s := net.stations[i];
    var id := Key(i, s.node.seqno);
    assert id in net.submitted ==> SubmittedOk(net, id);
    SendEffect(s.node, to, alloc, id);
    if s.tx.Some? {
      assert HandoffOk(net, Handoff(i, s.tx.value.to, s.tx.value.hdr));
    }
  }

  lemma DeliverTotal(net: Net, from: Addr, to: Addr, h: Hdr)
    requires Inv(net) && to < |net.stations| && Handoff(from, to, h) in net.handoffs
    ensures Total(Deliver(net, to, h), KeyOf(h)) <= Total(net, KeyOf(h)) + h.copies
  {
    assert HandoffOk(net, Handoff(from, to, h)) && StationOk(net, to);
    var s := net.stations[to];
    if Find(s.node, KeyOf(h)).Some? {
      HandoffRecvEffect(s.node, h, s.tx, KeyOf(h));
      TotalSet(net, Deliver(net, to, h), to, s.(node := HandoffRecv(s.node, h)), KeyOf(h));
    }
  }

  /** The hand-off that arrives was already paid for by its sender. */
  lemma HandoffPays(net: Net, i: Addr)
    requires Inv(net) && CanHandoffRecv(net, i)
    ensures Pays(net, HandoffRecvNext(net, i), KeyOf(net.stations[i].tx.value.hdr))
  {
    assert StationOk(net, i);
    var t := net.stations[i].tx.value;
    var mid := MarkDelivered(net, i);
    DeliveredFlagKeeps(net, i);
    MarkPotential(net, i, KeyOf(t.hdr));
    TotalSet(net, mid, i, mid.stations[i], KeyOf(t.hdr));
    DeliverTotal(mid, i, t.to, t.hdr);
  }

  /** A lost acknowledgement costs at most half of L. */
  lemma LostAckPays(net: Net, i: Addr)
    requires Inv(net) && InProgress(net, i, true)
    ensures Pays(net, LostAckNext(net, i), KeyOf(net.stations[i].tx.value.hdr))
  {
    assert StationOk(net, i);
    var s := net.stations[i];
    TimedOutPotential(s.node, s.tx, KeyOf(s.tx.value.hdr));
    TotalSet(net, LostAckNext(net, i), i, Station(HandoffTimedOut(s.node), None), KeyOf(s.tx.value.hdr));
  }

  /** So does a hand-off that arrives again or after it was reported lost. */
  lemma RedeliveredPays(net: Net, from: Addr, to: Addr, h: Hdr)
    requires Inv(net) && CanRedeliver(net, from, to, h)
    ensures Pays(net, RedeliveredNext(net, from, to, h), KeyOf(h))
  {
    assert HandoffOk(net, Handoff(from, to, h));
    DeliverTotal(net, from, to, h);
    TotalSame(Deliver(net, to, h), RedeliveredNext(net, from, to, h), KeyOf(h));
  }

  /** A quiet step leaves the bound of k alone. */
  lemma QuietPays(net: Net, e: Event, k: Key)
    requires Inv(net) && Enabled(net, e) && Quiet(net, e, k)
    ensures Pays(net, Next(net, e), k)
  {
    QuietShrinks(net, e, k);
    SumMonotone(Potentials(Next(net, e), k), Potentials(net, k));
    QuietBound(net, e, k);
  }

  lemma QuietSendBound(net: Net, i: Addr, to: Addr, alloc: Option<nat>, k: Key)
    requires Inv(net) && CanSend(net, i, alloc) && k != Key(i, net.stations[i].node.seqno)
    ensures Bound(SendNext(net, i, to, alloc), k) == Bound(net, k)
  {
    assert StationOk(net, i);
  }

  lemma QuietBound(net: Net, e: Event, k: Key)
    requires Inv(net) && Enabled(net, e) && Quiet(net, e, k)
    ensures Bound(Next(net, e), k) == Bound(net, k)
  {
    match e
    case DoSend(i, to, alloc) => QuietSendBound(net, i, to, alloc, k);
    case DoHandoffRecv(i) => assert SameBooks(net, HandoffRecvNext(net, i));
    case LostAck(i) => assert LostAckNext(net, i).submitted == net.submitted;
    case Redelivered(from, to, hdr) => assert RedeliveredNext(net, from, to, hdr).submitted == net.submitted;
    case _ => assert SameBooks(net, Next(net, e));
  }

  /** One step: the total of a message grows only when it is submitted or the channel fails. */
  lemma StepPays(net: Net, e: Event, k: Key)
    requires Inv(net) && Enabled(net, e)
    ensures Pays(net, Next(net, e), k)
  {
    if Quiet(net, e, k) {
      QuietPays(net, e, k);
    } else {
      match e
      case DoSend(i, to, alloc) => SendPays(net, i, to, alloc);
      case DoHandoffRecv(i) => HandoffPays(net, i);
      case LostAck(i) => LostAckPays(net, i);
      case Redelivered(from, to, hdr) => RedeliveredPays(net, from, to, hdr);
    }
  }

  lemma {:induction false} RunConserved(nets: seq<Net>, events: seq<Event>, t: nat, k: Key)
    requires Run(nets, events) && t < |nets|
    ensures Total(nets[t], k) <= Bound(nets[t], k)
  {
    if t == 0 {
      SumZero(Potentials(nets[0], k));
    } else {
      RunConserved(nets, events, t - 1, k);
      RunInv(nets, events, t - 1);
      StepPays(nets[t - 1], events[t - 1], k);
    }
  }

  // ----- what conservation means for the queues themselves

  /** What node i really holds of k: its entry, halved when its hand-off of k was delivered and
      only the acknowledgement is missing. */
  function Holding(s: Station, k: Key): nat {
    var c := Count(s.node, k);
    if s.tx.Some? && KeyOf(s.tx.value.hdr) == k && s.tx.value.delivered && Matched(s.node, k)
    then (c + 1) / 2 else c
  }

  function Holdings(net: Net, k: Key): (r: seq<int>)
    ensures |r| == |net.stations|
    ensures forall i :: 0 <= i < |r| ==> r[i] == Holding(net.stations[i], k)
  {
    seq(|net.stations|, i requires 0 <= i < |net.stations| => Holding(net.stations[i], k))
  }

  /** One for every node that holds a copy. */
  function Holders(net: Net, k: Key): (r: seq<int>)
    ensures |r| == |net.stations|
    ensures forall i :: 0 <= i < |r| ==> r[i] == if Holding(net.stations[i], k) > 0 then 1 else 0
  {
    seq(|net.stations|, i requires 0 <= i < |net.stations| =>
      if Holding(net.stations[i], k) > 0 then 1 else 0)
  }

  /** Main result.  In every state of every run, whatever is lost, reordered, repeated, expired
      or overwritten, the copies of a message in all queues total at most L plus L/2 for every
      hand-off whose acknowledgement was lost after delivery or that arrived a second time; so
      without such faults at most L nodes hold the message. */
  lemma CopiesConserved(nets: seq<Net>, events: seq<Event>, t: nat, k: Key)
    requires Run(nets, events) && t < |nets|
    ensures Sum(Holdings(nets[t], k)) <= Bound(nets[t], k)
    ensures Sum(Holders(nets[t], k)) <= Bound(nets[t], k)
    ensures nets[t].faults[k] == 0 ==> Sum(Holders(nets[t], k)) <= Sum(Holdings(nets[t], k)) <= DTN_L_COPIES
  {
    RunConserved(nets, events, t, k);
    SumMonotone(Holdings(nets[t], k), Potentials(nets[t], k));
    SumMonotone(Holders(nets[t], k), Holdings(nets[t], k));
  }
}
