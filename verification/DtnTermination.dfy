/** Spreading of a message stops: a bound on the hand-offs that can ever complete. */
module DtnTermination {
  import opened Common
  import opened DtnNode
  import opened DtnPotential
  import opened DtnCallbacks
  import opened DtnNetwork
  import opened DtnSafety
  import opened DtnConservation
  import opened DtnSpreading

  /** How far a copy at x can still travel: the nodes that can become READY after x. */
  function Weight(o: seq<Addr>, n: nat, x: Addr): nat {
    if x in o && Rank(o, x) < n then n - 1 - Rank(o, x) else 0
  }

  function Products(net: Net, k: Key): (r: seq<int>)
    requires k in net.order
    ensures |r| == |net.stations|
    ensures forall i :: 0 <= i < |r| ==>
      r[i] == Potential(net.stations[i].node, net.stations[i].tx, k) * Weight(net.order[k], |net.stations|, i)
  {
    seq(|net.stations|, i requires 0 <= i < |net.stations| =>
      Potential(net.stations[i].node, net.stations[i].tx, k) * Weight(net.order[k], |net.stations|, i))
  }

  /** The hand-offs of k completed so far, plus the distance its copies can still travel. */
  function Measure(net: Net, k: Key): int
    requires k in net.order
  {
    net.completed[k] + Sum(Products(net, k))
  }

  /** L copies may travel the whole order; each fault adds at most L/2 copies and one hand-off. */
  function Budget(n: nat, faults: nat): int {
    8 * (n - 1) + faults * (4 * (n - 1) + 1)
  }

  ghost predicate Bounded(net: Net, k: Key) {
    k in net.order && k !in net.forgotten ==> Measure(net, k) <= Budget(|net.stations|, net.faults[k])
  }

  lemma BudgetGrows(n: nat, faults: nat)
    requires n >= 1
    ensures Budget(n, faults) >= 8 * (n - 1)
    ensures Budget(n, faults + 1) == Budget(n, faults) + 4 * (n - 1) + 1
  {
    Distribute(faults, 1, 4 * (n - 1) + 1);
    ScaleMonotone(0, faults, 4 * (n - 1) + 1);
  }

  lemma ScaleMonotone(a: int, b: int, w: nat)
    requires a <= b
    ensures a * w <= b * w
  {
  }

  lemma SumTwoChange(xs: seq<int>, ys: seq<int>, a: nat, b: nat)
    requires |xs| == |ys| && a < |xs| && b < |xs| && a != b
    requires forall i :: 0 <= i < |xs| && i != a && i != b ==> ys[i] <= xs[i]
    ensures Sum(ys) <= Sum(xs) - xs[a] - xs[b] + ys[a] + ys[b]
  {
    var mid := xs[a := ys[a]];
    SumUpdate(xs, a, ys[a]);
    SumUpdate(mid, b, ys[b]);
    SumMonotone(ys, mid[b := ys[b]]);
  }

  /** No potential grows and the order stands still: the measure cannot grow. */
  lemma MeasureShrinks(net: Net, net': Net, k: Key)
    requires k in net.order && k in net'.order && net'.order[k] == net.order[k]
    requires net'.completed[k] == net.completed[k] && Shrinks(net, net', k)
    ensures Measure(net', k) <= Measure(net, k)
  {
    forall i | 0 <= i < |net.stations| ensures Products(net', k)[i] <= Products(net, k)[i] {
      ScaleMonotone(Potential(net'.stations[i].node, net'.stations[i].tx, k),
                    Potential(net.stations[i].node, net.stations[i].tx, k),
                    Weight(net.order[k], |net.stations|, i));
    }
    SumMonotone(Products(net', k), Products(net, k));
  }

  /** The arithmetic of one completed hand-off of s copies: the sender gives up at least s at a
      distance wa, the addressee gains at most s at a smaller distance wx. */
  lemma HandoffArithmetic(pa: nat, pa': nat, px: nat, px': nat, s: nat, wa: nat, wxOld: nat, wx: nat)
    requires s >= 1 && pa' + s <= pa && px' <= px + s && wx + 1 <= wa
    requires wxOld == wx || px == 0
    ensures pa' * wa + px' * wx + 1 <= pa * wa + px * wxOld
  {
    ScaleMonotone(pa' + s, pa, wa);
    Distribute(pa', s, wa);
    ScaleMonotone(px', px + s, wx);
    Distribute(px, s, wx);
    ScaleMonotone(wx + 1, wa, s);
    Distribute(wx, 1, s);
  }

  lemma Distribute(a: int, b: int, w: int)
    ensures (a + b) * w == a * w + b * w
  {
  }

  /** A node that is not READY accounts for no copies. */
  lemma NotReadyNoPotential(net: Net, i: Addr, k: Key)
    requires Inv(net) && k in net.order && OrderOk(net, k)
    requires i < |net.stations| && i !in net.order[k]
    ensures Potential(net.stations[i].node, net.stations[i].tx, k) == 0
  {
    var s := net.stations[i];
    assert StationOk(net, i);
    if Find(s.node, k).Some? {
      assert EntryOk(s.node, Find(s.node, k).value);
    }
    assert forall h :: h in net.handoffs && KeyOf(h.hdr) == k ==> h.from in net.order[k];
  }

  /** Every READY node but the last one in the order has some way to go. */
  lemma RanksFit(net: Net, k: Key)
    requires k in net.order && OrderOk(net, k)
    ensures |net.order[k]| <= |net.stations|
  {
    Pigeonhole(net.order[k], Range(|net.stations|));
  }

  /** The addressee's and everyone else's distance before and after it becomes READY. */
  lemma WeightsAfter(net: Net, net': Net, a: Addr, x: Addr, k: Key)
    requires k in net.order && OrderOk(net, k) && k in net'.order && OrderOk(net', k)
    requires |net'.stations| == |net.stations|
    requires net'.order[k] == if x in net.order[k] then net.order[k] else net.order[k] + [x]
    requires Rank(net.order[k], a) < Rank(net.order[k], x) && x < |net.stations|
    ensures var n := |net.stations|;
            && Weight(net'.order[k], n, a) == Weight(net.order[k], n, a)
            && Weight(net'.order[k], n, x) + 1 <= Weight(net.order[k], n, a)
            && (x in net.order[k] ==> Weight(net'.order[k], n, x) == Weight(net.order[k], n, x))
  {
    var o := net.order[k];
    RanksFit(net', k);
    RankAppend(o, x, a);
    RankAppend(o, x, x);
  }

  lemma WeightsElsewhere(o: seq<Addr>, n: nat, x: Addr, i: Addr)
    requires i != x
    ensures Weight(o + [x], n, i) == Weight(o, n, i)
  {
    RankAppend(o, x, i);
  }

  /** What one completed hand-off does to the potentials, the order and the counter. */
  lemma HandoffPotentials(net: Net, a: Addr, k: Key)
    requires Inv(net) && CanHandoffRecv(net, a) && k in net.order
    requires KeyOf(net.stations[a].tx.value.hdr) == k
    requires Find(net.stations[net.stations[a].tx.value.to].node, k).Some?
    ensures var net' := HandoffRecvNext(net, a);
            var p, p' := Potentials(net, k), Potentials(net', k);
            var t := net.stations[a].tx.value;
            && t.to != a && 1 <= t.hdr.copies
            && (forall i :: 0 <= i < |p| && i != a && i != t.to ==> p'[i] == p[i])
            && p'[a] + t.hdr.copies <= p[a] && p'[t.to] <= p[t.to] + t.hdr.copies
  {
    assert StationOk(net, a);
    var t := net.stations[a].tx.value;
    assert HandoffOk(net, Handoff(a, t.to, t.hdr));
    MarkPotential(net, a, k);
    DeliveredFlagKeeps(net, a);
    DeliverPotentials(MarkDelivered(net, a), t.to, t.hdr);
  }

  lemma DeliverPotentials(net: Net, to: Addr, h: Hdr)
    requires Inv(net) && to < |net.stations| && ValidHdr(h) && h.copies <= DTN_L_COPIES
    ensures var net', k := Deliver(net, to, h), KeyOf(h);
            && (forall i :: 0 <= i < |net.stations| && i != to ==> net'.stations[i] == net.stations[i])
            && Potential(net'.stations[to].node, net'.stations[to].tx, k)
               <= Potential(net.stations[to].node, net.stations[to].tx, k) + h.copies
  {
    assert StationOk(net, to);
    HandoffRecvEffect(net.stations[to].node, h, net.stations[to].tx, KeyOf(h));
  }

  /** The order and the counter after a completed hand-off. */
  lemma HandoffHistory(net: Net, a: Addr, k: Key)
    requires Inv(net) && CanHandoffRecv(net, a) && k in net.order
    requires KeyOf(net.stations[a].tx.value.hdr) == k
    requires Find(net.stations[net.stations[a].tx.value.to].node, k).Some?
    ensures var net' := HandoffRecvNext(net, a);
            var to := net.stations[a].tx.value.to;
            && net'.completed[k] == net.completed[k] + 1 && k in net'.order
            && net'.order[k] == if to in net.order[k] then net.order[k] else net.order[k] + [to]
  {
    assert StationOk(net, a);
    var t := net.stations[a].tx.value;
    assert HandoffOk(net, Handoff(a, t.to, t.hdr));
  }

  /** A completed hand-off moves copies down the order, so it uses up the measure. */
  lemma HandoffMeasure(net: Net, a: Addr, k: Key)
    requires Inv(net) && SpreadInv(net, k) && CanHandoffRecv(net, a)
    requires k in net.order && k !in net.forgotten
    requires KeyOf(net.stations[a].tx.value.hdr) == k
    requires Find(net.stations[net.stations[a].tx.value.to].node, k).Some?
    ensures var net' := HandoffRecvNext(net, a);
            k in net'.order && Measure(net', k) <= Measure(net, k)
  {
    assert StationOk(net, a);
    var t := net.stations[a].tx.value;
    var x := t.to;
    var net' := HandoffRecvNext(net, a);
    NextSpread(net, DoHandoffRecv(a), k);
    HandoffPotentials(net, a, k);
    HandoffHistory(net, a, k);
    WeightsAfter(net, net', a, x, k);
    if x !in net.order[k] {
      NotReadyNoPotential(net, x, k);
    }
    WeighedDown(net, net', a, x, t.hdr.copies, k);
  }

  /** The sum behind HandoffMeasure: only a and x change, and x lies further down than a. */
  lemma WeighedDown(net: Net, net': Net, a: Addr, x: Addr, s: nat, k: Key)
    requires k in net.order && k in net'.order && |net'.stations| == |net.stations|
    requires a < |net.stations| && x < |net.stations| && a != x && s >= 1
    requires net'.order[k] == if x in net.order[k] then net.order[k] else net.order[k] + [x]
    requires net'.completed[k] == net.completed[k] + 1
    requires var p, p' := Potentials(net, k), Potentials(net', k);
             && (forall i :: 0 <= i < |p| && i != a && i != x ==> p'[i] == p[i])
             && p'[a] + s <= p[a] && p'[x] <= p[x] + s && (x !in net.order[k] ==> p[x] == 0)
    requires var n, o, o' := |net.stations|, net.order[k], net'.order[k];
             && Weight(o', n, a) == Weight(o, n, a) && Weight(o', n, x) + 1 <= Weight(o, n, a)
             && (x in o ==> Weight(o', n, x) == Weight(o, n, x))
    ensures Measure(net', k) <= Measure(net, k)
  {
    var n, o, o' := |net.stations|, net.order[k], net'.order[k];
    var p, p' := Potentials(net, k), Potentials(net', k);
    HandoffArithmetic(p[a], p'[a], p[x], p'[x], s, Weight(o, n, a), Weight(o, n, x), Weight(o', n, x));
    forall i | 0 <= i < n && i != a && i != x ensures Products(net', k)[i] <= Products(net, k)[i] {
      WeightsElsewhere(o, n, x, i);
      assert p'[i] == p[i];
    }
    SumTwoChange(Products(net, k), Products(net', k), a, x);
  }

  /** At submission all copies sit at the origin, first in the order. */
  lemma FreshMeasure(net: Net, i: Addr, to: Addr, alloc: Option<nat>)
    requires Inv(net) && CanSend(net, i, alloc)
    requires to != i && Send(net.stations[i].node, to, alloc).ok
    requires SpreadInv(net, Key(i, net.stations[i].node.seqno))
    ensures var net' := SendNext(net, i, to, alloc);
            var k := Key(i, net.stations[i].node.seqno);
            k in net'.order && Measure(net', k) <= 8 * (|net.stations| - 1)
  {
    var k := Key(i, net.stations[i].node.seqno);
    var net' := SendNext(net, i, to, alloc);
    FreshPotential(net, i, to, alloc);
    assert net'.order[k] == [i] && net'.completed[k] == 0;
    OnlyOriginWeighs(net', i, k);
  }

  /** Only the origin is in the order, and it accounts for at most L. */
  lemma OnlyOriginWeighs(net: Net, i: Addr, k: Key)
    requires i < |net.stations| && k in net.order && net.order[k] == [i]
    requires Potential(net.stations[i].node, net.stations[i].tx, k) <= DTN_L_COPIES
    ensures Sum(Products(net, k)) <= 8 * (|net.stations| - 1)
  {
    var n := |net.stations|;
    var zeros := seq(n, _ => 0);
    SumZero(zeros);
    SumUpdate(zeros, i, 8 * (n - 1));
    assert Weight([i], n, i) == n - 1;
    ScaleMonotone(Potential(net.stations[i].node, net.stations[i].tx, k), 8, n - 1);
    forall j | 0 <= j < n ensures Products(net, k)[j] <= zeros[i := 8 * (n - 1)][j] {
      assert j != i ==> Weight([i], n, j) == 0;
    }
    SumMonotone(Products(net, k), zeros[i := 8 * (n - 1)]);
  }

  /** The order and the counters of k stand still. */
  ghost predicate SameFor(net: Net, net': Net, k: Key) {
    && (k in net'.order <==> k in net.order) && (k in net.order ==> net'.order[k] == net.order[k])
    && net'.completed[k] == net.completed[k] && net.forgotten <= net'.forgotten
    && net'.faults[k] == net.faults[k]
  }

  lemma QuietSendHistory(net: Net, i: Addr, to: Addr, alloc: Option<nat>, k: Key)
    requires Inv(net) && CanSend(net, i, alloc) && k != Key(i, net.stations[i].node.seqno)
    ensures SameFor(net, SendNext(net, i, to, alloc), k)
  {
    assert StationOk(net, i);
  }

  lemma QuietDeliverHistory(net: Net, to: Addr, h: Hdr, k: Key)
    requires to < |net.stations| && (KeyOf(h) != k || Find(net.stations[to].node, k).None?)
    ensures SameFor(net, Deliver(net, to, h), k)
  {
  }

  /** A quiet step leaves the order and the counters of k alone. */
  lemma QuietHistory(net: Net, e: Event, k: Key)
    requires Inv(net) && Enabled(net, e) && Quiet(net, e, k)
    ensures SameFor(net, Next(net, e), k)
  {
    match e
    case DoSend(i, to, alloc) => QuietSendHistory(net, i, to, alloc, k);
    case DoHandoffRecv(i) =>
      assert StationOk(net, i);
      var t := net.stations[i].tx.value;
      assert HandoffOk(net, Handoff(i, t.to, t.hdr));
      QuietDeliverHistory(MarkDelivered(net, i), t.to, t.hdr, k);
    case Redelivered(from, to, hdr) => QuietDeliverHistory(net, to, hdr, k);
    case _ =>
  }

  // ----- faults of the hand-off channel

  /** One node's account rises by at most s, and if the order grows it is by that node, which
      accounted for nothing: the products rise by at most s times the longest way. */
  lemma OneRises(net: Net, net': Net, x: Addr, s: nat, k: Key)
    requires k in net.order && k in net'.order && |net'.stations| == |net.stations| && x < |net.stations|
    requires var p, p' := Potentials(net, k), Potentials(net', k);
             && (forall i :: 0 <= i < |p| && i != x ==> p'[i] == p[i]) && p'[x] <= p[x] + s
             && (net'.order[k] == net.order[k] || (net'.order[k] == net.order[k] + [x] && p[x] == 0))
    ensures Sum(Products(net', k)) <= Sum(Products(net, k)) + s * (|net.stations| - 1)
  {
    var n, o, o' := |net.stations|, net.order[k], net'.order[k];
    var p, p' := Potentials(net, k), Potentials(net', k);
    var w, w' := Weight(o, n, x), Weight(o', n, x);
    ProductRises(p[x], p'[x], s, w, w', n - 1);
    forall i | 0 <= i < n && i != x ensures Products(net', k)[i] <= Products(net, k)[i] {
      WeightsElsewhere(o, n, x, i);
      assert p'[i] == p[i];
    }
    var mid := Products(net, k)[x := p'[x] * w'];
    SumUpdate(Products(net, k), x, p'[x] * w');
    SumMonotone(Products(net', k), mid);
  }

  lemma ProductRises(p: nat, p': nat, s: nat, w: nat, w': nat, most: nat)
    requires p' <= p + s && w' <= most && (w' == w || p == 0)
    ensures p' * w' <= p * w + s * most
  {
    ScaleMonotone(p', p + s, w');
    Distribute(p, s, w');
    ScaleMonotone(w', most, s);
  }

  lemma LostAckMeasure(net: Net, i: Addr)
    requires Inv(net) && InProgress(net, i, true) && KeyOf(net.stations[i].tx.value.hdr) in net.order
    ensures var k, net' := KeyOf(net.stations[i].tx.value.hdr), LostAckNext(net, i);
            && k in net'.order && net'.faults[k] == net.faults[k] + 1 && net'.forgotten == net.forgotten
            && Measure(net', k) <= Measure(net, k) + 4 * (|net.stations| - 1)
  {
    assert StationOk(net, i);
    var s := net.stations[i];
    var k := KeyOf(s.tx.value.hdr);
    TimedOutPotential(s.node, s.tx, k);
    OneRises(net, LostAckNext(net, i), i, 4, k);
  }

  lemma DeliverHistory(net: Net, to: Addr, h: Hdr)
    requires to < |net.stations|
    ensures KeyOf(h) in Deliver(net, to, h).order <==> KeyOf(h) in net.order
    ensures Deliver(net, to, h).forgotten == net.forgotten
    ensures KeyOf(h) in net.order ==>
            var mid, k := Deliver(net, to, h), KeyOf(h);
            && (mid.order[k] == net.order[k] || mid.order[k] == net.order[k] + [to])
            && (to in net.order[k] ==> mid.order[k] == net.order[k])
            && mid.completed[k] <= net.completed[k] + 1 && mid.forgotten == net.forgotten
            && mid.faults == net.faults
  {
  }

  /** A hand-off that nobody had put copies aside for. */
  lemma UnpaidDelivery(net: Net, to: Addr, h: Hdr)
    requires Inv(net) && SpreadInv(net, KeyOf(h)) && to < |net.stations|
    requires ValidHdr(h) && h.copies <= 4 && KeyOf(h) in net.order && KeyOf(h) !in net.forgotten
    ensures var mid, k := Deliver(net, to, h), KeyOf(h);
            k in mid.order && Measure(mid, k) <= Measure(net, k) + 4 * (|net.stations| - 1) + 1
  {
    var k, mid := KeyOf(h), Deliver(net, to, h);
    DeliverHistory(net, to, h);
    DeliverPotentials(net, to, h);
    if to !in net.order[k] {
      NotReadyNoPotential(net, to, k);
    }
    OneRises(net, mid, to, 4, k);
  }

  lemma RedeliveredMeasure(net: Net, from: Addr, to: Addr, h: Hdr)
    requires Inv(net) && SpreadInv(net, KeyOf(h)) && CanRedeliver(net, from, to, h)
    requires KeyOf(h) in net.order && KeyOf(h) !in net.forgotten
    ensures var k, net' := KeyOf(h), RedeliveredNext(net, from, to, h);
            && k in net'.order && net'.faults[k] == net.faults[k] + 1 && net'.forgotten == net.forgotten
            && Measure(net', k) <= Measure(net, k) + 4 * (|net.stations| - 1) + 1
  {
    var k, net' := KeyOf(h), RedeliveredNext(net, from, to, h);
    assert HandoffOk(net, Handoff(from, to, h));
    DeliverHistory(net, to, h);
    UnpaidDelivery(net, to, h);
    assert Products(net', k) == Products(Deliver(net, to, h), k);
  }

  // ----- any step

  lemma StepBounded(net: Net, e: Event, k: Key)
    requires Inv(net) && SpreadInv(net, k) && Bounded(net, k) && Enabled(net, e)
    ensures Bounded(Next(net, e), k)
  {
    var net' := Next(net, e);
    if Quiet(net, e, k) {
      QuietHistory(net, e, k);
      QuietShrinks(net, e, k);
      if k in net.order {
        MeasureShrinks(net, net', k);
      }
    } else {
      match e
      case DoSend(i, to, alloc) => SubmissionBounded(net, i, to, alloc);
      case DoHandoffRecv(i) => HandoffBounded(net, i);
      case LostAck(i) => LostAckBounded(net, i);
      case Redelivered(from, to, hdr) => RedeliveredBounded(net, from, to, hdr);
    }
  }

  /** One more fault pays for what one fault may add. */
  lemma FaultBounded(net: Net, net': Net, k: Key)
    requires Bounded(net, k) && k in net.order && k !in net.forgotten && k in net'.order
    requires |net'.stations| == |net.stations| >= 1 && net'.faults[k] == net.faults[k] + 1
    requires Measure(net', k) <= Measure(net, k) + 4 * (|net.stations| - 1) + 1
    ensures Bounded(net', k)
  {
    BudgetGrows(|net.stations|, net.faults[k]);
  }

  lemma LostAckBounded(net: Net, i: Addr)
    requires Inv(net) && InProgress(net, i, true) && Bounded(net, KeyOf(net.stations[i].tx.value.hdr))
    ensures Bounded(LostAckNext(net, i), KeyOf(net.stations[i].tx.value.hdr))
  {
    var k := KeyOf(net.stations[i].tx.value.hdr);
    if k in net.order && k !in net.forgotten {
      LostAckMeasure(net, i);
      FaultBounded(net, LostAckNext(net, i), k);
    }
  }

  lemma RedeliveredHistory(net: Net, from: Addr, to: Addr, h: Hdr)
    requires CanRedeliver(net, from, to, h)
    ensures var k, net' := KeyOf(h), RedeliveredNext(net, from, to, h);
            (k in net'.order <==> k in net.order) && net'.forgotten == net.forgotten
  {
    DeliverHistory(net, to, h);
  }

  lemma RedeliveredBounded(net: Net, from: Addr, to: Addr, h: Hdr)
    requires Inv(net) && CanRedeliver(net, from, to, h) && SpreadInv(net, KeyOf(h)) && Bounded(net, KeyOf(h))
    ensures Bounded(RedeliveredNext(net, from, to, h), KeyOf(h))
  {
    var k, net' := KeyOf(h), RedeliveredNext(net, from, to, h);
    RedeliveredHistory(net, from, to, h);
    if k in net.order && k !in net.forgotten {
      RedeliveredMeasure(net, from, to, h);
      FaultBounded(net, net', k);
    } else {
      assert k !in net'.order || k in net'.forgotten;
    }
  }

  lemma SubmissionBounded(net: Net, i: Addr, to: Addr, alloc: Option<nat>)
    requires Inv(net) && CanSend(net, i, alloc)
    requires SpreadInv(net, Key(i, net.stations[i].node.seqno))
    ensures Bounded(SendNext(net, i, to, alloc), Key(i, net.stations[i].node.seqno))
  {
    FreshPotential(net, i, to, alloc);
    if to != i && Send(net.stations[i].node, to, alloc).ok {
      FreshMeasure(net, i, to, alloc);
      BudgetGrows(|net.stations|, net.faults[Key(i, net.stations[i].node.seqno)]);
    }
  }

  lemma HandoffBounded(net: Net, i: Addr)
    requires Inv(net) && CanHandoffRecv(net, i)
    requires var k := KeyOf(net.stations[i].tx.value.hdr);
             && SpreadInv(net, k) && Bounded(net, k)
             && Find(net.stations[net.stations[i].tx.value.to].node, k).Some?
    ensures Bounded(HandoffRecvNext(net, i), KeyOf(net.stations[i].tx.value.hdr))
  {
    var k := KeyOf(net.stations[i].tx.value.hdr);
    if k in net.order && k !in net.forgotten {
      HandoffMeasure(net, i, k);
    }
  }

  lemma {:induction false} RunBounded(nets: seq<Net>, events: seq<Event>, t: nat, k: Key)
    requires Run(nets, events) && t < |nets|
    ensures Bounded(nets[t], k) && |nets[t].stations| == |nets[0].stations|
  {
    if t > 0 {
      RunBounded(nets, events, t - 1, k);
      RunInv(nets, events, t - 1);
      RunSpread(nets, events, t - 1, k);
      StepBounded(nets[t - 1], events[t - 1], k);
    }
  }

  lemma MeasureCoversCompleted(net: Net, k: Key)
    requires k in net.order
    ensures net.completed[k] <= Measure(net, k)
  {
    var zeros := seq(|net.stations|, _ => 0);
    SumZero(zeros);
    SumMonotone(zeros, Products(net, k));
  }

  /** Main result: in any run of n nodes, however long, a message that no relay has forgotten (no
      READY entry of it expired away from its origin) completes at most L * (n - 1) hand-offs, plus
      L/2 * (n - 1) + 1 for every acknowledgement lost or hand-off repeated: spreading stops. */
  lemma SpreadingStops(nets: seq<Net>, events: seq<Event>, t: nat, k: Key)
    requires Run(nets, events) && t < |nets|
    requires k in nets[t].order && k !in nets[t].forgotten
    ensures var n := |nets[0].stations|;
            nets[t].completed[k] <= 8 * (n - 1) + nets[t].faults[k] * (4 * (n - 1) + 1)
    ensures nets[t].faults[k] == 0 ==> nets[t].completed[k] <= 8 * (|nets[0].stations| - 1)
  {
    RunBounded(nets, events, t, k);
    MeasureCoversCompleted(nets[t], k);
  }
}
