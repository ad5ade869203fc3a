/** Properties of whole runs that follow from the invariant. */
module DtnProperties {
  import opened DtnNode
  import opened DtnPotential
  import opened DtnCallbacks
  import opened DtnNetwork
  import opened DtnSafety

  /** In every state of every run a queue holds at most one entry per message; PENDING entries
      are empty and foreign; READY entries hold at most L copies; no node queues a message
      addressed to itself; and every entry is of a message its origin submitted for the
      destination the entry names. */
  lemma QueueStructure(nets: seq<Net>, events: seq<Event>, t: nat, i: Addr)
    requires Run(nets, events) && t < |nets| && i < |nets[t].stations|
    ensures var n := nets[t].stations[i].node;
            && (forall a, b :: 0 <= a < b < |n.q| ==> KeyOf(HdrAt(n, a)) != KeyOf(HdrAt(n, b)))
            && (forall a :: 0 <= a < |n.q| ==>
                  var h := HdrAt(n, a);
                  && (n.q[a].status == Pending ==> h.copies == 0 && h.esender != i)
                  && h.copies <= DTN_L_COPIES && h.ereceiver != i
                  && KeyOf(h) in nets[t].submitted && nets[t].submitted[KeyOf(h)] == h.ereceiver)
  {
    RunInv(nets, events, t);
    assert StationOk(nets[t], i);
    var n := nets[t].stations[i].node;
    forall a | 0 <= a < |n.q|
      ensures var h := HdrAt(n, a);
              && (n.q[a].status == Pending ==> h.copies == 0 && h.esender != i)
              && h.copies <= DTN_L_COPIES && h.ereceiver != i
              && KeyOf(h) in nets[t].submitted && nets[t].submitted[KeyOf(h)] == h.ereceiver
    {
      assert EntryOk(n, a) && EntryKnown(nets[t], n, a);
    }
  }

  /** A recv callback fires only at the destination of a message, and only for a message its
      origin handed to dtn_send, with that destination. */
  lemma CallbackProvenance(nets: seq<Net>, events: seq<Event>, t: nat, r: Received)
    requires Run(nets, events) && t < |nets| && r in nets[t].received
    ensures r.key in nets[t].submitted && nets[t].submitted[r.key] == r.at
    ensures r.key.esender < |nets[t].stations|
            && r.key.epacketid < nets[t].stations[r.key.esender].node.seqno
  {
    RunInv(nets, events, t);
    assert ReceivedOk(nets[t], r) && SubmittedOk(nets[t], r.key);
  }

  /** The lock is held exactly while a hand-off is unreported, so the report never finds it
      empty, and it is for the message handed off. */
  lemma LockHeld(nets: seq<Net>, events: seq<Event>, t: nat, i: Addr)
    requires Run(nets, events) && t < |nets| && i < |nets[t].stations|
    ensures var s := nets[t].stations[i];
            && (s.tx.Some? <==> s.node.handoffQb.Some?)
            && (s.tx.Some? ==> KeyOf(s.tx.value.hdr) == KeyOf(s.node.handoffHdr))
  {
    RunInv(nets, events, t);
    assert StationOk(nets[t], i);
  }

  /** At most one hand-off per node is outstanding: one begins only at a request that finds the
      lock free, and ends only at its own report. */
  lemma OneHandoffAtATime(net: Net, e: Event, i: Addr)
    requires Inv(net) && Enabled(net, e) && i < |net.stations|
    ensures var s, s' := net.stations[i], Next(net, e).stations[i];
            && (s.tx.None? && s'.tx.Some? ==> e.DoRequestRecv? && e.i == i)
            && (s.tx.Some? && s'.tx.Some? ==>
                  s'.tx.value.to == s.tx.value.to && s'.tx.value.hdr == s.tx.value.hdr)
            && (s.tx.Some? && s'.tx.None? ==> (e.DoSent? || e.DoTimedOut? || e.LostAck?) && e.i == i)
  {
    if e.DoRequestRecv? && e.i == i {
      assert StationOk(net, i);
    }
  }

  /** The acknowledgement leaves the queue and the count of every other message alone, however
      often the buffer the lock points at was freed and reused meanwhile, and halves the entry
      of its own message or leaves it. */
  lemma SentTouchesOneMessage(nets: seq<Net>, events: seq<Event>, t: nat, i: Addr, k: Key)
    requires Run(nets, events) && t < |events| && events[t] == DoSent(i)
    ensures var s, s' := nets[t].stations[i], nets[t + 1].stations[i];
            && s'.node.q == s.node.q
            && Count(s'.node, k) == if k == KeyOf(s.tx.value.hdr) && Matched(s.node, k)
                                    then (Count(s.node, k) + 1) / 2 else Count(s.node, k)
  {
    RunInv(nets, events, t);
    assert StationOk(nets[t], i);
    HandoffSentEffect(nets[t].stations[i].node, k);
  }

  /** A run can be extended by any event that is enabled in its last state. */
  lemma RunExtends(nets: seq<Net>, events: seq<Event>, e: Event, next: Net)
    requires Run(nets, events) && Enabled(nets[|events|], e) && next == Next(nets[|events|], e)
    ensures Run(nets + [next], events + [e])
  {
    var nets', events' := nets + [next], events + [e];
    forall t | 0 <= t < |events'|
      ensures Enabled(nets'[t], events'[t]) && nets'[t + 1] == Next(nets'[t], events'[t])
    {
      if t < |events| {
        assert nets'[t] == nets[t] && nets'[t + 1] == nets[t + 1] && events'[t] == events[t];
      }
    }
  }

  // ----- runs built step by step

  datatype History = History(nets: seq<Net>, events: seq<Event>)

  ghost predicate Happened(h: History) { Run(h.nets, h.events) }

  function Last(h: History): Net
    requires |h.nets| == |h.events| + 1
  {
    h.nets[|h.events|]
  }

  lemma Then(h: History, e: Event, net: Net) returns (h': History)
    requires Happened(h) && Enabled(Last(h), e) && net == Next(Last(h), e)
    ensures Happened(h') && Last(h') == net && h'.events == h.events + [e] && h.nets <= h'.nets
  {
    RunExtends(h.nets, h.events, e, net);
    h' := History(h.nets + [net], h.events + [e]);
  }

  lemma ThenTwo(h: History, e1: Event, n1: Net, e2: Event, n2: Net) returns (h': History)
    requires Happened(h) && Enabled(Last(h), e1) && n1 == Next(Last(h), e1) && Enabled(n1, e2) && n2 == Next(n1, e2)
    ensures Happened(h') && Last(h') == n2 && h'.events == h.events + [e1, e2] && h.nets <= h'.nets
  {
    var h1 := Then(h, e1, n1);
    h' := Then(h1, e2, n2);
  }

  lemma ThenThree(h: History, e1: Event, n1: Net, e2: Event, n2: Net, e3: Event, n3: Net) returns (h': History)
    requires Happened(h) && Enabled(Last(h), e1) && n1 == Next(Last(h), e1)
    requires Enabled(n1, e2) && n2 == Next(n1, e2) && Enabled(n2, e3) && n3 == Next(n2, e3)
    ensures Happened(h') && Last(h') == n3 && h'.events == h.events + [e1, e2, e3] && h.nets <= h'.nets
  {
    var h1 := ThenTwo(h, e1, n1, e2, n2);
    h' := Then(h1, e3, n3);
  }
}
