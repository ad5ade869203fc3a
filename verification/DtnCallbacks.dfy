/** Every callback, one node at a time: the queue structure it keeps, what it does to the count of
    every message, and its exact effect on the potential, whatever state the entry is in when the
    hand-off is acknowledged or times out. */
module DtnCallbacks {
  import opened Common
  import opened DtnNode
  import opened DtnPotential

  /** Receiving a spray never creates copies: a new entry is PENDING and empty. */
  lemma SprayRecvEffect(n: NodeState, h: Hdr, alloc: Option<nat>, tx: Option<Tx>, k: Key)
    requires NodeInv(n) && LockOk(n, tx)
    requires alloc.Some? ==> FreeSlot(n, alloc.value)
    ensures var n' := SprayRecv(n, h, alloc).n;
            && NodeInv(n') && LockOk(n', tx)
            && n'.addr == n.addr && n'.seqno == n.seqno
            && Count(n', k) == Count(n, k)
            && Potential(n', tx, k) == Potential(n, tx, k)
  {
    var n' := SprayRecv(n, h, alloc).n;
    if n' != n {
      EnqueueKeeps(n, h.(copies := 0), Pending, alloc.value);
      EnqueueEffect(n, h.(copies := 0), Pending, alloc.value, k);
    }
  }

  lemma EnqueueKeeps(n: NodeState, h: Hdr, status: Status, slot: nat)
    requires NodeInv(n) && FreeSlot(n, slot) && |n.q| < DTN_QUEUE_MAX
    requires Find(n, KeyOf(h)).None?
    requires ValidHdr(h) && h.ereceiver != n.addr && h.copies <= DTN_L_COPIES
    requires status == Pending ==> h.copies == 0 && h.esender != n.addr
    requires h.esender == n.addr ==> h.epacketid < n.seqno
    ensures NodeInv(Enqueue(n, h, status, Some(slot)).value)
  {
    var n' := Enqueue(n, h, status, Some(slot)).value;
    EnqueueShape(n, h, status, slot);
    forall j | 0 <= j < |n'.q| ensures EntryOk(n', j) {
      if j < |n.q| {
        assert EntryOk(n, j);
      }
    }
  }

  /** A request from the destination empties the entry. */
  lemma EmptyEntryEffect(n: NodeState, i: nat, tx: Option<Tx>, k: Key)
    requires NodeInv(n) && LockOk(n, tx) && i < |n.q|
    ensures var n' := SetCopies(n, n.q[i].slot, 0);
            NodeInv(n') && LockOk(n', tx) && Potential(n', tx, k) <= Potential(n, tx, k)
  {
    SetCopiesEffect(n, i, 0, k);
    SetCopiesKeeps(n, i, 0);
  }

  /** Starting a hand-off of half the entry changes no potential. */
  lemma StartHandoffEffect(n: NodeState, i: nat, to: Addr, k: Key)
    requires NodeInv(n) && n.handoffQb.None? && i < |n.q| && HdrAt(n, i).copies >= 2
    ensures var e := HdrAt(n, i);
            var n' := n.(handoffQb := Some(n.q[i].slot), handoffHdr := e);
            var tx := Some(Tx(to, e.(copies := e.copies / 2), false));
            NodeInv(n') && LockOk(n', tx) && Potential(n', tx, k) == Potential(n, None, k)
  {
    var n' := n.(handoffQb := Some(n.q[i].slot), handoffHdr := HdrAt(n, i));
    assert EntryOk(n, i);
    LockKeepsQueue(n, n', k);
    FindIs(n, KeyOf(HdrAt(n, i)), i);
  }

  /** A request empties the entry, starts a hand-off of half of it, or does nothing; in no
      case does the potential of any message grow. */
  lemma RequestRecvEffect(n: NodeState, from: Addr, h: Hdr, tx: Option<Tx>, k: Key)
    requires NodeInv(n) && LockOk(n, tx)
    ensures var out := RequestRecv(n, from, h);
            var tx' := if out.handoff.Some? then Some(Tx(from, out.handoff.value, false)) else tx;
            && NodeInv(out.n) && LockOk(out.n, tx')
            && out.n.addr == n.addr && out.n.seqno == n.seqno
            && (out.handoff.Some? ==> tx.None?)
            && Potential(out.n, tx', k) <= Potential(n, tx, k)
  {
    var out := RequestRecv(n, from, h);
    var f := Find(n, KeyOf(h));
    if out.handoff.Some? {
      StartHandoffEffect(n, f.value, from, k);
    } else if out.n != n {
      EmptyEntryEffect(n, f.value, tx, k);
    }
  }

  lemma SetCopiesKeeps(n: NodeState, i: nat, c: U16)
    requires NodeInv(n) && i < |n.q| && c <= DTN_L_COPIES
    requires n.q[i].status == Pending ==> c == 0
    ensures NodeInv(SetCopies(n, n.q[i].slot, c))
  {
    var n' := SetCopies(n, n.q[i].slot, c);
    SetCopiesEffect(n, i, c, KeyOf(HdrAt(n, i)));
    assert forall j :: 0 <= j < |n.q| ==>
      HdrAt(n', j) == if j == i then HdrAt(n, i).(copies := c) else HdrAt(n, j);
    forall j | 0 <= j < |n'.q| ensures EntryOk(n', j) {
      assert EntryOk(n, j);
    }
  }

  /** Only the lock differs between n and n'. */
  lemma LockKeepsQueue(n: NodeState, n': NodeState, k: Key)
    requires NodeInv(n) && WellFormed(n')
    requires n' == n.(handoffQb := n'.handoffQb, handoffHdr := n'.handoffHdr)
    ensures NodeInv(n') && Find(n', k) == Find(n, k) && Count(n', k) == Count(n, k)
  {
    assert forall j :: 0 <= j < |n.q| ==> HdrAt(n', j) == HdrAt(n, j);
    forall j | 0 <= j < |n'.q| ensures EntryOk(n', j) {
      assert EntryOk(n, j);
    }
    if Find(n, k).Some? {
      FindIs(n', k, Find(n, k).value);
    }
  }

  /** What receiving a hand-off does to the queue: the entry of that message becomes READY and
      is topped up to at most L; every other message is untouched. */
  lemma HandoffRecvQueue(n: NodeState, h: Hdr, k: Key)
    requires NodeInv(n) && ValidHdr(h) && h.copies <= DTN_L_COPIES
    ensures var n' := HandoffRecv(n, h);
            && NodeInv(n') && Find(n', k) == Find(n, k)
            && Count(n', k) == if k == KeyOf(h) && Find(n, k).Some?
                               then Min(DTN_L_COPIES, Count(n, k) + h.copies) else Count(n, k)
  {
    var f := Find(n, KeyOf(h));
    if f.Some? {
      var i := f.value;
      var ready := n.(q := n.q[i := Item(n.q[i].slot, Ready)]);
      ReadyKeeps(n, i, k);
      var c := TopUp(HdrAt(n, i).copies, h.copies);
      assert EntryOk(n, i);
      assert HandoffRecv(n, h) == SetCopies(ready, ready.q[i].slot, c);
      SetCopiesEffect(ready, i, c, k);
      SetCopiesKeeps(ready, i, c);
    }
  }

  /** Receiving a hand-off raises the potential of that message by at most what it carries. */
  lemma HandoffRecvEffect(n: NodeState, h: Hdr, tx: Option<Tx>, k: Key)
    requires NodeInv(n) && LockOk(n, tx)
    requires ValidHdr(h) && h.copies <= DTN_L_COPIES
    ensures var n' := HandoffRecv(n, h);
            && NodeInv(n') && LockOk(n', tx)
            && n'.addr == n.addr && n'.seqno == n.seqno
            && Potential(n', tx, k) <= Potential(n, tx, k) + if k == KeyOf(h) then h.copies else 0
  {
    HandoffRecvQueue(n, h, k);
    assert Matched(HandoffRecv(n, h), k) == Matched(n, k);
  }

  lemma ReadyKeeps(n: NodeState, i: nat, k: Key)
    requires NodeInv(n) && i < |n.q|
    ensures var n' := n.(q := n.q[i := Item(n.q[i].slot, Ready)]);
            NodeInv(n') && Find(n', k) == Find(n, k) && Count(n', k) == Count(n, k)
  {
    var n' := n.(q := n.q[i := Item(n.q[i].slot, Ready)]);
    assert forall j :: 0 <= j < |n.q| ==> n'.q[j].slot == n.q[j].slot;
    assert forall j :: 0 <= j < |n.q| ==> HdrAt(n', j) == HdrAt(n, j);
    forall j | 0 <= j < |n'.q| ensures EntryOk(n', j) {
      assert EntryOk(n, j);
    }
    if Find(n, k).Some? {
      FindIs(n', k, Find(n, k).value);
    }
  }

  /** The acknowledgement writes to the buffer the lock points at.  Case one: an entry owns
      that buffer. */
  lemma HandoffSentOwned(n: NodeState, i: nat, k: Key)
    requires NodeInv(n) && i < |n.q| && n.handoffQb == Some(n.q[i].slot)
    requires KeyOf(HdrAt(n, i)) == KeyOf(n.handoffHdr)
    ensures var n' := HandoffSent(n);
            && NodeInv(n') && Find(n', k) == Find(n, k)
            && Count(n', k) == if k == KeyOf(n.handoffHdr) then (Count(n, k) + 1) / 2 else Count(n, k)
  {
    var c := HdrAt(n, i).copies;
    var halved := SetCopies(n, n.q[i].slot, c - c / 2);
    assert EntryOk(n, i);
    SetCopiesEffect(n, i, c - c / 2, k);
    SetCopiesKeeps(n, i, c - c / 2);
    FindIs(n, KeyOf(n.handoffHdr), i);
    LockKeepsQueue(halved, halved.(handoffQb := None), k);
  }

  /** Case two: no entry owns it, and whatever is written there is not part of the queue. */
  lemma HandoffSentFreed(n: NodeState, k: Key)
    requires NodeInv(n) && n.handoffQb.Some? && FreeSlot(n, n.handoffQb.value)
    ensures var n' := HandoffSent(n);
            && NodeInv(n') && Find(n', k) == Find(n, k) && Count(n', k) == Count(n, k)
  {
    var slot := n.handoffQb.value;
    var n1 := HandoffSent(n).(handoffQb := n.handoffQb);
    assert n1 == Overwrite(n, slot, n1.bufs[slot]);
    OverwriteEffect(n, slot, n1.bufs[slot], k);
    OverwriteKeeps(n, slot, n1.bufs[slot]);
    LockKeepsQueue(n1, n1.(handoffQb := None), k);
  }

  /** The acknowledgement halves the entry handed off if the lock still points at it, and
      changes no other message's count, whatever now occupies the buffer. */
  lemma HandoffSentEffect(n: NodeState, k: Key)
    requires NodeInv(n) && n.handoffQb.Some?
    ensures var n' := HandoffSent(n);
            && NodeInv(n') && n'.handoffQb.None? && n'.q == n.q
            && n'.addr == n.addr && n'.seqno == n.seqno && Find(n', k) == Find(n, k)
            && Count(n', k) == if k == KeyOf(n.handoffHdr) && Matched(n, k)
                               then (Count(n, k) + 1) / 2 else Count(n, k)
  {
    var slot := n.handoffQb.value;
    if FreeSlot(n, slot) {
      HandoffSentFreed(n, k);
    } else {
      var i :| 0 <= i < |n.q| && n.q[i].slot == slot;
      if KeyOf(HdrAt(n, i)) == KeyOf(n.handoffHdr) {
        HandoffSentOwned(n, i, k);
        FindIs(n, KeyOf(n.handoffHdr), i);
      } else {
        LockKeepsQueue(n, n.(handoffQb := None), k);
      }
    }
  }

  lemma OverwriteKeeps(n: NodeState, slot: nat, h: Hdr)
    requires NodeInv(n) && FreeSlot(n, slot)
    ensures NodeInv(Overwrite(n, slot, h))
  {
    var n' := Overwrite(n, slot, h);
    assert forall j :: 0 <= j < |n.q| ==> HdrAt(n', j) == HdrAt(n, j);
    forall j | 0 <= j < |n'.q| ensures EntryOk(n', j) {
      assert EntryOk(n, j);
    }
  }

  /** Acknowledging a delivered hand-off settles the potential exactly. */
  lemma SentPotential(n: NodeState, tx: Option<Tx>, k: Key)
    requires NodeInv(n) && LockOk(n, tx) && tx.Some? && tx.value.delivered
    ensures Potential(HandoffSent(n), None, k) == Potential(n, tx, k)
  {
    HandoffSentEffect(n, k);
  }

  /** What a timeout does to the potential of the message handed off: undelivered, the copies come
      back; delivered, the half that will never be given up counts again. */
  function TimedOutChange(n: NodeState, tx: Tx, k: Key): int
    requires WellFormed(n)
  {
    var c := Count(n, k);
    if tx.delivered then if Matched(n, k) then c / 2 else 0
    else if Matched(n, k) then c / 2 - Max(tx.hdr.copies, c / 2)
    else -(tx.hdr.copies as int)
  }

  /** The potential changes by exactly that much; it never grows when a hand-off times out
      undelivered, and by at most half of L when it had been delivered. */
  lemma TimedOutPotential(n: NodeState, tx: Option<Tx>, k: Key)
    requires NodeInv(n) && LockOk(n, tx) && tx.Some?
    ensures var n' := HandoffTimedOut(n);
            && NodeInv(n') && n'.handoffQb.None?
            && Count(n', k) == Count(n, k) && Find(n', k) == Find(n, k)
            && Potential(n', None, k) == Potential(n, tx, k)
               + (if k == KeyOf(tx.value.hdr) then TimedOutChange(n, tx.value, k) else 0)
            && Potential(n', None, k) <= Potential(n, tx, k)
               + (if tx.value.delivered && k == KeyOf(tx.value.hdr) then DTN_MAX_HANDOFF else 0)
  {
    LockKeepsQueue(n, HandoffTimedOut(n), k);
    if Find(n, k).Some? {
      assert EntryOk(n, Find(n, k).value);
    }
  }

  /** Taking the next packet id changes no entry. */
  lemma NextIdKeeps(n: NodeState, k: Key)
    requires NodeInv(n)
    ensures var n1 := n.(seqno := n.seqno + 1);
            && NodeInv(n1) && Find(n1, k) == Find(n, k)
            && Find(n, Key(n.addr, n.seqno)).None?
  {
    var n1 := n.(seqno := n.seqno + 1);
    forall j | 0 <= j < |n.q|
      ensures EntryOk(n1, j) && HdrAt(n1, j) == HdrAt(n, j)
      ensures KeyOf(HdrAt(n, j)) != Key(n.addr, n.seqno)
    {
      assert EntryOk(n, j);
    }
    if Find(n, k).Some? {
      FindIs(n1, k, Find(n, k).value);
    }
  }

  /** dtn_send adds L copies of one message, under an id not used before. */
  lemma SendEffect(n: NodeState, to: Addr, alloc: Option<nat>, k: Key)
    requires NodeInv(n)
    requires alloc.Some? ==> FreeSlot(n, alloc.value)
    ensures var out := Send(n, to, alloc);
            && NodeInv(out.n)
            && out.n.addr == n.addr && out.n.seqno == n.seqno + 1
            && out.n.handoffQb == n.handoffQb && out.n.handoffHdr == n.handoffHdr
            && Find(n, Key(n.addr, n.seqno)).None?
            && Count(out.n, k) == (if k == Key(n.addr, n.seqno) && out.ok && to != n.addr
                                   then DTN_L_COPIES else Count(n, k))
            && (k != Key(n.addr, n.seqno) ==> Matched(out.n, k) == Matched(n, k))
  {
    var n1 := n.(seqno := n.seqno + 1);
    var out := Send(n, to, alloc);
    NextIdKeeps(n, k);
    NextIdKeeps(n, Key(n.addr, n.seqno));
    if out.ok && to != n.addr {
      EnqueueKeeps(n1, NewHdr(n, to), Ready, alloc.value);
      EnqueueEffect(n1, NewHdr(n, to), Ready, alloc.value, k);
    }
  }

  /** Expiry only ever loses copies. */
  lemma ExpirePotential(n: NodeState, i: nat, tx: Option<Tx>, k: Key)
    requires NodeInv(n) && LockOk(n, tx) && i < |n.q|
    ensures var n' := Expire(n, i);
            && NodeInv(n') && LockOk(n', tx)
            && Potential(n', tx, k) <= Potential(n, tx, k)
  {
    ExpireShape(n, i);
    ExpireEffect(n, i, k);
    var n' := Expire(n, i);
    forall j | 0 <= j < |n'.q| ensures EntryOk(n', j) {
      assert EntryOk(n, if j < i then j else j + 1);
    }
  }

  lemma OverwritePotential(n: NodeState, slot: nat, h: Hdr, tx: Option<Tx>, k: Key)
    requires NodeInv(n) && LockOk(n, tx) && FreeSlot(n, slot)
    ensures var n' := Overwrite(n, slot, h);
            && NodeInv(n') && LockOk(n', tx) && Count(n', k) == Count(n, k)
            && Find(n', k) == Find(n, k)
            && Potential(n', tx, k) == Potential(n, tx, k)
  {
    OverwriteEffect(n, slot, h, k);
    OverwriteKeeps(n, slot, h);
  }
}
