/** What one callback does to the queue of its node, message by message: the structure every
    queue keeps, and the potential that pays for the copies of an unfinished hand-off, through
    loss, expiry, top-ups and the reuse of its buffer. */
module DtnPotential {
  import opened Common
  import opened DtnNode

  ghost predicate KeysUnique(n: NodeState)
    requires WellFormed(n)
  {
    forall i, j :: 0 <= i < j < |n.q| ==> KeyOf(HdrAt(n, i)) != KeyOf(HdrAt(n, j))
  }

  /** The structure every queue keeps. */
  ghost predicate EntryOk(n: NodeState, i: nat)
    requires WellFormed(n) && i < |n.q|
  {
    var h := HdrAt(n, i);
    && ValidHdr(h) && h.ereceiver != n.addr && h.copies <= DTN_L_COPIES
    && (n.q[i].status == Pending ==> h.copies == 0 && h.esender != n.addr)
    && (h.esender == n.addr ==> h.epacketid < n.seqno)
  }

  ghost predicate NodeInv(n: NodeState) {
    WellFormed(n) && KeysUnique(n) && forall i :: 0 <= i < |n.q| ==> EntryOk(n, i)
  }

  /** The hand-off a node has in progress: the header it carries, its addressee, and whether the
      addressee has processed it yet. */
  datatype Tx = Tx(to: Addr, hdr: Hdr, delivered: bool)

  /** The lock is held exactly while a hand-off is in progress, for the same message. */
  ghost predicate LockOk(n: NodeState, tx: Option<Tx>) {
    && (tx.Some? <==> n.handoffQb.Some?)
    && (tx.Some? ==>
          && ValidHdr(tx.value.hdr)
          && KeyOf(tx.value.hdr) == KeyOf(n.handoffHdr)
          && 1 <= tx.value.hdr.copies <= DTN_MAX_HANDOFF)
  }

  /** The lock still points at the buffer of the entry that holds k. */
  predicate Matched(n: NodeState, k: Key)
    requires WellFormed(n)
  {
    var i := Find(n, k);
    i.Some? && n.handoffQb == Some(n.q[i.value].slot)
  }

  /** The copies of k that node n accounts for.  While a hand-off of s copies is under way the
      acknowledgement will halve the entry, which holds c now, and the addressee will add s. */
  function Potential(n: NodeState, tx: Option<Tx>, k: Key): nat
    requires WellFormed(n)
  {
    var c := Count(n, k);
    if tx.None? || KeyOf(tx.value.hdr) != k then c
    else if !tx.value.delivered then
      if Matched(n, k) then (c + 1) / 2 + Max(tx.value.hdr.copies, c / 2)
      else c + tx.value.hdr.copies
    else if Matched(n, k) then (c + 1) / 2
    else c
  }

  lemma FindIs(n: NodeState, k: Key, i: nat)
    requires WellFormed(n) && KeysUnique(n)
    requires i < |n.q| && KeyOf(HdrAt(n, i)) == k
    ensures Find(n, k) == Some(i)
  {
  }

  // ----- the primitive changes

  /** Changing the count of one entry changes the count of that message only. */
  lemma SetCopiesEffect(n: NodeState, i: nat, c: U16, k: Key)
    requires WellFormed(n) && KeysUnique(n) && i < |n.q|
    ensures var n' := SetCopies(n, n.q[i].slot, c);
            && WellFormed(n') && KeysUnique(n')
            && Find(n', k) == Find(n, k)
            && Count(n', k) == if KeyOf(HdrAt(n, i)) == k then c else Count(n, k)
  {
    var n' := SetCopies(n, n.q[i].slot, c);
    assert forall j :: 0 <= j < |n.q| ==>
      HdrAt(n', j) == if j == i then HdrAt(n, i).(copies := c) else HdrAt(n, j);
    if KeyOf(HdrAt(n, i)) == k {
      FindIs(n, k, i);
      FindIs(n', k, i);
    } else if Find(n, k).Some? {
      FindIs(n', k, Find(n, k).value);
    }
  }

  /** Writing to a buffer no entry owns changes no count. */
  lemma OverwriteEffect(n: NodeState, slot: nat, h: Hdr, k: Key)
    requires WellFormed(n) && KeysUnique(n) && FreeSlot(n, slot)
    ensures var n' := Overwrite(n, slot, h);
            && WellFormed(n') && KeysUnique(n')
            && Find(n', k) == Find(n, k) && Count(n', k) == Count(n, k)
  {
    var n' := Overwrite(n, slot, h);
    assert forall j :: 0 <= j < |n.q| ==> HdrAt(n', j) == HdrAt(n, j);
    if Find(n, k).Some? {
      FindIs(n', k, Find(n, k).value);
    }
  }

  lemma EnqueueShape(n: NodeState, h: Hdr, status: Status, slot: nat)
    requires WellFormed(n) && KeysUnique(n) && FreeSlot(n, slot) && |n.q| < DTN_QUEUE_MAX
    requires Find(n, KeyOf(h)).None?
    ensures var n' := Enqueue(n, h, status, Some(slot)).value;
            && WellFormed(n') && |n'.q| == |n.q| + 1
            && (forall j :: 0 <= j < |n.q| ==> n'.q[j] == n.q[j] && HdrAt(n', j) == HdrAt(n, j))
            && HdrAt(n', |n.q|) == h && n'.q[|n.q|] == Item(slot, status)
            && KeysUnique(n')
  {
  }

  /** Enqueueing a message not yet queued adds exactly its copies. */
  lemma EnqueueEffect(n: NodeState, h: Hdr, status: Status, slot: nat, k: Key)
    requires WellFormed(n) && KeysUnique(n) && FreeSlot(n, slot) && |n.q| < DTN_QUEUE_MAX
    requires Find(n, KeyOf(h)).None?
    ensures var n' := Enqueue(n, h, status, Some(slot)).value;
            && WellFormed(n') && KeysUnique(n')
            && Find(n', k) == (if k == KeyOf(h) then Some(|n.q|) else Find(n, k))
            && Count(n', k) == if k == KeyOf(h) then h.copies else Count(n, k)
  {
    var n' := Enqueue(n, h, status, Some(slot)).value;
    EnqueueShape(n, h, status, slot);
    if k == KeyOf(h) {
      FindIs(n', k, |n.q|);
    } else if Find(n, k).Some? {
      FindIs(n', k, Find(n, k).value);
    }
  }

  lemma ExpireShape(n: NodeState, i: nat)
    requires WellFormed(n) && i < |n.q|
    ensures var n' := Expire(n, i);
            && WellFormed(n') && |n'.q| == |n.q| - 1
            && (forall j :: 0 <= j < i ==> n'.q[j] == n.q[j] && HdrAt(n', j) == HdrAt(n, j))
            && (forall j :: i <= j < |n'.q| ==> n'.q[j] == n.q[j + 1] && HdrAt(n', j) == HdrAt(n, j + 1))
  {
  }

  lemma ExpireKeepsUnique(n: NodeState, i: nat)
    requires WellFormed(n) && KeysUnique(n) && i < |n.q|
    ensures WellFormed(Expire(n, i)) && KeysUnique(Expire(n, i))
  {
    ExpireShape(n, i);
  }

  /** Expiry removes the copies of one message and touches no other. */
  lemma ExpireEffect(n: NodeState, i: nat, k: Key)
    requires WellFormed(n) && KeysUnique(n) && i < |n.q|
    ensures var n' := Expire(n, i);
            && WellFormed(n') && KeysUnique(n')
            && (Find(n', k).None? <==> Find(n, k).None? || k == KeyOf(HdrAt(n, i)))
            && (k != KeyOf(HdrAt(n, i)) ==> Count(n', k) == Count(n, k) && Matched(n', k) == Matched(n, k))
  {
    var n' := Expire(n, i);
    ExpireShape(n, i);
    ExpireKeepsUnique(n, i);
    var f := Find(n, k);
    if k == KeyOf(HdrAt(n, i)) {
      FindIs(n, k, i);
      assert forall j :: 0 <= j < |n'.q| ==> KeyOf(HdrAt(n', j)) != k;
    } else if f.Some? {
      FindIs(n', k, if f.value < i then f.value else f.value - 1);
    } else {
      assert forall j :: 0 <= j < |n'.q| ==> KeyOf(HdrAt(n', j)) != k;
    }
  }
}
