/** One node of the binary spray-and-wait network, on values: the packet queue, the pool of
    packet buffers its entries live in, and what every callback does to them.

    A queue entry owns a buffer ("slot") of the pool.  The hand-off lock is a pointer to such
    a buffer and is not cleared when the entry expires, so the pool is modelled explicitly:
    a freed buffer keeps its bytes until something else reuses it. */
module DtnNode {
  import opened Common

  type Addr = nat
  type U16 = x: int | 0 <= x < 0x1_0000

  const DTN_VERSION := 1
  const DTN_L_COPIES: U16 := 8
  const DTN_MAX_HANDOFF: U16 := 4   // half of L: the most one hand-off carries
  const DTN_QUEUE_MAX := 5

  datatype Hdr = Hdr(version: nat, magic0: char, magic1: char, copies: U16,
                     esender: Addr, ereceiver: Addr, epacketid: nat)

  /** What identifies a message: its origin and the origin's packet id. */
  datatype Key = Key(esender: Addr, epacketid: nat)

  datatype Status = Pending | Ready

  datatype Item = Item(slot: nat, status: Status)

  datatype NodeState = NodeState(addr: Addr, q: seq<Item>, bufs: seq<Hdr>, seqno: nat,
                                 handoffQb: Option<nat>, handoffHdr: Hdr)

  predicate ValidHdr(h: Hdr) {
    h.version == DTN_VERSION && h.magic0 == 'S' && h.magic1 == 'W'
  }

  function KeyOf(h: Hdr): Key { Key(h.esender, h.epacketid) }

  /** Entries own distinct buffers of the pool and the lock points into the pool. */
  predicate WellFormed(n: NodeState) {
    && |n.q| <= DTN_QUEUE_MAX
    && (forall i :: 0 <= i < |n.q| ==> n.q[i].slot < |n.bufs|)
    && (forall i, j :: 0 <= i < j < |n.q| ==> n.q[i].slot != n.q[j].slot)
    && (n.handoffQb.Some? ==> n.handoffQb.value < |n.bufs|)
  }

  type Node = n: NodeState | WellFormed(n)
    witness NodeState(0, [], [], 0, None, Hdr(0, ' ', ' ', 0, 0, 0, 0))

  predicate FreeSlot(n: NodeState, slot: nat) {
    slot < |n.bufs| && forall i :: 0 <= i < |n.q| ==> n.q[i].slot != slot
  }

  function HdrAt(n: NodeState, i: nat): Hdr
    requires i < |n.q| && n.q[i].slot < |n.bufs|
  {
    n.bufs[n.q[i].slot]
  }

  /** The first entry, from position i on, that holds message k. */
  function FindFrom(n: NodeState, k: Key, i: nat): (r: Option<nat>)
    requires WellFormed(n) && i <= |n.q|
    ensures r.Some? ==> i <= r.value < |n.q| && KeyOf(HdrAt(n, r.value)) == k
    ensures forall j :: i <= j < (if r.Some? then r.value else |n.q|) ==> KeyOf(HdrAt(n, j)) != k
    decreases |n.q| - i
  {
    if i == |n.q| then None
    else if KeyOf(HdrAt(n, i)) == k then Some(i)
    else FindFrom(n, k, i + 1)
  }

  function Find(n: NodeState, k: Key): (r: Option<nat>)
    requires WellFormed(n)
    ensures r.Some? ==> r.value < |n.q| && KeyOf(HdrAt(n, r.value)) == k
    ensures r.None? ==> forall j :: 0 <= j < |n.q| ==> KeyOf(HdrAt(n, j)) != k
  {
    FindFrom(n, k, 0)
  }

  /** The copies of message k this node holds. */
  function Count(n: NodeState, k: Key): U16
    requires WellFormed(n)
  {
    var i := Find(n, k);
    if i.None? then 0 else HdrAt(n, i.value).copies
  }

  // ----- the primitive changes the callbacks are made of

  function SetCopies(n: NodeState, slot: nat, c: U16): NodeState
    requires slot < |n.bufs|
  {
    n.(bufs := n.bufs[slot := n.bufs[slot].(copies := c)])
  }

  /** packetqueue_enqueue_packetbuf: needs an entry (at most five exist) and a buffer; alloc
      is the free buffer the allocator offers, if any. */
  function Enqueue(n: NodeState, h: Hdr, status: Status, alloc: Option<nat>): (r: Option<NodeState>)
    requires alloc.Some? ==> FreeSlot(n, alloc.value)
  {
    if |n.q| >= DTN_QUEUE_MAX || alloc.None? then None
    else Some(n.(q := n.q + [Item(alloc.value, status)], bufs := n.bufs[alloc.value := h]))
  }

  // ----- the callbacks

  /** The frames one pass of the spray loop broadcasts, from entry i on. */
  function SprayFrom(n: NodeState, i: nat): (r: seq<Hdr>)
    requires WellFormed(n) && i <= |n.q|
    ensures forall h :: h in r ==>
      exists j :: 0 <= j < |n.q| && n.q[j].status == Ready && HdrAt(n, j) == h && h.copies != 0
    decreases |n.q| - i
  {
    if i == |n.q| then []
    else if n.q[i].status == Ready && HdrAt(n, i).copies != 0
    then [HdrAt(n, i)] + SprayFrom(n, i + 1)
    else SprayFrom(n, i + 1)
  }

  function SprayFrames(n: NodeState): seq<Hdr>
    requires WellFormed(n)
  {
    SprayFrom(n, 0)
  }

  datatype SprayOut = SprayOut(n: NodeState, request: Option<Hdr>, recv: Option<Key>)

  function SprayRecv(n: NodeState, h: Hdr, alloc: Option<nat>): (r: SprayOut)
    requires WellFormed(n)
    requires alloc.Some? ==> FreeSlot(n, alloc.value)
    ensures WellFormed(r.n)
  {
    if !ValidHdr(h) || h.esender == n.addr then SprayOut(n, None, None)
    else if h.ereceiver == n.addr then SprayOut(n, Some(h), Some(KeyOf(h)))
    else if h.copies == 1 then SprayOut(n, None, None)
    else
      var i := Find(n, KeyOf(h));
      if i.Some? then
        SprayOut(n, if n.q[i.value].status == Ready then None else Some(h), None)
      else
        var e := Enqueue(n, h.(copies := 0), Pending, alloc);
        if e.None? then SprayOut(n, None, None)
        else SprayOut(e.value, Some(h.(copies := 0)), None)
  }

  datatype RequestOut = RequestOut(n: NodeState, handoff: Option<Hdr>)

  function RequestRecv(n: NodeState, from: Addr, h: Hdr): (r: RequestOut)
    requires WellFormed(n)
    ensures WellFormed(r.n)
  {
    var i := Find(n, KeyOf(h));
    if !ValidHdr(h) || i.None? || n.q[i.value].status != Ready then RequestOut(n, None)
    else
      var e := HdrAt(n, i.value);
      var slot := n.q[i.value].slot;
      if e.ereceiver == from then RequestOut(SetCopies(n, slot, 0), None)
      else if e.copies == 1 || e.copies == 0 || n.handoffQb.Some? then RequestOut(n, None)
      else RequestOut(n.(handoffQb := Some(slot), handoffHdr := e), Some(e.(copies := e.copies / 2)))
  }

  /** The 16-bit sum of two counts, clamped to L. */
  function TopUp(a: U16, b: U16): U16 {
    var s: U16 := (a + b) % 0x1_0000;
    if s > DTN_L_COPIES then DTN_L_COPIES else s
  }

  function HandoffRecv(n: NodeState, h: Hdr): (r: NodeState)
    requires WellFormed(n)
    ensures WellFormed(r)
  {
    var i := Find(n, KeyOf(h));
    if !ValidHdr(h) || i.None? then n
    else
      var slot := n.q[i.value].slot;
      SetCopies(n, slot, TopUp(n.bufs[slot].copies, h.copies))
      .(q := n.q[i.value := Item(slot, Ready)])
  }

  function HandoffSent(n: NodeState): (r: NodeState)
    requires WellFormed(n) && n.handoffQb.Some?
    ensures WellFormed(r)
  {
    var slot := n.handoffQb.value;
    var c := n.bufs[slot].copies;
    (if KeyOf(n.bufs[slot]) == KeyOf(n.handoffHdr) then SetCopies(n, slot, c - c / 2) else n)
    .(handoffQb := None)
  }

  function HandoffTimedOut(n: NodeState): (r: NodeState)
    requires WellFormed(n)
    ensures WellFormed(r)
  {
    n.(handoffQb := None)
  }

  function NewHdr(n: NodeState, to: Addr): Hdr {
    Hdr(DTN_VERSION, 'S', 'W', DTN_L_COPIES, n.addr, to, n.seqno)
  }

  datatype SendOut = SendOut(n: NodeState, ok: bool, recv: Option<Key>)

  function Send(n: NodeState, to: Addr, alloc: Option<nat>): (r: SendOut)
    requires WellFormed(n)
    requires alloc.Some? ==> FreeSlot(n, alloc.value)
    ensures WellFormed(r.n)
  {
    var n' := n.(seqno := n.seqno + 1);
    if to == n.addr then SendOut(n', true, Some(Key(to, n.seqno)))
    else
      var e := Enqueue(n', NewHdr(n, to), Ready, alloc);
      if e.Some? then SendOut(e.value, true, None) else SendOut(n', false, None)
  }

  /** The lifetime timer of an entry fires: the entry goes, its buffer returns to the pool
      with its bytes intact, and a lock pointing at it is left as it is. */
  function Expire(n: NodeState, i: nat): (r: NodeState)
    requires WellFormed(n) && i < |n.q|
    ensures WellFormed(r)
  {
    n.(q := n.q[..i] + n.q[i + 1..])
  }

  /** Some other user of the pool writes to a free buffer. */
  function Overwrite(n: NodeState, slot: nat, h: Hdr): (r: NodeState)
    requires WellFormed(n) && slot < |n.bufs|
    ensures WellFormed(r)
  {
    n.(bufs := n.bufs[slot := h])
  }
}
