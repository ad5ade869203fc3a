/** Transmission reports: the host's ring of callbacks, the radio's ring of session ids, and packets between. */
module SessionRings {
  import opened Common

  const SLOTS := 16

  /** Whom to tell about a packet: the callback, its pointer and the packet's attributes. */
  datatype Callback = Callback(cback: int, ptr: int, attrs: seq<int>)

  datatype Ring<T> = Ring(slots: seq<T>, pos: nat)

  ghost predicate RingOk<T>(r: Ring<T>) {
    |r.slots| == 16 && r.pos < 16
  }

  /** Store in the slot at the ring's position, without moving on. */
  function Store<T>(r: Ring<T>, x: T): Ring<T>
    requires RingOk(r)
  {
    r.(slots := r.slots[r.pos := x])
  }

  function Advance<T>(r: Ring<T>): Ring<T> {
    r.(pos := if r.pos + 1 >= 16 then 0 else r.pos + 1)
  }

  // ----- the objects

  class BorderRouter {
    const callbacks: array<Callback>
    var callbackPos: nat

    ghost function State(): Ring<Callback>
      reads this, callbacks
    {
      Ring(callbacks[..], callbackPos)
    }

    ghost predicate Valid()
      reads this
    {
      callbacks.Length == SLOTS && callbackPos < SLOTS
    }

    constructor (none: Callback)
      ensures Valid() && callbackPos == 0
    {
      callbacks, callbackPos := new Callback[SLOTS](_ => none), 0;
    }

    /** setup_callback: the session id goes out with the packet. */
    method SetupCallback(sent: Callback) returns (sid: nat)
      requires Valid()
      modifies this, callbacks
      ensures Valid() && sid == old(callbackPos)
      ensures State() == Advance(Store(old(State()), sent))
    {
      sid := callbackPos;
      callbacks[callbackPos] := sent;
      callbackPos := callbackPos + 1;
      if callbackPos >= SLOTS {
        callbackPos := 0;
      }
    }

    /** packet_sent: whom a report with this session id is passed to. */
    method PacketSent(sessionId: nat) returns (r: Option<Callback>)
      requires Valid()
      ensures r == Told(State(), sessionId)
    {
      r := None;
      if sessionId < SLOTS {
        r := Some(callbacks[sessionId]);
      }
    }
  }

  class SlipRadio {
    const packetIds: array<nat>
    var packetPos: nat

    ghost function State(): Ring<nat>
      reads this, packetIds
    {
      Ring(packetIds[..], packetPos)
    }

    ghost predicate Valid()
      reads this
    {
      packetIds.Length == SLOTS && packetPos < SLOTS
    }

    constructor ()
      ensures Valid() && packetPos == 0
    {
      packetIds, packetPos := new nat[SLOTS](_ => 0), 0;
    }

    /** The send command: the session id is stored; with legal attributes the packet goes on air
        with a pointer to the slot, and the position moves on. */
    method SendCommand(sessionId: nat, legal: bool) returns (slot: Option<nat>)
      requires Valid()
      modifies this, packetIds
      ensures Valid() && slot == if legal then Some(old(packetPos)) else None
      ensures State() == if legal then Advance(Store(old(State()), sessionId)) else Store(old(State()), sessionId)
    {
      packetIds[packetPos] := sessionId;
      if !legal {
        return None;
      }
      slot := Some(packetPos);
      packetPos := packetPos + 1;
      if packetPos >= SLOTS {
        packetPos := 0;
      }
    }

    /** packet_sent: the report carries what the slot holds by then. */
    method PacketSent(slot: nat) returns (sessionId: nat)
      requires Valid() && slot < SLOTS
      ensures sessionId == State().slots[slot]
    {
      sessionId := packetIds[slot];
    }
  }

  function Told(host: Ring<Callback>, sessionId: nat): Option<Callback> {
    if sessionId < |host.slots| then Some(host.slots[sessionId]) else None
  }

  // ----- host and radio together

  datatype Report = Report(sessionId: nat, packet: nat)

  /** sent and frames are, packet by packet, the callback stored and the session id sent; taken are
      the packets the radio put on air; next is the first packet it may still receive; reports are
      all the reports it ever made. */
  datatype World = World(host: Ring<Callback>, sent: seq<Callback>, frames: seq<nat>,
                         radio: Ring<nat>, taken: seq<nat>, slotOf: seq<nat>, next: nat,
                         reports: set<Report>)

  /** Take is a packet reaching the radio, in order but possibly after losses; Complete is the end
      of a transmission, at any later time. */
  datatype Event = Send(cb: Callback) | Take(packet: nat, legal: bool) | Complete(j: nat)

  ghost predicate WorldOk(w: World) {
    && RingOk(w.host) && RingOk(w.radio)
    && |w.frames| == |w.sent| && |w.slotOf| == |w.taken|
    && (forall j :: 0 <= j < |w.slotOf| ==> w.slotOf[j] < 16)
  }

  ghost predicate Enabled(w: World, e: Event) {
    match e
    case Send(_) => true
    case Take(k, _) => w.next <= k < |w.sent|
    case Complete(j) => j < |w.taken|
  }

  function Next(w: World, e: Event): World
    requires WorldOk(w) && Enabled(w, e)
  {
    match e
    case Send(cb) =>
      w.(host := Advance(Store(w.host, cb)), sent := w.sent + [cb], frames := w.frames + [w.host.pos])
    case Take(k, legal) =>
      var radio := Store(w.radio, w.frames[k]);
      if legal then w.(radio := Advance(radio), taken := w.taken + [k], slotOf := w.slotOf + [w.radio.pos], next := k + 1)
      else w.(radio := radio, next := k + 1)
    case Complete(j) => w.(reports := w.reports + {Report(w.radio.slots[w.slotOf[j]], w.taken[j])})
  }

  ghost predicate Init(w: World) {
    && WorldOk(w) && w.host.pos == 0 && w.radio.pos == 0
    && w.sent == [] && w.frames == [] && w.taken == [] && w.slotOf == [] && w.next == 0 && w.reports == {}
  }

  // ----- the host's ring

  /** The newest of n packets with this session id. */
  function Latest(n: nat, sessionId: nat): (k: nat)
    requires sessionId < 16 && sessionId < n
    ensures k < n <= k + 16 && k % 16 == sessionId
  {
    sessionId + (n - 1 - sessionId) / 16 * 16
  }

  lemma LatestIs(n: nat, k: nat)
    requires k < n
    ensures k % 16 < n && (Latest(n, k % 16) == k <==> n <= k + 16)
  {
  }

  ghost predicate HostInv(w: World) {
    && WorldOk(w)
    && w.host.pos == |w.sent| % 16
    && (forall k :: 0 <= k < |w.sent| ==> w.frames[k] == k % 16)
    && (forall s :: 0 <= s < 16 && s < |w.sent| ==> w.host.slots[s] == w.sent[Latest(|w.sent|, s)])
  }

  // ----- the radio's ring

  /** Packets are taken in order, into slots in turn; a slot holds its packet's session id for as
      long as fewer than 16 later packets were received, and each of those was sent later. */
  ghost predicate RadioInv(w: World) {
    && WorldOk(w)
    && w.radio.pos == |w.taken| % 16
    && w.next <= |w.sent|
    && (forall j :: 0 <= j < |w.taken| ==> w.taken[j] < w.next && w.slotOf[j] == j % 16)
    && (forall i, j :: 0 <= i < j < |w.taken| ==> w.taken[i] + (j - i) <= w.taken[j])
    && (forall j :: 0 <= j < |w.taken| && w.next <= w.taken[j] + 16 ==> w.radio.slots[j % 16] == w.frames[w.taken[j]])
  }

  /** A session id that some packet was sent with. */
  predicate IsSession(w: World, sessionId: nat) {
    sessionId < 16 && sessionId < |w.sent|
  }

  /** Whatever overwrites the slot of a packet on air is the session id of another one. */
  ghost predicate SlotsInv(w: World) {
    WorldOk(w) && forall j :: 0 <= j < |w.taken| ==> IsSession(w, w.radio.slots[w.slotOf[j]])
  }

  ghost predicate ReportsInv(w: World) {
    forall r :: r in w.reports ==>
      && r.packet < |w.sent| && IsSession(w, r.sessionId)
      && (|w.sent| <= r.packet + 16 ==> r.sessionId == r.packet % 16)
  }

  ghost predicate Inv(w: World) {
    HostInv(w) && RadioInv(w) && SlotsInv(w) && ReportsInv(w)
  }

  lemma LatestGrows(n: nat, s: nat)
    requires s < 16 && s < n
    ensures Latest(n + 1, s) == if s == n % 16 then n else Latest(n, s)
  {
  }

  lemma SendKeeps(w: World, cb: Callback)
    requires Inv(w)
    ensures Inv(Next(w, Send(cb)))
  {
    var n, w' := |w.sent|, Next(w, Send(cb));
    forall s | 0 <= s < 16 && s < n + 1 ensures w'.host.slots[s] == w'.sent[Latest(n + 1, s)] {
      if s < n {
        LatestGrows(n, s);
      }
    }
  }

  /** Each later packet taken is a later packet sent. */
  lemma TakenGap(w: World, j: nat)
    requires RadioInv(w) && j < |w.taken|
    ensures w.taken[j] + (|w.taken| - j) <= w.next
  {
    var last := |w.taken| - 1;
    assert j < last ==> w.taken[j] + (last - j) <= w.taken[last];
    assert w.taken[last] < w.next;
  }

  lemma OtherSlot(j: nat, n: nat)
    requires j < n < j + 16
    ensures j % 16 != n % 16
  {
  }

  /** The slot about to be written belongs to no packet that still counts. */
  lemma SlotFree(w: World, k: nat, j: nat)
    requires RadioInv(w) && j < |w.taken| && w.next <= k < w.taken[j] + 16
    ensures j % 16 != w.radio.pos && w.radio.slots[j % 16] == w.frames[w.taken[j]]
  {
    TakenGap(w, j);
    OtherSlot(j, |w.taken|);
  }

  lemma IllegalKeeps(w: World, k: nat)
    requires RadioInv(w) && Enabled(w, Take(k, false))
    ensures RadioInv(Next(w, Take(k, false)))
  {
    var w' := Next(w, Take(k, false));
    forall j | 0 <= j < |w'.taken| && w'.next <= w'.taken[j] + 16
      ensures w'.radio.slots[j % 16] == w'.frames[w'.taken[j]]
    {
      SlotFree(w, k, j);
    }
  }

  lemma TakenOrder(w: World, k: nat)
    requires RadioInv(w) && w.next <= k
    ensures var taken := w.taken + [k];
            forall i, j :: 0 <= i < j < |taken| ==> taken[i] + (j - i) <= taken[j]
  {
    forall i | 0 <= i < |w.taken| ensures w.taken[i] + (|w.taken| - i) <= k {
      TakenGap(w, i);
    }
  }

  lemma LegalSlots(w: World, k: nat, j: nat)
    requires RadioInv(w) && Enabled(w, Take(k, true)) && j <= |w.taken|
    ensures var w' := Next(w, Take(k, true));
            w'.next <= w'.taken[j] + 16 ==> w'.radio.slots[j % 16] == w'.frames[w'.taken[j]]
  {
    if j < |w.taken| && k < w.taken[j] + 16 {
      SlotFree(w, k, j);
    }
  }

  lemma NextSlot(n: nat)
    ensures (n + 1) % 16 == if n % 16 + 1 >= 16 then 0 else n % 16 + 1
  {
  }

  lemma LegalKeeps(w: World, k: nat)
    requires RadioInv(w) && Enabled(w, Take(k, true))
    ensures RadioInv(Next(w, Take(k, true)))
  {
    TakenOrder(w, k);
    NextSlot(|w.taken|);
    var w' := Next(w, Take(k, true));
    assert w'.taken == w.taken + [k] && w'.slotOf == w.slotOf + [w.radio.pos];
    forall j | 0 <= j < |w'.taken| && w'.next <= w'.taken[j] + 16
      ensures w'.radio.slots[j % 16] == w'.frames[w'.taken[j]]
    {
      LegalSlots(w, k, j);
    }
  }

  lemma TakeKeepsSlots(w: World, k: nat, legal: bool)
    requires HostInv(w) && SlotsInv(w) && Enabled(w, Take(k, legal))
    ensures SlotsInv(Next(w, Take(k, legal)))
  {
    var w' := Next(w, Take(k, legal));
    assert IsSession(w, w.frames[k]);
    forall j | 0 <= j < |w'.taken| ensures IsSession(w', w'.radio.slots[w'.slotOf[j]]) {
      if j < |w.taken| {
        assert IsSession(w, w.radio.slots[w.slotOf[j]]);
      }
    }
  }

  lemma TakeKeeps(w: World, k: nat, legal: bool)
    requires Inv(w) && Enabled(w, Take(k, legal))
    ensures Inv(Next(w, Take(k, legal)))
  {
    TakeKeepsSlots(w, k, legal);
    if legal {
      LegalKeeps(w, k);
    } else {
      IllegalKeeps(w, k);
    }
  }

  lemma CompleteKeeps(w: World, j: nat)
    requires Inv(w) && Enabled(w, Complete(j))
    ensures Inv(Next(w, Complete(j)))
  {
    var r := Report(w.radio.slots[w.slotOf[j]], w.taken[j]);
    assert w.taken[j] < |w.sent| && IsSession(w, r.sessionId);
    assert |w.sent| <= r.packet + 16 ==> r.sessionId == w.frames[r.packet];
  }

  // ----- runs

  ghost predicate Run(ws: seq<World>, es: seq<Event>) {
    && |ws| == |es| + 1
    && Init(ws[0])
    && forall i :: 0 <= i < |es| ==> WorldOk(ws[i]) && Enabled(ws[i], es[i]) && ws[i + 1] == Next(ws[i], es[i])
  }

  lemma {:induction false} RunInv(ws: seq<World>, es: seq<Event>, i: nat)
    requires Run(ws, es) && i < |ws|
    ensures Inv(ws[i])
  {
    if i > 0 {
      RunInv(ws, es, i - 1);
      match es[i - 1]
      case Send(cb) => SendKeeps(ws[i - 1], cb);
      case Take(k, legal) => TakeKeeps(ws[i - 1], k, legal);
      case Complete(j) => CompleteKeeps(ws[i - 1], j);
    }
  }

  /** Main result: whenever a report arrives, whatever was lost, refused or overwritten, it is
      passed to the callback of the newest packet sent with its session id, and that is its own
      packet exactly if fewer than 16 packets were sent after it. */
  lemma ReportReachesExactly(ws: seq<World>, es: seq<Event>, i: nat, r: Report)
    requires Run(ws, es) && i < |ws| && r in ws[i].reports
    ensures var n := |ws[i].sent|;
            && r.packet < n && r.sessionId < 16 && r.sessionId < n
            && Told(ws[i].host, r.sessionId) == Some(ws[i].sent[Latest(n, r.sessionId)])
            && (Latest(n, r.sessionId) == r.packet <==> n <= r.packet + 16)
  {
    RunInv(ws, es, i);
    assert IsSession(ws[i], r.sessionId);
    LatestIs(|ws[i].sent|, r.packet);
  }

  /** So with fewer than 16 packets since, the callback stored for its packet is told... */
  lemma ReportReachesCallback(ws: seq<World>, es: seq<Event>, i: nat, r: Report)
    requires Run(ws, es) && i < |ws| && r in ws[i].reports
    requires |ws[i].sent| <= r.packet + 16
    ensures r.packet < |ws[i].sent| && Told(ws[i].host, r.sessionId) == Some(ws[i].sent[r.packet])
  {
    ReportReachesExactly(ws, es, i, r);
  }

  /** ... and otherwise the callback stored for a later packet. */
  lemma LateReportGoesElsewhere(ws: seq<World>, es: seq<Event>, i: nat, r: Report)
    requires Run(ws, es) && i < |ws| && r in ws[i].reports
    requires |ws[i].sent| > r.packet + 16
    ensures exists k :: r.packet < k < |ws[i].sent| && Told(ws[i].host, r.sessionId) == Some(ws[i].sent[k])
  {
    ReportReachesExactly(ws, es, i, r);
    var k := Latest(|ws[i].sent|, r.sessionId);
    assert r.packet < k < |ws[i].sent|;
  }

  // ----- what a report carries

  /** How many packets the radio put on air. */
  function OnAir(es: seq<Event>): nat {
    if es == [] then 0
    else OnAir(es[..|es| - 1]) + if es[|es| - 1].Take? && es[|es| - 1].legal then 1 else 0
  }

  /** The last packet received into a slot, whether it went on air from there or was refused. */
  function LastInto(es: seq<Event>, slot: nat): Option<nat> {
    if es == [] then None
    else
      var before, e := es[..|es| - 1], es[|es| - 1];
      if e.Take? && OnAir(before) % 16 == slot then Some(e.packet) else LastInto(before, slot)
  }

  lemma SlotsStep(w: World, e: Event, before: seq<Event>, slot: nat)
    requires Inv(w) && Enabled(w, e) && slot < 16 && |w.taken| == OnAir(before)
    requires var k := LastInto(before, slot); k.Some? ==> k.value < |w.sent| && w.radio.slots[slot] == k.value % 16
    ensures var w', es := Next(w, e), before + [e];
            && WorldOk(w') && |w'.taken| == OnAir(es)
            && var k := LastInto(es, slot);
               k.Some? ==> k.value < |w'.sent| && w'.radio.slots[slot] == k.value % 16
  {
    var es := before + [e];
    assert es[..|es| - 1] == before;
  }

  lemma {:induction false} SlotsExactly(ws: seq<World>, es: seq<Event>, i: nat, slot: nat)
    requires Run(ws, es) && i < |ws| && slot < 16
    ensures WorldOk(ws[i]) && |ws[i].taken| == OnAir(es[..i])
    ensures var k := LastInto(es[..i], slot);
            k.Some? ==> k.value < |ws[i].sent| && ws[i].radio.slots[slot] == k.value % 16
  {
    if i > 0 {
      SlotsExactly(ws, es, i - 1, slot);
      RunInv(ws, es, i - 1);
      SlotsStep(ws[i - 1], es[i - 1], es[..i - 1], slot);
      assert es[..i] == es[..i - 1] + [es[i - 1]];
    }
  }

  lemma LastStep(w: World, e: Event, before: seq<Event>, j: nat)
    requires Inv(w) && Enabled(w, e) && |w.taken| == OnAir(before)
    requires j < |w.taken| ==> var k := LastInto(before, j % 16); k.Some? && w.taken[j] <= k.value < w.next
    ensures var w', es := Next(w, e), before + [e];
            j < |w'.taken| ==> var k := LastInto(es, j % 16); k.Some? && w'.taken[j] <= k.value < w'.next
  {
    var es := before + [e];
    assert es[..|es| - 1] == before;
  }

  lemma {:induction false} TakenIsLast(ws: seq<World>, es: seq<Event>, i: nat, j: nat)
    requires Run(ws, es) && i < |ws|
    ensures j < |ws[i].taken| ==>
              var k := LastInto(es[..i], j % 16); k.Some? && ws[i].taken[j] <= k.value < ws[i].next
  {
    if i > 0 {
      TakenIsLast(ws, es, i - 1, j);
      SlotsExactly(ws, es, i - 1, j % 16);
      RunInv(ws, es, i - 1);
      LastStep(ws[i - 1], es[i - 1], es[..i - 1], j);
      assert es[..i] == es[..i - 1] + [es[i - 1]];
    }
  }

  /** When the j-th transmission ends, a report is made for its packet, with the session id of the last
      packet the radio received into its slot. */
  lemma ReportCarries(ws: seq<World>, es: seq<Event>, i: nat, j: nat)
    requires Run(ws, es) && i < |es| && es[i] == Complete(j)
    ensures j < |ws[i].taken| && LastInto(es[..i], j % 16).Some?
    ensures var k := LastInto(es[..i], j % 16).value;
            ws[i].taken[j] <= k < |ws[i].sent| && Report(k % 16, ws[i].taken[j]) in ws[i + 1].reports
  {
    RunInv(ws, es, i);
    TakenIsLast(ws, es, i, j);
    SlotsExactly(ws, es, i, j % 16);
  }

  // ----- a late report

  lemma RunExtends(ws: seq<World>, es: seq<Event>, e: Event)
    requires Run(ws, es) && WorldOk(ws[|es|]) && Enabled(ws[|es|], e)
    ensures Run(ws + [Next(ws[|es|], e)], es + [e])
  {
    var ws', es' := ws + [Next(ws[|es|], e)], es + [e];
    forall i | 0 <= i < |es'| ensures WorldOk(ws'[i]) && Enabled(ws'[i], es'[i]) && ws'[i + 1] == Next(ws'[i], es'[i]) {
      if i < |es| {
        assert ws'[i] == ws[i] && ws'[i + 1] == ws[i + 1] && es'[i] == es[i];
      }
    }
  }

  /** The k-th packet's callback, told apart by its pointer. */
  function Numbered(k: nat): Callback { Callback(0, k, []) }

  /** A run that only sends n packets. */
  lemma {:induction false} OnlySends(n: nat) returns (ws: seq<World>, es: seq<Event>)
    ensures Run(ws, es) && |ws[|es|].sent| == n && ws[|es|].taken == [] && ws[|es|].next == 0
    ensures forall k :: 0 <= k < n ==> ws[|es|].sent[k] == Numbered(k)
  {
    if n == 0 {
      var host, radio := Ring(seq(16, _ => Numbered(0)), 0), Ring(seq(16, _ => 0), 0);
      ws, es := [World(host, [], [], radio, [], [], 0, {})], [];
    } else {
      ws, es := OnlySends(n - 1);
      RunInv(ws, es, |es|);
      RunExtends(ws, es, Send(Numbered(n - 1)));
      ws, es := ws + [Next(ws[|es|], Send(Numbered(n - 1)))], es + [Send(Numbered(n - 1))];
    }
  }

  /** The failing input: 17 packets are sent before the first one's transmission ends, and its
      report goes to the 17th packet's callback. */
  lemma LateReportMisdirected() returns (ws: seq<World>, es: seq<Event>, r: Report)
    ensures Run(ws, es) && r in ws[|es|].reports && r.packet == 0 && |ws[|es|].sent| == 17
    ensures Told(ws[|es|].host, r.sessionId) == Some(ws[|es|].sent[16]) != Some(ws[|es|].sent[0])
  {
    ws, es := OnlySends(17);
    RunInv(ws, es, |es|);
    RunExtends(ws, es, Take(0, true));
    ws, es := ws + [Next(ws[|es|], Take(0, true))], es + [Take(0, true)];
    RunInv(ws, es, |es|);
    RunExtends(ws, es, Complete(0));
    var w := ws[|es|];
    r := Report(w.radio.slots[w.slotOf[0]], 0);
    ws, es := ws + [Next(w, Complete(0))], es + [Complete(0)];
    RunInv(ws, es, |es|);
    ReportReachesExactly(ws, es, |es|, r);
    assert w.radio.slots[0] == 0;
  }
}
