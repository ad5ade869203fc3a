/** Every PUBLISH is accounted for: over whole runs it is passed on once, kept, or dropped for a stated reason. */
module GatewayCounts {
  import opened GatewayMessages
  import opened GatewaySpec
  import opened GatewayRun
  import opened GatewayRouting
  import opened GatewayAnswers

  // ----- the PUBLISHes on every side, in order

  function FromBrokerAll(es: seq<Event>): seq<MqttPublish> {
    if es == [] then []
    else
      var e := es[|es| - 1];
      FromBrokerAll(es[..|es| - 1])
      + if e.FromBroker? && e.reply.BrokerPublish? then [e.reply.brokerPublish] else []
  }

  function FromClientAll(es: seq<Event>): seq<MqttsPublish> {
    if es == [] then []
    else
      var e := es[|es| - 1];
      FromClientAll(es[..|es| - 1]) + if e.FromClient? && e.msg.Publish? then [e.msg.publish] else []
  }

  function Delivered(ms: seq<ToClient>): seq<MqttsPublish> {
    if ms == [] then []
    else Delivered(ms[..|ms| - 1]) + if ms[|ms| - 1].CPublish? then [ms[|ms| - 1].publish] else []
  }

  function Forwarded(ms: seq<ToBroker>): seq<MqttPublish> {
    if ms == [] then []
    else Forwarded(ms[..|ms| - 1]) + if ms[|ms| - 1].BPublish? then [ms[|ms| - 1].publish] else []
  }

  /** The broker's PUBLISH that waits for its topic's REGACK. */
  function Kept(h: Handler): seq<MqttPublish> {
    if h.gw.waitingRegack && h.gw.mqttPublish.Some? then [h.gw.mqttPublish.value] else []
  }

  // ----- what becomes of a PUBLISH in one step

  predicate SendsNone(out: Out) {
    out.toClient == [] || (|out.toClient| == 1 && !out.toClient[0].CPublish?)
  }

  ghost predicate SendsOne(named: set<(int, string)>, out: Out, m: MqttPublish) {
    |out.toClient| == 1 && out.toClient[0].CPublish? && Carries(named, out.toClient[0].publish, m)
  }

  predicate Publishes(e: Event) { e.FromBroker? && e.reply.BrokerPublish? }

  predicate Submits(e: Event) { e.FromClient? && e.msg.Publish? }

  /** A PUBLISH of the broker is dropped at once: the client is not connected, it is too long, or its
      topic has no id and is too short to register or has to wait for another REGISTER. */
  ghost predicate Dropped(cfg: Config, h: Handler, env: Env, m: MqttPublish) {
    || !IsConnected(h) || !Fits(cfg, m)
    || (Unknown(h, env, m.topicName) && (|m.topicName| == 2 || h.gw.waitingRegack))
  }

  /** The PUBLISH kept is dropped: the client is disconnected, or does not answer the last REGISTER. */
  ghost predicate Abandons(cfg: Config, h: Handler, e: Event, env: Env) {
    && h.gw.waitingRegack
    && (Disconnects(cfg, h, e, env) || (e == Control(RegackTimeout) && !Again(cfg, h, WaitingRegack)))
  }

  ghost function LostAt(cfg: Config, h: Handler, e: Event, env: Env): seq<MqttPublish> {
    if Publishes(e) && Dropped(cfg, h, env, e.reply.brokerPublish) then [e.reply.brokerPublish]
    else if Abandons(cfg, h, e, env) then Kept(h)
    else []
  }

  /** The PUBLISH taken is delivered, kept or lost; the one kept is delivered, lost or still kept. */
  ghost predicate DeliverStep(named: set<(int, string)>, h: Handler, e: Event, out: Out, h': Handler,
                              lost: seq<MqttPublish>)
  {
    if Publishes(e) then
      var m := e.reply.brokerPublish;
      || (SendsOne(named, out, m) && Kept(h') == Kept(h) && lost == [])
      || (SendsNone(out) && Kept(h) == [] && Kept(h') == [m] && lost == [])
      || (SendsNone(out) && Kept(h') == Kept(h) && lost == [m])
    else
      || (SendsNone(out) && Kept(h') == Kept(h) && lost == [])
      || (|Kept(h)| == 1 && SendsOne(named, out, Kept(h)[0]) && Kept(h') == [] && lost == [])
      || (SendsNone(out) && Kept(h') == [] && lost == Kept(h))
  }

  lemma KnownItems(h: Handler, env: Env, name: string, id: int)
    requires Known(h, env, name, id)
    ensures (id, name) in h.table.Items
  {
  }

  lemma TakenDelivers(cfg: Config, h: Handler, m: MqttPublish, env: Env, named: set<(int, string)>, id: int)
    requires Ready(h, env) && h.table.Items <= named && IsConnected(h) && Fits(cfg, m)
    requires Known(h, env, m.topicName, id)
    ensures SendsOne(named, HandleBrokerPublish(cfg, h, m, env).out, m)
  {
    var topic := if id > cfg.predefSize then NormalTopicId(id) else PredefinedTopicId(id);
    var p := MqttsPublish(m.dup, m.qos, m.retain, topic, m.msgId, m.payload);
    BrokerPublishTells(cfg, h, m, env, CPublish(p));
    KnownItems(h, env, m.topicName, id);
  }

  lemma NoPublish(cfg: Config, h: Handler, e: Event, env: Env)
    requires Ready(h, env) && forall p :: !SentToClient(cfg, h, e, env, CPublish(p))
    ensures SendsNone(Handle(cfg, h, e, env).out)
  {
    var out := Handle(cfg, h, e, env).out;
    HandleTells(cfg, h, e, env, if out.toClient != [] then out.toClient[0] else CConnack);
  }

  lemma PublishDelivers(cfg: Config, h: Handler, m: MqttPublish, env: Env, named: set<(int, string)>)
    requires Ready(h, env) && h.table.Items <= named
    ensures var r, e := HandleBrokerPublish(cfg, h, m, env), FromBroker(BrokerPublish(m));
            DeliverStep(named, h, e, r.out, r.h, LostAt(cfg, h, e, env))
  {
    var e := FromBroker(BrokerPublish(m));
    BrokerPublishAsks(cfg, h, m, env);
    if IsConnected(h) && Fits(cfg, m) && !Unknown(h, env, m.topicName) {
      var id :| Known(h, env, m.topicName, id);
      TakenDelivers(cfg, h, m, env, named, id);
    } else {
      NoPublish(cfg, h, e, env);
    }
  }

  lemma RegackDelivers(cfg: Config, h: Handler, topicId: nat, msgId: int, env: Env, named: set<(int, string)>)
    requires Ready(h, env) && AnswersRegack(h, FromClient(Regack(topicId, msgId)))
    requires HandleRegack(cfg, h, topicId, msgId).h.table.Items <= named
    ensures var r := HandleRegack(cfg, h, topicId, msgId);
            |Kept(h)| == 1 && SendsOne(named, r.out, Kept(h)[0]) && Kept(r.h) == []
  {
    var m, r := h.gw.mqttPublish.value, HandleRegack(cfg, h, topicId, msgId);
    var p := MqttsPublish(m.dup, m.qos, m.retain, NormalTopicId(topicId), m.msgId, m.payload);
    RegackTells(cfg, h, topicId, msgId, env, CPublish(p));
    RegackAsks(cfg, h, topicId, msgId, env);
    InItems(r.h.table, topicId);
  }

  lemma HandleDelivers(cfg: Config, h: Handler, e: Event, env: Env, named: set<(int, string)>)
    requires Ready(h, env) && h.table.Items + Handle(cfg, h, e, env).h.table.Items <= named
    ensures var r := Handle(cfg, h, e, env); DeliverStep(named, h, e, r.out, r.h, LostAt(cfg, h, e, env))
  {
    if Publishes(e) {
      PublishDelivers(cfg, h, e.reply.brokerPublish, env, named);
    } else if AnswersRegack(h, e) {
      RegackDelivers(cfg, h, e.msg.topicId, e.msg.msgId, env, named);
    } else {
      NoPublish(cfg, h, e, env);
      HandleAsks(cfg, h, e, env);
    }
  }

  predicate ForwardsNone(out: Out) {
    out.toBroker == [] || (|out.toBroker| == 1 && !out.toBroker[0].BPublish?)
  }

  /** The client's PUBLISH is not forwarded: the client is not connected, its topic or QoS is not one to
      forward, its topic stands for nothing, another QoS 1 PUBLISH is unacknowledged, or sending fails. */
  ghost predicate Refused(cfg: Config, h: Handler, e: Event, env: Env) {
    Submits(e) && !(env.sendOk && ToPassOn(cfg, h, e.msg))
  }

  ghost function RefusedAt(cfg: Config, h: Handler, e: Event, env: Env): seq<MqttsPublish> {
    if Refused(cfg, h, e, env) then [e.msg.publish] else []
  }

  /** The client's PUBLISH is forwarded or refused; nothing else is forwarded. */
  ghost predicate ForwardStep(cfg: Config, named: set<(int, string)>, e: Event, out: Out, refused: seq<MqttsPublish>) {
    if Submits(e) then
      || (ForwardsNone(out) && refused == [e.msg.publish])
      || (|out.toBroker| == 1 && out.toBroker[0].BPublish? && refused == []
          && Carries(named, e.msg.publish, out.toBroker[0].publish) && Ranged(cfg, e.msg.publish.topic))
    else ForwardsNone(out) && refused == []
  }

  lemma HandleForwards(cfg: Config, h: Handler, e: Event, env: Env, named: set<(int, string)>)
    requires Ready(h, env) && h.table.Items <= named
    ensures ForwardStep(cfg, named, e, Handle(cfg, h, e, env).out, RefusedAt(cfg, h, e, env))
  {
    var out := Handle(cfg, h, e, env).out;
    HandlePasses(cfg, h, e, env, if out.toBroker != [] then out.toBroker[0] else BDisconnect);
    if Submits(e) && !Refused(cfg, h, e, env) {
      var p := e.msg.publish;
      var name :| Names(cfg, h.table.Items, p.topic, name);
      HandlePasses(cfg, h, e, env, BPublish(MqttPublish(p.dup, p.qos, p.retain, name, p.msgId, p.data)));
    }
  }

  // ----- runs

  /** Each of ps carries the one of ms at its place. */
  ghost predicate Paired(named: set<(int, string)>, ps: seq<MqttsPublish>, ms: seq<MqttPublish>) {
    |ps| == |ms| && forall i :: 0 <= i < |ps| ==> Carries(named, ps[i], ms[i])
  }

  ghost predicate AllRanged(cfg: Config, ps: seq<MqttsPublish>) {
    forall i :: 0 <= i < |ps| ==> Ranged(cfg, ps[i].topic)
  }

  /** taken consists of used, kept and lost, each as often as it occurs. */
  ghost predicate Accounts<T>(used: seq<T>, kept: seq<T>, lost: seq<T>, taken: seq<T>) {
    multiset(used) + multiset(kept) + multiset(lost) == multiset(taken)
  }

  lemma TakenUsed<T>(used: seq<T>, kept: seq<T>, lost: seq<T>, taken: seq<T>, x: T)
    requires Accounts(used, kept, lost, taken)
    ensures Accounts(used + [x], kept, lost, taken + [x]) && Accounts(used, kept, lost + [x], taken + [x])
    ensures kept == [] ==> Accounts(used, [x], lost, taken + [x])
    ensures kept == [x] ==> Accounts(used + [x], [], lost, taken)
  {
  }

  lemma KeptLost<T>(used: seq<T>, kept: seq<T>, lost: seq<T>, taken: seq<T>)
    requires Accounts(used, kept, lost, taken)
    ensures Accounts(used, [], lost + kept, taken) && Accounts(used, kept, lost + [], taken + [])
    ensures Accounts(used, [], lost + kept, taken + [])
  {
    assert lost + [] == lost && taken + [] == taken;
  }

  lemma PairedMore(named: set<(int, string)>, ps: seq<MqttsPublish>, ms: seq<MqttPublish>,
                   named': set<(int, string)>, p: MqttsPublish, m: MqttPublish)
    requires Paired(named, ps, ms) && named <= named'
    ensures Paired(named', ps, ms)
    ensures Carries(named', p, m) ==> Paired(named', ps + [p], ms + [m])
  {
    forall i | 0 <= i < |ps| ensures Carries(named', ps[i], ms[i]) {
      assert Carries(named, ps[i], ms[i]);
    }
  }

  lemma AppendEvent(received: seq<Event>, e: Event)
    ensures FromBrokerAll(received + [e])
            == FromBrokerAll(received) + if Publishes(e) then [e.reply.brokerPublish] else []
    ensures FromClientAll(received + [e]) == FromClientAll(received) + if Submits(e) then [e.msg.publish] else []
  {
    assert (received + [e])[..|received|] == received;
  }

  lemma AppendOut(toClient: seq<ToClient>, toBroker: seq<ToBroker>, out: Out)
    requires |out.toClient| <= 1 && |out.toBroker| <= 1
    ensures Delivered(toClient + out.toClient)
      == if SendsNone(out) then Delivered(toClient) else Delivered(toClient) + [out.toClient[0].publish]
    ensures Forwarded(toBroker + out.toBroker)
      == if ForwardsNone(out) then Forwarded(toBroker) else Forwarded(toBroker) + [out.toBroker[0].publish]
  {
    var t, b := toClient + out.toClient, toBroker + out.toBroker;
    assert if out.toClient == [] then t == toClient else t[..|t| - 1] == toClient;
    assert if out.toBroker == [] then b == toBroker else b[..|b| - 1] == toBroker;
  }

  const NO_PUBLISH := MqttsPublish(false, 0, false, InvalidTopicIdType, 0, [])

  lemma DeliverCounts(named: set<(int, string)>, h: Handler, e: Event, out: Out, h': Handler, lost: seq<MqttPublish>,
                      taken: seq<MqttPublish>, ps: seq<MqttsPublish>, ms: seq<MqttPublish>,
                      gone: seq<MqttPublish>, named': set<(int, string)>)
    returns (ms': seq<MqttPublish>)
    requires DeliverStep(named', h, e, out, h', lost) && named <= named'
    requires Paired(named, ps, ms) && Accounts(ms, Kept(h), gone, taken)
    ensures Paired(named', if SendsNone(out) then ps else ps + [out.toClient[0].publish], ms')
    ensures Accounts(ms', Kept(h'), gone + lost, taken + if Publishes(e) then [e.reply.brokerPublish] else [])
  {
    var p := if SendsNone(out) then NO_PUBLISH else out.toClient[0].publish;
    KeptLost(ms, Kept(h), gone, taken);
    assert gone + [] == gone && taken + [] == taken;
    if Publishes(e) {
      var m := e.reply.brokerPublish;
      PairedMore(named, ps, ms, named', p, m);
      TakenUsed(ms, Kept(h), gone, taken, m);
      ms' := if SendsNone(out) then ms else ms + [m];
    } else if SendsNone(out) {
      PairedMore(named, ps, ms, named', p, MqttPublish(false, 0, false, "", 0, []));
      ms' := ms;
    } else {
      PairedMore(named, ps, ms, named', p, Kept(h)[0]);
      TakenUsed(ms, Kept(h), gone, taken, Kept(h)[0]);
      ms' := ms + [Kept(h)[0]];
    }
  }

  lemma ForwardCounts(cfg: Config, named: set<(int, string)>, e: Event, out: Out, refused: seq<MqttsPublish>,
                      taken: seq<MqttsPublish>, ps: seq<MqttsPublish>, ms: seq<MqttPublish>,
                      gone: seq<MqttsPublish>, named': set<(int, string)>)
    returns (ps': seq<MqttsPublish>)
    requires ForwardStep(cfg, named', e, out, refused) && named <= named'
    requires Paired(named, ps, ms) && AllRanged(cfg, ps) && Accounts(ps, [], gone, taken)
    ensures Paired(named', ps', if ForwardsNone(out) then ms else ms + [out.toBroker[0].publish])
    ensures AllRanged(cfg, ps')
    ensures Accounts(ps', [], gone + refused, taken + if Submits(e) then [e.msg.publish] else [])
  {
    var p := if Submits(e) then e.msg.publish else NO_PUBLISH;
    var m := if ForwardsNone(out) then MqttPublish(false, 0, false, "", 0, []) else out.toBroker[0].publish;
    TakenUsed(ps, [], gone, taken, p);
    KeptLost(ps, [], gone, taken);
    PairedMore(named, ps, ms, named', p, m);
    assert gone + [] == gone && taken + [] == taken;
    ps' := if ForwardsNone(out) then ps else ps + [p];
  }

  ghost function StepLost(cfg: Config, h: Handler, s: Step): seq<MqttPublish> {
    if s.Own? then LostAt(cfg, h, s.event, s.env) else []
  }

  ghost function StepRefused(cfg: Config, h: Handler, s: Step): seq<MqttsPublish> {
    if s.Own? then RefusedAt(cfg, h, s.event, s.env) else []
  }

  /** The PUBLISHes of the broker that the first k steps of a run lost, in order. */
  ghost function Lost(cfg: Config, ws: seq<World>, steps: seq<Step>, k: nat): seq<MqttPublish>
    requires k <= |steps| < |ws|
  {
    if k == 0 then [] else Lost(cfg, ws, steps, k - 1) + StepLost(cfg, ws[k - 1].h, steps[k - 1])
  }

  /** The PUBLISHes of the client that they refused. */
  ghost function RefusedBy(cfg: Config, ws: seq<World>, steps: seq<Step>, k: nat): seq<MqttsPublish>
    requires k <= |steps| < |ws|
  {
    if k == 0 then [] else RefusedBy(cfg, ws, steps, k - 1) + StepRefused(cfg, ws[k - 1].h, steps[k - 1])
  }

  ghost predicate CountsInv(cfg: Config, w: World, sources: seq<MqttPublish>, lost: seq<MqttPublish>,
                            origins: seq<MqttsPublish>, refused: seq<MqttsPublish>)
  {
    && Paired(w.named, Delivered(w.toClient), sources)
    && Accounts(sources, Kept(w.h), lost, FromBrokerAll(w.received))
    && Paired(w.named, origins, Forwarded(w.toBroker)) && AllRanged(cfg, origins)
    && Accounts(origins, [], refused, FromClientAll(w.received))
  }

  lemma OneEach(cfg: Config, h: Handler, e: Event, env: Env)
    requires Ready(h, env)
    ensures var out := Handle(cfg, h, e, env).out; |out.toClient| <= 1 && |out.toBroker| <= 1
  {
    HandleTells(cfg, h, e, env, CConnack);
    HandlePasses(cfg, h, e, env, BDisconnect);
  }

  lemma OwnCounts(cfg: Config, w: World, s: Step, w': World, sources: seq<MqttPublish>, lost: seq<MqttPublish>,
                   origins: seq<MqttsPublish>, refused: seq<MqttsPublish>)
    returns (sources': seq<MqttPublish>, origins': seq<MqttsPublish>)
    requires s.Own? && Ready(w.h, s.env) && w.h.table.Items <= w.named && StepOk(cfg, w, s, w')
    requires CountsInv(cfg, w, sources, lost, origins, refused)
    ensures CountsInv(cfg, w', sources', lost + LostAt(cfg, w.h, s.event, s.env),
                      origins', refused + RefusedAt(cfg, w.h, s.event, s.env))
  {
    var e, r := s.event, Handle(cfg, w.h, s.event, s.env);
    HandleDelivers(cfg, w.h, e, s.env, w'.named);
    HandleForwards(cfg, w.h, e, s.env, w'.named);
    OneEach(cfg, w.h, e, s.env);
    AppendEvent(w.received, e);
    AppendOut(w.toClient, w.toBroker, r.out);
    sources' := DeliverCounts(w.named, w.h, e, r.out, r.h, LostAt(cfg, w.h, e, s.env), FromBrokerAll(w.received),
                              Delivered(w.toClient), sources, lost, w'.named);
    origins' := ForwardCounts(cfg, w.named, e, r.out, RefusedAt(cfg, w.h, e, s.env), FromClientAll(w.received),
                              origins, Forwarded(w.toBroker), refused, w'.named);
  }

  lemma StepCounts(cfg: Config, w: World, s: Step, w': World, sources: seq<MqttPublish>, lost: seq<MqttPublish>,
                   origins: seq<MqttsPublish>, refused: seq<MqttsPublish>)
    returns (sources': seq<MqttPublish>, origins': seq<MqttsPublish>)
    requires (s.Own? ==> Ready(w.h, s.env)) && w.h.table.Items <= w.named && StepOk(cfg, w, s, w')
    requires CountsInv(cfg, w, sources, lost, origins, refused)
    ensures CountsInv(cfg, w', sources', lost + StepLost(cfg, w.h, s), origins', refused + StepRefused(cfg, w.h, s))
  {
    if s.Own? {
      sources', origins' := OwnCounts(cfg, w, s, w', sources, lost, origins, refused);
    } else {
      assert lost + [] == lost && refused + [] == refused;
      sources', origins' := sources, origins;
    }
  }

  lemma StartCounts(cfg: Config, tasks: seq<Task>)
    ensures CountsInv(cfg, Start(cfg, tasks), [], [], [], [])
  {
  }

  /** The account of state k of a run. */
  ghost predicate Counted(cfg: Config, ws: seq<World>, steps: seq<Step>, k: nat, sources: seq<MqttPublish>,
                          origins: seq<MqttsPublish>)
    requires k <= |steps| < |ws|
  {
    CountsInv(cfg, ws[k], sources, Lost(cfg, ws, steps, k), origins, RefusedBy(cfg, ws, steps, k))
  }

  lemma NextCounts(cfg: Config, ws: seq<World>, steps: seq<Step>, k: nat, ms: seq<MqttPublish>, ps: seq<MqttsPublish>)
    returns (sources: seq<MqttPublish>, origins: seq<MqttsPublish>)
    requires Run(cfg, ws, steps) && 0 < k < |ws| && Counted(cfg, ws, steps, k - 1, ms, ps)
    ensures Counted(cfg, ws, steps, k, sources, origins)
  {
    AtStep(cfg, ws, steps, k - 1);
    sources, origins := StepCounts(cfg, ws[k - 1], steps[k - 1], ws[k], ms, Lost(cfg, ws, steps, k - 1),
                                   ps, RefusedBy(cfg, ws, steps, k - 1));
  }

  lemma FirstCounts(cfg: Config, ws: seq<World>, steps: seq<Step>)
    requires Run(cfg, ws, steps)
    ensures Counted(cfg, ws, steps, 0, [], [])
  {
    var tasks :| ws[0] == Start(cfg, tasks);
    StartCounts(cfg, tasks);
  }

  lemma {:induction false} RunCounts(cfg: Config, ws: seq<World>, steps: seq<Step>, k: nat)
    returns (sources: seq<MqttPublish>, origins: seq<MqttsPublish>)
    requires Run(cfg, ws, steps) && k < |ws|
    ensures Counted(cfg, ws, steps, k, sources, origins)
  {
    if k == 0 {
      FirstCounts(cfg, ws, steps);
      return [], [];
    }
    var ms, ps := RunCounts(cfg, ws, steps, k - 1);
    sources, origins := NextCounts(cfg, ws, steps, k, ms, ps);
  }

  /** Main result: at any time of a run, with any client, every PUBLISH of the broker has been delivered
      once, is kept for a REGACK, or was lost for one of the reasons of LostAt; every PUBLISH of the client
      has been forwarded once or was refused.  What is delivered or forwarded matches its own source, in
      content and by a topic that stands for the name. */
  lemma PublishesAccounted(cfg: Config, ws: seq<World>, steps: seq<Step>, k: nat)
    returns (sources: seq<MqttPublish>, origins: seq<MqttsPublish>)
    requires Run(cfg, ws, steps) && k < |ws|
    ensures Paired(ws[k].named, Delivered(ws[k].toClient), sources)
    ensures multiset(sources) + multiset(Kept(ws[k].h)) + multiset(Lost(cfg, ws, steps, k))
            == multiset(FromBrokerAll(ws[k].received))
    ensures Paired(ws[k].named, origins, Forwarded(ws[k].toBroker)) && AllRanged(cfg, origins)
    ensures multiset(origins) + multiset(RefusedBy(cfg, ws, steps, k)) == multiset(FromClientAll(ws[k].received))
  {
    sources, origins := RunCounts(cfg, ws, steps, k);
  }
}
