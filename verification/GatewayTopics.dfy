/** Topic ids over whole runs: an id stands for one name, whatever is removed, retried or lost. */
module GatewayTopics {
  import opened Common
  import opened GatewayMessages
  import opened GatewaySpec
  import opened GatewayInvariant
  import opened GatewayRun

  ghost predicate Functional(named: set<(int, string)>) {
    forall p, q :: p in named && q in named && p.0 == q.0 ==> p == q
  }

  /** The id and the name of the REGISTER under way. */
  ghost function Pending(h: Handler): (int, string)
    requires h.gw.waitingRegack && FlagsInv(h)
  {
    (h.gw.register.value.topicId, h.gw.register.value.topicName)
  }

  /** The table and the REGISTER under way are among the named pairs. */
  ghost predicate NamedInv(h: Handler, named: set<(int, string)>) {
    && FlagsInv(h)
    && h.topicId >= 1
    && (forall id :: id in h.table ==> id >= 0)
    && h.table.Items <= named
    && (h.gw.waitingRegack ==> Pending(h) in named)
  }

  /** Every id is below the next one to be given out and stands for one name only. */
  ghost predicate TopicsInv(h: Handler, named: set<(int, string)>) {
    && NamedInv(h, named)
    && Functional(named)
    && (forall p :: p in named ==> 1 <= p.0 < h.topicId)
  }

  /** The REGISTER under way was sent, and REGISTERs never share a message id. */
  ghost predicate RegistersInv(h: Handler, toClient: seq<ToClient>) {
    && (h.gw.waitingRegack ==> h.gw.register.Some? && CRegister(h.gw.register.value) in toClient)
    && (forall i :: 0 <= i < |toClient| && toClient[i].CRegister? ==> toClient[i].register.msgId < h.msgId)
    && (forall i, j :: 0 <= i < j < |toClient| && toClient[i].CRegister? && toClient[j].CRegister?
          ==> toClient[i].register.msgId != toClient[j].register.msgId)
  }

  /** A client that answers a REGISTER echoes its topic id. */
  predicate Echoes(toClient: seq<ToClient>, e: Event) {
    e.FromClient? && e.msg.Regack? ==>
      forall i :: 0 <= i < |toClient| && toClient[i].CRegister? && toClient[i].register.msgId == e.msg.msgId
                  ==> toClient[i].register.topicId == e.msg.topicId
  }

  /** The client of a run is such a client. */
  predicate Echoing(ws: seq<World>, steps: seq<Step>)
    requires |ws| == |steps| + 1
  {
    forall k :: 0 <= k < |steps| && steps[k].Own? ==> Echoes(ws[k].toClient, steps[k].event)
  }

  // ----- what one handler does to topics

  /** No id is given out and no REGISTER starts; bindings may go. */
  ghost predicate NoTopics(h: Handler, r: Result) {
    && r.h.topicId == h.topicId && r.h.msgId == h.msgId
    && (forall id :: id in r.h.table ==> id in h.table && r.h.table[id] == h.table[id])
    && (r.out.toClient == [] || (|r.out.toClient| == 1 && !r.out.toClient[0].CRegister?))
    && (r.h.gw.waitingRegack ==> h.gw.waitingRegack && r.h.gw.register == h.gw.register)
  }

  /** The next id is bound to a name at once. */
  ghost predicate Binds(h: Handler, r: Result, name: string) {
    && r.h.topicId == h.topicId + 1 && r.h.msgId == h.msgId
    && r.h.table == h.table[h.topicId := name]
    && |r.out.toClient| == 1 && !r.out.toClient[0].CRegister?
    && (r.h.gw.waitingRegack ==> h.gw.waitingRegack && r.h.gw.register == h.gw.register)
  }

  /** A REGISTER goes out with the next message id: a new one with the next topic id, or the one
      under way again. */
  ghost predicate Announces(h: Handler, r: Result) {
    && r.h.msgId == h.msgId + 1 && r.h.table == h.table
    && r.h.gw.waitingRegack && r.h.gw.register.Some?
    && r.out.toClient == [CRegister(r.h.gw.register.value)]
    && r.h.gw.register.value.msgId == h.msgId
    && (if h.gw.waitingRegack then
          h.gw.register.Some? && r.h.topicId == h.topicId
          && r.h.gw.register.value.topicId == h.gw.register.value.topicId
          && r.h.gw.register.value.topicName == h.gw.register.value.topicName
        else r.h.topicId == h.topicId + 1 && r.h.gw.register.value.topicId == h.topicId)
  }

  /** A REGACK ends the REGISTER under way: its id is bound to the name that was announced. */
  ghost predicate Answers(h: Handler, e: Event, r: Result) {
    && r.h.topicId == h.topicId && r.h.msgId == h.msgId
    && h.gw.waitingRegack && h.gw.register.Some? && !r.h.gw.waitingRegack
    && e.FromClient? && e.msg.Regack? && e.msg.msgId == h.gw.register.value.msgId
    && r.h.table == h.table[e.msg.topicId := h.gw.register.value.topicName]
    && |r.out.toClient| == 1 && !r.out.toClient[0].CRegister?
  }

  ghost predicate TopicStep(h: Handler, e: Event, r: Result) {
    NoTopics(h, r) || Binds(h, r, NewName(h, e)) || Announces(h, r) || Answers(h, e, r)
  }

  function NewName(h: Handler, e: Event): string {
    match e
    case FromClient(Register(_, name)) => name
    case FromBroker(BrokerSuback(_, _)) =>
      if h.gw.subscribe.Some? && h.gw.subscribe.value.topic.TopicName? then h.gw.subscribe.value.topic.name else ""
    case _ => ""
  }

  lemma ForwardTopics(cfg: Config, h: Handler, m: ClientMsg, env: Env)
    requires FlagsInv(h) && (m.Publish? || m.Subscribe? || m.Unsubscribe?)
    ensures NoTopics(h, HandleClient(cfg, h, m, env))
  {
  }

  lemma ClientTopics(cfg: Config, h: Handler, m: ClientMsg, env: Env)
    requires FlagsInv(h) && !m.Regack? && !m.Register?
    ensures NoTopics(h, HandleClient(cfg, h, m, env))
  {
    if m.Publish? || m.Subscribe? || m.Unsubscribe? {
      ForwardTopics(cfg, h, m, env);
    }
  }

  lemma RegisterTopics(cfg: Config, h: Handler, msgId: int, topicName: string, env: Env)
    requires FlagsInv(h)
    ensures TopicStep(h, FromClient(Register(msgId, topicName)), HandleRegister(cfg, h, msgId, topicName, env))
  {
  }

  lemma RegackTopics(cfg: Config, h: Handler, topicId: nat, msgId: int)
    requires FlagsInv(h)
    ensures TopicStep(h, FromClient(Regack(topicId, msgId)), HandleRegack(cfg, h, topicId, msgId))
  {
  }

  lemma BrokerPublishTopics(cfg: Config, h: Handler, m: MqttPublish, env: Env)
    requires FlagsInv(h)
    ensures TopicStep(h, FromBroker(BrokerPublish(m)), HandleBrokerPublish(cfg, h, m, env))
  {
  }

  lemma BrokerSubackTopics(cfg: Config, h: Handler, msgId: int, grantedQoS: int, env: Env)
    requires FlagsInv(h)
    ensures TopicStep(h, FromBroker(BrokerSuback(msgId, grantedQoS)),
                      HandleBrokerSuback(cfg, h, msgId, grantedQoS, env))
  {
  }

  lemma BrokerUnsubackTopics(cfg: Config, h: Handler, msgId: int, env: Env)
    requires FlagsInv(h)
    ensures NoTopics(h, HandleBrokerUnsuback(cfg, h, msgId, env))
  {
    if h.gw.unsubscribe.Some? && h.gw.unsubscribe.value.topic.TopicName? {
      RemoveByNameSubset(h.table, env.order, h.gw.unsubscribe.value.topic.name, cfg.predefSize);
    }
  }

  lemma BrokerTopics(cfg: Config, h: Handler, m: BrokerMsg, env: Env)
    requires FlagsInv(h)
    ensures TopicStep(h, FromBroker(m), HandleBroker(cfg, h, m, env))
  {
    match m
    case BrokerPublish(p) => BrokerPublishTopics(cfg, h, p, env);
    case BrokerSuback(msgId, grantedQoS) => BrokerSubackTopics(cfg, h, msgId, grantedQoS, env);
    case BrokerUnsuback(msgId) => BrokerUnsubackTopics(cfg, h, msgId, env);
    case _ =>
  }

  lemma ControlTopics(cfg: Config, h: Handler, m: ControlMsg, env: Env)
    requires FlagsInv(h)
    ensures TopicStep(h, Control(m), HandleControl(cfg, h, m, env))
  {
  }

  lemma HandleTopics(cfg: Config, h: Handler, e: Event, env: Env)
    requires FlagsInv(h)
    ensures TopicStep(h, e, Handle(cfg, h, e, env))
  {
    match e
    case FromClient(Regack(topicId, msgId)) => RegackTopics(cfg, h, topicId, msgId);
    case FromClient(Register(msgId, topicName)) => RegisterTopics(cfg, h, msgId, topicName, env);
    case FromClient(m) => ClientTopics(cfg, h, m, env);
    case FromBroker(m) => BrokerTopics(cfg, h, m, env);
    case Control(m) => ControlTopics(cfg, h, m, env);
  }

  // ----- what that does to the invariants

  lemma RegistersKept(h: Handler, e: Event, r: Result, toClient: seq<ToClient>)
    requires RegistersInv(h, toClient) && TopicStep(h, e, r)
    ensures RegistersInv(r.h, toClient + r.out.toClient)
  {
  }

  function Renamed(named: set<(int, string)>, r: Result): set<(int, string)> {
    named + r.h.table.Items + Announced(r.out.toClient)
  }

  /** Whatever the client answers, what it is told or the table holds has been named. */
  lemma NamedKept(h: Handler, e: Event, r: Result, named: set<(int, string)>)
    requires NamedInv(h, named) && TopicStep(h, e, r) && FlagsInv(r.h)
    ensures NamedInv(r.h, Renamed(named, r))
  {
    if Announces(h, r) {
      assert r.out.toClient[0].CRegister?;
      assert Pending(r.h) in Announced(r.out.toClient);
    }
  }

  lemma NothingNew(h: Handler, r: Result, named: set<(int, string)>)
    requires TopicsInv(h, named) && NoTopics(h, r)
    ensures Renamed(named, r) == named
  {
    assert Announced(r.out.toClient) == {};
    forall id | id in r.h.table ensures (id, r.h.table[id]) in named {
      assert (id, h.table[id]) in h.table.Items;
    }
  }

  lemma BindingNew(h: Handler, r: Result, name: string, named: set<(int, string)>)
    requires TopicsInv(h, named) && Binds(h, r, name)
    ensures Renamed(named, r) == named + {(h.topicId, name)}
  {
    assert Announced(r.out.toClient) == {};
    forall p | p in r.h.table.Items ensures p in named || p == (h.topicId, name) {
      assert p.0 != h.topicId ==> p in h.table.Items;
    }
    assert (h.topicId, name) in r.h.table.Items;
  }

  lemma AnnouncingNew(h: Handler, r: Result, named: set<(int, string)>)
    requires TopicsInv(h, named) && FlagsInv(r.h) && Announces(h, r)
    ensures Renamed(named, r) == named + {Pending(r.h)}
  {
    assert r.out.toClient[0].CRegister?;
    assert Announced(r.out.toClient) == {Pending(r.h)};
  }

  lemma AnsweringNew(h: Handler, e: Event, r: Result, named: set<(int, string)>)
    requires TopicsInv(h, named) && Answers(h, e, r)
    ensures Renamed(named, r) == named + {(e.msg.topicId, h.gw.register.value.topicName)}
  {
    assert Announced(r.out.toClient) == {};
    var pair := (e.msg.topicId, h.gw.register.value.topicName);
    forall p | p in r.h.table.Items ensures p in named + {pair} {
      assert p.0 != e.msg.topicId ==> p in h.table.Items;
    }
    assert pair in r.h.table.Items;
  }

  lemma TopicsKept(h: Handler, e: Event, r: Result, toClient: seq<ToClient>, named: set<(int, string)>)
    requires TopicsInv(h, named) && TopicStep(h, e, r) && FlagsInv(r.h)
    requires RegistersInv(h, toClient) && Echoes(toClient, e)
    ensures TopicsInv(r.h, Renamed(named, r))
  {
    NamedKept(h, e, r, named);
    if Binds(h, r, NewName(h, e)) {
      BindingNew(h, r, NewName(h, e), named);
    } else if Announces(h, r) {
      AnnouncingNew(h, r, named);
    } else if Answers(h, e, r) {
      AnsweringNew(h, e, r, named);
      assert e.msg.topicId == Pending(h).0;
    } else {
      NothingNew(h, r, named);
    }
  }

  // ----- runs

  lemma StartTopics(cfg: Config, tasks: seq<Task>)
    requires ConfigOk(cfg)
    ensures var w := Start(cfg, tasks); TopicsInv(w.h, w.named) && RegistersInv(w.h, w.toClient)
  {
  }

  lemma StepNamed(cfg: Config, w: World, s: Step, w': World)
    requires HandlerInv(cfg, w.h) && StepOk(cfg, w, s, w')
    requires NamedInv(w.h, w.named) && RegistersInv(w.h, w.toClient)
    ensures NamedInv(w'.h, w'.named) && RegistersInv(w'.h, w'.toClient)
  {
    StepKeepsInv(cfg, w, s, w');
    if s.Own? {
      var r := Handle(cfg, w.h, s.event, s.env);
      HandleTopics(cfg, w.h, s.event, s.env);
      RegistersKept(w.h, s.event, r, w.toClient);
      NamedKept(w.h, s.event, r, w.named);
    }
  }

  lemma StepTopics(cfg: Config, w: World, s: Step, w': World)
    requires HandlerInv(cfg, w.h) && StepOk(cfg, w, s, w')
    requires TopicsInv(w.h, w.named) && RegistersInv(w.h, w.toClient)
    requires s.Own? ==> Echoes(w.toClient, s.event)
    ensures TopicsInv(w'.h, w'.named)
  {
    StepKeepsInv(cfg, w, s, w');
    if s.Own? {
      HandleTopics(cfg, w.h, s.event, s.env);
      TopicsKept(w.h, s.event, Handle(cfg, w.h, s.event, s.env), w.toClient, w.named);
    }
  }

  /** With any client: what is bound or announced was named, and REGISTERs never share a message id. */
  lemma {:induction false} RunNamed(cfg: Config, ws: seq<World>, steps: seq<Step>, k: nat)
    requires Run(cfg, ws, steps) && k < |ws|
    ensures NamedInv(ws[k].h, ws[k].named) && RegistersInv(ws[k].h, ws[k].toClient)
  {
    if k == 0 {
      var tasks :| ws[0] == Start(cfg, tasks);
      StartTopics(cfg, tasks);
    } else {
      RunNamed(cfg, ws, steps, k - 1);
      RunInv(cfg, ws, steps, k - 1);
      StepNamed(cfg, ws[k - 1], steps[k - 1], ws[k]);
    }
  }

  /** With a client that echoes: every id named stands for one name and has been given out. */
  lemma {:induction false} RunTopics(cfg: Config, ws: seq<World>, steps: seq<Step>, k: nat)
    requires Run(cfg, ws, steps) && Echoing(ws, steps) && k < |ws|
    ensures TopicsInv(ws[k].h, ws[k].named)
  {
    if k == 0 {
      var tasks :| ws[0] == Start(cfg, tasks);
      StartTopics(cfg, tasks);
    } else {
      RunTopics(cfg, ws, steps, k - 1);
      RunNamed(cfg, ws, steps, k - 1);
      RunInv(cfg, ws, steps, k - 1);
      StepTopics(cfg, ws[k - 1], steps[k - 1], ws[k]);
    }
  }

  lemma {:induction false} NamedGrows(cfg: Config, ws: seq<World>, steps: seq<Step>, i: nat, j: nat)
    requires Run(cfg, ws, steps) && i <= j < |ws|
    ensures ws[i].named <= ws[j].named
    decreases j
  {
    if i < j {
      NamedGrows(cfg, ws, steps, i, j - 1);
      assert StepOk(cfg, ws[j - 1], steps[j - 1], ws[j]);
    }
  }

  /** Main result: if an id is bound to a name at one time of a run and to a name at another, the names
      are the same, whatever was removed, registered again or disconnected in between, as long as the
      client echoes. */
  lemma TopicIdsFunctional(cfg: Config, ws: seq<World>, steps: seq<Step>, i: nat, j: nat, id: int)
    requires Run(cfg, ws, steps) && Echoing(ws, steps) && i < |ws| && j < |ws|
    requires id in ws[i].h.table && id in ws[j].h.table
    ensures ws[i].h.table[id] == ws[j].h.table[id]
  {
    var k := |ws| - 1;
    NamedGrows(cfg, ws, steps, i, k);
    NamedGrows(cfg, ws, steps, j, k);
    RunTopics(cfg, ws, steps, i);
    RunTopics(cfg, ws, steps, j);
    RunTopics(cfg, ws, steps, k);
    assert (id, ws[i].h.table[id]) in ws[i].h.table.Items;
    assert (id, ws[j].h.table[id]) in ws[j].h.table.Items;
  }

  // ----- without the echo

  /** The handler takes a REGACK's topic id unchecked. When it matches the message id of the
      REGISTER under way, ids go on to stand for one name exactly if the echoed id stands for no
      other name, and the whole invariant survives exactly if it has been given out as well. */
  lemma RegackKeepsTopicsExactly(cfg: Config, h: Handler, named: set<(int, string)>, topicId: nat)
    requires TopicsInv(h, named) && h.gw.waitingRegack
    ensures var r := HandleRegack(cfg, h, topicId, h.gw.register.value.msgId);
            Functional(Renamed(named, r)) <==>
            forall name :: (topicId, name) in named ==> name == h.gw.register.value.topicName
    ensures var r := HandleRegack(cfg, h, topicId, h.gw.register.value.msgId);
            TopicsInv(r.h, Renamed(named, r)) <==>
            1 <= topicId < h.topicId
            && forall name :: (topicId, name) in named ==> name == h.gw.register.value.topicName
  {
    var e := FromClient(Regack(topicId, h.gw.register.value.msgId));
    var r := HandleRegack(cfg, h, topicId, h.gw.register.value.msgId);
    var pair := (topicId, h.gw.register.value.topicName);
    assert Answers(h, e, r);
    AnsweringNew(h, e, r, named);
    NamedKept(h, e, r, named);
    assert pair in Renamed(named, r);
  }

  const EXAMPLE := Config([7], 1, map[1 := "a"], 3, 60)

  /** A client connects, and the broker publishes on a topic it has no id for. */
  const EXAMPLE_STEPS := [
    Own(FromClient(Connect(MqttsConnect("c", false, true, 60))), Env(true, true, [1])),
    Own(FromBroker(BrokerConnack(0)), Env(true, true, [1])),
    Own(FromBroker(BrokerPublish(MqttPublish(false, 0, false, "b/c", 0, []))), Env(true, true, [1]))
  ]

  /** The client answers the REGISTER with the id of a predefined topic. */
  const FOREIGN_REGACK := Own(FromClient(Regack(1, 1)), Env(true, true, [1]))

  lemma ExampleRun() returns (ws: seq<World>)
    ensures Run(EXAMPLE, ws, EXAMPLE_STEPS)
    ensures var w := ws[3];
            && w.h.gw.waitingRegack && w.h.gw.register == Some(MqttsRegister(2, 1, "b/c"))
            && w.h.gw.mqttPublish == Some(MqttPublish(false, 0, false, "b/c", 0, []))
            && w.h.client == Connected && w.h.table == map[1 := "a"] && !w.h.removed
            && w.toClient == [CConnack, CRegister(MqttsRegister(2, 1, "b/c"))]
  {
    var w0 := Start(EXAMPLE, []);
    var w1 := Next(EXAMPLE, w0, EXAMPLE_STEPS[0]);
    var w2 := Next(EXAMPLE, w1, EXAMPLE_STEPS[1]);
    var w3 := Next(EXAMPLE, w2, EXAMPLE_STEPS[2]);
    ws := [w0, w1, w2, w3];
    assert Enumerates([1], map[1 := "a"]);
    assert w2.h.client == Connected && w2.h.gw == IDLE && w2.h.table == map[1 := "a"];
    assert GetTopicId(map[1 := "a"], [1], "b/c") == GetTopicId(map[1 := "a"], [], "b/c");
    assert StepOk(EXAMPLE, w0, EXAMPLE_STEPS[0], w1);
    assert StepOk(EXAMPLE, w1, EXAMPLE_STEPS[1], w2);
    assert StepOk(EXAMPLE, w2, EXAMPLE_STEPS[2], w3);
    assert w1.toClient == [] && w2.toClient == [CConnack];
  }

  /** In a run from a new handler on, an id that is not echoed makes id 1 stand for two names and
      predefined topic 1 is lost: the echo is needed. */
  lemma ForeignRegackRebinds() returns (ws: seq<World>)
    ensures Run(EXAMPLE, ws, EXAMPLE_STEPS + [FOREIGN_REGACK]) && !Echoing(ws, EXAMPLE_STEPS + [FOREIGN_REGACK])
    ensures ws[3].h.table == map[1 := "a"] && ws[4].h.table == map[1 := "b/c"]
  {
    var ws3 := ExampleRun();
    var steps := EXAMPLE_STEPS + [FOREIGN_REGACK];
    assert Enumerates([1], map[1 := "a"]);
    var w4 := RunExtends(EXAMPLE, ws3, EXAMPLE_STEPS, FOREIGN_REGACK);
    ws := ws3 + [w4];
    assert steps[3] == FOREIGN_REGACK && ws[3] == ws3[3] && ws[4] == w4;
    assert StepOk(EXAMPLE, ws[3], steps[3], ws[4]);
    assert ws[3].toClient[1].CRegister? && !Echoes(ws[3].toClient, steps[3].event);
  }
}
