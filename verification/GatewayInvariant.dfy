/** What every step keeps: waiting flags, stored messages, retry counters and timers always agree. */
module GatewayInvariant {
  import opened Common
  import opened GatewayMessages
  import opened GatewaySpec

  /** Connecting, establishing a will topic and establishing a will message exclude each other,
      and whoever waits has stored what it will need. */
  ghost predicate FlagsInv(h: Handler) {
    var gw := h.gw;
    && !(h.client == Connected && gw.waitingWillTopic)
    && !(h.client == Connected && gw.waitingWillMsg)
    && !(gw.waitingWillTopic && gw.waitingWillMsg)
    && (gw.waitingWillTopic ==> gw.connect.Some? && gw.connect.value.will)
    && (gw.waitingWillMsg ==> gw.connect.Some? && gw.connect.value.will && gw.willTopic.Some?)
    && (gw.waitingRegack ==>
          && h.client == Connected && gw.register.Some? && gw.mqttPublish.Some?
          && gw.register.value.topicName == gw.mqttPublish.value.topicName
          && gw.register.value.topicId < h.topicId && gw.register.value.msgId < h.msgId)
    && (gw.waitingSuback ==>
          && h.client == Connected && gw.subscribe.Some?
          && !gw.subscribe.value.topic.InvalidTopicIdType? && !gw.subscribe.value.topic.NormalTopicId?)
    && (gw.waitingUnsuback ==> h.client == Connected && gw.unsubscribe.Some?)
    && (gw.waitingPuback ==>
          && h.client == Connected && gw.mqttsPublish.Some? && gw.mqttsPublish.value.qos == 1
          && !gw.mqttsPublish.value.topic.InvalidTopicIdType? && !gw.mqttsPublish.value.topic.TopicName?)
  }

  predicate Waiting(gw: GatewayState, kind: TimeoutType) {
    match kind
    case WaitingWillTopic => gw.waitingWillTopic
    case WaitingWillMsg => gw.waitingWillMsg
    case WaitingRegack => gw.waitingRegack
    case OtherTimeout => false
  }

  function Tries(gw: GatewayState, kind: TimeoutType): int {
    match kind
    case WaitingWillTopic => gw.triesWillTopicReq
    case WaitingWillMsg => gw.triesWillMsgReq
    case WaitingRegack => gw.triesRegister
    case OtherTimeout => 0
  }

  /** Exactly one timer of a kind runs while the handler waits for that answer, and the try
      counter is within 1..maxRetries+1 then and 0 otherwise. */
  ghost predicate TimerInv(cfg: Config, h: Handler, kind: TimeoutType) {
    && GatewayMessages.Count(h.tasks, Task(cfg.address, kind)) == (if Waiting(h.gw, kind) then 1 else 0)
    && (if Waiting(h.gw, kind) then 1 <= Tries(h.gw, kind) <= cfg.maxRetries + 1 else Tries(h.gw, kind) == 0)
  }

  ghost predicate TimersInv(cfg: Config, h: Handler) {
    && TimerInv(cfg, h, WaitingWillTopic) && TimerInv(cfg, h, WaitingWillMsg) && TimerInv(cfg, h, WaitingRegack)
  }

  ghost predicate HandlerInv(cfg: Config, h: Handler) {
    FlagsInv(h) && TimersInv(cfg, h)
  }

  /** Tasks of another address, or of another kind, are none of this handler's business. */
  ghost predicate OthersKept(cfg: Config, h: Handler, h': Handler) {
    forall t: Task :: t.address != cfg.address ==>
      GatewayMessages.Count(h'.tasks, t) == GatewayMessages.Count(h.tasks, t)
  }

  /** What one step must show. */
  ghost predicate Kept(cfg: Config, h: Handler, h': Handler) {
    HandlerInv(cfg, h') && OthersKept(cfg, h, h')
  }

  // ----- timers

  /** The waiting flag and the try counter of a kind are the same in both states. */
  predicate SameWait(h: Handler, h': Handler, kind: TimeoutType) {
    Waiting(h'.gw, kind) == Waiting(h.gw, kind) && Tries(h'.gw, kind) == Tries(h.gw, kind)
  }

  predicate OnlyWait(h: Handler, h': Handler, kind: TimeoutType) {
    && (kind == WaitingWillTopic || SameWait(h, h', WaitingWillTopic))
    && (kind == WaitingWillMsg || SameWait(h, h', WaitingWillMsg))
    && (kind == WaitingRegack || SameWait(h, h', WaitingRegack))
  }

  lemma DisconnectKeeps(cfg: Config, h: Handler)
    ensures Kept(cfg, h, SendClientDisconnect(cfg, h).h)
  {
    var h' := SendClientDisconnect(cfg, h).h;
    forall t: Task ensures GatewayMessages.Count(h'.tasks, t)
      == (if t.address == cfg.address then 0 else GatewayMessages.Count(h.tasks, t)) {
      RemoveAllCount(h.tasks, cfg.address, t);
    }
  }

  /** Starting a timer adds one task, stopping it removes it; other tasks stay. */
  lemma StartTimer(cfg: Config, h: Handler, h': Handler, kind: TimeoutType)
    requires TimersInv(cfg, h) && h'.tasks == h.tasks + [Task(cfg.address, kind)]
    requires !Waiting(h.gw, kind) && Waiting(h'.gw, kind) && Tries(h'.gw, kind) == 1 && kind != OtherTimeout
    requires OnlyWait(h, h', kind)
    ensures TimersInv(cfg, h') && OthersKept(cfg, h, h')
  {
    forall t: Task ensures GatewayMessages.Count(h'.tasks, t)
      == GatewayMessages.Count(h.tasks, t) + if t == Task(cfg.address, kind) then 1 else 0 {
      AppendCount(h.tasks, Task(cfg.address, kind), t);
    }
  }

  lemma StopTimer(cfg: Config, h: Handler, h': Handler, kind: TimeoutType)
    requires TimersInv(cfg, h) && h'.tasks == RemoveFirst(h.tasks, Task(cfg.address, kind))
    requires Waiting(h.gw, kind) && !Waiting(h'.gw, kind) && Tries(h'.gw, kind) == 0
    requires OnlyWait(h, h', kind)
    ensures TimersInv(cfg, h') && OthersKept(cfg, h, h')
  {
    forall t: Task ensures GatewayMessages.Count(h'.tasks, t) == GatewayMessages.Count(h.tasks, t)
      - if t == Task(cfg.address, kind) && GatewayMessages.Count(h.tasks, t) > 0 then 1 else 0 {
      RemoveFirstCount(h.tasks, Task(cfg.address, kind), t);
    }
  }

  // ----- messages from the client

  lemma ConnectKeeps(cfg: Config, h: Handler, m: MqttsConnect, env: Env)
    requires HandlerInv(cfg, h)
    ensures Kept(cfg, h, HandleConnect(cfg, h, m, env).h)
  {
    var h' := HandleConnect(cfg, h, m, env).h;
    if h'.gw.waitingWillTopic && !h.gw.waitingWillTopic {
      StartTimer(cfg, h, h', WaitingWillTopic);
    }
  }

  lemma WillTopicKeeps(cfg: Config, h: Handler, m: MqttsWillTopic)
    requires HandlerInv(cfg, h)
    ensures Kept(cfg, h, HandleWillTopic(cfg, h, m).h)
  {
    if h.gw.waitingWillTopic {
      var h' := HandleWillTopic(cfg, h, m).h;
      var mid := h.(gw := h.gw.(waitingWillTopic := false, triesWillTopicReq := 0),
                    tasks := RemoveFirst(h.tasks, Task(cfg.address, WaitingWillTopic)));
      StopTimer(cfg, h, mid, WaitingWillTopic);
      StartTimer(cfg, mid, h', WaitingWillMsg);
    }
  }

  lemma WillMsgKeeps(cfg: Config, h: Handler, willMsg: string, env: Env)
    requires HandlerInv(cfg, h)
    ensures Kept(cfg, h, HandleWillMsg(cfg, h, willMsg, env).h)
  {
    if h.gw.waitingWillMsg {
      StopTimer(cfg, h, HandleWillMsg(cfg, h, willMsg, env).h, WaitingWillMsg);
    }
  }

  lemma RegisterKeeps(cfg: Config, h: Handler, msgId: int, topicName: string, env: Env)
    requires HandlerInv(cfg, h)
    ensures Kept(cfg, h, HandleRegister(cfg, h, msgId, topicName, env).h)
  {
    DisconnectKeeps(cfg, h);
  }

  lemma RegackKeeps(cfg: Config, h: Handler, topicId: nat, msgId: int)
    requires HandlerInv(cfg, h)
    ensures Kept(cfg, h, HandleRegack(cfg, h, topicId, msgId).h)
  {
    DisconnectKeeps(cfg, h);
    var h' := HandleRegack(cfg, h, topicId, msgId).h;
    if h.client == Connected && h.gw.waitingRegack && !h'.gw.waitingRegack {
      StopTimer(cfg, h, h', WaitingRegack);
    }
  }

  lemma PublishKeeps(cfg: Config, h: Handler, m: MqttsPublish, env: Env)
    requires HandlerInv(cfg, h)
    ensures Kept(cfg, h, HandlePublish(cfg, h, m, env).h)
  {
    DisconnectKeeps(cfg, h);
  }

  lemma PubackKeeps(cfg: Config, h: Handler, topicId: nat, msgId: int, returnCode: int, env: Env)
    requires HandlerInv(cfg, h)
    ensures Kept(cfg, h, HandlePuback(cfg, h, topicId, msgId, returnCode, env).h)
  {
    DisconnectKeeps(cfg, h);
  }

  lemma RelayKeeps(cfg: Config, h: Handler, m: RelayMsg, env: Env)
    requires HandlerInv(cfg, h)
    ensures Kept(cfg, h, HandleRelay(cfg, h, m, env).h)
  {
    DisconnectKeeps(cfg, h);
  }

  lemma SubscribeKeeps(cfg: Config, h: Handler, m: MqttsSubscribe, env: Env)
    requires HandlerInv(cfg, h)
    ensures Kept(cfg, h, HandleSubscribe(cfg, h, m, env).h)
  {
    DisconnectKeeps(cfg, h);
    DisconnectKeeps(cfg, h.(gw := h.gw.(subscribe := Some(m))));
  }

  lemma UnsubscribeKeeps(cfg: Config, h: Handler, m: MqttsUnsubscribe, env: Env)
    requires HandlerInv(cfg, h)
    ensures Kept(cfg, h, HandleUnsubscribe(cfg, h, m, env).h)
  {
    DisconnectKeeps(cfg, h);
    DisconnectKeeps(cfg, h.(gw := h.gw.(unsubscribe := Some(m))));
  }

  // ----- messages from the broker

  lemma BrokerPublishKeeps(cfg: Config, h: Handler, m: MqttPublish, env: Env)
    requires HandlerInv(cfg, h)
    ensures Kept(cfg, h, HandleBrokerPublish(cfg, h, m, env).h)
  {
    var h' := HandleBrokerPublish(cfg, h, m, env).h;
    if h'.gw.waitingRegack && !h.gw.waitingRegack {
      StartTimer(cfg, h, h', WaitingRegack);
    }
  }

  lemma BrokerPubackKeeps(cfg: Config, h: Handler, msgId: int)
    requires HandlerInv(cfg, h)
    ensures Kept(cfg, h, HandleBrokerPuback(cfg, h, msgId).h)
  {
  }

  /** The topic table and the next topic id are no part of the invariant, as long as ids grow. */
  lemma TableKept(cfg: Config, h: Handler, h': Handler, table: map<int, string>, topicId: int)
    requires Kept(cfg, h, h') && h'.topicId <= topicId
    ensures Kept(cfg, h, h'.(table := table)) && Kept(cfg, h, h'.(table := table, topicId := topicId))
  {
  }

  lemma SubackDone(cfg: Config, h: Handler)
    requires HandlerInv(cfg, h)
    ensures Kept(cfg, h, h.(gw := h.gw.(waitingSuback := false, subscribe := None)))
    ensures Kept(cfg, h, h.(gw := h.gw.(waitingUnsuback := false, unsubscribe := None)))
  {
  }

  lemma BrokerSubackKeeps(cfg: Config, h: Handler, msgId: int, grantedQoS: int, env: Env)
    requires HandlerInv(cfg, h)
    ensures Kept(cfg, h, HandleBrokerSuback(cfg, h, msgId, grantedQoS, env).h)
  {
    SubackDone(cfg, h);
    if h.gw.waitingSuback && h.gw.subscribe.value.topic.TopicName? {
      var done := h.(gw := h.gw.(waitingSuback := false, subscribe := None));
      TableKept(cfg, h, done, h.table[h.topicId := h.gw.subscribe.value.topic.name], h.topicId + 1);
    }
  }

  lemma BrokerUnsubackKeeps(cfg: Config, h: Handler, msgId: int, env: Env)
    requires HandlerInv(cfg, h)
    ensures Kept(cfg, h, HandleBrokerUnsuback(cfg, h, msgId, env).h)
  {
    SubackDone(cfg, h);
    if h.gw.waitingUnsuback && h.gw.unsubscribe.value.topic.TopicName? {
      var done := h.(gw := h.gw.(waitingUnsuback := false, unsubscribe := None));
      TableKept(cfg, h, done, HandleBrokerUnsuback(cfg, h, msgId, env).h.table, h.topicId);
    }
  }

  // ----- timeouts

  lemma WillTopicTimeoutKeeps(cfg: Config, h: Handler)
    requires HandlerInv(cfg, h)
    ensures Kept(cfg, h, HandleWillTopicTimeout(cfg, h).h)
  {
    var h' := HandleWillTopicTimeout(cfg, h).h;
    if h.gw.waitingWillTopic && !h'.gw.waitingWillTopic {
      StopTimer(cfg, h, h', WaitingWillTopic);
    }
  }

  lemma WillMsgTimeoutKeeps(cfg: Config, h: Handler)
    requires HandlerInv(cfg, h)
    ensures Kept(cfg, h, HandleWillMsgTimeout(cfg, h).h)
  {
    var h' := HandleWillMsgTimeout(cfg, h).h;
    if h.gw.waitingWillMsg && !h'.gw.waitingWillMsg {
      StopTimer(cfg, h, h', WaitingWillMsg);
    }
  }

  lemma RegackTimeoutKeeps(cfg: Config, h: Handler)
    requires HandlerInv(cfg, h)
    ensures Kept(cfg, h, HandleRegackTimeout(cfg, h).h)
  {
    var h' := HandleRegackTimeout(cfg, h).h;
    if h.gw.waitingRegack && !h'.gw.waitingRegack {
      StopTimer(cfg, h, h', WaitingRegack);
    }
  }

  // ----- any event

  lemma DisconnectHandlerKeeps(cfg: Config, h: Handler, returnCode: int, env: Env)
    requires HandlerInv(cfg, h)
    ensures Kept(cfg, h, HandleDisconnect(cfg, h, env).h)
    ensures Kept(cfg, h, HandleBrokerConnack(cfg, h, returnCode).h)
    ensures Kept(cfg, h, HandleConnectionLost(cfg, h).h)
  {
    DisconnectKeeps(cfg, h);
  }

  lemma ClientKeeps(cfg: Config, h: Handler, e: ClientMsg, env: Env)
    requires HandlerInv(cfg, h)
    ensures Kept(cfg, h, HandleClient(cfg, h, e, env).h)
  {
    match e
    case SearchGw =>
    case Connect(m) => ConnectKeeps(cfg, h, m, env);
    case WillTopic(m) => WillTopicKeeps(cfg, h, m);
    case WillMsg(m) => WillMsgKeeps(cfg, h, m, env);
    case Register(msgId, topicName) => RegisterKeeps(cfg, h, msgId, topicName, env);
    case Regack(topicId, msgId) => RegackKeeps(cfg, h, topicId, msgId);
    case Publish(m) => PublishKeeps(cfg, h, m, env);
    case Puback(topicId, msgId, returnCode) => PubackKeeps(cfg, h, topicId, msgId, returnCode, env);
    case Relay(m) => RelayKeeps(cfg, h, m, env);
    case Subscribe(m) => SubscribeKeeps(cfg, h, m, env);
    case Unsubscribe(m) => UnsubscribeKeeps(cfg, h, m, env);
    case Disconnect => DisconnectHandlerKeeps(cfg, h, 0, env);
    case IgnoredFromClient =>
  }

  lemma BrokerKeeps(cfg: Config, h: Handler, e: BrokerMsg, env: Env)
    requires HandlerInv(cfg, h)
    ensures Kept(cfg, h, HandleBroker(cfg, h, e, env).h)
  {
    match e
    case BrokerConnack(returnCode) => DisconnectHandlerKeeps(cfg, h, returnCode, env);
    case BrokerPublish(m) => BrokerPublishKeeps(cfg, h, m, env);
    case BrokerPuback(msgId) => BrokerPubackKeeps(cfg, h, msgId);
    case BrokerSuback(msgId, grantedQoS) => BrokerSubackKeeps(cfg, h, msgId, grantedQoS, env);
    case BrokerUnsuback(msgId) => BrokerUnsubackKeeps(cfg, h, msgId, env);
    case BrokerRelay(m) =>
    case IgnoredFromBroker =>
  }

  lemma ControlKeeps(cfg: Config, h: Handler, e: ControlMsg, env: Env)
    requires HandlerInv(cfg, h)
    ensures Kept(cfg, h, HandleControl(cfg, h, e, env).h)
  {
    match e
    case ConnectionLost => DisconnectHandlerKeeps(cfg, h, 0, env);
    case WillTopicTimeout => WillTopicTimeoutKeeps(cfg, h);
    case WillMsgTimeout => WillMsgTimeoutKeeps(cfg, h);
    case RegackTimeout => RegackTimeoutKeeps(cfg, h);
    case CheckInactivity(expired) =>
    case ShutDown =>
  }

  /** Main result: every message and every timeout, in any order, keeps the handler's flags,
      stored messages, counters and timers in agreement, and touches no other handler's timers. */
  lemma HandleKeeps(cfg: Config, h: Handler, e: Event, env: Env)
    requires HandlerInv(cfg, h)
    ensures HandlerInv(cfg, Handle(cfg, h, e, env).h)
    ensures OthersKept(cfg, h, Handle(cfg, h, e, env).h)
  {
    match e
    case FromClient(m) => ClientKeeps(cfg, h, m, env);
    case FromBroker(m) => BrokerKeeps(cfg, h, m, env);
    case Control(m) => ControlKeeps(cfg, h, m, env);
  }
}
