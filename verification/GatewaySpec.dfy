/** The per-client handler of the MQTT-SN gateway, on values: what every message from the client,
    every message from the broker and every control message does to its state. */
module GatewaySpec {
  import opened Common
  import opened GatewayMessages

  datatype Result = Result(h: Handler, out: Out)

  function Keep(h: Handler): Result { Result(h, NOTHING) }

  /** sendClientDisconnect: tell the client, forget every procedure, timer and stored message. */
  function SendClientDisconnect(cfg: Config, h: Handler): Result {
    Result(h.(client := Disconnected, gw := IDLE, tasks := RemoveAll(h.tasks, cfg.address)),
           Client(CDisconnect))
  }

  /** Hand m to the broker interface; a failure counts as a lost connection. */
  function SendOrLose(cfg: Config, h: Handler, env: Env, m: ToBroker): Result {
    if env.sendOk then Result(h, Broker(m)) else SendClientDisconnect(cfg, h)
  }

  // ----- messages from the client

  function HandleConnect(cfg: Config, h: Handler, m: MqttsConnect, env: Env): Result {
    var h1 := h.(clientId := m.clientId);
    if h.client == Connected then Result(h1, Client(CConnack))
    else if h.gw.waitingWillTopic || h.gw.waitingWillMsg then Keep(h1)
    else if !m.will then
      if !env.initOk || !env.sendOk then Keep(h1)
      else Result(h1.(client := Connected), Broker(BConnect(m.clientId, m.cleanSession, m.duration, None)))
    else
      Result(h1.(gw := h.gw.(connect := Some(m), waitingWillTopic := true,
                             triesWillTopicReq := h.gw.triesWillTopicReq + 1),
                 tasks := h.tasks + [Task(cfg.address, WaitingWillTopic)]),
             Client(CWillTopicReq))
  }

  function HandleWillTopic(cfg: Config, h: Handler, m: MqttsWillTopic): Result {
    if !h.gw.waitingWillTopic then Keep(h)
    else
      Result(h.(gw := h.gw.(waitingWillTopic := false, triesWillTopicReq := 0, willTopic := Some(m),
                            waitingWillMsg := true, triesWillMsgReq := h.gw.triesWillMsgReq + 1),
                tasks := RemoveFirst(h.tasks, Task(cfg.address, WaitingWillTopic))
                         + [Task(cfg.address, WaitingWillMsg)]),
             Client(CWillMsgReq))
  }

  /** With the will complete, connect to the broker in the client's name. */
  function ConnectWithWill(h: Handler, willMsg: string, env: Env): Result {
    if h.gw.connect.None? then Keep(h.(gw := h.gw.(willTopic := None)))
    else if h.gw.willTopic.None? then Keep(h.(gw := h.gw.(connect := None)))
    else if !env.initOk || !env.sendOk then Keep(h)
    else
      var c, w := h.gw.connect.value, h.gw.willTopic.value;
      Result(h.(client := Connected, gw := h.gw.(connect := None, willTopic := None)),
             Broker(BConnect(c.clientId, c.cleanSession, c.duration,
                             Some(Will(w.willTopic, willMsg, w.qos, w.retain)))))
  }

  function HandleWillMsg(cfg: Config, h: Handler, willMsg: string, env: Env): Result {
    if !h.gw.waitingWillMsg then Keep(h)
    else
      ConnectWithWill(h.(gw := h.gw.(waitingWillMsg := false, triesWillMsgReq := 0),
                         tasks := RemoveFirst(h.tasks, Task(cfg.address, WaitingWillMsg))), willMsg, env)
  }

  function HandleRegister(cfg: Config, h: Handler, msgId: int, topicName: string, env: Env): Result {
    if h.client != Connected then SendClientDisconnect(cfg, h)
    else
      var id := GetTopicId(h.table, env.order, topicName);
      if id != 0 then Result(h, Client(CRegack(id, msgId)))
      else Result(h.(topicId := h.topicId + 1, table := h.table[h.topicId := topicName]),
                  Client(CRegack(h.topicId, msgId)))
  }

  function ResetRegister(cfg: Config, h: Handler): Handler {
    h.(gw := h.gw.(waitingRegack := false, triesRegister := 0),
       tasks := RemoveFirst(h.tasks, Task(cfg.address, WaitingRegack)))
  }

  function HandleRegack(cfg: Config, h: Handler, topicId: nat, msgId: int): Result {
    if h.client != Connected then SendClientDisconnect(cfg, h)
    else if !h.gw.waitingRegack then Keep(h)
    else
      var h1 := ResetRegister(cfg, h);
      if h.gw.register.None? then Keep(h1.(gw := h1.gw.(mqttPublish := None)))
      else if h.gw.mqttPublish.None? then Keep(h1.(gw := h1.gw.(register := None)))
      else if msgId != h.gw.register.value.msgId then Keep(h)
      else
        var p := h.gw.mqttPublish.value;
        Result(h1.(table := h.table[topicId := p.topicName],
                   gw := h1.gw.(register := None, mqttPublish := None)),
               Client(CPublish(MqttsPublish(p.dup, p.qos, p.retain, NormalTopicId(topicId), p.msgId, p.payload))))
  }

  /** The name a client's PUBLISH stands for, if its topic is valid. */
  function PublishName(cfg: Config, h: Handler, t: Topic): Option<string> {
    match t
    case NormalTopicId(id) => if id <= cfg.predefSize || id !in h.table then None else Some(h.table[id])
    case ShortTopicName(name) => Some(name)
    case PredefinedTopicId(id) => if id > cfg.predefSize || id !in h.table then None else Some(h.table[id])
    case _ => None
  }

  function HandlePublish(cfg: Config, h: Handler, m: MqttsPublish, env: Env): Result {
    if m.topic.InvalidTopicIdType? || m.topic.TopicName? then Keep(h)
    else if m.qos == -1 then Result(h, Out([], [], 1))
    else if h.client != Connected then SendClientDisconnect(cfg, h)
    else if h.gw.waitingPuback && m.qos == 1 then Keep(h)
    else
      var name := PublishName(cfg, h, m.topic);
      if name.None? then Result(h, Client(CPuback(m.topic, m.msgId, RETURN_CODE_INVALID_TOPIC_ID)))
      else
        var r := SendOrLose(cfg, h, env, BPublish(MqttPublish(m.dup, m.qos, m.retain, name.value, m.msgId, m.data)));
        if env.sendOk && m.qos == 1
        then r.(h := h.(gw := h.gw.(waitingPuback := true, mqttsPublish := Some(m)))) else r
  }

  function HandlePuback(cfg: Config, h: Handler, topicId: nat, msgId: int, returnCode: int, env: Env): Result {
    if h.client != Connected then SendClientDisconnect(cfg, h)
    else if returnCode == RETURN_CODE_INVALID_TOPIC_ID then Keep(h.(table := h.table - {topicId}))
    else SendOrLose(cfg, h, env, BPuback(msgId))
  }

  function HandleRelay(cfg: Config, h: Handler, m: RelayMsg, env: Env): Result {
    if h.client != Connected then SendClientDisconnect(cfg, h)
    else SendOrLose(cfg, h, env, BRelay(m))
  }

  /** The name a SUBSCRIBE or UNSUBSCRIBE stands for, if its topic is valid. */
  function FilterName(cfg: Config, h: Handler, t: Topic): Option<string> {
    match t
    case TopicName(name) => Some(name)
    case ShortTopicName(name) => Some(name)
    case PredefinedTopicId(id) => if id > cfg.predefSize || id !in h.table then None else Some(h.table[id])
    case _ => None
  }

  function HandleSubscribe(cfg: Config, h: Handler, m: MqttsSubscribe, env: Env): Result {
    if m.topic.InvalidTopicIdType? || m.topic.NormalTopicId? then Keep(h)
    else if h.client != Connected then SendClientDisconnect(cfg, h)
    else if h.gw.waitingSuback then Keep(h)
    else
      var name := FilterName(cfg, h, m.topic);
      if name.None? then Result(h, Client(CSuback(m.topic, m.msgId, 0, RETURN_CODE_INVALID_TOPIC_ID)))
      else
        var h1 := h.(gw := h.gw.(subscribe := Some(m)));
        var r := SendOrLose(cfg, h1, env, BSubscribe(m.dup, m.qos, name.value, m.msgId));
        if env.sendOk then r.(h := h1.(gw := h1.gw.(waitingSuback := true))) else r
  }

  function HandleUnsubscribe(cfg: Config, h: Handler, m: MqttsUnsubscribe, env: Env): Result {
    if m.topic.InvalidTopicIdType? || m.topic.NormalTopicId? then Keep(h)
    else if h.client != Connected then SendClientDisconnect(cfg, h)
    else if h.gw.waitingUnsuback then Keep(h)
    else
      var name := FilterName(cfg, h, m.topic);
      if name.None? then Keep(h)
      else
        var h1 := h.(gw := h.gw.(unsubscribe := Some(m)));
        var r := SendOrLose(cfg, h1, env, BUnsubscribe(m.dup, name.value, m.msgId));
        if env.sendOk then r.(h := h1.(gw := h1.gw.(waitingUnsuback := true))) else r
  }

  function HandleDisconnect(cfg: Config, h: Handler, env: Env): Result {
    if h.client != Connected then Keep(h)
    else
      var r := SendClientDisconnect(cfg, h);
      if env.sendOk then r.(out := Out([CDisconnect], [BDisconnect], 0)) else r
  }

  // ----- messages from the broker

  function HandleBrokerConnack(cfg: Config, h: Handler, returnCode: int): Result {
    if h.client != Connected then Keep(h)
    else if returnCode != 0 then SendClientDisconnect(cfg, h)
    else Result(h, Client(CConnack))
  }

  function HandleBrokerPublish(cfg: Config, h: Handler, m: MqttPublish, env: Env): Result {
    if h.client != Connected then Keep(h)
    else if |m.payload| > cfg.maxMqttsLength - 7 || |m.topicName| > cfg.maxMqttsLength - 6 then Keep(h)
    else
      var id := GetTopicId(h.table, env.order, m.topicName);
      if id != 0 then
        var topic := if id > cfg.predefSize then NormalTopicId(id)
                     else if id > 0 then PredefinedTopicId(id) else NormalTopicId(0);
        Result(h, Client(CPublish(MqttsPublish(m.dup, m.qos, m.retain, topic, m.msgId, m.payload))))
      else if |m.topicName| == 2 then Keep(h)
      else if h.gw.waitingRegack then Keep(h)
      else
        var register := MqttsRegister(h.topicId, h.msgId, m.topicName);
        Result(h.(topicId := h.topicId + 1, msgId := h.msgId + 1,
                  gw := h.gw.(mqttPublish := Some(m), register := Some(register), waitingRegack := true,
                              triesRegister := h.gw.triesRegister + 1),
                  tasks := h.tasks + [Task(cfg.address, WaitingRegack)]),
               Client(CRegister(register)))
  }

  function HandleBrokerPuback(cfg: Config, h: Handler, msgId: int): Result {
    if h.client != Connected || !h.gw.waitingPuback then Keep(h)
    else if h.gw.mqttsPublish.None? then Keep(h.(gw := h.gw.(waitingPuback := false)))
    else if msgId != h.gw.mqttsPublish.value.msgId then Keep(h)
    else
      Result(h.(gw := h.gw.(waitingPuback := false, mqttsPublish := None)),
             Client(CPuback(h.gw.mqttsPublish.value.topic, msgId, RETURN_CODE_ACCEPTED)))
  }

  predicate ContainsAt(s: string, t: string, i: nat) {
    i + |t| <= |s| && s[i..i + |t|] == t
  }

  predicate Contains(s: string, t: string) {
    exists i :: 0 <= i <= |s| && ContainsAt(s, t, i)
  }

  predicate HasWildcard(name: string) {
    || name == "#" || name == "+"
    || Contains(name, "/#/") || Contains(name, "/+/")
    || (|name| >= 2 && (name[|name| - 2..] == "/#" || name[|name| - 2..] == "/+"))
    || "#/" <= name || "+/" <= name
  }

  function HandleBrokerSuback(cfg: Config, h: Handler, msgId: int, grantedQoS: int, env: Env): Result {
    if h.client != Connected || !h.gw.waitingSuback then Keep(h)
    else if h.gw.subscribe.None? then Keep(h.(gw := h.gw.(waitingSuback := false)))
    else if msgId != h.gw.subscribe.value.msgId then Keep(h)
    else
      var done := h.(gw := h.gw.(waitingSuback := false, subscribe := None));
      match h.gw.subscribe.value.topic
      case TopicName(name) =>
        var id := GetTopicId(h.table, env.order, name);
        if HasWildcard(name) then
          Result(done, Client(CSuback(NormalTopicId(0), msgId, grantedQoS, RETURN_CODE_ACCEPTED)))
        else if id != 0 then
          Result(done, Client(CSuback(NormalTopicId(id), msgId, grantedQoS, RETURN_CODE_ACCEPTED)))
        else
          Result(done.(topicId := h.topicId + 1, table := h.table[h.topicId := name]),
                 Client(CSuback(NormalTopicId(h.topicId), msgId, grantedQoS, RETURN_CODE_ACCEPTED)))
      case ShortTopicName(name) =>
        Result(done, Client(CSuback(ShortTopicName(name), msgId, grantedQoS, RETURN_CODE_ACCEPTED)))
      case PredefinedTopicId(id) =>
        Result(done, Client(CSuback(PredefinedTopicId(id), msgId, grantedQoS, RETURN_CODE_ACCEPTED)))
      case _ => Keep(h)
  }

  function HandleBrokerUnsuback(cfg: Config, h: Handler, msgId: int, env: Env): Result {
    if h.client != Connected || !h.gw.waitingUnsuback then Keep(h)
    else if h.gw.unsubscribe.None? then Keep(h.(gw := h.gw.(waitingUnsuback := false)))
    else if msgId != h.gw.unsubscribe.value.msgId then Keep(h)
    else
      var t := h.gw.unsubscribe.value.topic;
      var done := h.(gw := h.gw.(waitingUnsuback := false, unsubscribe := None));
      Result(if t.TopicName? then done.(table := RemoveByName(h.table, env.order, t.name, cfg.predefSize))
             else done,
             Client(CUnsuback(msgId)))
  }

  function HandleBrokerRelay(h: Handler, m: RelayMsg): Result {
    if h.client != Connected then Keep(h) else Result(h, Client(CRelay(m)))
  }

  // ----- control messages

  function HandleConnectionLost(cfg: Config, h: Handler): Result {
    if h.client != Connected then Keep(h) else SendClientDisconnect(cfg, h)
  }

  function HandleWillTopicTimeout(cfg: Config, h: Handler): Result {
    if !h.gw.waitingWillTopic then Keep(h)
    else if h.gw.triesWillTopicReq > cfg.maxRetries then
      Keep(h.(gw := h.gw.(waitingWillTopic := false, triesWillTopicReq := 0, connect := None),
              tasks := RemoveFirst(h.tasks, Task(cfg.address, WaitingWillTopic))))
    else Result(h.(gw := h.gw.(triesWillTopicReq := h.gw.triesWillTopicReq + 1)), Client(CWillTopicReq))
  }

  function HandleWillMsgTimeout(cfg: Config, h: Handler): Result {
    if !h.gw.waitingWillMsg then Keep(h)
    else if h.gw.triesWillMsgReq > cfg.maxRetries then
      Keep(h.(gw := h.gw.(waitingWillMsg := false, triesWillMsgReq := 0, connect := None, willTopic := None),
              tasks := RemoveFirst(h.tasks, Task(cfg.address, WaitingWillMsg))))
    else Result(h.(gw := h.gw.(triesWillMsgReq := h.gw.triesWillMsgReq + 1)), Client(CWillMsgReq))
  }

  /** requires: a handler that waits has the REGISTER it would send again. */
  function HandleRegackTimeout(cfg: Config, h: Handler): Result
    requires h.gw.waitingRegack ==> h.gw.register.Some?
  {
    if !h.gw.waitingRegack then Keep(h)
    else if h.gw.triesRegister > cfg.maxRetries then
      var h1 := ResetRegister(cfg, h);
      Keep(h1.(gw := h1.gw.(mqttPublish := None, register := None)))
    else
      var register := h.gw.register.value.(msgId := h.msgId);
      Result(h.(msgId := h.msgId + 1,
                gw := h.gw.(register := Some(register), triesRegister := h.gw.triesRegister + 1)),
             Client(CRegister(register)))
  }

  function HandleCheckInactivity(h: Handler, expired: bool): Result {
    Keep(if expired then h.(removed := true) else h)
  }

  function HandleShutDown(h: Handler, env: Env): Result {
    if h.client != Connected || !env.sendOk then Keep(h) else Result(h, Broker(BDisconnect))
  }

  // ----- one event

  /** handleMqttsMessage */
  function HandleClient(cfg: Config, h: Handler, e: ClientMsg, env: Env): Result {
    match e
    case SearchGw => Result(h, Out([], [], 1))
    case Connect(m) => HandleConnect(cfg, h, m, env)
    case WillTopic(m) => HandleWillTopic(cfg, h, m)
    case WillMsg(m) => HandleWillMsg(cfg, h, m, env)
    case Register(msgId, topicName) => HandleRegister(cfg, h, msgId, topicName, env)
    case Regack(topicId, msgId) => HandleRegack(cfg, h, topicId, msgId)
    case Publish(m) => HandlePublish(cfg, h, m, env)
    case Puback(topicId, msgId, returnCode) => HandlePuback(cfg, h, topicId, msgId, returnCode, env)
    case Relay(m) => HandleRelay(cfg, h, m, env)
    case Subscribe(m) => HandleSubscribe(cfg, h, m, env)
    case Unsubscribe(m) => HandleUnsubscribe(cfg, h, m, env)
    case Disconnect => HandleDisconnect(cfg, h, env)
    case IgnoredFromClient => Keep(h)
  }

  /** handleMqttMessage */
  function HandleBroker(cfg: Config, h: Handler, e: BrokerMsg, env: Env): Result {
    match e
    case BrokerConnack(returnCode) => HandleBrokerConnack(cfg, h, returnCode)
    case BrokerPublish(m) => HandleBrokerPublish(cfg, h, m, env)
    case BrokerPuback(msgId) => HandleBrokerPuback(cfg, h, msgId)
    case BrokerSuback(msgId, grantedQoS) => HandleBrokerSuback(cfg, h, msgId, grantedQoS, env)
    case BrokerUnsuback(msgId) => HandleBrokerUnsuback(cfg, h, msgId, env)
    case BrokerRelay(m) => HandleBrokerRelay(h, m)
    case IgnoredFromBroker => Keep(h)
  }

  /** handleControlMessage */
  function HandleControl(cfg: Config, h: Handler, e: ControlMsg, env: Env): Result
    requires h.gw.waitingRegack ==> h.gw.register.Some?
  {
    match e
    case ConnectionLost => HandleConnectionLost(cfg, h)
    case WillTopicTimeout => HandleWillTopicTimeout(cfg, h)
    case WillMsgTimeout => HandleWillMsgTimeout(cfg, h)
    case RegackTimeout => HandleRegackTimeout(cfg, h)
    case CheckInactivity(expired) => HandleCheckInactivity(h, expired)
    case ShutDown => HandleShutDown(h, env)
  }

  function Handle(cfg: Config, h: Handler, e: Event, env: Env): Result
    requires h.gw.waitingRegack ==> h.gw.register.Some?
  {
    match e
    case FromClient(m) => HandleClient(cfg, h, m, env)
    case FromBroker(m) => HandleBroker(cfg, h, m, env)
    case Control(m) => HandleControl(cfg, h, m, env)
  }

  /** A new handler: not connected, ids from the first free one, the predefined topics. */
  function Fresh(cfg: Config, tasks: seq<Task>): Handler {
    Handler(NotConnected, "...", IDLE, 1, cfg.predefSize + 1, cfg.predefTable, tasks, false)
  }
}
