/** The per-client handler as the object it is: its methods assign the waiting flags, counters,
    stored messages and ids in place, and use the shared timer service and its own topic table.
    Each is proved to do what the handler functions say. */
module GatewayHandler {
  import opened Common
  import opened GatewayMessages
  import opened GatewaySpec
  import opened GatewayTables

  class ClientMsgHandler {
    const cfg: Config
    const timer: TimerService
    const topics: TopicMappingTable
    var client: ClientState
    var clientId: string
    var removed: bool

    // the state of the gateway
    var waitingWillTopic: bool
    var waitingWillMsg: bool
    var waitingRegack: bool
    var waitingSuback: bool
    var waitingUnsuback: bool
    var waitingPuback: bool
    var triesWillTopicReq: int
    var triesWillMsgReq: int
    var triesRegister: int

    // stored messages
    var mqttsConnect: Option<MqttsConnect>
    var mqttsWillTopic: Option<MqttsWillTopic>
    var mqttsSubscribe: Option<MqttsSubscribe>
    var mqttsUnsubscribe: Option<MqttsUnsubscribe>
    var mqttsRegister: Option<MqttsRegister>
    var mqttPublish: Option<MqttPublish>
    var mqttsPublish: Option<MqttsPublish>

    // the next ids
    var msgId: int
    var topicId: int

    ghost function Gateway(): GatewayState
      reads this
    {
      GatewayState(waitingWillTopic, waitingWillMsg, waitingRegack, waitingSuback, waitingUnsuback, waitingPuback,
                   triesWillTopicReq, triesWillMsgReq, triesRegister, mqttsConnect, mqttsWillTopic,
                   mqttsSubscribe, mqttsUnsubscribe, mqttsRegister, mqttPublish, mqttsPublish)
    }

    ghost function State(): Handler
      reads this, timer, topics
    {
      Handler(client, clientId, Gateway(), msgId, topicId, topics.topicIdTable, timer.timeoutTasks, removed)
    }

    /** initialize(): the predefined topics go into a table of its own. */
    constructor (cfg: Config, timer: TimerService, order: seq<int>)
      requires Enumerates(order, cfg.predefTable)
      ensures this.cfg == cfg && this.timer == timer && fresh(topics)
      ensures State() == Fresh(cfg, old(timer.timeoutTasks))
    {
      var table := new TopicMappingTable();
      table.Initialize(cfg.predefTable, order);
      this.cfg, this.timer, this.topics := cfg, timer, table;
      client, clientId, removed, msgId, topicId := NotConnected, "...", false, 1, cfg.predefSize + 1;
      waitingWillTopic, waitingWillMsg, waitingRegack := false, false, false;
      waitingSuback, waitingUnsuback, waitingPuback := false, false, false;
      triesWillTopicReq, triesWillMsgReq, triesRegister := 0, 0, 0;
      mqttsConnect, mqttsWillTopic, mqttsSubscribe, mqttsUnsubscribe := None, None, None, None;
      mqttsRegister, mqttPublish, mqttsPublish := None, None, None;
      new;
      assert map[] + cfg.predefTable == cfg.predefTable;
    }

    // ----- helpers

    method ResetWaiting()
      modifies `waitingWillTopic, `waitingWillMsg, `waitingRegack, `waitingSuback, `waitingUnsuback, `waitingPuback
      ensures !waitingWillTopic && !waitingWillMsg && !waitingRegack
      ensures !waitingSuback && !waitingUnsuback && !waitingPuback
    {
      waitingWillTopic, waitingWillMsg, waitingRegack := false, false, false;
      waitingSuback, waitingUnsuback, waitingPuback := false, false, false;
    }

    method DeleteStoredMessages()
      modifies `mqttsConnect, `mqttsWillTopic, `mqttsSubscribe, `mqttsUnsubscribe
      modifies `mqttsRegister, `mqttPublish, `mqttsPublish
      ensures mqttsConnect.None? && mqttsWillTopic.None? && mqttsSubscribe.None? && mqttsUnsubscribe.None?
      ensures mqttsRegister.None? && mqttPublish.None? && mqttsPublish.None?
    {
      mqttsConnect, mqttsWillTopic, mqttsSubscribe, mqttsUnsubscribe := None, None, None, None;
      mqttsRegister, mqttPublish, mqttsPublish := None, None, None;
    }

    /** reset(): no waiting, no tries, no stored message. */
    method ResetGateway()
      modifies `waitingWillTopic, `waitingWillMsg, `waitingRegack, `waitingSuback, `waitingUnsuback, `waitingPuback
      modifies `triesWillTopicReq, `triesWillMsgReq, `triesRegister
      modifies `mqttsConnect, `mqttsWillTopic, `mqttsSubscribe, `mqttsUnsubscribe
      modifies `mqttsRegister, `mqttPublish, `mqttsPublish
      ensures Gateway() == IDLE
    {
      ResetWaiting();
      triesWillTopicReq, triesWillMsgReq, triesRegister := 0, 0, 0;
      DeleteStoredMessages();
    }

    method DeleteStoredWill()
      modifies `mqttsConnect, `mqttsWillTopic
      ensures mqttsConnect.None? && mqttsWillTopic.None?
    {
      mqttsConnect := None;
      mqttsWillTopic := None;
    }

    /** A request just sent: wait for its answer, count the try, start the timer. */
    method StartWaitingWillTopic()
      modifies this, timer
      ensures State() == old(State()).(
                gw := old(Gateway()).(waitingWillTopic := true, triesWillTopicReq := old(triesWillTopicReq) + 1),
                tasks := old(timer.timeoutTasks) + [Task(cfg.address, WaitingWillTopic)])
    {
      waitingWillTopic := true;
      triesWillTopicReq := triesWillTopicReq + 1;
      timer.Register(cfg.address, WaitingWillTopic);
    }

    method StopWaitingWillTopic()
      modifies this, timer
      ensures State() == old(State()).(
                gw := old(Gateway()).(waitingWillTopic := false, triesWillTopicReq := 0),
                tasks := RemoveFirst(old(timer.timeoutTasks), Task(cfg.address, WaitingWillTopic)))
    {
      waitingWillTopic := false;
      triesWillTopicReq := 0;
      var _ := timer.Unregister(cfg.address, WaitingWillTopic);
    }

    method StartWaitingWillMsg()
      modifies this, timer
      ensures State() == old(State()).(
                gw := old(Gateway()).(waitingWillMsg := true, triesWillMsgReq := old(triesWillMsgReq) + 1),
                tasks := old(timer.timeoutTasks) + [Task(cfg.address, WaitingWillMsg)])
    {
      waitingWillMsg := true;
      triesWillMsgReq := triesWillMsgReq + 1;
      timer.Register(cfg.address, WaitingWillMsg);
    }

    method StopWaitingWillMsg()
      modifies this, timer
      ensures State() == old(State()).(
                gw := old(Gateway()).(waitingWillMsg := false, triesWillMsgReq := 0),
                tasks := RemoveFirst(old(timer.timeoutTasks), Task(cfg.address, WaitingWillMsg)))
    {
      waitingWillMsg := false;
      triesWillMsgReq := 0;
      var _ := timer.Unregister(cfg.address, WaitingWillMsg);
    }

    method StartWaitingRegack()
      modifies this, timer
      ensures State() == old(State()).(
                gw := old(Gateway()).(waitingRegack := true, triesRegister := old(triesRegister) + 1),
                tasks := old(timer.timeoutTasks) + [Task(cfg.address, WaitingRegack)])
    {
      waitingRegack := true;
      triesRegister := triesRegister + 1;
      timer.Register(cfg.address, WaitingRegack);
    }

    method StopWaitingRegack()
      modifies this, timer
      ensures State() == GatewaySpec.ResetRegister(cfg, old(State()))
    {
      waitingRegack := false;
      triesRegister := 0;
      var _ := timer.Unregister(cfg.address, WaitingRegack);
    }

    method SendClientDisconnect() returns (out: Out)
      modifies this, timer
      ensures Result(State(), out) == GatewaySpec.SendClientDisconnect(cfg, old(State()))
    {
      out := Client(CDisconnect);
      client := Disconnected;
      var _ := timer.UnregisterAddress(cfg.address);
      ResetGateway();
    }

    method ConnectionLost() returns (out: Out)
      modifies this, timer
      ensures Result(State(), out) == HandleConnectionLost(cfg, old(State()))
    {
      out := NOTHING;
      if client == Connected {
        out := SendClientDisconnect();
      }
    }

    method NewMsgId() returns (id: int)
      modifies this
      ensures id == old(msgId) && State() == old(State()).(msgId := old(msgId) + 1)
    {
      id := msgId;
      msgId := msgId + 1;
    }

    method NewTopicId() returns (id: int)
      modifies this
      ensures id == old(topicId) && State() == old(State()).(topicId := old(topicId) + 1)
    {
      id := topicId;
      topicId := topicId + 1;
    }

    // ----- messages from the client

    method Connect(m: MqttsConnect, env: Env) returns (out: Out)
      modifies this, timer
      ensures Result(State(), out) == HandleConnect(cfg, old(State()), m, env)
    {
      out := NOTHING;
      clientId := m.clientId;
      if client == Connected {
        return Client(CConnack);
      }
      if waitingWillTopic || waitingWillMsg {
        return;
      }
      if !m.will {
        if !env.initOk || !env.sendOk {
          return;
        }
        out := Broker(BConnect(m.clientId, m.cleanSession, m.duration, None));
        client := Connected;
        return;
      }
      mqttsConnect := Some(m);
      out := Client(CWillTopicReq);
      StartWaitingWillTopic();
    }

    method WillTopic(m: MqttsWillTopic) returns (out: Out)
      modifies this, timer
      ensures Result(State(), out) == HandleWillTopic(cfg, old(State()), m)
    {
      out := NOTHING;
      if !waitingWillTopic {
        return;
      }
      StopWaitingWillTopic();
      mqttsWillTopic := Some(m);
      out := Client(CWillMsgReq);
      StartWaitingWillMsg();
    }

    method ConnectWithWill(willMsg: string, env: Env) returns (out: Out)
      modifies this
      ensures Result(State(), out) == GatewaySpec.ConnectWithWill(old(State()), willMsg, env)
    {
      out := NOTHING;
      if mqttsConnect.None? {
        mqttsWillTopic := None;
        return;
      }
      if mqttsWillTopic.None? {
        mqttsConnect := None;
        return;
      }
      var c, w := mqttsConnect.value, mqttsWillTopic.value;
      if !env.initOk || !env.sendOk {
        return;
      }
      out := Broker(BConnect(c.clientId, c.cleanSession, c.duration,
                             Some(Will(w.willTopic, willMsg, w.qos, w.retain))));
      client := Connected;
      DeleteStoredWill();
    }

    method WillMsg(willMsg: string, env: Env) returns (out: Out)
      modifies this, timer
      ensures Result(State(), out) == HandleWillMsg(cfg, old(State()), willMsg, env)
    {
      out := NOTHING;
      if !waitingWillMsg {
        return;
      }
      StopWaitingWillMsg();
      out := ConnectWithWill(willMsg, env);
    }

    method Register(msgId: int, topicName: string, env: Env) returns (out: Out)
      requires Enumerates(env.order, topics.topicIdTable)
      modifies this, timer, topics
      ensures Result(State(), out) == HandleRegister(cfg, old(State()), msgId, topicName, env)
    {
      if client != Connected {
        out := SendClientDisconnect();
        return;
      }
      var id := topics.TopicId(topicName, env.order);
      if id == 0 {
        id := NewTopicId();
        topics.AssignTopicId(id, topicName);
      }
      out := Client(CRegack(id, msgId));
    }

    method Regack(topicId: nat, msgId: int) returns (out: Out)
      modifies this, timer, topics
      ensures Result(State(), out) == HandleRegack(cfg, old(State()), topicId, msgId)
    {
      out := NOTHING;
      if client != Connected {
        out := SendClientDisconnect();
        return;
      }
      if !waitingRegack {
        return;
      }
      if mqttsRegister.None? {
        StopWaitingRegack();
        mqttPublish := None;
        return;
      }
      if mqttPublish.None? {
        StopWaitingRegack();
        mqttsRegister := None;
        return;
      }
      if msgId != mqttsRegister.value.msgId {
        return;
      }
      var p := mqttPublish.value;
      topics.AssignTopicId(topicId, p.topicName);
      out := Client(CPublish(MqttsPublish(p.dup, p.qos, p.retain, NormalTopicId(topicId), p.msgId, p.payload)));
      StopWaitingRegack();
      mqttsRegister := None;
      mqttPublish := None;
    }

    method Publish(m: MqttsPublish, env: Env) returns (out: Out)
      modifies this, timer
      ensures Result(State(), out) == HandlePublish(cfg, old(State()), m, env)
    {
      out := NOTHING;
      if m.topic.InvalidTopicIdType? || m.topic.TopicName? {
        return;
      }
      if m.qos == -1 {
        return Out([], [], 1);
      }
      if client != Connected {
        out := SendClientDisconnect();
        return;
      }
      if waitingPuback && m.qos == 1 {
        return;
      }
      var name: Option<string> := None;
      match m.topic {
        case NormalTopicId(id) =>
          if id > cfg.predefSize {
            name := topics.TopicName(id);
          }
        case ShortTopicName(short) => name := Some(short);
        case PredefinedTopicId(id) =>
          if id <= cfg.predefSize {
            name := topics.TopicName(id);
          }
      }
      if name.None? {
        return Client(CPuback(m.topic, m.msgId, RETURN_CODE_INVALID_TOPIC_ID));
      }
      if !env.sendOk {
        out := ConnectionLost();
        return;
      }
      out := Broker(BPublish(MqttPublish(m.dup, m.qos, m.retain, name.value, m.msgId, m.data)));
      if m.qos == 1 {
        waitingPuback := true;
        mqttsPublish := Some(m);
      }
    }

    method Puback(topicId: nat, msgId: int, returnCode: int, env: Env) returns (out: Out)
      modifies this, timer, topics
      ensures Result(State(), out) == HandlePuback(cfg, old(State()), topicId, msgId, returnCode, env)
    {
      out := NOTHING;
      if client != Connected {
        out := SendClientDisconnect();
        return;
      }
      if returnCode == RETURN_CODE_INVALID_TOPIC_ID {
        topics.RemoveTopicId(topicId);
        return;
      }
      if !env.sendOk {
        out := ConnectionLost();
        return;
      }
      out := Broker(BPuback(msgId));
    }

    method Relay(m: RelayMsg, env: Env) returns (out: Out)
      modifies this, timer
      ensures Result(State(), out) == HandleRelay(cfg, old(State()), m, env)
    {
      if client != Connected {
        out := SendClientDisconnect();
        return;
      }
      if !env.sendOk {
        out := ConnectionLost();
        return;
      }
      out := Broker(BRelay(m));
    }

    /** The name of a subscription's topic. */
    method FilterName(t: Topic) returns (name: Option<string>)
      ensures name == GatewaySpec.FilterName(cfg, State(), t)
    {
      name := None;
      match t {
        case TopicName(n) => name := Some(n);
        case ShortTopicName(n) => name := Some(n);
        case PredefinedTopicId(id) =>
          if id <= cfg.predefSize {
            name := topics.TopicName(id);
          }
        case _ =>
      }
    }

    method Subscribe(m: MqttsSubscribe, env: Env) returns (out: Out)
      modifies this, timer
      ensures Result(State(), out) == HandleSubscribe(cfg, old(State()), m, env)
    {
      out := NOTHING;
      if m.topic.InvalidTopicIdType? || m.topic.NormalTopicId? {
        return;
      }
      if client != Connected {
        out := SendClientDisconnect();
        return;
      }
      if waitingSuback {
        return;
      }
      var name := FilterName(m.topic);
      if name.None? {
        return Client(CSuback(m.topic, m.msgId, 0, RETURN_CODE_INVALID_TOPIC_ID));
      }
      mqttsSubscribe := Some(m);
      if !env.sendOk {
        out := ConnectionLost();
        return;
      }
      out := Broker(BSubscribe(m.dup, m.qos, name.value, m.msgId));
      waitingSuback := true;
    }

    method Unsubscribe(m: MqttsUnsubscribe, env: Env) returns (out: Out)
      modifies this, timer
      ensures Result(State(), out) == HandleUnsubscribe(cfg, old(State()), m, env)
    {
      out := NOTHING;
      if m.topic.InvalidTopicIdType? || m.topic.NormalTopicId? {
        return;
      }
      if client != Connected {
        out := SendClientDisconnect();
        return;
      }
      if waitingUnsuback {
        return;
      }
      var name := FilterName(m.topic);
      if name.None? {
        return;
      }
      mqttsUnsubscribe := Some(m);
      if !env.sendOk {
        out := ConnectionLost();
        return;
      }
      out := Broker(BUnsubscribe(m.dup, name.value, m.msgId));
      waitingUnsuback := true;
    }

    method Disconnect(env: Env) returns (out: Out)
      modifies this, timer
      ensures Result(State(), out) == HandleDisconnect(cfg, old(State()), env)
    {
      out := NOTHING;
      if client != Connected {
        return;
      }
      out := SendClientDisconnect();
      if env.sendOk {
        out := Out(out.toClient, [BDisconnect], 0);
      }
    }

    // ----- messages from the broker

    method BrokerConnack(returnCode: int) returns (out: Out)
      modifies this, timer
      ensures Result(State(), out) == HandleBrokerConnack(cfg, old(State()), returnCode)
    {
      out := NOTHING;
      if client != Connected {
        return;
      }
      if returnCode != 0 {
        out := SendClientDisconnect();
        return;
      }
      out := Client(CConnack);
    }

    /** Store the PUBLISH and announce a new topic id for its topic; it is bound on the REGACK only. */
    method SendRegister(m: MqttPublish) returns (out: Out)
      modifies this, timer
      ensures State() == old(State()).(
                topicId := old(topicId) + 1, msgId := old(msgId) + 1,
                gw := old(Gateway()).(mqttPublish := Some(m), waitingRegack := true,
                                      register := Some(MqttsRegister(old(topicId), old(msgId), m.topicName)),
                                      triesRegister := old(triesRegister) + 1),
                tasks := old(timer.timeoutTasks) + [Task(cfg.address, WaitingRegack)])
      ensures out == Client(CRegister(MqttsRegister(old(topicId), old(msgId), m.topicName)))
    {
      mqttPublish := Some(m);
      var id := NewTopicId();
      var newMsgId := NewMsgId();
      mqttsRegister := Some(MqttsRegister(id, newMsgId, m.topicName));
      out := Client(CRegister(mqttsRegister.value));
      StartWaitingRegack();
    }

    method BrokerPublish(m: MqttPublish, env: Env) returns (out: Out)
      requires Enumerates(env.order, topics.topicIdTable)
      modifies this, timer
      ensures Result(State(), out) == HandleBrokerPublish(cfg, old(State()), m, env)
    {
      out := NOTHING;
      if client != Connected {
        return;
      }
      if |m.payload| > cfg.maxMqttsLength - 7 {
        return;
      }
      if |m.topicName| > cfg.maxMqttsLength - 6 {
        return;
      }
      var id := topics.TopicId(m.topicName, env.order);
      if id != 0 {
        var topic := NormalTopicId(0);
        if id > cfg.predefSize {
          topic := NormalTopicId(id);
        } else if id > 0 && id <= cfg.predefSize {
          topic := PredefinedTopicId(id);
        }
        return Client(CPublish(MqttsPublish(m.dup, m.qos, m.retain, topic, m.msgId, m.payload)));
      }
      if id == 0 && |m.topicName| == 2 {
        return;
      }
      if id == 0 && !waitingRegack {
        out := SendRegister(m);
      }
    }

    method BrokerPuback(msgId: int) returns (out: Out)
      modifies this
      ensures Result(State(), out) == HandleBrokerPuback(cfg, old(State()), msgId)
    {
      out := NOTHING;
      if client != Connected || !waitingPuback {
        return;
      }
      if mqttsPublish.None? {
        waitingPuback := false;
        return;
      }
      if msgId != mqttsPublish.value.msgId {
        return;
      }
      out := Client(CPuback(mqttsPublish.value.topic, msgId, RETURN_CODE_ACCEPTED));
      waitingPuback := false;
      mqttsPublish := None;
    }

    method BrokerSuback(msgId: int, grantedQoS: int, env: Env) returns (out: Out)
      requires Enumerates(env.order, topics.topicIdTable)
      modifies this, topics
      ensures Result(State(), out) == HandleBrokerSuback(cfg, old(State()), msgId, grantedQoS, env)
    {
      out := NOTHING;
      if client != Connected || !waitingSuback {
        return;
      }
      if mqttsSubscribe.None? {
        waitingSuback := false;
        return;
      }
      if msgId != mqttsSubscribe.value.msgId {
        return;
      }
      var topic;
      match mqttsSubscribe.value.topic {
        case TopicName(name) =>
          var id := topics.TopicId(name, env.order);
          if HasWildcard(name) {
            topic := NormalTopicId(0);
          } else if id != 0 {
            topic := NormalTopicId(id);
          } else {
            id := NewTopicId();
            topics.AssignTopicId(id, name);
            topic := NormalTopicId(id);
          }
        case ShortTopicName(name) => topic := ShortTopicName(name);
        case PredefinedTopicId(id) => topic := PredefinedTopicId(id);
        case _ => return;
      }
      out := Client(CSuback(topic, msgId, grantedQoS, RETURN_CODE_ACCEPTED));
      waitingSuback := false;
      mqttsSubscribe := None;
    }

    method BrokerUnsuback(msgId: int, env: Env) returns (out: Out)
      requires Enumerates(env.order, topics.topicIdTable)
      modifies this, topics
      ensures Result(State(), out) == HandleBrokerUnsuback(cfg, old(State()), msgId, env)
    {
      out := NOTHING;
      if client != Connected || !waitingUnsuback {
        return;
      }
      if mqttsUnsubscribe.None? {
        waitingUnsuback := false;
        return;
      }
      if msgId != mqttsUnsubscribe.value.msgId {
        return;
      }
      if mqttsUnsubscribe.value.topic.TopicName? {
        topics.RemoveTopicName(mqttsUnsubscribe.value.topic.name, env.order, cfg.predefSize);
      }
      out := Client(CUnsuback(msgId));
      waitingUnsuback := false;
      mqttsUnsubscribe := None;
    }

    // ----- control messages

    method WillTopicTimeout() returns (out: Out)
      modifies this, timer
      ensures Result(State(), out) == HandleWillTopicTimeout(cfg, old(State()))
    {
      out := NOTHING;
      if !waitingWillTopic {
        return;
      }
      if triesWillTopicReq > cfg.maxRetries {
        StopWaitingWillTopic();
        mqttsConnect := None;
      } else {
        out := Client(CWillTopicReq);
        triesWillTopicReq := triesWillTopicReq + 1;
      }
    }

    method WillMsgTimeout() returns (out: Out)
      modifies this, timer
      ensures Result(State(), out) == HandleWillMsgTimeout(cfg, old(State()))
    {
      out := NOTHING;
      if !waitingWillMsg {
        return;
      }
      if triesWillMsgReq > cfg.maxRetries {
        StopWaitingWillMsg();
        DeleteStoredWill();
      } else {
        out := Client(CWillMsgReq);
        triesWillMsgReq := triesWillMsgReq + 1;
      }
    }

    method RegackTimeout() returns (out: Out)
      requires waitingRegack ==> mqttsRegister.Some?
      modifies this, timer
      ensures Result(State(), out) == HandleRegackTimeout(cfg, old(State()))
    {
      out := NOTHING;
      if !waitingRegack {
        return;
      }
      if triesRegister > cfg.maxRetries {
        StopWaitingRegack();
        mqttPublish := None;
        mqttsRegister := None;
      } else {
        var newMsgId := NewMsgId();
        mqttsRegister := Some(mqttsRegister.value.(msgId := newMsgId));
        out := Client(CRegister(mqttsRegister.value));
        triesRegister := triesRegister + 1;
      }
    }

    method CheckInactivity(expired: bool) returns (out: Out)
      modifies this
      ensures Result(State(), out) == HandleCheckInactivity(old(State()), expired)
    {
      out := NOTHING;
      if expired {
        removed := true;
      }
    }

    // ----- any event

    method HandleMqttsMessage(m: ClientMsg, env: Env) returns (out: Out)
      requires Enumerates(env.order, topics.topicIdTable)
      modifies this, timer, topics
      ensures Result(State(), out) == HandleClient(cfg, old(State()), m, env)
    {
      out := NOTHING;
      match m {
        case SearchGw => out := Out([], [], 1);
        case Connect(c) => out := Connect(c, env);
        case WillTopic(w) => out := WillTopic(w);
        case WillMsg(w) => out := WillMsg(w, env);
        case Register(msgId, topicName) => out := Register(msgId, topicName, env);
        case Regack(topicId, msgId) => out := Regack(topicId, msgId);
        case Publish(p) => out := Publish(p, env);
        case Puback(topicId, msgId, returnCode) => out := Puback(topicId, msgId, returnCode, env);
        case Relay(r) => out := Relay(r, env);
        case Subscribe(s) => out := Subscribe(s, env);
        case Unsubscribe(u) => out := Unsubscribe(u, env);
        case Disconnect => out := Disconnect(env);
        case IgnoredFromClient =>
      }
    }

    method HandleMqttMessage(m: BrokerMsg, env: Env) returns (out: Out)
      requires Enumerates(env.order, topics.topicIdTable)
      modifies this, timer, topics
      ensures Result(State(), out) == HandleBroker(cfg, old(State()), m, env)
    {
      out := NOTHING;
      match m {
        case BrokerConnack(returnCode) => out := BrokerConnack(returnCode);
        case BrokerPublish(p) => out := BrokerPublish(p, env);
        case BrokerPuback(msgId) => out := BrokerPuback(msgId);
        case BrokerSuback(msgId, grantedQoS) => out := BrokerSuback(msgId, grantedQoS, env);
        case BrokerUnsuback(msgId) => out := BrokerUnsuback(msgId, env);
        case BrokerRelay(r) =>
          if client == Connected {
            out := Client(CRelay(r));
          }
        case IgnoredFromBroker =>
      }
    }

    method HandleControlMessage(m: ControlMsg, env: Env) returns (out: Out)
      requires waitingRegack ==> mqttsRegister.Some?
      modifies this, timer
      ensures Result(State(), out) == HandleControl(cfg, old(State()), m, env)
    {
      out := NOTHING;
      match m {
        case ConnectionLost => out := ConnectionLost();
        case WillTopicTimeout => out := WillTopicTimeout();
        case WillMsgTimeout => out := WillMsgTimeout();
        case RegackTimeout => out := RegackTimeout();
        case CheckInactivity(expired) => out := CheckInactivity(expired);
        case ShutDown =>
          if client == Connected && env.sendOk {
            out := Broker(BDisconnect);
          }
      }
    }
  }
}
