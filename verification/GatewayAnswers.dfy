/** What every event makes the handler send and change, exactly: one condition for each kind of message
    sent and for each part of the state, across all handlers. */
module GatewayAnswers {
  import opened Common
  import opened GatewayMessages
  import opened GatewaySpec
  import opened GatewayInvariant
  import opened GatewayRun
  import opened GatewayTopics
  import opened GatewayWildcards
  import opened GatewayRouting

  // ----- what the conditions speak of

  predicate IsConnected(h: Handler) { h.client == Connected }

  /** The id the table has for the name: the first one the enumeration meets, if that is not 0. */
  predicate Known(h: Handler, env: Env, name: string, id: int) {
    id != 0 && FirstBound(h.table, env.order, name, id)
  }

  ghost predicate Unknown(h: Handler, env: Env, name: string) {
    forall id :: !Known(h, env, name, id)
  }

  /** The REGACK of a PUBLISH and of a REGISTER fit into one message to the client. */
  predicate Fits(cfg: Config, m: MqttPublish) {
    |m.payload| + 7 <= cfg.maxMqttsLength && |m.topicName| + 6 <= cfg.maxMqttsLength
  }

  predicate Publishable(t: Topic) { !t.InvalidTopicIdType? && !t.TopicName? }

  predicate Filterable(t: Topic) { !t.InvalidTopicIdType? && !t.NormalTopicId? }

  /** The broker's PUBLISH starts a REGISTER. */
  ghost predicate StartsRegister(cfg: Config, h: Handler, env: Env, m: MqttPublish) {
    && IsConnected(h) && Fits(cfg, m) && Unknown(h, env, m.topicName)
    && |m.topicName| != 2 && !h.gw.waitingRegack
  }

  /** The event is the REGACK the handler waits for. */
  predicate AnswersRegack(h: Handler, e: Event) {
    && IsConnected(h) && h.gw.waitingRegack && e.FromClient? && e.msg.Regack?
    && h.gw.register.Some? && h.gw.mqttPublish.Some? && h.gw.register.value.msgId == e.msg.msgId
  }

  /** The event is the broker's acknowledgement of the message stored. */
  predicate AnswersPuback(h: Handler, e: Event) {
    && IsConnected(h) && h.gw.waitingPuback && h.gw.mqttsPublish.Some?
    && e == FromBroker(BrokerPuback(h.gw.mqttsPublish.value.msgId))
  }

  predicate AnswersSuback(h: Handler, e: Event) {
    && IsConnected(h) && h.gw.waitingSuback && h.gw.subscribe.Some?
    && e.FromBroker? && e.reply.BrokerSuback? && e.reply.msgId == h.gw.subscribe.value.msgId
  }

  predicate AnswersUnsuback(h: Handler, e: Event) {
    && IsConnected(h) && h.gw.waitingUnsuback && h.gw.unsubscribe.Some?
    && e == FromBroker(BrokerUnsuback(h.gw.unsubscribe.value.msgId))
  }

  /** The client's message is one to pass on to the broker. */
  ghost predicate ToPassOn(cfg: Config, h: Handler, m: ClientMsg) {
    && IsConnected(h)
    && match m
       case Publish(p) =>
         && Publishable(p.topic) && p.qos != -1 && !(h.gw.waitingPuback && p.qos == 1)
         && exists name :: Names(cfg, h.table.Items, p.topic, name)
       case Puback(_, _, returnCode) => returnCode != 2
       case Relay(_) => true
       case Subscribe(s) =>
         Filterable(s.topic) && !h.gw.waitingSuback && exists name :: Filters(cfg, h.table.Items, s.topic, name)
       case Unsubscribe(u) =>
         Filterable(u.topic) && !h.gw.waitingUnsuback && exists name :: Filters(cfg, h.table.Items, u.topic, name)
       case _ => false
  }

  /** The client sent what only a connected client may send. */
  predicate NeedsConnection(m: ClientMsg) {
    match m
    case Register(_, _) => true
    case Regack(_, _) => true
    case Publish(p) => Publishable(p.topic) && p.qos != -1
    case Puback(_, _, _) => true
    case Relay(_) => true
    case Subscribe(s) => Filterable(s.topic)
    case Unsubscribe(u) => Filterable(u.topic)
    case _ => false
  }

  /** The client is told to disconnect, and everything stored is dropped. */
  ghost predicate Disconnects(cfg: Config, h: Handler, e: Event, env: Env) {
    match e
    case FromClient(m) =>
      if IsConnected(h) then m.Disconnect? || (ToPassOn(cfg, h, m) && !env.sendOk) else NeedsConnection(m)
    case FromBroker(m) => IsConnected(h) && m.BrokerConnack? && m.returnCode != 0
    case Control(m) => IsConnected(h) && m.ConnectionLost?
  }

  predicate AwaitsWill(h: Handler) { h.gw.waitingWillTopic || h.gw.waitingWillMsg }

  /** The broker is asked to connect: a CONNECT without a will, or the message of a complete will. */
  predicate ConnectsNow(h: Handler, e: Event, env: Env) {
    && env.initOk && env.sendOk && e.FromClient?
    && (|| (e.msg.Connect? && !IsConnected(h) && !AwaitsWill(h) && !e.msg.connect.will)
        || (e.msg.WillMsg? && h.gw.waitingWillMsg))
  }

  predicate AsksWillTopic(h: Handler, e: Event) {
    e.FromClient? && e.msg.Connect? && e.msg.connect.will && !IsConnected(h) && !AwaitsWill(h)
  }

  predicate Again(cfg: Config, h: Handler, kind: TimeoutType) {
    Waiting(h.gw, kind) && Tries(h.gw, kind) <= cfg.maxRetries
  }

  // ----- when each message is sent

  ghost predicate SentToClient(cfg: Config, h: Handler, e: Event, env: Env, m: ToClient) {
    match m
    case CConnack => IsConnected(h) && ((e.FromClient? && e.msg.Connect?) || e == FromBroker(BrokerConnack(0)))
    case CWillTopicReq =>
      AsksWillTopic(h, e) || (e == Control(WillTopicTimeout) && Again(cfg, h, WaitingWillTopic))
    case CWillMsgReq =>
      || (e.FromClient? && e.msg.WillTopic? && h.gw.waitingWillTopic)
      || (e == Control(WillMsgTimeout) && Again(cfg, h, WaitingWillMsg))
    case CRegister(r) =>
      || (e.FromBroker? && e.reply.BrokerPublish? && StartsRegister(cfg, h, env, e.reply.brokerPublish)
          && r == MqttsRegister(h.topicId, h.msgId, e.reply.brokerPublish.topicName))
      || (e == Control(RegackTimeout) && Again(cfg, h, WaitingRegack) && h.gw.register.Some?
          && r == MqttsRegister(h.gw.register.value.topicId, h.msgId, h.gw.register.value.topicName))
    case CRegack(id, msgId) =>
      && IsConnected(h) && e.FromClient? && e.msg.Register? && e.msg.msgId == msgId
      && (Known(h, env, e.msg.topicName, id) || (Unknown(h, env, e.msg.topicName) && id == h.topicId))
    case CPublish(p) =>
      || (e.FromBroker? && e.reply.BrokerPublish? && IsConnected(h) && Fits(cfg, e.reply.brokerPublish)
          && Content(p, e.reply.brokerPublish) && Ranged(cfg, p.topic)
          && (p.topic.NormalTopicId? || p.topic.PredefinedTopicId?)
          && Known(h, env, e.reply.brokerPublish.topicName, p.topic.id))
      || (AnswersRegack(h, e) && Content(p, h.gw.mqttPublish.value) && p.topic == NormalTopicId(e.msg.topicId))
    case CPuback(topic, msgId, returnCode) =>
      || (returnCode == 2 && IsConnected(h) && e.FromClient? && e.msg.Publish?
          && e.msg.publish.topic == topic && e.msg.publish.msgId == msgId && Publishable(topic)
          && e.msg.publish.qos != -1 && !(h.gw.waitingPuback && e.msg.publish.qos == 1)
          && forall name :: !Names(cfg, h.table.Items, topic, name))
      || (returnCode == 0 && AnswersPuback(h, e) && msgId == e.reply.msgId && topic == h.gw.mqttsPublish.value.topic)
    case CSuback(topic, msgId, grantedQoS, returnCode) =>
      || (returnCode == 2 && grantedQoS == 0 && IsConnected(h) && e.FromClient? && e.msg.Subscribe?
          && e.msg.subscribe.topic == topic && e.msg.subscribe.msgId == msgId && Filterable(topic)
          && !h.gw.waitingSuback && forall name :: !Filters(cfg, h.table.Items, topic, name))
      || (returnCode == 0 && AnswersSuback(h, e) && msgId == e.reply.msgId && grantedQoS == e.reply.grantedQoS
          && var t := h.gw.subscribe.value.topic;
             if t.TopicName? then
               && topic.NormalTopicId?
               && (if Wild(t.name) then topic.id == 0
                   else Known(h, env, t.name, topic.id) || (Unknown(h, env, t.name) && topic.id == h.topicId))
             else topic == t)
    case CUnsuback(msgId) => AnswersUnsuback(h, e) && msgId == e.reply.msgId
    case CRelay(relay) => IsConnected(h) && e == FromBroker(BrokerRelay(relay))
    case CDisconnect => Disconnects(cfg, h, e, env)
  }

  /** The same content, whatever the topics. */
  predicate Content(p: MqttsPublish, m: MqttPublish) {
    p == MqttsPublish(m.dup, m.qos, m.retain, p.topic, m.msgId, m.payload)
  }

  ghost predicate SentToBroker(cfg: Config, h: Handler, e: Event, env: Env, m: ToBroker) {
    match m
    case BConnect(clientId, cleanStart, keepAlive, will) =>
      && ConnectsNow(h, e, env)
      && (if e.msg.Connect? then will == None && e.msg.connect == MqttsConnect(clientId, false, cleanStart, keepAlive)
          else
            && h.gw.connect.Some? && h.gw.willTopic.Some?
            && h.gw.connect.value == MqttsConnect(clientId, true, cleanStart, keepAlive)
            && var t := h.gw.willTopic.value;
               will == Some(Will(t.willTopic, e.msg.willMsg, t.qos, t.retain)))
    case BPublish(p) =>
      && env.sendOk && e.FromClient? && e.msg.Publish? && ToPassOn(cfg, h, e.msg)
      && Carries(h.table.Items, e.msg.publish, p)
    case BPuback(msgId) =>
      env.sendOk && e.FromClient? && e.msg.Puback? && e.msg.msgId == msgId && ToPassOn(cfg, h, e.msg)
    case BRelay(relay) => env.sendOk && IsConnected(h) && e == FromClient(Relay(relay))
    case BSubscribe(dup, qos, name, msgId) =>
      && env.sendOk && e.FromClient? && e.msg.Subscribe? && ToPassOn(cfg, h, e.msg)
      && e.msg.subscribe == MqttsSubscribe(dup, qos, e.msg.subscribe.topic, msgId)
      && Filters(cfg, h.table.Items, e.msg.subscribe.topic, name)
    case BUnsubscribe(dup, name, msgId) =>
      && env.sendOk && e.FromClient? && e.msg.Unsubscribe? && ToPassOn(cfg, h, e.msg)
      && e.msg.unsubscribe == MqttsUnsubscribe(dup, e.msg.unsubscribe.topic, msgId)
      && Filters(cfg, h.table.Items, e.msg.unsubscribe.topic, name)
    case BDisconnect => env.sendOk && IsConnected(h) && (e == FromClient(Disconnect) || e == Control(ShutDown))
  }

  /** Messages for the gateway's own handler. */
  predicate ForGateway(e: Event) {
    && e.FromClient?
    && (e.msg.SearchGw? || (e.msg.Publish? && Publishable(e.msg.publish.topic) && e.msg.publish.qos == -1))
  }

  ghost predicate TellsExactly(cfg: Config, h: Handler, e: Event, env: Env, out: Out, c: ToClient) {
    |out.toClient| <= 1 && (c in out.toClient <==> SentToClient(cfg, h, e, env, c))
  }

  ghost predicate PassesExactly(cfg: Config, h: Handler, e: Event, env: Env, out: Out, b: ToBroker) {
    && |out.toBroker| <= 1 && (b in out.toBroker <==> SentToBroker(cfg, h, e, env, b))
    && out.toGateway == (if ForGateway(e) then 1 else 0)
  }

  // ----- how the state changes

  /** A name gets the next topic id at once, or one from a REGACK. */
  ghost predicate Binds(cfg: Config, h: Handler, e: Event, env: Env, id: int, name: string) {
    || (IsConnected(h) && e.FromClient? && e.msg.Register? && e.msg.topicName == name
        && Unknown(h, env, name) && id == h.topicId)
    || (AnswersRegack(h, e) && e.msg.topicId == id && h.gw.mqttPublish.value.topicName == name)
    || (AnswersSuback(h, e) && h.gw.subscribe.value.topic == TopicName(name) && !Wild(name)
        && Unknown(h, env, name) && id == h.topicId)
  }

  /** An id the client rejects goes, and the first dynamic id of a name unsubscribed. */
  predicate Unbinds(cfg: Config, h: Handler, e: Event, env: Env, id: int) {
    || (IsConnected(h) && e.FromClient? && e.msg.Puback? && e.msg.returnCode == 2 && e.msg.topicId == id)
    || (AnswersUnsuback(h, e) && h.gw.unsubscribe.value.topic.TopicName?
        && FirstDynamic(h.table, env.order, h.gw.unsubscribe.value.topic.name, cfg.predefSize, id))
  }

  ghost predicate TableExactly(cfg: Config, h: Handler, e: Event, env: Env, h': Handler, id: int, name: string) {
    BoundTo(h'.table, id, name) <==>
      || Binds(cfg, h, e, env, id, name)
      || (BoundTo(h.table, id, name) && !Unbinds(cfg, h, e, env, id) && forall x :: !Binds(cfg, h, e, env, id, x))
  }

  /** An id is given out by a REGISTER either way or by a SUBACK. */
  ghost predicate GivesId(cfg: Config, h: Handler, e: Event, env: Env) {
    || (IsConnected(h) && e.FromClient? && e.msg.Register? && Unknown(h, env, e.msg.topicName))
    || (AnswersSuback(h, e) && h.gw.subscribe.value.topic.TopicName?
        && !Wild(h.gw.subscribe.value.topic.name) && Unknown(h, env, h.gw.subscribe.value.topic.name))
    || (e.FromBroker? && e.reply.BrokerPublish? && StartsRegister(cfg, h, env, e.reply.brokerPublish))
  }

  ghost predicate StateExactly(cfg: Config, h: Handler, e: Event, env: Env, h': Handler) {
    && h'.client == (if ConnectsNow(h, e, env) then Connected
                     else if Disconnects(cfg, h, e, env) then Disconnected else h.client)
    && h'.topicId == h.topicId + (if GivesId(cfg, h, e, env) then 1 else 0)
    && h'.msgId == h.msgId
       + (if || (e.FromBroker? && e.reply.BrokerPublish? && StartsRegister(cfg, h, env, e.reply.brokerPublish))
             || (e == Control(RegackTimeout) && Again(cfg, h, WaitingRegack)) then 1 else 0)
    && h'.clientId == (if e.FromClient? && e.msg.Connect? then e.msg.connect.clientId else h.clientId)
    && (h'.removed <==> h.removed || e == Control(CheckInactivity(true)))
  }

  /** What is awaited, and what is stored for the answer. */
  ghost predicate WaitsExactly(cfg: Config, h: Handler, e: Event, env: Env, h': Handler) {
    var off := Disconnects(cfg, h, e, env);
    var passed := env.sendOk && e.FromClient? && ToPassOn(cfg, h, e.msg);
    var gw, gw' := h.gw, h'.gw;
    && (gw'.waitingPuback <==> (passed && e.msg.Publish? && e.msg.publish.qos == 1)
                               || (gw.waitingPuback && !AnswersPuback(h, e) && !off))
    && (gw'.waitingPuback ==> gw'.mqttsPublish == if gw.waitingPuback then gw.mqttsPublish else Some(e.msg.publish))
    && (gw'.waitingSuback <==> (passed && e.msg.Subscribe?) || (gw.waitingSuback && !AnswersSuback(h, e) && !off))
    && (gw'.waitingSuback ==> gw'.subscribe == if gw.waitingSuback then gw.subscribe else Some(e.msg.subscribe))
    && (gw'.waitingUnsuback <==> (passed && e.msg.Unsubscribe?) || (gw.waitingUnsuback && !AnswersUnsuback(h, e) && !off))
    && (gw'.waitingUnsuback ==> gw'.unsubscribe == if gw.waitingUnsuback then gw.unsubscribe else Some(e.msg.unsubscribe))
  }

  /** The same for what the client is asked. */
  ghost predicate AsksExactly(cfg: Config, h: Handler, e: Event, env: Env, h': Handler) {
    var off := Disconnects(cfg, h, e, env);
    var gw, gw' := h.gw, h'.gw;
    && (gw'.waitingRegack <==>
          || (e.FromBroker? && e.reply.BrokerPublish? && StartsRegister(cfg, h, env, e.reply.brokerPublish))
          || (gw.waitingRegack && !AnswersRegack(h, e) && !off
              && !(e == Control(RegackTimeout) && !Again(cfg, h, WaitingRegack))))
    && (gw'.waitingRegack ==> gw'.mqttPublish == if gw.waitingRegack then gw.mqttPublish else Some(e.reply.brokerPublish))
    && (gw'.waitingWillTopic <==>
          || AsksWillTopic(h, e)
          || (gw.waitingWillTopic && !(e.FromClient? && e.msg.WillTopic?) && !off
              && !(e == Control(WillTopicTimeout) && !Again(cfg, h, WaitingWillTopic))))
    && (gw'.waitingWillTopic ==> gw'.connect == if gw.waitingWillTopic then gw.connect else Some(e.msg.connect))
    && (gw'.waitingWillMsg <==>
          || (e.FromClient? && e.msg.WillTopic? && gw.waitingWillTopic)
          || (gw.waitingWillMsg && !(e.FromClient? && e.msg.WillMsg?) && !off
              && !(e == Control(WillMsgTimeout) && !Again(cfg, h, WaitingWillMsg))))
    && (gw'.waitingWillMsg ==>
          && gw'.connect == gw.connect
          && gw'.willTopic == if gw.waitingWillMsg then gw.willTopic else Some(e.msg.willTopic))
  }

  ghost predicate ChangesExactly(cfg: Config, h: Handler, e: Event, env: Env, h': Handler) {
    StateExactly(cfg, h, e, env, h') && WaitsExactly(cfg, h, e, env, h')
  }

  // ----- the handler's own look-ups, in these terms

  ghost predicate Ready(h: Handler, env: Env) {
    FlagsInv(h) && Enumerates(env.order, h.table) && forall id :: id in h.table ==> id >= 0
  }

  lemma LookUp(h: Handler, env: Env, name: string)
    ensures forall id :: Known(h, env, name, id) <==> id != 0 && GetTopicId(h.table, env.order, name) == id
    ensures Unknown(h, env, name) <==> GetTopicId(h.table, env.order, name) == 0
  {
    forall id ensures Known(h, env, name, id) <==> id != 0 && GetTopicId(h.table, env.order, name) == id {
      if id != 0 {
        GetTopicIdExact(h.table, env.order, name, id);
      }
    }
    var found := GetTopicId(h.table, env.order, name);
    assert found != 0 ==> Known(h, env, name, found);
  }

  lemma NamesFound(cfg: Config, h: Handler, t: Topic, name: string)
    ensures Names(cfg, h.table.Items, t, name) <==> PublishName(cfg, h, t) == Some(name)
    ensures Filters(cfg, h.table.Items, t, name) <==> FilterName(cfg, h, t) == Some(name)
  {
    if t.NormalTopicId? || t.PredefinedTopicId? {
      assert (t.id, name) in h.table.Items <==> BoundTo(h.table, t.id, name);
    }
  }

  lemma NamesKnown(cfg: Config, h: Handler, t: Topic)
    ensures (exists name :: Names(cfg, h.table.Items, t, name)) <==> PublishName(cfg, h, t).Some?
    ensures (exists name :: Filters(cfg, h.table.Items, t, name)) <==> FilterName(cfg, h, t).Some?
    ensures forall name :: Names(cfg, h.table.Items, t, name) <==> PublishName(cfg, h, t) == Some(name)
    ensures forall name :: Filters(cfg, h.table.Items, t, name) <==> FilterName(cfg, h, t) == Some(name)
  {
    forall name
      ensures Names(cfg, h.table.Items, t, name) <==> PublishName(cfg, h, t) == Some(name)
      ensures Filters(cfg, h.table.Items, t, name) <==> FilterName(cfg, h, t) == Some(name)
    {
      NamesFound(cfg, h, t, name);
    }
    assert PublishName(cfg, h, t).Some? ==> Names(cfg, h.table.Items, t, PublishName(cfg, h, t).value);
    assert FilterName(cfg, h, t).Some? ==> Filters(cfg, h.table.Items, t, FilterName(cfg, h, t).value);
  }

  // ----- handler by handler

  lemma PublishTells(cfg: Config, h: Handler, m: MqttsPublish, env: Env, c: ToClient)
    requires Ready(h, env)
    ensures TellsExactly(cfg, h, FromClient(Publish(m)), env, HandlePublish(cfg, h, m, env).out, c)
  {
    NamesKnown(cfg, h, m.topic);
  }

  lemma SubscribeTells(cfg: Config, h: Handler, m: MqttsSubscribe, env: Env, c: ToClient)
    requires Ready(h, env)
    ensures TellsExactly(cfg, h, FromClient(Subscribe(m)), env, HandleSubscribe(cfg, h, m, env).out, c)
  {
    NamesKnown(cfg, h, m.topic);
  }

  lemma UnsubscribeTells(cfg: Config, h: Handler, m: MqttsUnsubscribe, env: Env, c: ToClient)
    requires Ready(h, env)
    ensures TellsExactly(cfg, h, FromClient(Unsubscribe(m)), env, HandleUnsubscribe(cfg, h, m, env).out, c)
  {
    NamesKnown(cfg, h, m.topic);
  }

  lemma ConnectTells(cfg: Config, h: Handler, m: MqttsConnect, env: Env, c: ToClient)
    requires Ready(h, env)
    ensures TellsExactly(cfg, h, FromClient(Connect(m)), env, HandleConnect(cfg, h, m, env).out, c)
  {
  }

  lemma WillTopicTells(cfg: Config, h: Handler, m: MqttsWillTopic, env: Env, c: ToClient)
    requires Ready(h, env)
    ensures TellsExactly(cfg, h, FromClient(WillTopic(m)), env, HandleWillTopic(cfg, h, m).out, c)
  {
  }

  lemma WillMsgTells(cfg: Config, h: Handler, willMsg: string, env: Env, c: ToClient)
    requires Ready(h, env)
    ensures TellsExactly(cfg, h, FromClient(WillMsg(willMsg)), env, HandleWillMsg(cfg, h, willMsg, env).out, c)
  {
  }

  lemma RegisterTells(cfg: Config, h: Handler, msgId: int, topicName: string, env: Env, c: ToClient)
    requires Ready(h, env)
    ensures TellsExactly(cfg, h, FromClient(Register(msgId, topicName)), env,
                         HandleRegister(cfg, h, msgId, topicName, env).out, c)
  {
    LookUp(h, env, topicName);
  }

  lemma RegackTells(cfg: Config, h: Handler, topicId: nat, msgId: int, env: Env, c: ToClient)
    requires Ready(h, env)
    ensures TellsExactly(cfg, h, FromClient(Regack(topicId, msgId)), env, HandleRegack(cfg, h, topicId, msgId).out, c)
  {
  }

  lemma PubackTells(cfg: Config, h: Handler, topicId: nat, msgId: int, returnCode: int, env: Env, c: ToClient)
    requires Ready(h, env)
    ensures TellsExactly(cfg, h, FromClient(Puback(topicId, msgId, returnCode)), env,
                         HandlePuback(cfg, h, topicId, msgId, returnCode, env).out, c)
  {
  }

  lemma BrokerPublishTells(cfg: Config, h: Handler, m: MqttPublish, env: Env, c: ToClient)
    requires Ready(h, env)
    ensures TellsExactly(cfg, h, FromBroker(BrokerPublish(m)), env, HandleBrokerPublish(cfg, h, m, env).out, c)
  {
    LookUp(h, env, m.topicName);
  }

  lemma BrokerPubackTells(cfg: Config, h: Handler, msgId: int, env: Env, c: ToClient)
    requires Ready(h, env)
    ensures TellsExactly(cfg, h, FromBroker(BrokerPuback(msgId)), env, HandleBrokerPuback(cfg, h, msgId).out, c)
  {
  }

  lemma BrokerSubackTells(cfg: Config, h: Handler, msgId: int, grantedQoS: int, env: Env, c: ToClient)
    requires Ready(h, env)
    ensures TellsExactly(cfg, h, FromBroker(BrokerSuback(msgId, grantedQoS)), env,
                         HandleBrokerSuback(cfg, h, msgId, grantedQoS, env).out, c)
  {
    if h.gw.subscribe.Some? && h.gw.subscribe.value.topic.TopicName? {
      LookUp(h, env, h.gw.subscribe.value.topic.name);
      HasWildcardExact(h.gw.subscribe.value.topic.name);
    }
  }

  lemma BrokerUnsubackTells(cfg: Config, h: Handler, msgId: int, env: Env, c: ToClient)
    requires Ready(h, env)
    ensures TellsExactly(cfg, h, FromBroker(BrokerUnsuback(msgId)), env,
                         HandleBrokerUnsuback(cfg, h, msgId, env).out, c)
  {
  }

  lemma ClientTells(cfg: Config, h: Handler, m: ClientMsg, env: Env, c: ToClient)
    requires Ready(h, env)
    ensures TellsExactly(cfg, h, FromClient(m), env, HandleClient(cfg, h, m, env).out, c)
  {
    match m
    case Publish(m) => PublishTells(cfg, h, m, env, c);
    case Subscribe(m) => SubscribeTells(cfg, h, m, env, c);
    case Unsubscribe(m) => UnsubscribeTells(cfg, h, m, env, c);
    case Connect(m) => ConnectTells(cfg, h, m, env, c);
    case WillTopic(m) => WillTopicTells(cfg, h, m, env, c);
    case WillMsg(willMsg) => WillMsgTells(cfg, h, willMsg, env, c);
    case Register(msgId, topicName) => RegisterTells(cfg, h, msgId, topicName, env, c);
    case Regack(topicId, msgId) => RegackTells(cfg, h, topicId, msgId, env, c);
    case Puback(topicId, msgId, returnCode) => PubackTells(cfg, h, topicId, msgId, returnCode, env, c);
    case _ =>
  }

  lemma BrokerTells(cfg: Config, h: Handler, m: BrokerMsg, env: Env, c: ToClient)
    requires Ready(h, env)
    ensures TellsExactly(cfg, h, FromBroker(m), env, HandleBroker(cfg, h, m, env).out, c)
  {
    match m
    case BrokerPublish(m) => BrokerPublishTells(cfg, h, m, env, c);
    case BrokerPuback(msgId) => BrokerPubackTells(cfg, h, msgId, env, c);
    case BrokerSuback(msgId, grantedQoS) => BrokerSubackTells(cfg, h, msgId, grantedQoS, env, c);
    case BrokerUnsuback(msgId) => BrokerUnsubackTells(cfg, h, msgId, env, c);
    case _ =>
  }

  lemma ControlTells(cfg: Config, h: Handler, m: ControlMsg, env: Env, c: ToClient)
    requires Ready(h, env)
    ensures TellsExactly(cfg, h, Control(m), env, HandleControl(cfg, h, m, env).out, c)
  {
  }

  lemma PublishPasses(cfg: Config, h: Handler, m: MqttsPublish, env: Env, b: ToBroker)
    requires Ready(h, env)
    ensures PassesExactly(cfg, h, FromClient(Publish(m)), env, HandlePublish(cfg, h, m, env).out, b)
  {
    NamesKnown(cfg, h, m.topic);
  }

  lemma SubscribePasses(cfg: Config, h: Handler, m: MqttsSubscribe, env: Env, b: ToBroker)
    requires Ready(h, env)
    ensures PassesExactly(cfg, h, FromClient(Subscribe(m)), env, HandleSubscribe(cfg, h, m, env).out, b)
  {
    NamesKnown(cfg, h, m.topic);
  }

  lemma UnsubscribePasses(cfg: Config, h: Handler, m: MqttsUnsubscribe, env: Env, b: ToBroker)
    requires Ready(h, env)
    ensures PassesExactly(cfg, h, FromClient(Unsubscribe(m)), env, HandleUnsubscribe(cfg, h, m, env).out, b)
  {
    NamesKnown(cfg, h, m.topic);
  }

  lemma ConnectPasses(cfg: Config, h: Handler, m: MqttsConnect, env: Env, b: ToBroker)
    requires Ready(h, env)
    ensures PassesExactly(cfg, h, FromClient(Connect(m)), env, HandleConnect(cfg, h, m, env).out, b)
  {
  }

  lemma WillTopicPasses(cfg: Config, h: Handler, m: MqttsWillTopic, env: Env, b: ToBroker)
    requires Ready(h, env)
    ensures PassesExactly(cfg, h, FromClient(WillTopic(m)), env, HandleWillTopic(cfg, h, m).out, b)
  {
  }

  lemma WillMsgPasses(cfg: Config, h: Handler, willMsg: string, env: Env, b: ToBroker)
    requires Ready(h, env)
    ensures PassesExactly(cfg, h, FromClient(WillMsg(willMsg)), env, HandleWillMsg(cfg, h, willMsg, env).out, b)
  {
  }

  lemma RegisterPasses(cfg: Config, h: Handler, msgId: int, topicName: string, env: Env, b: ToBroker)
    requires Ready(h, env)
    ensures PassesExactly(cfg, h, FromClient(Register(msgId, topicName)), env,
                         HandleRegister(cfg, h, msgId, topicName, env).out, b)
  {
  }

  lemma RegackPasses(cfg: Config, h: Handler, topicId: nat, msgId: int, env: Env, b: ToBroker)
    requires Ready(h, env)
    ensures PassesExactly(cfg, h, FromClient(Regack(topicId, msgId)), env, HandleRegack(cfg, h, topicId, msgId).out, b)
  {
  }

  lemma PubackPasses(cfg: Config, h: Handler, topicId: nat, msgId: int, returnCode: int, env: Env, b: ToBroker)
    requires Ready(h, env)
    ensures PassesExactly(cfg, h, FromClient(Puback(topicId, msgId, returnCode)), env,
                         HandlePuback(cfg, h, topicId, msgId, returnCode, env).out, b)
  {
  }

  lemma BrokerPublishPasses(cfg: Config, h: Handler, m: MqttPublish, env: Env, b: ToBroker)
    requires Ready(h, env)
    ensures PassesExactly(cfg, h, FromBroker(BrokerPublish(m)), env, HandleBrokerPublish(cfg, h, m, env).out, b)
  {
  }

  lemma BrokerPubackPasses(cfg: Config, h: Handler, msgId: int, env: Env, b: ToBroker)
    requires Ready(h, env)
    ensures PassesExactly(cfg, h, FromBroker(BrokerPuback(msgId)), env, HandleBrokerPuback(cfg, h, msgId).out, b)
  {
  }

  lemma BrokerSubackPasses(cfg: Config, h: Handler, msgId: int, grantedQoS: int, env: Env, b: ToBroker)
    requires Ready(h, env)
    ensures PassesExactly(cfg, h, FromBroker(BrokerSuback(msgId, grantedQoS)), env,
                         HandleBrokerSuback(cfg, h, msgId, grantedQoS, env).out, b)
  {
  }

  lemma BrokerUnsubackPasses(cfg: Config, h: Handler, msgId: int, env: Env, b: ToBroker)
    requires Ready(h, env)
    ensures PassesExactly(cfg, h, FromBroker(BrokerUnsuback(msgId)), env,
                         HandleBrokerUnsuback(cfg, h, msgId, env).out, b)
  {
  }

  lemma ClientPasses(cfg: Config, h: Handler, m: ClientMsg, env: Env, b: ToBroker)
    requires Ready(h, env)
    ensures PassesExactly(cfg, h, FromClient(m), env, HandleClient(cfg, h, m, env).out, b)
  {
    match m
    case Publish(m) => PublishPasses(cfg, h, m, env, b);
    case Subscribe(m) => SubscribePasses(cfg, h, m, env, b);
    case Unsubscribe(m) => UnsubscribePasses(cfg, h, m, env, b);
    case Connect(m) => ConnectPasses(cfg, h, m, env, b);
    case WillTopic(m) => WillTopicPasses(cfg, h, m, env, b);
    case WillMsg(willMsg) => WillMsgPasses(cfg, h, willMsg, env, b);
    case Register(msgId, topicName) => RegisterPasses(cfg, h, msgId, topicName, env, b);
    case Regack(topicId, msgId) => RegackPasses(cfg, h, topicId, msgId, env, b);
    case Puback(topicId, msgId, returnCode) => PubackPasses(cfg, h, topicId, msgId, returnCode, env, b);
    case _ =>
  }

  lemma BrokerPasses(cfg: Config, h: Handler, m: BrokerMsg, env: Env, b: ToBroker)
    requires Ready(h, env)
    ensures PassesExactly(cfg, h, FromBroker(m), env, HandleBroker(cfg, h, m, env).out, b)
  {
    match m
    case BrokerPublish(m) => BrokerPublishPasses(cfg, h, m, env, b);
    case BrokerPuback(msgId) => BrokerPubackPasses(cfg, h, msgId, env, b);
    case BrokerSuback(msgId, grantedQoS) => BrokerSubackPasses(cfg, h, msgId, grantedQoS, env, b);
    case BrokerUnsuback(msgId) => BrokerUnsubackPasses(cfg, h, msgId, env, b);
    case _ =>
  }

  lemma ControlPasses(cfg: Config, h: Handler, m: ControlMsg, env: Env, b: ToBroker)
    requires Ready(h, env)
    ensures PassesExactly(cfg, h, Control(m), env, HandleControl(cfg, h, m, env).out, b)
  {
  }

  lemma PublishTable(cfg: Config, h: Handler, m: MqttsPublish, env: Env, id: int, name: string)
    requires Ready(h, env)
    ensures TableExactly(cfg, h, FromClient(Publish(m)), env, HandlePublish(cfg, h, m, env).h, id, name)
  {
  }

  lemma SubscribeTable(cfg: Config, h: Handler, m: MqttsSubscribe, env: Env, id: int, name: string)
    requires Ready(h, env)
    ensures TableExactly(cfg, h, FromClient(Subscribe(m)), env, HandleSubscribe(cfg, h, m, env).h, id, name)
  {
  }

  lemma UnsubscribeTable(cfg: Config, h: Handler, m: MqttsUnsubscribe, env: Env, id: int, name: string)
    requires Ready(h, env)
    ensures TableExactly(cfg, h, FromClient(Unsubscribe(m)), env, HandleUnsubscribe(cfg, h, m, env).h, id, name)
  {
  }

  lemma ConnectTable(cfg: Config, h: Handler, m: MqttsConnect, env: Env, id: int, name: string)
    requires Ready(h, env)
    ensures TableExactly(cfg, h, FromClient(Connect(m)), env, HandleConnect(cfg, h, m, env).h, id, name)
  {
  }

  lemma WillTopicTable(cfg: Config, h: Handler, m: MqttsWillTopic, env: Env, id: int, name: string)
    requires Ready(h, env)
    ensures TableExactly(cfg, h, FromClient(WillTopic(m)), env, HandleWillTopic(cfg, h, m).h, id, name)
  {
  }

  lemma WillMsgTable(cfg: Config, h: Handler, willMsg: string, env: Env, id: int, name: string)
    requires Ready(h, env)
    ensures TableExactly(cfg, h, FromClient(WillMsg(willMsg)), env, HandleWillMsg(cfg, h, willMsg, env).h, id, name)
  {
  }

  lemma RegisterTable(cfg: Config, h: Handler, msgId: int, topicName: string, env: Env, id: int, name: string)
    requires Ready(h, env)
    ensures TableExactly(cfg, h, FromClient(Register(msgId, topicName)), env,
                         HandleRegister(cfg, h, msgId, topicName, env).h, id, name)
  {
    LookUp(h, env, topicName);
    var e := FromClient(Register(msgId, topicName));
    assert IsConnected(h) && Unknown(h, env, topicName) ==> Binds(cfg, h, e, env, h.topicId, topicName);
  }

  lemma RegackTable(cfg: Config, h: Handler, topicId: nat, msgId: int, env: Env, id: int, name: string)
    requires Ready(h, env)
    ensures TableExactly(cfg, h, FromClient(Regack(topicId, msgId)), env,
                         HandleRegack(cfg, h, topicId, msgId).h, id, name)
  {
    var e := FromClient(Regack(topicId, msgId));
    assert AnswersRegack(h, e) ==> Binds(cfg, h, e, env, topicId, h.gw.mqttPublish.value.topicName);
  }

  lemma PubackTable(cfg: Config, h: Handler, topicId: nat, msgId: int, returnCode: int, env: Env, id: int, name: string)
    requires Ready(h, env)
    ensures TableExactly(cfg, h, FromClient(Puback(topicId, msgId, returnCode)), env,
                         HandlePuback(cfg, h, topicId, msgId, returnCode, env).h, id, name)
  {
  }

  lemma BrokerPublishTable(cfg: Config, h: Handler, m: MqttPublish, env: Env, id: int, name: string)
    requires Ready(h, env)
    ensures TableExactly(cfg, h, FromBroker(BrokerPublish(m)), env, HandleBrokerPublish(cfg, h, m, env).h, id, name)
  {
    LookUp(h, env, m.topicName);
  }

  lemma BrokerPubackTable(cfg: Config, h: Handler, msgId: int, env: Env, id: int, name: string)
    requires Ready(h, env)
    ensures TableExactly(cfg, h, FromBroker(BrokerPuback(msgId)), env, HandleBrokerPuback(cfg, h, msgId).h, id, name)
  {
  }

  lemma BrokerSubackTable(cfg: Config, h: Handler, msgId: int, grantedQoS: int, env: Env, id: int, name: string)
    requires Ready(h, env)
    ensures TableExactly(cfg, h, FromBroker(BrokerSuback(msgId, grantedQoS)), env,
                         HandleBrokerSuback(cfg, h, msgId, grantedQoS, env).h, id, name)
  {
    var e := FromBroker(BrokerSuback(msgId, grantedQoS));
    if AnswersSuback(h, e) && h.gw.subscribe.value.topic.TopicName? {
      var filter := h.gw.subscribe.value.topic.name;
      LookUp(h, env, filter);
      HasWildcardExact(filter);
      assert !Wild(filter) && Unknown(h, env, filter) ==> Binds(cfg, h, e, env, h.topicId, filter);
    }
  }

  lemma BrokerUnsubackTable(cfg: Config, h: Handler, msgId: int, env: Env, id: int, name: string)
    requires Ready(h, env)
    ensures TableExactly(cfg, h, FromBroker(BrokerUnsuback(msgId)), env,
                         HandleBrokerUnsuback(cfg, h, msgId, env).h, id, name)
  {
    if h.gw.unsubscribe.Some? && h.gw.unsubscribe.value.topic.TopicName? {
      RemoveByNameExact(h.table, env.order, h.gw.unsubscribe.value.topic.name, cfg.predefSize);
    }
  }

  lemma ClientTable(cfg: Config, h: Handler, m: ClientMsg, env: Env, id: int, name: string)
    requires Ready(h, env)
    ensures TableExactly(cfg, h, FromClient(m), env, HandleClient(cfg, h, m, env).h, id, name)
  {
    match m
    case Publish(m) => PublishTable(cfg, h, m, env, id, name);
    case Subscribe(m) => SubscribeTable(cfg, h, m, env, id, name);
    case Unsubscribe(m) => UnsubscribeTable(cfg, h, m, env, id, name);
    case Connect(m) => ConnectTable(cfg, h, m, env, id, name);
    case WillTopic(m) => WillTopicTable(cfg, h, m, env, id, name);
    case WillMsg(willMsg) => WillMsgTable(cfg, h, willMsg, env, id, name);
    case Register(msgId, topicName) => RegisterTable(cfg, h, msgId, topicName, env, id, name);
    case Regack(topicId, msgId) => RegackTable(cfg, h, topicId, msgId, env, id, name);
    case Puback(topicId, msgId, returnCode) => PubackTable(cfg, h, topicId, msgId, returnCode, env, id, name);
    case _ =>
  }

  lemma BrokerTable(cfg: Config, h: Handler, m: BrokerMsg, env: Env, id: int, name: string)
    requires Ready(h, env)
    ensures TableExactly(cfg, h, FromBroker(m), env, HandleBroker(cfg, h, m, env).h, id, name)
  {
    match m
    case BrokerPublish(m) => BrokerPublishTable(cfg, h, m, env, id, name);
    case BrokerPuback(msgId) => BrokerPubackTable(cfg, h, msgId, env, id, name);
    case BrokerSuback(msgId, grantedQoS) => BrokerSubackTable(cfg, h, msgId, grantedQoS, env, id, name);
    case BrokerUnsuback(msgId) => BrokerUnsubackTable(cfg, h, msgId, env, id, name);
    case _ =>
  }

  lemma ControlTable(cfg: Config, h: Handler, m: ControlMsg, env: Env, id: int, name: string)
    requires Ready(h, env)
    ensures TableExactly(cfg, h, Control(m), env, HandleControl(cfg, h, m, env).h, id, name)
  {
  }

  lemma PublishChanges(cfg: Config, h: Handler, m: MqttsPublish, env: Env)
    requires Ready(h, env)
    ensures ChangesExactly(cfg, h, FromClient(Publish(m)), env, HandlePublish(cfg, h, m, env).h)
  {
    NamesKnown(cfg, h, m.topic);
  }

  lemma SubscribeChanges(cfg: Config, h: Handler, m: MqttsSubscribe, env: Env)
    requires Ready(h, env)
    ensures ChangesExactly(cfg, h, FromClient(Subscribe(m)), env, HandleSubscribe(cfg, h, m, env).h)
  {
    NamesKnown(cfg, h, m.topic);
  }

  lemma UnsubscribeChanges(cfg: Config, h: Handler, m: MqttsUnsubscribe, env: Env)
    requires Ready(h, env)
    ensures ChangesExactly(cfg, h, FromClient(Unsubscribe(m)), env, HandleUnsubscribe(cfg, h, m, env).h)
  {
    NamesKnown(cfg, h, m.topic);
  }

  lemma ConnectChanges(cfg: Config, h: Handler, m: MqttsConnect, env: Env)
    requires Ready(h, env)
    ensures ChangesExactly(cfg, h, FromClient(Connect(m)), env, HandleConnect(cfg, h, m, env).h)
  {
  }

  lemma WillTopicChanges(cfg: Config, h: Handler, m: MqttsWillTopic, env: Env)
    requires Ready(h, env)
    ensures ChangesExactly(cfg, h, FromClient(WillTopic(m)), env, HandleWillTopic(cfg, h, m).h)
  {
  }

  lemma WillMsgChanges(cfg: Config, h: Handler, willMsg: string, env: Env)
    requires Ready(h, env)
    ensures ChangesExactly(cfg, h, FromClient(WillMsg(willMsg)), env, HandleWillMsg(cfg, h, willMsg, env).h)
  {
  }

  lemma RegisterChanges(cfg: Config, h: Handler, msgId: int, topicName: string, env: Env)
    requires Ready(h, env)
    ensures ChangesExactly(cfg, h, FromClient(Register(msgId, topicName)), env,
                           HandleRegister(cfg, h, msgId, topicName, env).h)
  {
    LookUp(h, env, topicName);
  }

  lemma RegackWaits(cfg: Config, h: Handler, topicId: nat, msgId: int, env: Env)
    requires Ready(h, env)
    ensures WaitsExactly(cfg, h, FromClient(Regack(topicId, msgId)), env, HandleRegack(cfg, h, topicId, msgId).h)
  {
  }

  lemma RegackChanges(cfg: Config, h: Handler, topicId: nat, msgId: int, env: Env)
    requires Ready(h, env)
    ensures ChangesExactly(cfg, h, FromClient(Regack(topicId, msgId)), env, HandleRegack(cfg, h, topicId, msgId).h)
  {
    RegackWaits(cfg, h, topicId, msgId, env);
  }

  lemma PubackChanges(cfg: Config, h: Handler, topicId: nat, msgId: int, returnCode: int, env: Env)
    requires Ready(h, env)
    ensures ChangesExactly(cfg, h, FromClient(Puback(topicId, msgId, returnCode)), env,
                           HandlePuback(cfg, h, topicId, msgId, returnCode, env).h)
  {
  }

  lemma BrokerPublishChanges(cfg: Config, h: Handler, m: MqttPublish, env: Env)
    requires Ready(h, env)
    ensures ChangesExactly(cfg, h, FromBroker(BrokerPublish(m)), env, HandleBrokerPublish(cfg, h, m, env).h)
  {
    LookUp(h, env, m.topicName);
  }

  lemma BrokerPubackChanges(cfg: Config, h: Handler, msgId: int, env: Env)
    requires Ready(h, env)
    ensures ChangesExactly(cfg, h, FromBroker(BrokerPuback(msgId)), env, HandleBrokerPuback(cfg, h, msgId).h)
  {
  }

  lemma BrokerSubackState(cfg: Config, h: Handler, msgId: int, grantedQoS: int, env: Env)
    requires Ready(h, env)
    ensures StateExactly(cfg, h, FromBroker(BrokerSuback(msgId, grantedQoS)), env,
                         HandleBrokerSuback(cfg, h, msgId, grantedQoS, env).h)
  {
    if AnswersSuback(h, FromBroker(BrokerSuback(msgId, grantedQoS))) && h.gw.subscribe.value.topic.TopicName? {
      LookUp(h, env, h.gw.subscribe.value.topic.name);
      HasWildcardExact(h.gw.subscribe.value.topic.name);
    }
  }

  lemma BrokerSubackWaits(cfg: Config, h: Handler, msgId: int, grantedQoS: int, env: Env)
    requires Ready(h, env)
    ensures WaitsExactly(cfg, h, FromBroker(BrokerSuback(msgId, grantedQoS)), env,
                         HandleBrokerSuback(cfg, h, msgId, grantedQoS, env).h)
  {
  }

  lemma BrokerSubackChanges(cfg: Config, h: Handler, msgId: int, grantedQoS: int, env: Env)
    requires Ready(h, env)
    ensures ChangesExactly(cfg, h, FromBroker(BrokerSuback(msgId, grantedQoS)), env,
                           HandleBrokerSuback(cfg, h, msgId, grantedQoS, env).h)
  {
    BrokerSubackState(cfg, h, msgId, grantedQoS, env);
    BrokerSubackWaits(cfg, h, msgId, grantedQoS, env);
  }

  lemma BrokerUnsubackChanges(cfg: Config, h: Handler, msgId: int, env: Env)
    requires Ready(h, env)
    ensures ChangesExactly(cfg, h, FromBroker(BrokerUnsuback(msgId)), env, HandleBrokerUnsuback(cfg, h, msgId, env).h)
  {
  }

  lemma ClientChanges(cfg: Config, h: Handler, m: ClientMsg, env: Env)
    requires Ready(h, env)
    ensures ChangesExactly(cfg, h, FromClient(m), env, HandleClient(cfg, h, m, env).h)
  {
    match m
    case Publish(m) => PublishChanges(cfg, h, m, env);
    case Subscribe(m) => SubscribeChanges(cfg, h, m, env);
    case Unsubscribe(m) => UnsubscribeChanges(cfg, h, m, env);
    case Connect(m) => ConnectChanges(cfg, h, m, env);
    case WillTopic(m) => WillTopicChanges(cfg, h, m, env);
    case WillMsg(willMsg) => WillMsgChanges(cfg, h, willMsg, env);
    case Register(msgId, topicName) => RegisterChanges(cfg, h, msgId, topicName, env);
    case Regack(topicId, msgId) => RegackChanges(cfg, h, topicId, msgId, env);
    case Puback(topicId, msgId, returnCode) => PubackChanges(cfg, h, topicId, msgId, returnCode, env);
    case _ =>
  }

  lemma BrokerChanges(cfg: Config, h: Handler, m: BrokerMsg, env: Env)
    requires Ready(h, env)
    ensures ChangesExactly(cfg, h, FromBroker(m), env, HandleBroker(cfg, h, m, env).h)
  {
    match m
    case BrokerPublish(m) => BrokerPublishChanges(cfg, h, m, env);
    case BrokerPuback(msgId) => BrokerPubackChanges(cfg, h, msgId, env);
    case BrokerSuback(msgId, grantedQoS) => BrokerSubackChanges(cfg, h, msgId, grantedQoS, env);
    case BrokerUnsuback(msgId) => BrokerUnsubackChanges(cfg, h, msgId, env);
    case _ =>
  }

  lemma LostChanges(cfg: Config, h: Handler, env: Env)
    requires Ready(h, env)
    ensures ChangesExactly(cfg, h, Control(ConnectionLost), env, HandleConnectionLost(cfg, h).h)
  {
  }

  lemma RegackTimeoutChanges(cfg: Config, h: Handler, env: Env)
    requires Ready(h, env)
    ensures ChangesExactly(cfg, h, Control(RegackTimeout), env, HandleRegackTimeout(cfg, h).h)
  {
  }

  lemma ControlChanges(cfg: Config, h: Handler, m: ControlMsg, env: Env)
    requires Ready(h, env)
    ensures ChangesExactly(cfg, h, Control(m), env, HandleControl(cfg, h, m, env).h)
  {
    match m
    case ConnectionLost => LostChanges(cfg, h, env);
    case RegackTimeout => RegackTimeoutChanges(cfg, h, env);
    case _ =>
  }

  lemma PublishAsks(cfg: Config, h: Handler, m: MqttsPublish, env: Env)
    requires Ready(h, env)
    ensures AsksExactly(cfg, h, FromClient(Publish(m)), env, HandlePublish(cfg, h, m, env).h)
  {
    NamesKnown(cfg, h, m.topic);
  }

  lemma SubscribeAsks(cfg: Config, h: Handler, m: MqttsSubscribe, env: Env)
    requires Ready(h, env)
    ensures AsksExactly(cfg, h, FromClient(Subscribe(m)), env, HandleSubscribe(cfg, h, m, env).h)
  {
    NamesKnown(cfg, h, m.topic);
  }

  lemma UnsubscribeAsks(cfg: Config, h: Handler, m: MqttsUnsubscribe, env: Env)
    requires Ready(h, env)
    ensures AsksExactly(cfg, h, FromClient(Unsubscribe(m)), env, HandleUnsubscribe(cfg, h, m, env).h)
  {
    NamesKnown(cfg, h, m.topic);
  }

  lemma ConnectAsks(cfg: Config, h: Handler, m: MqttsConnect, env: Env)
    requires Ready(h, env)
    ensures AsksExactly(cfg, h, FromClient(Connect(m)), env, HandleConnect(cfg, h, m, env).h)
  {
  }

  lemma WillTopicAsks(cfg: Config, h: Handler, m: MqttsWillTopic, env: Env)
    requires Ready(h, env)
    ensures AsksExactly(cfg, h, FromClient(WillTopic(m)), env, HandleWillTopic(cfg, h, m).h)
  {
  }

  lemma WillMsgAsks(cfg: Config, h: Handler, willMsg: string, env: Env)
    requires Ready(h, env)
    ensures AsksExactly(cfg, h, FromClient(WillMsg(willMsg)), env, HandleWillMsg(cfg, h, willMsg, env).h)
  {
  }

  lemma RegisterAsks(cfg: Config, h: Handler, msgId: int, topicName: string, env: Env)
    requires Ready(h, env)
    ensures AsksExactly(cfg, h, FromClient(Register(msgId, topicName)), env,
                           HandleRegister(cfg, h, msgId, topicName, env).h)
  {
    LookUp(h, env, topicName);
  }

  lemma RegackAsks(cfg: Config, h: Handler, topicId: nat, msgId: int, env: Env)
    requires Ready(h, env)
    ensures AsksExactly(cfg, h, FromClient(Regack(topicId, msgId)), env, HandleRegack(cfg, h, topicId, msgId).h)
  {
  }

  lemma PubackAsks(cfg: Config, h: Handler, topicId: nat, msgId: int, returnCode: int, env: Env)
    requires Ready(h, env)
    ensures AsksExactly(cfg, h, FromClient(Puback(topicId, msgId, returnCode)), env,
                           HandlePuback(cfg, h, topicId, msgId, returnCode, env).h)
  {
  }

  lemma BrokerPublishAsks(cfg: Config, h: Handler, m: MqttPublish, env: Env)
    requires Ready(h, env)
    ensures AsksExactly(cfg, h, FromBroker(BrokerPublish(m)), env, HandleBrokerPublish(cfg, h, m, env).h)
  {
    LookUp(h, env, m.topicName);
  }

  lemma BrokerPubackAsks(cfg: Config, h: Handler, msgId: int, env: Env)
    requires Ready(h, env)
    ensures AsksExactly(cfg, h, FromBroker(BrokerPuback(msgId)), env, HandleBrokerPuback(cfg, h, msgId).h)
  {
  }

  lemma BrokerSubackAsks(cfg: Config, h: Handler, msgId: int, grantedQoS: int, env: Env)
    requires Ready(h, env)
    ensures AsksExactly(cfg, h, FromBroker(BrokerSuback(msgId, grantedQoS)), env,
                           HandleBrokerSuback(cfg, h, msgId, grantedQoS, env).h)
  {
    if h.gw.subscribe.Some? && h.gw.subscribe.value.topic.TopicName? {
      LookUp(h, env, h.gw.subscribe.value.topic.name);
      HasWildcardExact(h.gw.subscribe.value.topic.name);
    }
  }

  lemma BrokerUnsubackAsks(cfg: Config, h: Handler, msgId: int, env: Env)
    requires Ready(h, env)
    ensures AsksExactly(cfg, h, FromBroker(BrokerUnsuback(msgId)), env, HandleBrokerUnsuback(cfg, h, msgId, env).h)
  {
  }

  lemma ClientAsks(cfg: Config, h: Handler, m: ClientMsg, env: Env)
    requires Ready(h, env)
    ensures AsksExactly(cfg, h, FromClient(m), env, HandleClient(cfg, h, m, env).h)
  {
    match m
    case Publish(m) => PublishAsks(cfg, h, m, env);
    case Subscribe(m) => SubscribeAsks(cfg, h, m, env);
    case Unsubscribe(m) => UnsubscribeAsks(cfg, h, m, env);
    case Connect(m) => ConnectAsks(cfg, h, m, env);
    case WillTopic(m) => WillTopicAsks(cfg, h, m, env);
    case WillMsg(willMsg) => WillMsgAsks(cfg, h, willMsg, env);
    case Register(msgId, topicName) => RegisterAsks(cfg, h, msgId, topicName, env);
    case Regack(topicId, msgId) => RegackAsks(cfg, h, topicId, msgId, env);
    case Puback(topicId, msgId, returnCode) => PubackAsks(cfg, h, topicId, msgId, returnCode, env);
    case _ =>
  }

  lemma BrokerAsks(cfg: Config, h: Handler, m: BrokerMsg, env: Env)
    requires Ready(h, env)
    ensures AsksExactly(cfg, h, FromBroker(m), env, HandleBroker(cfg, h, m, env).h)
  {
    match m
    case BrokerPublish(m) => BrokerPublishAsks(cfg, h, m, env);
    case BrokerPuback(msgId) => BrokerPubackAsks(cfg, h, msgId, env);
    case BrokerSuback(msgId, grantedQoS) => BrokerSubackAsks(cfg, h, msgId, grantedQoS, env);
    case BrokerUnsuback(msgId) => BrokerUnsubackAsks(cfg, h, msgId, env);
    case _ =>
  }

  lemma ControlAsks(cfg: Config, h: Handler, m: ControlMsg, env: Env)
    requires Ready(h, env)
    ensures AsksExactly(cfg, h, Control(m), env, HandleControl(cfg, h, m, env).h)
  {
  }

  // ----- any event

  lemma HandleTells(cfg: Config, h: Handler, e: Event, env: Env, c: ToClient)
    requires Ready(h, env)
    ensures TellsExactly(cfg, h, e, env, Handle(cfg, h, e, env).out, c)
  {
    match e
    case FromClient(m) => ClientTells(cfg, h, m, env, c);
    case FromBroker(m) => BrokerTells(cfg, h, m, env, c);
    case Control(m) => ControlTells(cfg, h, m, env, c);
  }

  lemma HandlePasses(cfg: Config, h: Handler, e: Event, env: Env, b: ToBroker)
    requires Ready(h, env)
    ensures PassesExactly(cfg, h, e, env, Handle(cfg, h, e, env).out, b)
  {
    match e
    case FromClient(m) => ClientPasses(cfg, h, m, env, b);
    case FromBroker(m) => BrokerPasses(cfg, h, m, env, b);
    case Control(m) => ControlPasses(cfg, h, m, env, b);
  }

  lemma HandleTable(cfg: Config, h: Handler, e: Event, env: Env, id: int, name: string)
    requires Ready(h, env)
    ensures TableExactly(cfg, h, e, env, Handle(cfg, h, e, env).h, id, name)
  {
    match e
    case FromClient(m) => ClientTable(cfg, h, m, env, id, name);
    case FromBroker(m) => BrokerTable(cfg, h, m, env, id, name);
    case Control(m) => ControlTable(cfg, h, m, env, id, name);
  }

  lemma HandleChanges(cfg: Config, h: Handler, e: Event, env: Env)
    requires Ready(h, env)
    ensures ChangesExactly(cfg, h, e, env, Handle(cfg, h, e, env).h)
  {
    match e
    case FromClient(m) => ClientChanges(cfg, h, m, env);
    case FromBroker(m) => BrokerChanges(cfg, h, m, env);
    case Control(m) => ControlChanges(cfg, h, m, env);
  }

  lemma HandleAsks(cfg: Config, h: Handler, e: Event, env: Env)
    requires Ready(h, env)
    ensures AsksExactly(cfg, h, e, env, Handle(cfg, h, e, env).h)
  {
    match e
    case FromClient(m) => ClientAsks(cfg, h, m, env);
    case FromBroker(m) => BrokerAsks(cfg, h, m, env);
    case Control(m) => ControlAsks(cfg, h, m, env);
  }

  // ----- runs

  lemma RunReady(cfg: Config, ws: seq<World>, steps: seq<Step>, k: nat)
    requires Run(cfg, ws, steps) && k < |steps| && steps[k].Own?
    ensures Ready(ws[k].h, steps[k].env) && StepOk(cfg, ws[k], steps[k], ws[k + 1])
  {
    RunNamed(cfg, ws, steps, k);
    assert StepOk(cfg, ws[k], steps[k], ws[k + 1]);
  }

  lemma AtStep(cfg: Config, ws: seq<World>, steps: seq<Step>, k: nat)
    requires Run(cfg, ws, steps) && k < |steps|
    ensures steps[k].Own? ==> Ready(ws[k].h, steps[k].env)
    ensures ws[k].h.table.Items <= ws[k].named && StepOk(cfg, ws[k], steps[k], ws[k + 1])
  {
    RunNamed(cfg, ws, steps, k);
    assert StepOk(cfg, ws[k], steps[k], ws[k + 1]);
    if steps[k].Own? {
      RunReady(cfg, ws, steps, k);
    }
  }

  /** Main result: in every run, with any client, each step sends the client at most one message and the
      broker at most one, and exactly what SentToClient and SentToBroker say, by the state before it and the event. */
  lemma SentExactly(cfg: Config, ws: seq<World>, steps: seq<Step>, k: nat, c: ToClient, b: ToBroker)
    requires Run(cfg, ws, steps) && k < |steps| && steps[k].Own?
    ensures var w, w', s := ws[k], ws[k + 1], steps[k];
            && w.toClient <= w'.toClient && |w'.toClient| <= |w.toClient| + 1
            && (c in w'.toClient[|w.toClient|..] <==> SentToClient(cfg, w.h, s.event, s.env, c))
            && w.toBroker <= w'.toBroker && |w'.toBroker| <= |w.toBroker| + 1
            && (b in w'.toBroker[|w.toBroker|..] <==> SentToBroker(cfg, w.h, s.event, s.env, b))
  {
    RunReady(cfg, ws, steps, k);
    var w, s := ws[k], steps[k];
    var out := Handle(cfg, w.h, s.event, s.env).out;
    HandleTells(cfg, w.h, s.event, s.env, c);
    HandlePasses(cfg, w.h, s.event, s.env, b);
    assert (w.toClient + out.toClient)[|w.toClient|..] == out.toClient;
    assert (w.toBroker + out.toBroker)[|w.toBroker|..] == out.toBroker;
  }

  /** Likewise the state: bindings, the client's state, ids, and what is awaited with what is stored. */
  lemma ChangedExactly(cfg: Config, ws: seq<World>, steps: seq<Step>, k: nat, id: int, name: string)
    requires Run(cfg, ws, steps) && k < |steps| && steps[k].Own?
    ensures var h, h', s := ws[k].h, ws[k + 1].h, steps[k];
            && TableExactly(cfg, h, s.event, s.env, h', id, name)
            && ChangesExactly(cfg, h, s.event, s.env, h')
            && AsksExactly(cfg, h, s.event, s.env, h')
  {
    RunReady(cfg, ws, steps, k);
    var h, s := ws[k].h, steps[k];
    HandleTable(cfg, h, s.event, s.env, id, name);
    HandleChanges(cfg, h, s.event, s.env);
    HandleAsks(cfg, h, s.event, s.env);
  }

  // ----- ids given out

  /** How many topic ids the first k steps gave out, and how many REGISTERs they sent. */
  ghost function GivenOut(cfg: Config, ws: seq<World>, steps: seq<Step>, k: nat): nat
    requires k <= |steps| < |ws|
  {
    if k == 0 then 0
    else
      var h, s := ws[k - 1].h, steps[k - 1];
      GivenOut(cfg, ws, steps, k - 1) + if s.Own? && GivesId(cfg, h, s.event, s.env) then 1 else 0
  }

  function Registers(ms: seq<ToClient>): nat {
    if ms == [] then 0 else Registers(ms[..|ms| - 1]) + if ms[|ms| - 1].CRegister? then 1 else 0
  }

  lemma RegistersMore(ms: seq<ToClient>, more: seq<ToClient>)
    requires |more| <= 1
    ensures Registers(ms + more) == Registers(ms) + if more != [] && more[0].CRegister? then 1 else 0
  {
    var all := ms + more;
    assert if more == [] then all == ms else all[..|all| - 1] == ms;
  }

  lemma RegisterSent(cfg: Config, h: Handler, e: Event, env: Env)
    requires Ready(h, env)
    ensures var r := Handle(cfg, h, e, env);
            && |r.out.toClient| <= 1
            && r.h.msgId == h.msgId + if r.out.toClient != [] && r.out.toClient[0].CRegister? then 1 else 0
  {
    var out := Handle(cfg, h, e, env).out;
    HandleChanges(cfg, h, e, env);
    HandleTells(cfg, h, e, env, if out.toClient != [] then out.toClient[0] else CConnack);
    if e.FromBroker? && e.reply.BrokerPublish? {
      HandleTells(cfg, h, e, env, CRegister(MqttsRegister(h.topicId, h.msgId, e.reply.brokerPublish.topicName)));
    }
    if e == Control(RegackTimeout) && Again(cfg, h, WaitingRegack) {
      HandleTells(cfg, h, e, env,
                  CRegister(MqttsRegister(h.gw.register.value.topicId, h.msgId, h.gw.register.value.topicName)));
    }
  }

  /** Main result: a handler starts with a client not connected and the predefined topics; the next topic id
      is always the first one after the predefined range plus the ids given out so far, and the next
      message id is one more than the number of REGISTERs sent. */
  lemma {:induction false} IdsCounted(cfg: Config, ws: seq<World>, steps: seq<Step>, k: nat)
    requires Run(cfg, ws, steps) && k < |ws|
    ensures ws[0].h.client == NotConnected && ws[0].h.table == cfg.predefTable && !ws[0].h.removed
    ensures ws[k].h.topicId == cfg.predefSize + 1 + GivenOut(cfg, ws, steps, k)
    ensures ws[k].h.msgId == 1 + Registers(ws[k].toClient)
  {
    if k > 0 {
      IdsCounted(cfg, ws, steps, k - 1);
      AtStep(cfg, ws, steps, k - 1);
      StepIds(cfg, ws[k - 1], steps[k - 1], ws[k]);
    }
  }

  lemma StepIds(cfg: Config, w: World, s: Step, w': World)
    requires (s.Own? ==> Ready(w.h, s.env)) && StepOk(cfg, w, s, w')
    ensures w'.h.topicId == w.h.topicId + if s.Own? && GivesId(cfg, w.h, s.event, s.env) then 1 else 0
    ensures w'.h.msgId - w.h.msgId == Registers(w'.toClient) - Registers(w.toClient)
  {
    if s.Own? {
      HandleChanges(cfg, w.h, s.event, s.env);
      RegisterSent(cfg, w.h, s.event, s.env);
      RegistersMore(w.toClient, Handle(cfg, w.h, s.event, s.env).out.toClient);
    }
  }
}
