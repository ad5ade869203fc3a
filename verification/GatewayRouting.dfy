/** Whatever the handler sends stems from messages it received, under ids and names both sides agree on. */
module GatewayRouting {
  import opened Common
  import opened GatewayMessages
  import opened GatewaySpec
  import opened GatewayInvariant
  import opened GatewayRun
  import opened GatewayTopics
  import opened GatewayWildcards

  // ----- topics and contents on either side

  /** The topic field of a PUBLISH stands for the name. */
  ghost predicate Stands(named: set<(int, string)>, topic: Topic, name: string) {
    match topic
    case NormalTopicId(id) => (id, name) in named
    case PredefinedTopicId(id) => (id, name) in named
    case ShortTopicName(short) => short == name
    case _ => false
  }

  /** Its id, if it has one, is of the range its type says. */
  predicate Ranged(cfg: Config, topic: Topic) {
    (topic.NormalTopicId? ==> topic.id > cfg.predefSize) && (topic.PredefinedTopicId? ==> topic.id <= cfg.predefSize)
  }

  ghost predicate Names(cfg: Config, named: set<(int, string)>, topic: Topic, name: string) {
    Stands(named, topic, name) && Ranged(cfg, topic)
  }

  /** The id was the client's answer to a REGISTER. */
  ghost predicate Answered(received: seq<Event>, topic: Topic) {
    topic.NormalTopicId? && topic.id >= 0 && exists msgId :: FromClient(Regack(topic.id, msgId)) in received
  }

  /** The topic field of a subscription stands for the name. */
  ghost predicate Filters(cfg: Config, named: set<(int, string)>, topic: Topic, name: string) {
    topic == TopicName(name) || (!topic.NormalTopicId? && Names(cfg, named, topic, name))
  }

  /** The client's p and the broker's m have the same content, on a topic that stands for m's. */
  ghost predicate Carries(named: set<(int, string)>, p: MqttsPublish, m: MqttPublish) {
    p == MqttsPublish(m.dup, m.qos, m.retain, p.topic, m.msgId, m.payload) && Stands(named, p.topic, m.topicName)
  }

  // ----- what a message sent must stem from

  /** A PUBLISH to the client carries what the broker published, on an id that stands for its topic and
      is of the right range, unless the client itself answered with it. */
  ghost predicate Delivers(cfg: Config, received: seq<Event>, named: set<(int, string)>, p: MqttsPublish) {
    exists m: MqttPublish ::
      && FromBroker(BrokerPublish(m)) in received
      && Carries(named, p, m) && (Ranged(cfg, p.topic) || Answered(received, p.topic))
  }

  /** A REGISTER announces an id for the topic of something the broker published. */
  ghost predicate Announcing(cfg: Config, received: seq<Event>, named: set<(int, string)>, r: MqttsRegister) {
    exists m: MqttPublish ::
      && FromBroker(BrokerPublish(m)) in received && r.topicName == m.topicName
      && Names(cfg, named, NormalTopicId(r.topicId), r.topicName)
  }

  /** A REGACK tells the client an id that stands for the name of its REGISTER. */
  ghost predicate AnswersRegister(received: seq<Event>, named: set<(int, string)>, topicId: int, msgId: int) {
    exists name: string :: FromClient(Register(msgId, name)) in received && (topicId, name) in named
  }

  /** A PUBACK is about a PUBLISH of the client; one that accepts it passes on the broker's. */
  ghost predicate AnswersPublish(received: seq<Event>, topic: Topic, msgId: int, returnCode: int) {
    exists p: MqttsPublish ::
      && FromClient(Publish(p)) in received && p.topic == topic && p.msgId == msgId
      && (returnCode == RETURN_CODE_ACCEPTED ==> p.qos == 1 && FromBroker(BrokerPuback(msgId)) in received)
  }

  /** The topic field a SUBACK has for an accepted subscription: an id of the subscribed name, 0 if one of
      its levels is a wildcard, or the subscription's own short name or predefined id. */
  ghost predicate SubackTopic(named: set<(int, string)>, s: MqttsSubscribe, topic: Topic) {
    if s.topic.TopicName? then
      topic.NormalTopicId? && if Wild(s.topic.name) then topic.id == 0 else (topic.id, s.topic.name) in named
    else topic == s.topic
  }

  ghost predicate AnswersSubscribe(received: seq<Event>, named: set<(int, string)>, topic: Topic, msgId: int,
                                   grantedQoS: int, returnCode: int)
  {
    exists s: MqttsSubscribe ::
      && FromClient(Subscribe(s)) in received && s.msgId == msgId
      && if returnCode == RETURN_CODE_ACCEPTED then
           SubackTopic(named, s, topic) && FromBroker(BrokerSuback(msgId, grantedQoS)) in received
         else topic == s.topic
  }

  ghost predicate AnswersUnsubscribe(received: seq<Event>, msgId: int) {
    exists u: MqttsUnsubscribe ::
      FromClient(Unsubscribe(u)) in received && u.msgId == msgId && FromBroker(BrokerUnsuback(msgId)) in received
  }

  ghost predicate ToldOk(cfg: Config, received: seq<Event>, named: set<(int, string)>, m: ToClient) {
    match m
    case CPublish(p) => Delivers(cfg, received, named, p)
    case CRegister(r) => Announcing(cfg, received, named, r)
    case CRegack(topicId, msgId) => AnswersRegister(received, named, topicId, msgId)
    case CPuback(topic, msgId, returnCode) => AnswersPublish(received, topic, msgId, returnCode)
    case CSuback(topic, msgId, grantedQoS, returnCode) =>
      AnswersSubscribe(received, named, topic, msgId, grantedQoS, returnCode)
    case CUnsuback(msgId) => AnswersUnsubscribe(received, msgId)
    case CRelay(relay) => FromBroker(BrokerRelay(relay)) in received
    case _ => true
  }

  /** A will sent to the broker is made of the client's WILLTOPIC and WILLMSG. */
  ghost predicate WillFrom(received: seq<Event>, will: Will) {
    exists t: MqttsWillTopic ::
      && FromClient(WillTopic(t)) in received && FromClient(WillMsg(will.message)) in received
      && will == Will(t.willTopic, will.message, t.qos, t.retain)
  }

  /** A broker CONNECT is made in the name of a CONNECT of the client, with a will if it asks for one. */
  ghost predicate Connects(received: seq<Event>, clientId: string, cleanStart: bool, keepAlive: int,
                           will: Option<Will>)
  {
    exists c: MqttsConnect ::
      && FromClient(Connect(c)) in received
      && c == MqttsConnect(clientId, will.Some?, cleanStart, keepAlive)
      && (will.Some? ==> WillFrom(received, will.value))
  }

  /** A PUBLISH to the broker carries what the client published, under the name of its topic. */
  ghost predicate Forwards(cfg: Config, received: seq<Event>, named: set<(int, string)>, m: MqttPublish) {
    exists p: MqttsPublish ::
      FromClient(Publish(p)) in received && Carries(named, p, m) && Ranged(cfg, p.topic)
  }

  ghost predicate Subscribes(cfg: Config, received: seq<Event>, named: set<(int, string)>,
                             dup: bool, qos: int, name: string, msgId: int)
  {
    exists s: MqttsSubscribe ::
      && FromClient(Subscribe(s)) in received
      && s == MqttsSubscribe(dup, qos, s.topic, msgId) && Filters(cfg, named, s.topic, name)
  }

  ghost predicate Unsubscribes(cfg: Config, received: seq<Event>, named: set<(int, string)>,
                               dup: bool, name: string, msgId: int)
  {
    exists u: MqttsUnsubscribe ::
      && FromClient(Unsubscribe(u)) in received
      && u == MqttsUnsubscribe(dup, u.topic, msgId) && Filters(cfg, named, u.topic, name)
  }

  ghost predicate Acknowledges(received: seq<Event>, msgId: int) {
    exists topicId, returnCode :: FromClient(Puback(topicId, msgId, returnCode)) in received
  }

  ghost predicate AskedOk(cfg: Config, received: seq<Event>, named: set<(int, string)>, m: ToBroker) {
    match m
    case BConnect(clientId, cleanStart, keepAlive, will) => Connects(received, clientId, cleanStart, keepAlive, will)
    case BPublish(p) => Forwards(cfg, received, named, p)
    case BPuback(msgId) => Acknowledges(received, msgId)
    case BRelay(relay) => FromClient(Relay(relay)) in received
    case BSubscribe(dup, qos, name, msgId) => Subscribes(cfg, received, named, dup, qos, name, msgId)
    case BUnsubscribe(dup, name, msgId) => Unsubscribes(cfg, received, named, dup, name, msgId)
    case BDisconnect => true
  }

  ghost predicate OutOk(cfg: Config, received: seq<Event>, named: set<(int, string)>,
                        toClient: seq<ToClient>, toBroker: seq<ToBroker>)
  {
    && (forall i :: 0 <= i < |toClient| ==> ToldOk(cfg, received, named, toClient[i]))
    && (forall i :: 0 <= i < |toBroker| ==> AskedOk(cfg, received, named, toBroker[i]))
  }

  /** What is stored for later was received; the REGISTER under way is for a dynamic id. */
  ghost predicate StoredInv(cfg: Config, h: Handler, received: seq<Event>) {
    && h.topicId > cfg.predefSize
    && (h.gw.waitingWillTopic ==> h.gw.connect.Some? && FromClient(Connect(h.gw.connect.value)) in received)
    && (h.gw.waitingWillMsg ==>
          && h.gw.connect.Some? && FromClient(Connect(h.gw.connect.value)) in received
          && h.gw.willTopic.Some? && FromClient(WillTopic(h.gw.willTopic.value)) in received)
    && (h.gw.waitingRegack ==>
          && h.gw.mqttPublish.Some? && FromBroker(BrokerPublish(h.gw.mqttPublish.value)) in received
          && h.gw.register.Some? && h.gw.register.value.topicId > cfg.predefSize)
    && (h.gw.waitingPuback ==> h.gw.mqttsPublish.Some? && FromClient(Publish(h.gw.mqttsPublish.value)) in received)
    && (h.gw.waitingSuback ==> h.gw.subscribe.Some? && FromClient(Subscribe(h.gw.subscribe.value)) in received)
    && (h.gw.waitingUnsuback ==>
          h.gw.unsubscribe.Some? && FromClient(Unsubscribe(h.gw.unsubscribe.value)) in received)
  }

  // ----- what was true of a message sent stays true

  lemma ToldGrows(cfg: Config, received: seq<Event>, named: set<(int, string)>, m: ToClient,
                  received': seq<Event>, named': set<(int, string)>)
    requires ToldOk(cfg, received, named, m) && named <= named'
    requires forall e :: e in received ==> e in received'
    ensures ToldOk(cfg, received', named', m)
  {
    match m
    case CPublish(p) =>
      var b: MqttPublish :| FromBroker(BrokerPublish(b)) in received
        && Carries(named, p, b) && (Ranged(cfg, p.topic) || Answered(received, p.topic));
      assert FromBroker(BrokerPublish(b)) in received';
      if Answered(received, p.topic) {
        var msgId :| FromClient(Regack(p.topic.id, msgId)) in received;
        assert FromClient(Regack(p.topic.id, msgId)) in received';
      }
    case CRegister(r) =>
      var b: MqttPublish :| FromBroker(BrokerPublish(b)) in received && r.topicName == b.topicName;
      assert FromBroker(BrokerPublish(b)) in received';
    case CRegack(topicId, msgId) =>
      var name :| FromClient(Register(msgId, name)) in received && (topicId, name) in named;
      assert FromClient(Register(msgId, name)) in received';
    case CPuback(topic, msgId, returnCode) =>
      var p: MqttsPublish :| FromClient(Publish(p)) in received && p.topic == topic && p.msgId == msgId
        && (returnCode == RETURN_CODE_ACCEPTED ==> p.qos == 1 && FromBroker(BrokerPuback(msgId)) in received);
      assert FromClient(Publish(p)) in received';
    case CSuback(topic, msgId, grantedQoS, returnCode) =>
      SubackGrows(received, named, topic, msgId, grantedQoS, returnCode, received', named');
    case CUnsuback(msgId) =>
      var u: MqttsUnsubscribe :| FromClient(Unsubscribe(u)) in received && u.msgId == msgId;
      assert FromClient(Unsubscribe(u)) in received';
    case _ =>
  }

  lemma SubackGrows(received: seq<Event>, named: set<(int, string)>, topic: Topic, msgId: int,
                    grantedQoS: int, returnCode: int, received': seq<Event>, named': set<(int, string)>)
    requires AnswersSubscribe(received, named, topic, msgId, grantedQoS, returnCode) && named <= named'
    requires forall e :: e in received ==> e in received'
    ensures AnswersSubscribe(received', named', topic, msgId, grantedQoS, returnCode)
  {
    var s: MqttsSubscribe :| FromClient(Subscribe(s)) in received && s.msgId == msgId
      && if returnCode == RETURN_CODE_ACCEPTED then
           SubackTopic(named, s, topic) && FromBroker(BrokerSuback(msgId, grantedQoS)) in received
         else topic == s.topic;
    assert FromClient(Subscribe(s)) in received';
    assert returnCode == RETURN_CODE_ACCEPTED ==> SubackTopic(named', s, topic);
  }

  lemma AskedGrows(cfg: Config, received: seq<Event>, named: set<(int, string)>, m: ToBroker,
                   received': seq<Event>, named': set<(int, string)>)
    requires AskedOk(cfg, received, named, m) && named <= named'
    requires forall e :: e in received ==> e in received'
    ensures AskedOk(cfg, received', named', m)
  {
    match m
    case BConnect(clientId, cleanStart, keepAlive, will) =>
      var c: MqttsConnect :| FromClient(Connect(c)) in received
        && c == MqttsConnect(clientId, will.Some?, cleanStart, keepAlive)
        && (will.Some? ==> WillFrom(received, will.value));
      assert FromClient(Connect(c)) in received';
      if will.Some? {
        var t: MqttsWillTopic :| FromClient(WillTopic(t)) in received
          && will.value == Will(t.willTopic, will.value.message, t.qos, t.retain);
        assert FromClient(WillTopic(t)) in received' && FromClient(WillMsg(will.value.message)) in received';
        assert WillFrom(received', will.value);
      }
    case BPublish(b) =>
      var p: MqttsPublish :| FromClient(Publish(p)) in received && Carries(named, p, b) && Ranged(cfg, p.topic);
      assert FromClient(Publish(p)) in received';
    case BPuback(msgId) =>
      var topicId, returnCode :| FromClient(Puback(topicId, msgId, returnCode)) in received;
      assert FromClient(Puback(topicId, msgId, returnCode)) in received';
    case BSubscribe(dup, qos, name, msgId) =>
      var s: MqttsSubscribe :| FromClient(Subscribe(s)) in received
        && s == MqttsSubscribe(dup, qos, s.topic, msgId) && Filters(cfg, named, s.topic, name);
      assert FromClient(Subscribe(s)) in received' && Filters(cfg, named', s.topic, name);
    case BUnsubscribe(dup, name, msgId) =>
      var u: MqttsUnsubscribe :| FromClient(Unsubscribe(u)) in received
        && u == MqttsUnsubscribe(dup, u.topic, msgId) && Filters(cfg, named, u.topic, name);
      assert FromClient(Unsubscribe(u)) in received' && Filters(cfg, named', u.topic, name);
    case _ =>
  }

  lemma OutGrows(cfg: Config, received: seq<Event>, named: set<(int, string)>, out: Out,
                 received': seq<Event>, named': set<(int, string)>)
    requires OutOk(cfg, received, named, out.toClient, out.toBroker) && named <= named'
    requires forall e :: e in received ==> e in received'
    ensures OutOk(cfg, received', named', out.toClient, out.toBroker)
  {
    forall i | 0 <= i < |out.toClient| ensures ToldOk(cfg, received', named', out.toClient[i]) {
      ToldGrows(cfg, received, named, out.toClient[i], received', named');
    }
    forall i | 0 <= i < |out.toBroker| ensures AskedOk(cfg, received', named', out.toBroker[i]) {
      AskedGrows(cfg, received, named, out.toBroker[i], received', named');
    }
  }

  // ----- what each handler sends

  lemma InItems(table: map<int, string>, id: int)
    requires id in table
    ensures (id, table[id]) in table.Items
  {
  }

  lemma ConnectRouted(cfg: Config, h: Handler, m: MqttsConnect, env: Env, received: seq<Event>,
                      named: set<(int, string)>)
    requires FromClient(Connect(m)) in received
    ensures var r := HandleConnect(cfg, h, m, env); OutOk(cfg, received, named, r.out.toClient, r.out.toBroker)
  {
    assert m == MqttsConnect(m.clientId, m.will, m.cleanSession, m.duration);
  }

  lemma WillMsgRouted(cfg: Config, h: Handler, willMsg: string, env: Env, received: seq<Event>,
                      named: set<(int, string)>)
    requires FlagsInv(h) && StoredInv(cfg, h, received) && FromClient(WillMsg(willMsg)) in received
    ensures var r := HandleWillMsg(cfg, h, willMsg, env); OutOk(cfg, received, named, r.out.toClient, r.out.toBroker)
  {
    if h.gw.waitingWillMsg && env.initOk && env.sendOk {
      var c, t := h.gw.connect.value, h.gw.willTopic.value;
      var will := Will(t.willTopic, willMsg, t.qos, t.retain);
      assert FromClient(WillTopic(t)) in received;
      assert WillFrom(received, will);
      assert FromClient(Connect(c)) in received && c == MqttsConnect(c.clientId, true, c.cleanSession, c.duration);
      assert Connects(received, c.clientId, c.cleanSession, c.duration, Some(will));
    }
  }

  lemma PublishRouted(cfg: Config, h: Handler, p: MqttsPublish, env: Env, received: seq<Event>, named: set<(int, string)>)
    requires h.table.Items <= named && FromClient(Publish(p)) in received
    ensures var r := HandlePublish(cfg, h, p, env); OutOk(cfg, received, named, r.out.toClient, r.out.toBroker)
  {
    var r := HandlePublish(cfg, h, p, env);
    if |r.out.toBroker| > 0 {
      var name := PublishName(cfg, h, p.topic).value;
      assert Names(cfg, named, p.topic, name) by {
        if p.topic.NormalTopicId? || p.topic.PredefinedTopicId? {
          InItems(h.table, p.topic.id);
        }
      }
      assert r.out.toBroker == [BPublish(MqttPublish(p.dup, p.qos, p.retain, name, p.msgId, p.data))];
      assert Forwards(cfg, received, named, r.out.toBroker[0].publish);
    }
  }

  lemma FilterFound(cfg: Config, h: Handler, topic: Topic, named: set<(int, string)>)
    requires h.table.Items <= named && GatewaySpec.FilterName(cfg, h, topic).Some?
    ensures Filters(cfg, named, topic, GatewaySpec.FilterName(cfg, h, topic).value)
  {
    if topic.PredefinedTopicId? {
      InItems(h.table, topic.id);
    }
  }

  lemma SubscribeRouted(cfg: Config, h: Handler, s: MqttsSubscribe, env: Env, received: seq<Event>,
                        named: set<(int, string)>)
    requires h.table.Items <= named && FromClient(Subscribe(s)) in received
    ensures var r := HandleSubscribe(cfg, h, s, env); OutOk(cfg, received, named, r.out.toClient, r.out.toBroker)
  {
    var r := HandleSubscribe(cfg, h, s, env);
    if |r.out.toBroker| > 0 {
      FilterFound(cfg, h, s.topic, named);
      assert s == MqttsSubscribe(s.dup, s.qos, s.topic, s.msgId);
    }
  }

  lemma UnsubscribeRouted(cfg: Config, h: Handler, u: MqttsUnsubscribe, env: Env, received: seq<Event>,
                          named: set<(int, string)>)
    requires h.table.Items <= named && FromClient(Unsubscribe(u)) in received
    ensures var r := HandleUnsubscribe(cfg, h, u, env); OutOk(cfg, received, named, r.out.toClient, r.out.toBroker)
  {
    var r := HandleUnsubscribe(cfg, h, u, env);
    if |r.out.toBroker| > 0 {
      FilterFound(cfg, h, u.topic, named);
      assert u == MqttsUnsubscribe(u.dup, u.topic, u.msgId);
    }
  }

  lemma RegisterRouted(cfg: Config, h: Handler, msgId: int, name: string, env: Env,
                       received: seq<Event>, named: set<(int, string)>)
    requires FromClient(Register(msgId, name)) in received
    requires HandleRegister(cfg, h, msgId, name, env).h.table.Items <= named
    ensures var r := HandleRegister(cfg, h, msgId, name, env);
            OutOk(cfg, received, named, r.out.toClient, r.out.toBroker)
  {
    var r := HandleRegister(cfg, h, msgId, name, env);
    if h.client == Connected {
      var id := r.out.toClient[0].topicId;
      InItems(r.h.table, id);
      assert (id, name) in named;
      assert AnswersRegister(received, named, id, msgId);
    }
  }

  lemma RegackRouted(cfg: Config, h: Handler, topicId: nat, msgId: int, received: seq<Event>,
                     named: set<(int, string)>)
    requires FlagsInv(h) && StoredInv(cfg, h, received) && FromClient(Regack(topicId, msgId)) in received
    requires HandleRegack(cfg, h, topicId, msgId).h.table.Items <= named
    ensures var r := HandleRegack(cfg, h, topicId, msgId); OutOk(cfg, received, named, r.out.toClient, r.out.toBroker)
  {
    if h.client == Connected && h.gw.waitingRegack && msgId == h.gw.register.value.msgId {
      var m := h.gw.mqttPublish.value;
      InItems(HandleRegack(cfg, h, topicId, msgId).h.table, topicId);
      assert FromBroker(BrokerPublish(m)) in received && Stands(named, NormalTopicId(topicId), m.topicName);
      assert Answered(received, NormalTopicId(topicId));
    }
  }

  lemma PubackRouted(cfg: Config, h: Handler, topicId: nat, msgId: int, returnCode: int, env: Env,
                     received: seq<Event>, named: set<(int, string)>)
    requires FromClient(Puback(topicId, msgId, returnCode)) in received
    ensures var r := HandlePuback(cfg, h, topicId, msgId, returnCode, env);
            OutOk(cfg, received, named, r.out.toClient, r.out.toBroker)
  {
  }

  lemma BrokerPublishRouted(cfg: Config, h: Handler, m: MqttPublish, env: Env,
                            received: seq<Event>, named: set<(int, string)>)
    requires NamedInv(h, named) && h.topicId > cfg.predefSize && FromBroker(BrokerPublish(m)) in received
    ensures var r := HandleBrokerPublish(cfg, h, m, env);
            OutOk(cfg, received, Renamed(named, r), r.out.toClient, r.out.toBroker)
  {
    var r := HandleBrokerPublish(cfg, h, m, env);
    var id := GetTopicId(h.table, env.order, m.topicName);
    if id != 0 {
      InItems(h.table, id);
      assert id >= 1;
      var topic := if id > cfg.predefSize then NormalTopicId(id) else PredefinedTopicId(id);
      assert Names(cfg, Renamed(named, r), topic, m.topicName);
    } else if |r.out.toClient| > 0 {
      assert r.out.toClient[0].CRegister?;
      assert (h.topicId, m.topicName) in Announced(r.out.toClient);
      assert Announcing(cfg, received, Renamed(named, r), r.out.toClient[0].register);
    }
  }

  lemma BrokerPubackRouted(cfg: Config, h: Handler, msgId: int, received: seq<Event>, named: set<(int, string)>)
    requires FlagsInv(h) && StoredInv(cfg, h, received) && FromBroker(BrokerPuback(msgId)) in received
    ensures var r := HandleBrokerPuback(cfg, h, msgId); OutOk(cfg, received, named, r.out.toClient, r.out.toBroker)
  {
    if h.gw.waitingPuback {
      var p := h.gw.mqttsPublish.value;
      assert FromClient(Publish(p)) in received;
      assert msgId == p.msgId ==> AnswersPublish(received, p.topic, msgId, RETURN_CODE_ACCEPTED);
    }
  }

  lemma BrokerSubackRouted(cfg: Config, h: Handler, msgId: int, grantedQoS: int, env: Env,
                           received: seq<Event>, named: set<(int, string)>)
    requires FlagsInv(h) && StoredInv(cfg, h, received) && FromBroker(BrokerSuback(msgId, grantedQoS)) in received
    requires HandleBrokerSuback(cfg, h, msgId, grantedQoS, env).h.table.Items <= named
    ensures var r := HandleBrokerSuback(cfg, h, msgId, grantedQoS, env);
            OutOk(cfg, received, named, r.out.toClient, r.out.toBroker)
  {
    var r := HandleBrokerSuback(cfg, h, msgId, grantedQoS, env);
    if |r.out.toClient| > 0 {
      var s, topic := h.gw.subscribe.value, r.out.toClient[0].topic;
      if s.topic.TopicName? {
        HasWildcardExact(s.topic.name);
      }
      if s.topic.TopicName? && !Wild(s.topic.name) {
        assert topic.id in r.h.table && r.h.table[topic.id] == s.topic.name;
        InItems(r.h.table, topic.id);
      }
      assert SubackTopic(named, s, topic);
      assert FromClient(Subscribe(s)) in received;
      assert AnswersSubscribe(received, named, topic, msgId, grantedQoS, RETURN_CODE_ACCEPTED);
    }
  }

  lemma BrokerUnsubackRouted(cfg: Config, h: Handler, msgId: int, env: Env,
                             received: seq<Event>, named: set<(int, string)>)
    requires FlagsInv(h) && StoredInv(cfg, h, received) && FromBroker(BrokerUnsuback(msgId)) in received
    ensures var r := HandleBrokerUnsuback(cfg, h, msgId, env);
            OutOk(cfg, received, named, r.out.toClient, r.out.toBroker)
  {
    if h.gw.waitingUnsuback {
      var u := h.gw.unsubscribe.value;
      assert FromClient(Unsubscribe(u)) in received;
      assert msgId == u.msgId ==> AnswersUnsubscribe(received, msgId);
    }
  }

  lemma ControlRouted(cfg: Config, h: Handler, m: ControlMsg, env: Env, received: seq<Event>, named: set<(int, string)>)
    requires StoredInv(cfg, h, received) && NamedInv(h, named)
    ensures var r := HandleControl(cfg, h, m, env); OutOk(cfg, received, named, r.out.toClient, r.out.toBroker)
  {
    var r := HandleControl(cfg, h, m, env);
    if m.RegackTimeout? && |r.out.toClient| > 0 {
      assert Pending(h) in named;
      assert FromBroker(BrokerPublish(h.gw.mqttPublish.value)) in received;
      assert Announcing(cfg, received, named, r.out.toClient[0].register);
    }
  }

  // ----- what any event sends

  lemma ClientRouted(cfg: Config, h: Handler, m: ClientMsg, env: Env,
                     received: seq<Event>, named: set<(int, string)>, named': set<(int, string)>)
    requires NamedInv(h, named)
    requires StoredInv(cfg, h, received) && FromClient(m) in received
    requires named <= named' && HandleClient(cfg, h, m, env).h.table.Items <= named'
    ensures var r := HandleClient(cfg, h, m, env); OutOk(cfg, received, named', r.out.toClient, r.out.toBroker)
  {
    match m
    case Connect(c) => ConnectRouted(cfg, h, c, env, received, named');
    case WillMsg(w) => WillMsgRouted(cfg, h, w, env, received, named');
    case Publish(p) => PublishRouted(cfg, h, p, env, received, named');
    case Register(msgId, name) => RegisterRouted(cfg, h, msgId, name, env, received, named');
    case Regack(topicId, msgId) => RegackRouted(cfg, h, topicId, msgId, received, named');
    case Puback(topicId, msgId, returnCode) => PubackRouted(cfg, h, topicId, msgId, returnCode, env, received, named');
    case Subscribe(s) => SubscribeRouted(cfg, h, s, env, received, named');
    case Unsubscribe(u) => UnsubscribeRouted(cfg, h, u, env, received, named');
    case _ =>
  }

  lemma BrokerRouted(cfg: Config, h: Handler, m: BrokerMsg, env: Env,
                     received: seq<Event>, named: set<(int, string)>, named': set<(int, string)>)
    requires NamedInv(h, named) && StoredInv(cfg, h, received) && FromBroker(m) in received
    requires named' == Renamed(named, HandleBroker(cfg, h, m, env))
    ensures var r := HandleBroker(cfg, h, m, env); OutOk(cfg, received, named', r.out.toClient, r.out.toBroker)
  {
    match m
    case BrokerPublish(p) => BrokerPublishRouted(cfg, h, p, env, received, named);
    case BrokerPuback(msgId) => BrokerPubackRouted(cfg, h, msgId, received, named');
    case BrokerSuback(msgId, grantedQoS) => BrokerSubackRouted(cfg, h, msgId, grantedQoS, env, received, named');
    case BrokerUnsuback(msgId) => BrokerUnsubackRouted(cfg, h, msgId, env, received, named');
    case _ =>
  }

  lemma HandleRouted(cfg: Config, w: World, e: Event, env: Env, w': World)
    requires NamedInv(w.h, w.named) && StoredInv(cfg, w.h, w'.received)
    requires w' == Record(w, e, Handle(cfg, w.h, e, env))
    ensures var r := Handle(cfg, w.h, e, env);
            OutOk(cfg, w'.received, w'.named, r.out.toClient, r.out.toBroker)
  {
    assert e in w'.received;
    match e
    case FromClient(m) => ClientRouted(cfg, w.h, m, env, w'.received, w.named, w'.named);
    case FromBroker(m) => BrokerRouted(cfg, w.h, m, env, w'.received, w.named, w'.named);
    case Control(m) =>
      ControlRouted(cfg, w.h, m, env, w'.received, w.named);
      OutGrows(cfg, w'.received, w.named, HandleControl(cfg, w.h, m, env).out, w'.received, w'.named);
  }

  // ----- what stays stored

  /** Nothing else gets stored, and nothing starts to be awaited. */
  predicate SameStored(h: Handler, h': Handler) {
    && h'.topicId >= h.topicId
    && (h'.gw.waitingWillTopic ==> h.gw.waitingWillTopic && h'.gw.connect == h.gw.connect)
    && (h'.gw.waitingWillMsg ==> h.gw.waitingWillMsg && h'.gw.connect == h.gw.connect
                                 && h'.gw.willTopic == h.gw.willTopic)
    && (h'.gw.waitingRegack ==> h.gw.waitingRegack && h'.gw.mqttPublish == h.gw.mqttPublish
                                && h'.gw.register == h.gw.register)
    && (h'.gw.waitingPuback ==> h.gw.waitingPuback && h'.gw.mqttsPublish == h.gw.mqttsPublish)
    && (h'.gw.waitingSuback ==> h.gw.waitingSuback && h'.gw.subscribe == h.gw.subscribe)
    && (h'.gw.waitingUnsuback ==> h.gw.waitingUnsuback && h'.gw.unsubscribe == h.gw.unsubscribe)
  }

  lemma WillStored(cfg: Config, h: Handler, m: ClientMsg, env: Env, received: seq<Event>)
    requires StoredInv(cfg, h, received) && FlagsInv(h) && FromClient(m) in received && (m.Connect? || m.WillTopic?)
    ensures StoredInv(cfg, HandleClient(cfg, h, m, env).h, received)
  {
  }

  lemma PublishStored(cfg: Config, h: Handler, m: MqttsPublish, env: Env, received: seq<Event>)
    requires StoredInv(cfg, h, received) && FlagsInv(h) && FromClient(Publish(m)) in received
    ensures StoredInv(cfg, HandlePublish(cfg, h, m, env).h, received)
  {
  }

  lemma SubscribeStored(cfg: Config, h: Handler, m: MqttsSubscribe, env: Env, received: seq<Event>)
    requires StoredInv(cfg, h, received) && FlagsInv(h) && FromClient(Subscribe(m)) in received
    ensures StoredInv(cfg, HandleSubscribe(cfg, h, m, env).h, received)
  {
  }

  lemma UnsubscribeStored(cfg: Config, h: Handler, m: MqttsUnsubscribe, env: Env, received: seq<Event>)
    requires StoredInv(cfg, h, received) && FlagsInv(h) && FromClient(Unsubscribe(m)) in received
    ensures StoredInv(cfg, HandleUnsubscribe(cfg, h, m, env).h, received)
  {
  }

  lemma ClientStored(cfg: Config, h: Handler, m: ClientMsg, env: Env)
    requires FlagsInv(h)
    requires !m.Connect? && !m.WillTopic? && !m.Publish? && !m.Subscribe? && !m.Unsubscribe?
    ensures SameStored(h, HandleClient(cfg, h, m, env).h)
  {
  }

  lemma BrokerSubackStored(cfg: Config, h: Handler, msgId: int, grantedQoS: int, env: Env)
    requires FlagsInv(h)
    ensures SameStored(h, HandleBrokerSuback(cfg, h, msgId, grantedQoS, env).h)
  {
  }

  lemma BrokerUnsubackStored(cfg: Config, h: Handler, msgId: int, env: Env)
    requires FlagsInv(h)
    ensures SameStored(h, HandleBrokerUnsuback(cfg, h, msgId, env).h)
  {
  }

  lemma BrokerStored(cfg: Config, h: Handler, m: BrokerMsg, env: Env)
    requires FlagsInv(h) && !m.BrokerPublish?
    ensures SameStored(h, HandleBroker(cfg, h, m, env).h)
  {
    match m
    case BrokerSuback(msgId, grantedQoS) => BrokerSubackStored(cfg, h, msgId, grantedQoS, env);
    case BrokerUnsuback(msgId) => BrokerUnsubackStored(cfg, h, msgId, env);
    case _ =>
  }

  lemma BrokerPublishStored(cfg: Config, h: Handler, m: MqttPublish, env: Env, received: seq<Event>)
    requires StoredInv(cfg, h, received) && FlagsInv(h) && FromBroker(BrokerPublish(m)) in received
    ensures StoredInv(cfg, HandleBrokerPublish(cfg, h, m, env).h, received)
  {
  }

  lemma RegackTimeoutStored(cfg: Config, h: Handler, received: seq<Event>)
    requires StoredInv(cfg, h, received) && FlagsInv(h)
    ensures StoredInv(cfg, HandleRegackTimeout(cfg, h).h, received)
  {
  }

  lemma WillTimeoutsStored(cfg: Config, h: Handler, received: seq<Event>)
    requires StoredInv(cfg, h, received) && FlagsInv(h)
    ensures StoredInv(cfg, HandleWillTopicTimeout(cfg, h).h, received)
    ensures StoredInv(cfg, HandleWillMsgTimeout(cfg, h).h, received)
  {
  }

  lemma ControlStored(cfg: Config, h: Handler, m: ControlMsg, env: Env, received: seq<Event>)
    requires StoredInv(cfg, h, received) && FlagsInv(h)
    ensures StoredInv(cfg, HandleControl(cfg, h, m, env).h, received)
  {
    match m
    case RegackTimeout => RegackTimeoutStored(cfg, h, received);
    case WillTopicTimeout => WillTimeoutsStored(cfg, h, received);
    case WillMsgTimeout => WillTimeoutsStored(cfg, h, received);
    case _ =>
  }

  lemma HandleStored(cfg: Config, h: Handler, e: Event, env: Env, received: seq<Event>)
    requires StoredInv(cfg, h, received) && FlagsInv(h) && e in received
    ensures StoredInv(cfg, Handle(cfg, h, e, env).h, received)
  {
    match e
    case FromClient(Connect(m)) => WillStored(cfg, h, Connect(m), env, received);
    case FromClient(WillTopic(m)) => WillStored(cfg, h, WillTopic(m), env, received);
    case FromClient(Publish(m)) => PublishStored(cfg, h, m, env, received);
    case FromClient(Subscribe(m)) => SubscribeStored(cfg, h, m, env, received);
    case FromClient(Unsubscribe(m)) => UnsubscribeStored(cfg, h, m, env, received);
    case FromClient(m) => ClientStored(cfg, h, m, env);
    case FromBroker(BrokerPublish(m)) => BrokerPublishStored(cfg, h, m, env, received);
    case FromBroker(m) => BrokerStored(cfg, h, m, env);
    case Control(m) => ControlStored(cfg, h, m, env, received);
  }

  // ----- runs

  ghost predicate RoutedInv(cfg: Config, w: World) {
    StoredInv(cfg, w.h, w.received) && OutOk(cfg, w.received, w.named, w.toClient, w.toBroker)
  }

  lemma StepRouted(cfg: Config, w: World, s: Step, w': World)
    requires StepOk(cfg, w, s, w') && RoutedInv(cfg, w)
    requires NamedInv(w.h, w.named)
    ensures RoutedInv(cfg, w')
  {
    if s.Own? {
      var r := Handle(cfg, w.h, s.event, s.env);
      HandleRouted(cfg, w, s.event, s.env, w');
      assert StoredInv(cfg, w.h, w'.received);
      HandleStored(cfg, w.h, s.event, s.env, w'.received);
      OutGrows(cfg, w.received, w.named, Out(w.toClient, w.toBroker, 0), w'.received, w'.named);
      assert w'.toClient == w.toClient + r.out.toClient && w'.toBroker == w.toBroker + r.out.toBroker;
    }
  }

  lemma {:induction false} RunRouted(cfg: Config, ws: seq<World>, steps: seq<Step>, k: nat)
    requires Run(cfg, ws, steps) && k < |ws|
    ensures RoutedInv(cfg, ws[k])
  {
    if k > 0 {
      RunRouted(cfg, ws, steps, k - 1);
      RunNamed(cfg, ws, steps, k - 1);
      StepRouted(cfg, ws[k - 1], steps[k - 1], ws[k]);
    }
  }

  /** Main result: with any client, whatever is in either output of a run stems, field by field, from
      messages received by then. */
  lemma EverythingStems(cfg: Config, ws: seq<World>, steps: seq<Step>, k: nat)
    requires Run(cfg, ws, steps) && k < |ws|
    ensures forall m :: m in ws[k].toClient ==> ToldOk(cfg, ws[k].received, ws[k].named, m)
    ensures forall m :: m in ws[k].toBroker ==> AskedOk(cfg, ws[k].received, ws[k].named, m)
  {
    RunRouted(cfg, ws, steps, k);
  }

  // ----- with a client that echoes

  ghost predicate DeliveriesRanged(cfg: Config, ms: seq<ToClient>) {
    forall i :: 0 <= i < |ms| && ms[i].CPublish? ==> Ranged(cfg, ms[i].publish.topic)
  }

  lemma HandleRanged(cfg: Config, w: World, e: Event, env: Env)
    requires TopicsInv(w.h, w.named) && RegistersInv(w.h, w.toClient) && StoredInv(cfg, w.h, w.received)
    requires Echoes(w.toClient, e)
    ensures DeliveriesRanged(cfg, Handle(cfg, w.h, e, env).out.toClient)
  {
    match e
    case FromBroker(BrokerPublish(m)) =>
      var id := GetTopicId(w.h.table, env.order, m.topicName);
      assert id != 0 ==> id >= 1 by {
        if id != 0 {
          InItems(w.h.table, id);
        }
      }
    case FromClient(Regack(topicId, msgId)) =>
      if w.h.gw.waitingRegack && msgId == w.h.gw.register.value.msgId {
        assert topicId == Pending(w.h).0;
      }
    case _ =>
  }

  lemma {:induction false} RunRanged(cfg: Config, ws: seq<World>, steps: seq<Step>, k: nat)
    requires Run(cfg, ws, steps) && Echoing(ws, steps) && k < |ws|
    ensures DeliveriesRanged(cfg, ws[k].toClient)
  {
    if k > 0 {
      RunRanged(cfg, ws, steps, k - 1);
      RunRouted(cfg, ws, steps, k - 1);
      RunNamed(cfg, ws, steps, k - 1);
      RunTopics(cfg, ws, steps, k - 1);
      assert StepOk(cfg, ws[k - 1], steps[k - 1], ws[k]);
      if steps[k - 1].Own? {
        HandleRanged(cfg, ws[k - 1], steps[k - 1].event, steps[k - 1].env);
      }
    }
  }

  /** Main result: at any time of a run, a PUBLISH sent to the client on an id was published by the
      broker under the one name that id ever stands for. */
  lemma DeliveredUnderItsName(cfg: Config, ws: seq<World>, steps: seq<Step>, k: nat, p: MqttsPublish)
    returns (m: MqttPublish)
    requires Run(cfg, ws, steps) && Echoing(ws, steps) && k < |ws| && CPublish(p) in ws[k].toClient
    ensures FromBroker(BrokerPublish(m)) in ws[k].received
    ensures Carries(ws[k].named, p, m) && Ranged(cfg, p.topic)
    ensures forall name :: Stands(ws[k].named, p.topic, name) ==> name == m.topicName
  {
    RunRouted(cfg, ws, steps, k);
    RunRanged(cfg, ws, steps, k);
    RunTopics(cfg, ws, steps, k);
    var i :| 0 <= i < |ws[k].toClient| && ws[k].toClient[i] == CPublish(p);
    assert ToldOk(cfg, ws[k].received, ws[k].named, ws[k].toClient[i]);
    m :| FromBroker(BrokerPublish(m)) in ws[k].received && Carries(ws[k].named, p, m);
    OneName(ws[k].named, p.topic);
  }

  /** The other way: a PUBLISH forwarded to the broker was published by the client, on a topic that
      stands for its name and no other. */
  lemma ForwardedUnderItsName(cfg: Config, ws: seq<World>, steps: seq<Step>, k: nat, m: MqttPublish)
    returns (p: MqttsPublish)
    requires Run(cfg, ws, steps) && Echoing(ws, steps) && k < |ws| && BPublish(m) in ws[k].toBroker
    ensures FromClient(Publish(p)) in ws[k].received
    ensures Carries(ws[k].named, p, m) && Ranged(cfg, p.topic)
    ensures forall name :: Stands(ws[k].named, p.topic, name) ==> name == m.topicName
  {
    RunRouted(cfg, ws, steps, k);
    RunTopics(cfg, ws, steps, k);
    var i :| 0 <= i < |ws[k].toBroker| && ws[k].toBroker[i] == BPublish(m);
    assert AskedOk(cfg, ws[k].received, ws[k].named, ws[k].toBroker[i]);
    p :| FromClient(Publish(p)) in ws[k].received && Carries(ws[k].named, p, m) && Ranged(cfg, p.topic);
    OneName(ws[k].named, p.topic);
  }

  lemma OneName(named: set<(int, string)>, topic: Topic)
    requires Functional(named)
    ensures forall a, b :: Stands(named, topic, a) && Stands(named, topic, b) ==> a == b
  {
  }
}
