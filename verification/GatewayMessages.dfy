/** The messages, the state and the timer list of the gateway's per-client handler, as values. */
module GatewayMessages {
  import opened Common

  type ClientAddress = seq<int>
  type Payload = seq<int>

  const RETURN_CODE_ACCEPTED := 0
  const RETURN_CODE_INVALID_TOPIC_ID := 2

  /** The topic field of a message, by its TopicIdType; TOPIC_NAME exists in SUBSCRIBE and
      UNSUBSCRIBE only, NORMAL_TOPIC_ID elsewhere. */
  datatype Topic =
    | TopicName(name: string)
    | NormalTopicId(id: int)
    | ShortTopicName(name: string)
    | PredefinedTopicId(id: int)
    | InvalidTopicIdType

  // ----- stored messages

  datatype MqttsConnect = MqttsConnect(clientId: string, will: bool, cleanSession: bool, duration: int)
  datatype MqttsWillTopic = MqttsWillTopic(willTopic: string, qos: int, retain: bool)
  datatype MqttsSubscribe = MqttsSubscribe(dup: bool, qos: int, topic: Topic, msgId: int)
  datatype MqttsUnsubscribe = MqttsUnsubscribe(dup: bool, topic: Topic, msgId: int)
  datatype MqttsRegister = MqttsRegister(topicId: int, msgId: int, topicName: string)
  datatype MqttsPublish = MqttsPublish(dup: bool, qos: int, retain: bool, topic: Topic, msgId: int, data: Payload)
  datatype MqttPublish = MqttPublish(dup: bool, qos: int, retain: bool, topicName: string, msgId: int, payload: Payload)

  // ----- what arrives

  /** What happens around one handler step: whether the TCP connection opens and takes messages,
      and the order in which the topic table is enumerated. */
  datatype Env = Env(initOk: bool, sendOk: bool, order: seq<int>)

  datatype Event = FromClient(msg: ClientMsg) | FromBroker(reply: BrokerMsg) | Control(control: ControlMsg)

  datatype ClientMsg =
    | SearchGw
    | Connect(connect: MqttsConnect)
    | WillTopic(willTopic: MqttsWillTopic)
    | WillMsg(willMsg: string)
    | Register(msgId: int, topicName: string)
    | Regack(topicId: nat, msgId: int)
    | Publish(publish: MqttsPublish)
    | Puback(topicId: nat, msgId: int, returnCode: int)
    | Relay(relay: RelayMsg)
    | Subscribe(subscribe: MqttsSubscribe)
    | Unsubscribe(unsubscribe: MqttsUnsubscribe)
    | Disconnect
    | IgnoredFromClient

  datatype BrokerMsg =
    | BrokerConnack(returnCode: int)
    | BrokerPublish(brokerPublish: MqttPublish)
    | BrokerPuback(msgId: int)
    | BrokerSuback(msgId: int, grantedQoS: int)
    | BrokerUnsuback(msgId: int)
    | BrokerRelay(relay: RelayMsg)
    | IgnoredFromBroker

  datatype ControlMsg =
    | ConnectionLost
    | WillTopicTimeout
    | WillMsgTimeout
    | RegackTimeout
    | CheckInactivity(expired: bool)
    | ShutDown

  /** Messages passed on unchanged in either direction. */
  datatype RelayMsg = PubComp(msgId: int) | PubRec(msgId: int) | PubRel(msgId: int) | PingReq | PingResp

  // ----- what is sent

  datatype ToClient =
    | CConnack
    | CWillTopicReq
    | CWillMsgReq
    | CRegister(register: MqttsRegister)
    | CRegack(topicId: int, msgId: int)
    | CPublish(publish: MqttsPublish)
    | CPuback(topic: Topic, msgId: int, returnCode: int)
    | CSuback(topic: Topic, msgId: int, grantedQoS: int, returnCode: int)
    | CUnsuback(msgId: int)
    | CRelay(relay: RelayMsg)
    | CDisconnect

  datatype Will = Will(topic: string, message: string, qos: int, retain: bool)

  datatype ToBroker =
    | BConnect(clientId: string, cleanStart: bool, keepAlive: int, will: Option<Will>)
    | BPublish(publish: MqttPublish)
    | BPuback(msgId: int)
    | BRelay(relay: RelayMsg)
    | BSubscribe(dup: bool, qos: int, topicName: string, msgId: int)
    | BUnsubscribe(dup: bool, topicName: string, msgId: int)
    | BDisconnect

  /** What one step sends; toGateway counts the messages passed to the gateway's own handler. */
  datatype Out = Out(toClient: seq<ToClient>, toBroker: seq<ToBroker>, toGateway: nat)

  const NOTHING := Out([], [], 0)

  function Client(m: ToClient): Out { Out([m], [], 0) }

  function Broker(m: ToBroker): Out { Out([], [m], 0) }

  // ----- state

  datatype ClientState = NotConnected | Connected | Disconnected

  /** GatewayState, with the stored messages its reset() deletes. */
  datatype GatewayState = GatewayState(
    waitingWillTopic: bool, waitingWillMsg: bool, waitingRegack: bool,
    waitingSuback: bool, waitingUnsuback: bool, waitingPuback: bool,
    triesWillTopicReq: int, triesWillMsgReq: int, triesRegister: int,
    connect: Option<MqttsConnect>, willTopic: Option<MqttsWillTopic>,
    subscribe: Option<MqttsSubscribe>, unsubscribe: Option<MqttsUnsubscribe>,
    register: Option<MqttsRegister>, mqttPublish: Option<MqttPublish>,
    mqttsPublish: Option<MqttsPublish>)

  const IDLE := GatewayState(false, false, false, false, false, false, 0, 0, 0,
                             None, None, None, None, None, None, None)

  datatype TimeoutType = WaitingWillTopic | WaitingWillMsg | WaitingRegack | OtherTimeout

  datatype Task = Task(address: ClientAddress, kind: TimeoutType)

  /** msgId and topicId are the next ids to issue; tasks is the timer service's list, shared
      with every other handler; removed means the dispatcher has dropped this handler. */
  datatype Handler = Handler(
    client: ClientState, clientId: string, gw: GatewayState,
    msgId: int, topicId: int, table: map<int, string>, tasks: seq<Task>, removed: bool)

  datatype Config = Config(address: ClientAddress, predefSize: nat, predefTable: map<int, string>,
                           maxRetries: nat, maxMqttsLength: int)

  /** The predefined topics as the configuration is read: ids within 1..predefSize. */
  ghost predicate ConfigOk(cfg: Config) {
    forall id :: id in cfg.predefTable ==> 1 <= id <= cfg.predefSize
  }

  // ----- the timer list

  /** unregister(address, type): the first task of that type goes. */
  function RemoveFirst(tasks: seq<Task>, t: Task): seq<Task> {
    if tasks == [] then [] else if tasks[0] == t then tasks[1..] else [tasks[0]] + RemoveFirst(tasks[1..], t)
  }

  /** unregister(address): every task of the address goes. */
  function RemoveAll(tasks: seq<Task>, a: ClientAddress): seq<Task> {
    if tasks == [] then []
    else if tasks[0].address == a then RemoveAll(tasks[1..], a)
    else [tasks[0]] + RemoveAll(tasks[1..], a)
  }

  function Count(tasks: seq<Task>, t: Task): nat { multiset(tasks)[t] }

  lemma {:induction false} RemoveFirstCount(tasks: seq<Task>, t: Task, u: Task)
    ensures Count(RemoveFirst(tasks, t), u) == Count(tasks, u) - if u == t && Count(tasks, t) > 0 then 1 else 0
  {
    if tasks != [] {
      assert tasks == [tasks[0]] + tasks[1..];
      if tasks[0] != t {
        RemoveFirstCount(tasks[1..], t, u);
      }
    }
  }

  lemma {:induction false} RemoveAllCount(tasks: seq<Task>, a: ClientAddress, u: Task)
    ensures Count(RemoveAll(tasks, a), u) == if u.address == a then 0 else Count(tasks, u)
  {
    if tasks != [] {
      assert tasks == [tasks[0]] + tasks[1..];
      RemoveAllCount(tasks[1..], a, u);
    }
  }

  lemma AppendCount(tasks: seq<Task>, t: Task, u: Task)
    ensures Count(tasks + [t], u) == Count(tasks, u) + if u == t then 1 else 0
  {
  }

  // ----- the topic table

  /** The order enumerates the table's ids, each once. */
  ghost predicate Enumerates(order: seq<int>, table: map<int, string>) {
    && (forall i :: 0 <= i < |order| ==> order[i] in table)
    && (forall id :: id in table ==> id in order)
    && (forall i, j :: 0 <= i < j < |order| ==> order[i] != order[j])
  }

  /** getTopicId: the first id, in enumeration order, bound to the name; 0 if there is none. */
  function GetTopicId(table: map<int, string>, order: seq<int>, name: string): (id: int)
    ensures id != 0 ==> id in order && id in table && table[id] == name
    ensures id == 0 && 0 !in table ==> forall x :: x in order && x in table ==> table[x] != name
  {
    if order == [] then 0
    else if order[0] in table && table[order[0]] == name then order[0]
    else GetTopicId(table, order[1..], name)
  }

  /** removeTopicId by name: the first id bound to it that is not predefined goes. */
  function RemoveByName(table: map<int, string>, order: seq<int>, name: string, predefSize: nat): map<int, string>
  {
    if order == [] then table
    else if order[0] in table && table[order[0]] == name && order[0] > predefSize then table - {order[0]}
    else RemoveByName(table, order[1..], name, predefSize)
  }

  /** Removing by name unbinds at most one id, and that one was bound to the name. */
  lemma {:induction false} RemoveByNameSubset(table: map<int, string>, order: seq<int>, name: string, predefSize: nat)
    ensures var t := RemoveByName(table, order, name, predefSize);
            && (forall id :: id in t ==> id in table && t[id] == table[id])
            && (forall id :: id in table && (table[id] != name || id <= predefSize) ==> id in t)
  {
    if order != [] {
      RemoveByNameSubset(table, order[1..], name, predefSize);
    }
  }

  // ----- the same, by position in the enumeration

  predicate BoundTo(table: map<int, string>, id: int, name: string) { id in table && table[id] == name }

  /** id is the first of the order that is bound to the name. */
  predicate FirstBound(table: map<int, string>, order: seq<int>, name: string, id: int) {
    exists i :: 0 <= i < |order| && order[i] == id && BoundTo(table, id, name)
                && forall j :: 0 <= j < i ==> !BoundTo(table, order[j], name)
  }

  lemma FirstBoundRest(table: map<int, string>, order: seq<int>, name: string, id: int)
    requires order != [] && !BoundTo(table, order[0], name)
    ensures FirstBound(table, order, name, id) <==> FirstBound(table, order[1..], name, id)
  {
    var rest := order[1..];
    if FirstBound(table, order, name, id) {
      var i :| 0 <= i < |order| && order[i] == id && BoundTo(table, id, name)
        && forall j :: 0 <= j < i ==> !BoundTo(table, order[j], name);
      assert rest[i - 1] == id && forall j :: 0 <= j < i - 1 ==> rest[j] == order[j + 1];
    }
    if FirstBound(table, rest, name, id) {
      var i :| 0 <= i < |rest| && rest[i] == id && BoundTo(table, id, name)
        && forall j :: 0 <= j < i ==> !BoundTo(table, rest[j], name);
      assert order[i + 1] == id && forall j :: 0 < j < i + 1 ==> order[j] == rest[j - 1];
    }
  }

  /** An id other than 0 is returned exactly if it is the first one bound to the name. */
  lemma {:induction false} GetTopicIdExact(table: map<int, string>, order: seq<int>, name: string, id: int)
    requires id != 0
    ensures GetTopicId(table, order, name) == id <==> FirstBound(table, order, name, id)
  {
    if order != [] {
      if BoundTo(table, order[0], name) {
        assert FirstBound(table, order, name, order[0]);
      } else {
        FirstBoundRest(table, order, name, id);
        GetTopicIdExact(table, order[1..], name, id);
      }
    }
  }

  predicate DynamicBound(table: map<int, string>, id: int, name: string, predefSize: nat) {
    BoundTo(table, id, name) && id > predefSize
  }

  /** id is the first of the order that is bound to the name and not predefined. */
  predicate FirstDynamic(table: map<int, string>, order: seq<int>, name: string, predefSize: nat, id: int) {
    exists i :: 0 <= i < |order| && order[i] == id && DynamicBound(table, id, name, predefSize)
                && forall j :: 0 <= j < i ==> !DynamicBound(table, order[j], name, predefSize)
  }

  lemma FirstDynamicRest(table: map<int, string>, order: seq<int>, name: string, predefSize: nat, id: int)
    requires order != [] && !DynamicBound(table, order[0], name, predefSize)
    requires FirstDynamic(table, order[1..], name, predefSize, id)
    ensures FirstDynamic(table, order, name, predefSize, id)
  {
    var rest := order[1..];
    var i :| 0 <= i < |rest| && rest[i] == id && DynamicBound(table, id, name, predefSize)
      && forall j :: 0 <= j < i ==> !DynamicBound(table, rest[j], name, predefSize);
    assert order[i + 1] == id && forall j :: 0 < j < i + 1 ==> order[j] == rest[j - 1];
  }

  lemma {:induction false} RemoveFrom(table: map<int, string>, order: seq<int>, name: string, predefSize: nat)
    returns (gone: Option<int>)
    ensures var t := RemoveByName(table, order, name, predefSize);
            if gone.Some? then FirstDynamic(table, order, name, predefSize, gone.value) && t == table - {gone.value}
            else t == table && forall id :: id in order ==> !DynamicBound(table, id, name, predefSize)
  {
    if order == [] {
      gone := None;
    } else if DynamicBound(table, order[0], name, predefSize) {
      gone := Some(order[0]);
    } else {
      gone := RemoveFrom(table, order[1..], name, predefSize);
      if gone.Some? {
        FirstDynamicRest(table, order, name, predefSize, gone.value);
      } else {
        assert forall id :: id in order ==> id == order[0] || id in order[1..];
      }
    }
  }

  lemma OneFirstDynamic(table: map<int, string>, order: seq<int>, name: string, predefSize: nat, a: int, b: int)
    requires FirstDynamic(table, order, name, predefSize, a) && FirstDynamic(table, order, name, predefSize, b)
    ensures a == b
  {
  }

  /** Removal by name: if an id above the predefined range is bound to the name, exactly the first such id
      in the enumeration goes and every other binding stays; otherwise nothing changes. */
  lemma RemoveByNameExact(table: map<int, string>, order: seq<int>, name: string, predefSize: nat)
    requires Enumerates(order, table)
    ensures var t := RemoveByName(table, order, name, predefSize);
            if exists id :: DynamicBound(table, id, name, predefSize) then
              exists id :: FirstDynamic(table, order, name, predefSize, id) && t == table - {id} && |t| == |table| - 1
            else t == table
    ensures var t := RemoveByName(table, order, name, predefSize);
            forall id, x :: BoundTo(t, id, x) <==>
              BoundTo(table, id, x) && !FirstDynamic(table, order, name, predefSize, id)
  {
    var t := RemoveByName(table, order, name, predefSize);
    var gone := RemoveFrom(table, order, name, predefSize);
    if gone.Some? {
      assert |t| == |table| - 1 by {
        assert t.Keys == table.Keys - {gone.value};
      }
      forall id | FirstDynamic(table, order, name, predefSize, id) ensures id == gone.value {
        OneFirstDynamic(table, order, name, predefSize, id, gone.value);
      }
    }
  }
}
