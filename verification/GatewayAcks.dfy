/** Acknowledgements over whole runs: each answers a message forwarded with the same message id. */
module GatewayAcks {
  import opened GatewayMessages
  import opened GatewaySpec
  import opened GatewayRun
  import opened GatewayWildcards
  import opened GatewayRouting
  import opened GatewayAnswers

  datatype AckKind = OfPublish | OfSubscribe | OfUnsubscribe

  /** The message accepts what the client sent with this message id. */
  predicate Accepts(kind: AckKind, m: ToClient, id: int) {
    match kind
    case OfPublish => m.CPuback? && m.msgId == id && m.returnCode == RETURN_CODE_ACCEPTED
    case OfSubscribe => m.CSuback? && m.msgId == id && m.returnCode == RETURN_CODE_ACCEPTED
    case OfUnsubscribe => m.CUnsuback? && m.msgId == id
  }

  /** The message asks the broker for an acknowledgement with this message id. */
  predicate Asks(kind: AckKind, m: ToBroker, id: int) {
    match kind
    case OfPublish => m.BPublish? && m.publish.qos == 1 && m.publish.msgId == id
    case OfSubscribe => m.BSubscribe? && m.msgId == id
    case OfUnsubscribe => m.BUnsubscribe? && m.msgId == id
  }

  function Accepted(kind: AckKind, ms: seq<ToClient>, id: int): nat {
    if ms == [] then 0
    else Accepted(kind, ms[..|ms| - 1], id) + if Accepts(kind, ms[|ms| - 1], id) then 1 else 0
  }

  function Asked(kind: AckKind, ms: seq<ToBroker>, id: int): nat {
    if ms == [] then 0
    else Asked(kind, ms[..|ms| - 1], id) + if Asks(kind, ms[|ms| - 1], id) then 1 else 0
  }

  predicate WaitsFor(kind: AckKind, h: Handler) {
    match kind
    case OfPublish => h.gw.waitingPuback
    case OfSubscribe => h.gw.waitingSuback
    case OfUnsubscribe => h.gw.waitingUnsuback
  }

  predicate WaitsForId(kind: AckKind, h: Handler, id: int) {
    match kind
    case OfPublish => h.gw.waitingPuback && h.gw.mqttsPublish.Some? && h.gw.mqttsPublish.value.msgId == id
    case OfSubscribe => h.gw.waitingSuback && h.gw.subscribe.Some? && h.gw.subscribe.value.msgId == id
    case OfUnsubscribe => h.gw.waitingUnsuback && h.gw.unsubscribe.Some? && h.gw.unsubscribe.value.msgId == id
  }

  function Outstanding(kind: AckKind, h: Handler, id: int): nat {
    if WaitsForId(kind, h, id) then 1 else 0
  }

  /** The client is told to disconnect, and what was outstanding is dropped. */
  predicate Drops(r: Result) { r.out.toClient == [CDisconnect] }

  /** One step sends at most one message each way. It asks only when nothing of that kind is
      outstanding, and then waits; it accepts only what is outstanding, and then waits no more; and it
      gives up waiting only by accepting or by disconnecting the client. */
  predicate AckStep(kind: AckKind, h: Handler, r: Result, id: int) {
    && |r.out.toClient| <= 1 && |r.out.toBroker| <= 1
    && (|r.out.toBroker| == 1 && Asks(kind, r.out.toBroker[0], id) ==> !WaitsFor(kind, h) && WaitsForId(kind, r.h, id))
    && (|r.out.toClient| == 1 && Accepts(kind, r.out.toClient[0], id) ==> WaitsForId(kind, h, id) && !WaitsFor(kind, r.h))
    && (WaitsForId(kind, r.h, id) ==>
          || (WaitsForId(kind, h, id) && (|r.out.toClient| == 0 || !Accepts(kind, r.out.toClient[0], id)))
          || (|r.out.toBroker| == 1 && Asks(kind, r.out.toBroker[0], id)))
    && (WaitsForId(kind, h, id) ==>
          || (Drops(r) && !WaitsFor(kind, r.h))
          || (!Drops(r) && (WaitsForId(kind, r.h, id) || (|r.out.toClient| == 1 && Accepts(kind, r.out.toClient[0], id)))))
  }

  /** What one event sends, and nothing else. */
  ghost predicate Sends(cfg: Config, h: Handler, e: Event, env: Env, out: Out) {
    && |out.toClient| <= 1 && |out.toBroker| <= 1
    && (out.toClient != [] ==> SentToClient(cfg, h, e, env, out.toClient[0]))
    && (forall c :: SentToClient(cfg, h, e, env, c) ==> out.toClient == [c])
    && (out.toBroker != [] ==> SentToBroker(cfg, h, e, env, out.toBroker[0]))
    && (forall b :: SentToBroker(cfg, h, e, env, b) ==> out.toBroker == [b])
  }

  lemma HandleSends(cfg: Config, h: Handler, e: Event, env: Env, out: Out)
    requires Ready(h, env) && out == Handle(cfg, h, e, env).out
    ensures Sends(cfg, h, e, env, out)
  {
    HandleTells(cfg, h, e, env, if out.toClient != [] then out.toClient[0] else CConnack);
    HandlePasses(cfg, h, e, env, if out.toBroker != [] then out.toBroker[0] else BDisconnect);
    forall c | SentToClient(cfg, h, e, env, c) ensures out.toClient == [c] {
      HandleTells(cfg, h, e, env, c);
      Single(out.toClient, c);
    }
    forall b | SentToBroker(cfg, h, e, env, b) ensures out.toBroker == [b] {
      HandlePasses(cfg, h, e, env, b);
      Single(out.toBroker, b);
    }
  }

  lemma Single<T>(s: seq<T>, x: T)
    requires |s| <= 1
    ensures s == [x] <==> x in s
  {
  }

  lemma PublishAcks(cfg: Config, h: Handler, e: Event, env: Env, id: int, r: Result)
    requires Ready(h, env) && Sends(cfg, h, e, env, r.out) && ChangesExactly(cfg, h, e, env, r.h)
    ensures AckStep(OfPublish, h, r, id)
  {
    assert Disconnects(cfg, h, e, env) <==> SentToClient(cfg, h, e, env, CDisconnect);
    if AnswersPuback(h, e) {
      assert SentToClient(cfg, h, e, env, CPuback(h.gw.mqttsPublish.value.topic, e.reply.msgId, 0));
    }
    if env.sendOk && e.FromClient? && e.msg.Publish? && ToPassOn(cfg, h, e.msg) {
      var p := e.msg.publish;
      var name :| Names(cfg, h.table.Items, p.topic, name);
      assert SentToBroker(cfg, h, e, env, BPublish(MqttPublish(p.dup, p.qos, p.retain, name, p.msgId, p.data)));
    }
  }

  lemma SubscribeAcks(cfg: Config, h: Handler, e: Event, env: Env, id: int, r: Result)
    requires Ready(h, env) && Sends(cfg, h, e, env, r.out) && ChangesExactly(cfg, h, e, env, r.h)
    ensures AckStep(OfSubscribe, h, r, id)
  {
    assert Disconnects(cfg, h, e, env) <==> SentToClient(cfg, h, e, env, CDisconnect);
    if AnswersSuback(h, e) {
      SubackSent(cfg, h, e, env);
    }
    if env.sendOk && e.FromClient? && e.msg.Subscribe? && ToPassOn(cfg, h, e.msg) {
      var s := e.msg.subscribe;
      var name :| Filters(cfg, h.table.Items, s.topic, name);
      assert SentToBroker(cfg, h, e, env, BSubscribe(s.dup, s.qos, name, s.msgId));
    }
  }

  lemma SubackSent(cfg: Config, h: Handler, e: Event, env: Env)
    requires Ready(h, env) && AnswersSuback(h, e)
    ensures exists topic :: SentToClient(cfg, h, e, env, CSuback(topic, e.reply.msgId, e.reply.grantedQoS, 0))
  {
    var t := h.gw.subscribe.value.topic;
    var topic := t;
    if t.TopicName? {
      if Wild(t.name) {
        topic := NormalTopicId(0);
      } else if Unknown(h, env, t.name) {
        topic := NormalTopicId(h.topicId);
      } else {
        var id :| Known(h, env, t.name, id);
        topic := NormalTopicId(id);
      }
    }
    assert SentToClient(cfg, h, e, env, CSuback(topic, e.reply.msgId, e.reply.grantedQoS, 0));
  }

  lemma UnsubscribeAcks(cfg: Config, h: Handler, e: Event, env: Env, id: int, r: Result)
    requires Ready(h, env) && Sends(cfg, h, e, env, r.out) && ChangesExactly(cfg, h, e, env, r.h)
    ensures AckStep(OfUnsubscribe, h, r, id)
  {
    assert Disconnects(cfg, h, e, env) <==> SentToClient(cfg, h, e, env, CDisconnect);
    if AnswersUnsuback(h, e) {
      assert SentToClient(cfg, h, e, env, CUnsuback(e.reply.msgId));
    }
    if env.sendOk && e.FromClient? && e.msg.Unsubscribe? && ToPassOn(cfg, h, e.msg) {
      var u := e.msg.unsubscribe;
      var name :| Filters(cfg, h.table.Items, u.topic, name);
      assert SentToBroker(cfg, h, e, env, BUnsubscribe(u.dup, name, u.msgId));
    }
  }

  /** Whatever happens: an acknowledgement is passed on exactly for the message outstanding, and a
      message that needs one is forwarded only when none of its kind is outstanding. */
  lemma HandleAcks(kind: AckKind, cfg: Config, h: Handler, e: Event, env: Env, id: int)
    requires Ready(h, env)
    ensures AckStep(kind, h, Handle(cfg, h, e, env), id)
  {
    var r := Handle(cfg, h, e, env);
    HandleSends(cfg, h, e, env, r.out);
    HandleChanges(cfg, h, e, env);
    match kind
    case OfPublish => PublishAcks(cfg, h, e, env, id, r);
    case OfSubscribe => SubscribeAcks(cfg, h, e, env, id, r);
    case OfUnsubscribe => UnsubscribeAcks(cfg, h, e, env, id, r);
  }

  // ----- runs

  lemma Append(kind: AckKind, toClient: seq<ToClient>, toBroker: seq<ToBroker>, out: Out, id: int)
    requires |out.toClient| <= 1 && |out.toBroker| <= 1
    ensures Accepted(kind, toClient + out.toClient, id) == Accepted(kind, toClient, id)
      + if |out.toClient| == 1 && Accepts(kind, out.toClient[0], id) then 1 else 0
    ensures Asked(kind, toBroker + out.toBroker, id) == Asked(kind, toBroker, id)
      + if |out.toBroker| == 1 && Asks(kind, out.toBroker[0], id) then 1 else 0
  {
    var c, b := toClient + out.toClient, toBroker + out.toBroker;
    if out.toClient == [] {
      assert c == toClient;
    } else {
      assert c[..|c| - 1] == toClient;
    }
    if out.toBroker == [] {
      assert b == toBroker;
    } else {
      assert b[..|b| - 1] == toBroker;
    }
  }

  /** The messages with this id whose acknowledgement was outstanding when the client was disconnected,
      in the first k steps of a run. */
  function Abandoned(kind: AckKind, ws: seq<World>, k: nat, id: int): nat
    requires k < |ws|
  {
    if k == 0 then 0
    else Abandoned(kind, ws, k - 1, id) + if DropsAt(kind, ws[k - 1], ws[k], id) then 1 else 0
  }

  predicate DropsAt(kind: AckKind, w: World, w': World, id: int) {
    WaitsForId(kind, w.h, id) && w'.toClient == w.toClient + [CDisconnect]
  }

  /** What was forwarded is what was acknowledged, what is outstanding and what was abandoned. */
  predicate Balanced(kind: AckKind, w: World, abandoned: nat, id: int) {
    Accepted(kind, w.toClient, id) + Outstanding(kind, w.h, id) + abandoned == Asked(kind, w.toBroker, id)
  }

  lemma StepAcks(kind: AckKind, cfg: Config, w: World, s: Step, w': World, abandoned: nat, id: int)
    requires (s.Own? ==> Ready(w.h, s.env)) && StepOk(cfg, w, s, w') && Balanced(kind, w, abandoned, id)
    ensures Balanced(kind, w', abandoned + (if DropsAt(kind, w, w', id) then 1 else 0), id)
  {
    if s.Own? {
      var r := Handle(cfg, w.h, s.event, s.env);
      HandleAcks(kind, cfg, w.h, s.event, s.env, id);
      Append(kind, w.toClient, w.toBroker, r.out, id);
      assert w'.toClient == w.toClient + [CDisconnect] <==> Drops(r) by {
        assert (w.toClient + r.out.toClient)[|w.toClient|..] == r.out.toClient;
      }
    }
  }

  lemma StartAcks(kind: AckKind, cfg: Config, tasks: seq<Task>, id: int)
    ensures Balanced(kind, Start(cfg, tasks), 0, id)
  {
  }

  lemma {:induction false} RunAcks(kind: AckKind, cfg: Config, ws: seq<World>, steps: seq<Step>, k: nat, id: int)
    requires Run(cfg, ws, steps) && k < |ws|
    ensures Balanced(kind, ws[k], Abandoned(kind, ws, k, id), id)
  {
    if k == 0 {
      var tasks :| ws[0] == Start(cfg, tasks);
      StartAcks(kind, cfg, tasks, id);
    } else {
      RunAcks(kind, cfg, ws, steps, k - 1, id);
      AtStep(cfg, ws, steps, k - 1);
      StepAcks(kind, cfg, ws[k - 1], steps[k - 1], ws[k], Abandoned(kind, ws, k - 1, id), id);
    }
  }

  /** Main result: at any time of a run, for each message id, the messages forwarded with that id are
      those acknowledged to the client, the one still outstanding and those abandoned by a disconnect. */
  lemma AcksAnswerForwards(kind: AckKind, cfg: Config, ws: seq<World>, steps: seq<Step>, k: nat, id: int)
    requires Run(cfg, ws, steps) && k < |ws|
    ensures Accepted(kind, ws[k].toClient, id) + Outstanding(kind, ws[k].h, id) + Abandoned(kind, ws, k, id)
            == Asked(kind, ws[k].toBroker, id)
  {
    RunAcks(kind, cfg, ws, steps, k, id);
  }

  lemma StepAsks(kind: AckKind, cfg: Config, w: World, s: Step, w': World, id: int)
    requires (s.Own? ==> Ready(w.h, s.env)) && StepOk(cfg, w, s, w') && WaitsFor(kind, w.h)
    ensures Asked(kind, w'.toBroker, id) == Asked(kind, w.toBroker, id)
  {
    if s.Own? {
      var r := Handle(cfg, w.h, s.event, s.env);
      HandleAcks(kind, cfg, w.h, s.event, s.env, id);
      Append(kind, w.toClient, w.toBroker, r.out, id);
    }
  }

  /** Only one message of a kind is outstanding at a time: while the handler waits for an
      acknowledgement it forwards nothing else that needs one of that kind. */
  lemma {:induction false} OneOutstanding(kind: AckKind, cfg: Config, ws: seq<World>, steps: seq<Step>,
                                          i: nat, j: nat, id: int)
    requires Run(cfg, ws, steps) && i <= j < |ws|
    requires forall k :: i <= k < j ==> WaitsFor(kind, ws[k].h)
    ensures Asked(kind, ws[j].toBroker, id) == Asked(kind, ws[i].toBroker, id)
    decreases j
  {
    if i < j {
      OneOutstanding(kind, cfg, ws, steps, i, j - 1, id);
      AtStep(cfg, ws, steps, j - 1);
      StepAsks(kind, cfg, ws[j - 1], steps[j - 1], ws[j], id);
    }
  }
}
