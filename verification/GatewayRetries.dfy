/** Retries over whole runs: one request at the start, one for each timeout, and an end. */
module GatewayRetries {
  import opened GatewayMessages
  import opened GatewaySpec
  import opened GatewayInvariant
  import opened GatewayRun

  /** The message that asks the client for what the handler then waits for. */
  predicate IsRequest(kind: TimeoutType, m: ToClient) {
    match kind
    case WaitingWillTopic => m.CWillTopicReq?
    case WaitingWillMsg => m.CWillMsgReq?
    case WaitingRegack => m.CRegister?
    case OtherTimeout => false
  }

  predicate IsTimeout(kind: TimeoutType, e: Event) {
    match kind
    case WaitingWillTopic => e == Control(WillTopicTimeout)
    case WaitingWillMsg => e == Control(WillMsgTimeout)
    case WaitingRegack => e == Control(RegackTimeout)
    case OtherTimeout => false
  }

  function Requests(kind: TimeoutType, ms: seq<ToClient>): nat {
    if ms == [] then 0
    else Requests(kind, ms[..|ms| - 1]) + if IsRequest(kind, ms[|ms| - 1]) then 1 else 0
  }

  function Timeouts(kind: TimeoutType, es: seq<Event>): nat {
    if es == [] then 0
    else Timeouts(kind, es[..|es| - 1]) + if IsTimeout(kind, es[|es| - 1]) then 1 else 0
  }

  predicate Sends(kind: TimeoutType, r: Result) {
    |r.out.toClient| == 1 && IsRequest(kind, r.out.toClient[0])
  }

  /** A request goes out when the waiting starts and on each timeout that does not end it. */
  predicate RetryStep(kind: TimeoutType, h: Handler, e: Event, r: Result) {
    && |r.out.toClient| <= 1
    && (Sends(kind, r) ==> Waiting(r.h.gw, kind))
    && (Waiting(r.h.gw, kind) ==>
          if Waiting(h.gw, kind) then
            && (Sends(kind, r) <==> IsTimeout(kind, e))
            && Tries(r.h.gw, kind) == Tries(h.gw, kind) + (if Sends(kind, r) then 1 else 0)
          else Sends(kind, r) && !IsTimeout(kind, e) && Tries(r.h.gw, kind) == 1)
  }

  // ----- handler by handler

  lemma ConnectRetries(kind: TimeoutType, cfg: Config, h: Handler, m: ClientMsg, env: Env)
    requires HandlerInv(cfg, h) && (m.Connect? || m.WillTopic? || m.WillMsg?)
    ensures RetryStep(kind, h, FromClient(m), HandleClient(cfg, h, m, env))
  {
  }

  lemma ClientRetries(kind: TimeoutType, cfg: Config, h: Handler, m: ClientMsg, env: Env)
    requires HandlerInv(cfg, h) && !m.Publish? && !m.Subscribe? && !m.Unsubscribe?
    ensures RetryStep(kind, h, FromClient(m), HandleClient(cfg, h, m, env))
  {
    if m.Connect? || m.WillTopic? || m.WillMsg? {
      ConnectRetries(kind, cfg, h, m, env);
    }
  }

  lemma PublishRetries(kind: TimeoutType, cfg: Config, h: Handler, m: MqttsPublish, env: Env)
    requires HandlerInv(cfg, h)
    ensures RetryStep(kind, h, FromClient(Publish(m)), HandlePublish(cfg, h, m, env))
  {
  }

  lemma ForwardRetries(kind: TimeoutType, cfg: Config, h: Handler, m: ClientMsg, env: Env)
    requires HandlerInv(cfg, h) && (m.Publish? || m.Subscribe? || m.Unsubscribe?)
    ensures RetryStep(kind, h, FromClient(m), HandleClient(cfg, h, m, env))
  {
    if m.Publish? {
      PublishRetries(kind, cfg, h, m.publish, env);
    }
  }

  lemma BrokerSubackRetries(kind: TimeoutType, cfg: Config, h: Handler, msgId: int, grantedQoS: int, env: Env)
    requires HandlerInv(cfg, h)
    ensures RetryStep(kind, h, FromBroker(BrokerSuback(msgId, grantedQoS)),
                      HandleBrokerSuback(cfg, h, msgId, grantedQoS, env))
  {
  }

  lemma BrokerUnsubackRetries(kind: TimeoutType, cfg: Config, h: Handler, msgId: int, env: Env)
    requires HandlerInv(cfg, h)
    ensures RetryStep(kind, h, FromBroker(BrokerUnsuback(msgId)), HandleBrokerUnsuback(cfg, h, msgId, env))
  {
  }

  lemma BrokerPublishRetries(kind: TimeoutType, cfg: Config, h: Handler, m: MqttPublish, env: Env)
    requires HandlerInv(cfg, h)
    ensures RetryStep(kind, h, FromBroker(BrokerPublish(m)), HandleBrokerPublish(cfg, h, m, env))
  {
  }

  lemma BrokerRetries(kind: TimeoutType, cfg: Config, h: Handler, m: BrokerMsg, env: Env)
    requires HandlerInv(cfg, h)
    ensures RetryStep(kind, h, FromBroker(m), HandleBroker(cfg, h, m, env))
  {
    match m
    case BrokerSuback(msgId, grantedQoS) => BrokerSubackRetries(kind, cfg, h, msgId, grantedQoS, env);
    case BrokerUnsuback(msgId) => BrokerUnsubackRetries(kind, cfg, h, msgId, env);
    case BrokerPublish(p) => BrokerPublishRetries(kind, cfg, h, p, env);
    case _ =>
  }

  lemma ControlRetries(kind: TimeoutType, cfg: Config, h: Handler, m: ControlMsg, env: Env)
    requires HandlerInv(cfg, h)
    ensures RetryStep(kind, h, Control(m), HandleControl(cfg, h, m, env))
  {
  }

  lemma HandleRetries(kind: TimeoutType, cfg: Config, h: Handler, e: Event, env: Env)
    requires HandlerInv(cfg, h)
    ensures RetryStep(kind, h, e, Handle(cfg, h, e, env))
  {
    match e
    case FromClient(m) =>
      if m.Publish? || m.Subscribe? || m.Unsubscribe? {
        ForwardRetries(kind, cfg, h, m, env);
      } else {
        ClientRetries(kind, cfg, h, m, env);
      }
    case FromBroker(m) => BrokerRetries(kind, cfg, h, m, env);
    case Control(m) => ControlRetries(kind, cfg, h, m, env);
  }

  // ----- runs

  lemma Append(kind: TimeoutType, toClient: seq<ToClient>, received: seq<Event>, e: Event, r: Result)
    requires |r.out.toClient| <= 1
    ensures Requests(kind, toClient + r.out.toClient) == Requests(kind, toClient) + if Sends(kind, r) then 1 else 0
    ensures Timeouts(kind, received + [e]) == Timeouts(kind, received) + if IsTimeout(kind, e) then 1 else 0
  {
    var c := toClient + r.out.toClient;
    if r.out.toClient == [] {
      assert c == toClient;
    } else {
      assert c[..|c| - 1] == toClient;
    }
    assert (received + [e])[..|received|] == received;
  }

  /** From one state to the other, as many requests went out as timeouts came in, and the counter
      followed. */
  predicate InStep(kind: TimeoutType, w: World, w': World) {
    Requests(kind, w'.toClient) - Requests(kind, w.toClient)
    == Timeouts(kind, w'.received) - Timeouts(kind, w.received)
    == Tries(w'.h.gw, kind) - Tries(w.h.gw, kind)
  }

  predicate Started(kind: TimeoutType, w: World, w': World) {
    && Requests(kind, w'.toClient) == Requests(kind, w.toClient) + 1
    && Timeouts(kind, w'.received) == Timeouts(kind, w.received)
    && Tries(w'.h.gw, kind) == 1
  }

  lemma StepRetries(kind: TimeoutType, cfg: Config, w: World, s: Step, w': World)
    requires HandlerInv(cfg, w.h) && StepOk(cfg, w, s, w') && Waiting(w'.h.gw, kind)
    ensures if Waiting(w.h.gw, kind) then InStep(kind, w, w') else Started(kind, w, w')
  {
    if s.Own? {
      var r := Handle(cfg, w.h, s.event, s.env);
      HandleRetries(kind, cfg, w.h, s.event, s.env);
      Append(kind, w.toClient, w.received, s.event, r);
    }
  }

  lemma {:induction false} Chain(kind: TimeoutType, ws: seq<World>, i: nat, j: nat)
    requires i <= j < |ws|
    requires forall k :: i <= k < j ==> InStep(kind, ws[k], ws[k + 1])
    ensures InStep(kind, ws[i], ws[j])
    decreases j
  {
    if i < j {
      Chain(kind, ws, i, j - 1);
      assert InStep(kind, ws[j - 1], ws[j - 1 + 1]);
    }
  }

  lemma WaitingStep(kind: TimeoutType, cfg: Config, ws: seq<World>, steps: seq<Step>, k: nat)
    requires Run(cfg, ws, steps) && k < |steps|
    requires Waiting(ws[k].h.gw, kind) && Waiting(ws[k + 1].h.gw, kind)
    ensures InStep(kind, ws[k], ws[k + 1])
  {
    RunInv(cfg, ws, steps, k);
    StepRetries(kind, cfg, ws[k], steps[k], ws[k + 1]);
  }

  /** While the handler waits, it sends one request for each timeout and counts it. */
  lemma OneRequestPerTimeout(kind: TimeoutType, cfg: Config, ws: seq<World>, steps: seq<Step>, i: nat, j: nat)
    requires Run(cfg, ws, steps) && i <= j < |ws|
    requires forall k :: i <= k <= j ==> Waiting(ws[k].h.gw, kind)
    ensures InStep(kind, ws[i], ws[j])
  {
    forall k | i <= k < j ensures InStep(kind, ws[k], ws[k + 1]) {
      WaitingStep(kind, cfg, ws, steps, k);
    }
    Chain(kind, ws, i, j);
  }

  /** Main result: a procedure that started after state i and still goes on at state j has sent at
      most maxRetries + 1 requests, exactly one more than the timeouts it has seen. */
  lemma RetryBudget(kind: TimeoutType, cfg: Config, ws: seq<World>, steps: seq<Step>, i: nat, j: nat)
    requires Run(cfg, ws, steps) && i < j < |ws|
    requires !Waiting(ws[i].h.gw, kind) && forall k :: i < k <= j ==> Waiting(ws[k].h.gw, kind)
    ensures var sent := Requests(kind, ws[j].toClient) - Requests(kind, ws[i].toClient);
            && sent == Tries(ws[j].h.gw, kind)
            && 1 <= sent <= cfg.maxRetries + 1
            && Timeouts(kind, ws[j].received) - Timeouts(kind, ws[i].received) == sent - 1
  {
    RunInv(cfg, ws, steps, i);
    RunInv(cfg, ws, steps, j);
    StepRetries(kind, cfg, ws[i], steps[i], ws[i + 1]);
    OneRequestPerTimeout(kind, cfg, ws, steps, i + 1, j);
  }

  /** Unanswered, every procedure ends: no stretch of a run with more than maxRetries timeouts is
      spent waiting throughout. */
  lemma UnansweredEnds(kind: TimeoutType, cfg: Config, ws: seq<World>, steps: seq<Step>, i: nat, j: nat)
    requires Run(cfg, ws, steps) && i <= j < |ws|
    requires Timeouts(kind, ws[j].received) - Timeouts(kind, ws[i].received) > cfg.maxRetries
    ensures exists k :: i <= k <= j && !Waiting(ws[k].h.gw, kind)
  {
    if forall k :: i <= k <= j ==> Waiting(ws[k].h.gw, kind) {
      OneRequestPerTimeout(kind, cfg, ws, steps, i, j);
      RunInv(cfg, ws, steps, i);
      RunInv(cfg, ws, steps, j);
      assert false;
    }
  }
}
