/** Runs of one handler: what it was given and what it sent, from its creation on. */
module GatewayRun {
  import opened GatewayMessages
  import opened GatewaySpec
  import opened GatewayInvariant

  /** The handler with its history: the events it took, the messages it sent, and named, every
      pair of a topic id and a name that its table ever held or a REGISTER ever announced. */
  datatype World = World(h: Handler, received: seq<Event>, toClient: seq<ToClient>, toBroker: seq<ToBroker>,
                         named: set<(int, string)>)

  /** Own is one event for this handler; Others is whatever other handlers do to the timer list. */
  datatype Step = Own(event: Event, env: Env) | Others(tasks: seq<Task>)

  function Announced(ms: seq<ToClient>): set<(int, string)> {
    set i | 0 <= i < |ms| && ms[i].CRegister? :: (ms[i].register.topicId, ms[i].register.topicName)
  }

  function Start(cfg: Config, tasks: seq<Task>): World {
    World(Fresh(cfg, tasks), [], [], [], cfg.predefTable.Items)
  }

  ghost predicate OwnTasksSame(cfg: Config, tasks: seq<Task>, tasks': seq<Task>) {
    forall kind :: GatewayMessages.Count(tasks', Task(cfg.address, kind))
                   == GatewayMessages.Count(tasks, Task(cfg.address, kind))
  }

  ghost predicate Enabled(cfg: Config, w: World, s: Step) {
    match s
    case Own(e, env) => !w.h.removed && Enumerates(env.order, w.h.table)
    case Others(tasks) => OwnTasksSame(cfg, w.h.tasks, tasks)
  }

  function Record(w: World, e: Event, r: Result): World {
    World(r.h, w.received + [e], w.toClient + r.out.toClient, w.toBroker + r.out.toBroker,
          w.named + r.h.table.Items + Announced(r.out.toClient))
  }

  function Next(cfg: Config, w: World, s: Step): World
    requires w.h.gw.waitingRegack ==> w.h.gw.register.Some?
  {
    match s
    case Own(e, env) => Record(w, e, Handle(cfg, w.h, e, env))
    case Others(tasks) => w.(h := w.h.(tasks := tasks))
  }

  /** ws and steps are a run of a handler created with no timer of its own. */
  ghost predicate Run(cfg: Config, ws: seq<World>, steps: seq<Step>) {
    && ConfigOk(cfg)
    && |ws| == |steps| + 1
    && (exists tasks :: ws[0] == Start(cfg, tasks)
          && forall kind :: GatewayMessages.Count(tasks, Task(cfg.address, kind)) == 0)
    && (forall k :: 0 <= k < |steps| ==> StepOk(cfg, ws[k], steps[k], ws[k + 1]))
  }

  ghost predicate StepOk(cfg: Config, w: World, s: Step, w': World) {
    && Enabled(cfg, w, s)
    && (w.h.gw.waitingRegack ==> w.h.gw.register.Some?)
    && w' == Next(cfg, w, s)
  }

  lemma StepKeepsInv(cfg: Config, w: World, s: Step, w': World)
    requires HandlerInv(cfg, w.h) && StepOk(cfg, w, s, w')
    ensures HandlerInv(cfg, w'.h)
  {
    if s.Own? {
      HandleKeeps(cfg, w.h, s.event, s.env);
    }
  }

  /** Main result: in every state of every run the handler's waiting states exclude each other,
      every waiting flag has its stored messages, its one timer and its counter, so none of the
      handler's debugging checks can ever fail. */
  lemma {:induction false} RunInv(cfg: Config, ws: seq<World>, steps: seq<Step>, k: nat)
    requires Run(cfg, ws, steps) && k < |ws|
    ensures HandlerInv(cfg, ws[k].h)
  {
    if k > 0 {
      RunInv(cfg, ws, steps, k - 1);
      StepKeepsInv(cfg, ws[k - 1], steps[k - 1], ws[k]);
    }
  }

  /** The guard on a stored REGISTER excludes nothing: whatever is enabled after a run can happen. */
  lemma RunExtends(cfg: Config, ws: seq<World>, steps: seq<Step>, s: Step) returns (w': World)
    requires Run(cfg, ws, steps) && Enabled(cfg, ws[|steps|], s)
    ensures Run(cfg, ws + [w'], steps + [s])
  {
    RunInv(cfg, ws, steps, |steps|);
    w' := Next(cfg, ws[|steps|], s);
    var ws', steps' := ws + [w'], steps + [s];
    assert ws'[0] == ws[0];
    forall k | 0 <= k < |steps'| ensures StepOk(cfg, ws'[k], steps'[k], ws'[k + 1]) {
      if k < |steps| {
        assert StepOk(cfg, ws[k], steps[k], ws[k + 1]);
      }
    }
  }
}
