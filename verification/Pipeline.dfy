/** The actor system as a step machine: any number of workers, any interleaving.
    A run is a fold over an arbitrary list of actions; an action that is not enabled changes nothing. */
module Pipeline {
  import opened Messages
  import opened Mailboxes

  /** `order` is the iteration order of the actor table; `uuidOk` is the UUID parser's verdict. */
  datatype Config = Config(capacity: nat, workers: nat, order: seq<ActorType>, uuidOk: string -> bool)

  /** An envelope with its identity and the number of the dispatched event that caused it. */
  datatype Item = Item(id: nat, tag: nat, env: Envelope)

  datatype Hand = Idle | Busy(actor: ActorType, item: Item, todo: seq<Envelope>)

  /** A worker thread: its place in the sweep (`|order|` is the loop head), the `processed` flag, the
      handler it is running, whether it has left its loop, and how many sweeps it has completed. */
  datatype Worker = Worker(pos: nat, processed: bool, hand: Hand, done: bool, sweeps: nat)

  datatype Dispatched = Dispatched(env: Envelope, accepted: bool)

  datatype State = State(
    running: bool,
    crashed: bool,
    boxes: map<ActorType, Box<Item>>,
    workers: seq<Worker>,
    dispatched: seq<Dispatched>,
    created: seq<Item>,
    handled: seq<Item>,
    leaked: seq<Item>,
    freed: seq<Item>,
    drained: seq<Item>)

  datatype Action =
    | Receive(sessionId: string, frame: Inbound)
    | Work(worker: nat)
    | StoreFails(worker: nat)
    | Stop
    | Destroy(actor: ActorType)

  /** The four actors registered, every worker at its loop head. */
  function Init(cfg: Config): State {
    State(true, false, map a | a in ALL_ACTORS :: Box([], true),
          seq(cfg.workers, _ => Worker(|cfg.order|, false, Idle, false, 0)), [], [], [], [], [], [])
  }

  function Queue(s: State, a: ActorType): seq<Item> {
    if a in s.boxes then s.boxes[a].queue else []
  }

  function VerdictOn(cfg: Config, s: State, a: ActorType): Verdict {
    if a !in s.boxes then Freed else Offer(cfg.capacity, s.boxes[a])
  }

  /** `ActorSystem::send`: one new envelope, offered to the mailbox of its destination. */
  function Push(cfg: Config, s: State, tag: nat, env: Envelope): State {
    var item := Item(|s.created|, tag, env);
    var s1 := s.(created := s.created + [item]);
    match VerdictOn(cfg, s, env.destination)
    case Accepted =>
      var box := s.boxes[env.destination];
      s1.(boxes := s.boxes[env.destination := box.(queue := box.queue + [item])])
    case Leaked => s1.(leaked := s.leaked + [item])
    case Freed => s1.(freed := s.freed + [item])
  }

  function Dispatch(cfg: Config, s: State, env: Envelope): State {
    var entry := Dispatched(env, VerdictOn(cfg, s, env.destination) == Accepted);
    Push(cfg, s.(dispatched := s.dispatched + [entry]), |s.dispatched|, env)
  }

  // ---------------------------------------------------------------- one step of a worker

  /** The worker moves on to the next actor of its sweep. */
  function Advance(cfg: Config, wk: Worker): Worker {
    wk.(pos := wk.pos + 1, hand := Idle, sweeps := wk.sweeps + (if wk.pos + 1 == |cfg.order| then 1 else 0))
  }

  /** The loop head: test `running_`, then start a sweep. */
  function AtHead(s: State, w: nat): State
    requires w < |s.workers|
  {
    var wk := s.workers[w];
    var next := if s.running then wk.(pos := 0, processed := false) else wk.(done := true);
    s.(workers := s.workers[w := next])
  }

  function Skip(cfg: Config, s: State, w: nat): State
    requires w < |s.workers|
  {
    s.(workers := s.workers[w := Advance(cfg, s.workers[w])])
  }

  function Pop(s: State, w: nat, a: ActorType): State
    requires w < |s.workers| && Queue(s, a) != []
  {
    var item := s.boxes[a].queue[0];
    s.(boxes := s.boxes[a := s.boxes[a].(queue := s.boxes[a].queue[1..])],
       workers := s.workers[w := s.workers[w].(hand := Busy(a, item, Sends(a, item.env.payload)))])
  }

  function SendNext(cfg: Config, s: State, w: nat): State
    requires w < |s.workers| && s.workers[w].hand.Busy? && s.workers[w].hand.todo != []
  {
    var hand := s.workers[w].hand;
    var s1 := Push(cfg, s, hand.item.tag, hand.todo[0]);
    s1.(workers := s.workers[w := s.workers[w].(hand := hand.(todo := hand.todo[1..]))])
  }

  /** Nothing catches an exception on a worker or network thread: the process ends. */
  function Crash(s: State): State {
    s.(crashed := true)
  }

  /** The worker is in the storage actor's handler, where the insert can fail; `create` then throws. */
  predicate Storing(wk: Worker) {
    wk.hand.Busy? && wk.hand.actor == Storage && wk.hand.item.env.payload.Persist? && wk.hand.todo == []
  }

  /** The storage actor's UUID parsing throws. */
  predicate Throws(cfg: Config, a: ActorType, p: Payload) {
    a == Storage && p.Persist? && !(cfg.uuidOk(p.chatId) && cfg.uuidOk(p.senderId))
  }

  function Finish(cfg: Config, s: State, w: nat): State
    requires w < |s.workers| && s.workers[w].hand.Busy?
  {
    var hand := s.workers[w].hand;
    if Throws(cfg, hand.actor, hand.item.env.payload) then Crash(s)
    else
      s.(handled := s.handled + [hand.item],
         workers := s.workers[w := Advance(cfg, s.workers[w].(processed := true))])
  }

  function WorkStep(cfg: Config, s: State, w: nat): State
    requires w < |s.workers|
  {
    var wk := s.workers[w];
    if wk.done then s
    else if wk.hand.Busy? then
      if wk.hand.todo != [] then SendNext(cfg, s, w) else Finish(cfg, s, w)
    else if wk.pos >= |cfg.order| then AtHead(s, w)
    else if Queue(s, cfg.order[wk.pos]) != [] then Pop(s, w, cfg.order[wk.pos])
    else Skip(cfg, s, w)
  }

  /** The mailbox destructor; it runs only once every worker has been joined. */
  function Teardown(s: State, a: ActorType): State {
    if s.running || a !in s.boxes || exists w | 0 <= w < |s.workers| :: !s.workers[w].done then s
    else s.(boxes := s.boxes[a := Box([], false)], drained := s.drained + s.boxes[a].queue)
  }

  function Step(cfg: Config, s: State, act: Action): State {
    if s.crashed then s
    else match act
      case Receive(sessionId, frame) =>
        (match Route(sessionId, frame)
         case Nothing => s
         case Event(env) => Dispatch(cfg, s, env)
         case Malformed => Crash(s))
      case Work(w) => if w < |s.workers| then WorkStep(cfg, s, w) else s
      case StoreFails(w) => if w < |s.workers| && Storing(s.workers[w]) then Crash(s) else s
      case Stop => s.(running := false)
      case Destroy(a) => Teardown(s, a)
  }

  function RunFrom(cfg: Config, s: State, acts: seq<Action>): State {
    if acts == [] then s
    else Step(cfg, RunFrom(cfg, s, acts[..|acts| - 1]), acts[|acts| - 1])
  }

  function Run(cfg: Config, acts: seq<Action>): State {
    RunFrom(cfg, Init(cfg), acts)
  }

  lemma {:induction false} RunConcat(cfg: Config, s: State, xs: seq<Action>, ys: seq<Action>)
    ensures RunFrom(cfg, s, xs + ys) == RunFrom(cfg, RunFrom(cfg, s, xs), ys)
  {
    if ys == [] {
      assert xs + ys == xs;
    } else {
      var n := |ys| - 1;
      assert (xs + ys)[..|xs + ys| - 1] == xs + ys[..n];
      RunConcat(cfg, s, xs, ys[..n]);
    }
  }

  lemma WorkDispatchesNothing(cfg: Config, s: State, w: nat)
    requires w < |s.workers|
    ensures WorkStep(cfg, s, w).dispatched == s.dispatched
  {
  }

  // ---------------------------------------------------------------- observations

  predicate Quiescent(s: State) {
    && (forall a | a in s.boxes :: s.boxes[a].queue == [])
    && (forall w | 0 <= w < |s.workers| :: s.workers[w].hand.Idle?)
  }

  /** No push of the run was refused and no queue was torn down. */
  predicate NothingLost(s: State) {
    s.leaked == [] && s.freed == [] && s.drained == []
  }
}
