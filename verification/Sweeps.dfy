/** Progress: every envelope is popped within a bounded number of sweeps of any one worker. */
module Sweeps {
  import opened Messages
  import opened Mailboxes
  import opened Pipeline

  /** The actor table holds each of the four actors once. */
  predicate ValidOrder(order: seq<ActorType>) {
    && |order| == 4
    && (forall i, j | 0 <= i < j < 4 :: order[i] != order[j])
    && (forall a | a in ALL_ACTORS :: a in order)
  }

  predicate WorkerOk(cfg: Config, s: State, wk: Worker) {
    && wk.pos <= |cfg.order|
    && (wk.hand.Busy? ==> wk.pos < |cfg.order| && wk.hand.actor == cfg.order[wk.pos])
    && (wk.done ==> !s.running && wk.hand.Idle?)
  }

  predicate WorkersOk(cfg: Config, s: State) {
    && s.boxes.Keys == ALL_ACTORS
    && forall w | 0 <= w < |s.workers| :: WorkerOk(cfg, s, s.workers[w])
  }

  lemma WorkKeepsWorkers(cfg: Config, s: State, w: nat)
    requires WorkersOk(cfg, s) && w < |s.workers|
    ensures var t := WorkStep(cfg, s, w);
      && t.boxes.Keys == s.boxes.Keys && t.running == s.running && |t.workers| == |s.workers|
      && WorkerOk(cfg, t, t.workers[w]) && forall v | 0 <= v < |s.workers| && v != w :: t.workers[v] == s.workers[v]
  {
    assert WorkerOk(cfg, s, s.workers[w]);
  }

  lemma StepWorkersOk(cfg: Config, s: State, act: Action)
    requires WorkersOk(cfg, s)
    ensures WorkersOk(cfg, Step(cfg, s, act)) && |Step(cfg, s, act).workers| == |s.workers|
    ensures act.Work? ==> Step(cfg, s, act).running == s.running
  {
    var t := Step(cfg, s, act);
    if act.Work? && act.worker < |s.workers| {
      WorkKeepsWorkers(cfg, s, act.worker);
    }
    hide WorkStep;
    forall w | 0 <= w < |t.workers| ensures WorkerOk(cfg, t, t.workers[w]) {
      assert WorkerOk(cfg, s, s.workers[w]);
    }
  }

  lemma {:induction false} RunWorkersOk(cfg: Config, acts: seq<Action>)
    ensures WorkersOk(cfg, Run(cfg, acts)) && |Run(cfg, acts).workers| == cfg.workers
  {
    if acts != [] {
      RunWorkersOk(cfg, acts[..|acts| - 1]);
      StepWorkersOk(cfg, Run(cfg, acts[..|acts| - 1]), acts[|acts| - 1]);
    }
  }

  lemma RunFront(cfg: Config, s: State, acts: seq<Action>)
    requires acts != []
    ensures RunFrom(cfg, s, acts) == RunFrom(cfg, Step(cfg, s, acts[0]), acts[1..])
  {
    assert acts == [acts[0]] + acts[1..];
    RunConcat(cfg, s, [acts[0]], acts[1..]);
    assert [acts[0]][..0] == [];
  }

  // ---------------------------------------------------------------- no starvation

  /** How often the worker has dealt with position `i` of the actor table. */
  function Passes(cfg: Config, wk: Worker, i: nat): nat {
    wk.sweeps + if i < wk.pos < |cfg.order| || (wk.pos == i && wk.hand.Busy?) then 1 else 0
  }

  /** Some worker took `x` out of its mailbox in this step. */
  predicate Taken(s: State, x: Item) {
    exists v | 0 <= v < |s.workers| :: s.workers[v].hand.Busy? && s.workers[v].hand.item == x
  }

  predicate AllDone(s: State) {
    !s.running && forall w | 0 <= w < |s.workers| :: s.workers[w].done
  }

  lemma PushQueue(cfg: Config, s: State, tag: nat, env: Envelope, a: ActorType)
    ensures Queue(s, a) <= Queue(Push(cfg, s, tag, env), a) && Push(cfg, s, tag, env).workers == s.workers
  {
  }

  /** The queue of `a` lost its head to a worker. */
  predicate Popped(s: State, t: State, a: ActorType) {
    Queue(s, a) != [] && Queue(s, a)[1..] <= Queue(t, a) && Taken(t, Queue(s, a)[0])
  }

  lemma PopQueue(s: State, w: nat, a: ActorType, b: ActorType)
    requires w < |s.workers| && Queue(s, b) != []
    ensures if a == b then Popped(s, Pop(s, w, b), a) else Queue(Pop(s, w, b), a) == Queue(s, a)
  {
    assert Pop(s, w, b).workers[w].hand.item == Queue(s, b)[0];
  }

  lemma WorkQueue(cfg: Config, s: State, w: nat, a: ActorType)
    requires w < |s.workers|
    ensures Queue(s, a) <= Queue(WorkStep(cfg, s, w), a) || Popped(s, WorkStep(cfg, s, w), a)
  {
    var wk := s.workers[w];
    if !wk.done && wk.hand.Busy? && wk.hand.todo != [] {
      PushQueue(cfg, s, wk.hand.item.tag, wk.hand.todo[0], a);
    } else if !wk.done && wk.hand.Idle? && wk.pos < |cfg.order| && Queue(s, cfg.order[wk.pos]) != [] {
      PopQueue(s, w, a, cfg.order[wk.pos]);
    }
  }

  /** What one step does to the queue of `a`: it grows at its end, or loses its head to a worker. */
  lemma StepQueue(cfg: Config, s: State, act: Action, a: ActorType)
    ensures Queue(s, a) <= Queue(Step(cfg, s, act), a) || AllDone(s) || Popped(s, Step(cfg, s, act), a)
  {
    if s.crashed {
      return;
    }
    match act
    case Receive(sessionId, frame) =>
      if Route(sessionId, frame).Event? {
        var env := Route(sessionId, frame).env;
        var entry := Dispatched(env, VerdictOn(cfg, s, env.destination) == Accepted);
        PushQueue(cfg, s.(dispatched := s.dispatched + [entry]), |s.dispatched|, env, a);
      }
    case Work(w) =>
      if w < |s.workers| {
        WorkQueue(cfg, s, w, a);
      }
    case _ =>
  }

  /** A worker's own step passes position `i` exactly when it polls it; with something queued, it pops. */
  lemma WorkPasses(cfg: Config, s: State, w: nat, i: nat)
    requires ValidOrder(cfg.order) && w < |s.workers| && WorkerOk(cfg, s, s.workers[w]) && i < 4
    requires Queue(s, cfg.order[i]) != []
    ensures var t := WorkStep(cfg, s, w);
      && w < |t.workers|
      && (|| Passes(cfg, t.workers[w], i) == Passes(cfg, s.workers[w], i)
          || (Passes(cfg, t.workers[w], i) == Passes(cfg, s.workers[w], i) + 1 && Popped(s, t, cfg.order[i])))
  {
    var wk := s.workers[w];
    if !wk.done && wk.hand.Busy? && wk.hand.todo != [] {
      PushQueue(cfg, s, wk.hand.item.tag, wk.hand.todo[0], cfg.order[i]);
    } else if !wk.done && wk.hand.Idle? && wk.pos < |cfg.order| && Queue(s, cfg.order[wk.pos]) != [] {
      PopQueue(s, w, cfg.order[i], cfg.order[wk.pos]);
    }
  }

  lemma OthersStill(cfg: Config, s: State, act: Action, w: nat)
    requires w < |s.workers| && act != Work(w)
    ensures var t := Step(cfg, s, act); w < |t.workers| && t.workers[w] == s.workers[w]
  {
  }

  lemma StepPasses(cfg: Config, s: State, act: Action, w: nat, i: nat)
    requires ValidOrder(cfg.order) && WorkersOk(cfg, s) && w < |s.workers| && i < 4
    requires Queue(s, cfg.order[i]) != []
    ensures var t := Step(cfg, s, act);
      && w < |t.workers|
      && (|| Passes(cfg, t.workers[w], i) == Passes(cfg, s.workers[w], i)
          || (Passes(cfg, t.workers[w], i) == Passes(cfg, s.workers[w], i) + 1 && Popped(s, t, cfg.order[i])))
  {
    if act == Work(w) {
      assert WorkerOk(cfg, s, s.workers[w]);
      WorkPasses(cfg, s, w, i);
    } else {
      OthersStill(cfg, s, act, w);
    }
  }

  lemma {:induction false} DonePasses(cfg: Config, s: State, acts: seq<Action>, w: nat, i: nat)
    requires w < |s.workers| && AllDone(s)
    ensures var t := RunFrom(cfg, s, acts); w < |t.workers| && t.workers == s.workers && !t.running
  {
    if acts != [] {
      DonePasses(cfg, s, acts[..|acts| - 1], w, i);
    }
  }

  /** An envelope at position `p` is popped before any single worker has passed its mailbox `p + 1` times,
      whatever arrives meanwhile and whatever the other workers do. */
  lemma {:induction false} PoppedWithin(cfg: Config, s: State, acts: seq<Action>, w: nat, i: nat, p: nat) returns (m: nat)
    requires ValidOrder(cfg.order) && WorkersOk(cfg, s) && w < |s.workers| && i < 4
    requires p < |Queue(s, cfg.order[i])|
    requires w < |RunFrom(cfg, s, acts).workers|
    requires Passes(cfg, RunFrom(cfg, s, acts).workers[w], i) >= Passes(cfg, s.workers[w], i) + p + 1
    ensures m <= |acts| && Taken(RunFrom(cfg, s, acts[..m]), Queue(s, cfg.order[i])[p])
    decreases |acts|
  {
    var a := cfg.order[i];
    if acts == [] {
      assert false;
    }
    var t := Step(cfg, s, acts[0]);
    RunFront(cfg, s, acts);
    StepWorkersOk(cfg, s, acts[0]);
    StepQueue(cfg, s, acts[0], a);
    StepPasses(cfg, s, acts[0], w, i);
    if AllDone(s) {
      DonePasses(cfg, s, acts, w, i);
      assert false;
    } else if p == 0 && Popped(s, t, a) {
      m := 1;
      RunFront(cfg, s, acts[..1]);
    } else {
      var p' := if Queue(s, a) <= Queue(t, a) then p else p - 1;
      if Passes(cfg, t.workers[w], i) == Passes(cfg, s.workers[w], i) + 1 {
        p' := p - 1;
      }
      assert Queue(t, a)[p'] == Queue(s, a)[p];
      var m' := PoppedWithin(cfg, t, acts[1..], w, i, p');
      m := m' + 1;
      RunFront(cfg, s, acts[..m]);
      assert acts[..m][1..] == acts[1..][..m'];
    }
  }

  /** In sweeps: after `p + 2` completed sweeps of one worker, at least `p + 1` of them begun after the
      start, the envelope has been popped. */
  lemma NoStarvation(cfg: Config, before: seq<Action>, acts: seq<Action>, w: nat, i: nat, p: nat) returns (m: nat)
    requires ValidOrder(cfg.order) && w < cfg.workers && i < 4
    requires p < |Queue(Run(cfg, before), cfg.order[i])|
    requires |Run(cfg, before).workers| == cfg.workers == |Run(cfg, before + acts).workers|
    requires Run(cfg, before + acts).workers[w].sweeps
          >= Run(cfg, before).workers[w].sweeps + p + if Run(cfg, before).workers[w].pos == 4 then 1 else 2
    ensures m <= |acts| && Taken(Run(cfg, before + acts[..m]), Queue(Run(cfg, before), cfg.order[i])[p])
  {
    RunWorkersOk(cfg, before);
    assert WorkerOk(cfg, Run(cfg, before), Run(cfg, before).workers[w]);
    RunConcat(cfg, Init(cfg), before, acts);
    m := PoppedWithin(cfg, Run(cfg, before), acts, w, i, p);
    RunConcat(cfg, Init(cfg), before, acts[..m]);
  }
}
