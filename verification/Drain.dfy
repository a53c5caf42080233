/** Draining: a measure that every productive step lowers, and from it that any fair schedule without new
    input reaches quiescence. */
module Drain {
  import opened Messages
  import opened Pipeline
  import opened Accounts
  import opened Ownership
  import opened Routing
  import opened Ledger
  import opened Sweeps

  /** Steps still due: a call not yet created needs a send, a pop and a finish, a queued one a pop and a
      finish, one in hand a finish. */
  ghost function StepsDue(): Prices {
    Prices((x: Item) => 3 * |Cascade(x.tag, x.env)| - 1, (x: Item) => 0, (x: Item) => 0,
           (h: Hand) => if h.Idle? then 0 else 1 + 3 * |Cascades(h.item.tag, h.todo)|)
  }

  ghost function Energy(s: State): int {
    Total(StepsDue(), s)
  }

  lemma CascadeSize(tag: nat, env: Envelope)
    ensures |Cascade(tag, env)| == 1 + |Cascades(tag, Sends(env.destination, env.payload))|
  {
    CascadeUnfolds(tag, env);
  }

  lemma EnergyNat(s: State)
    ensures Energy(s) >= 0
  {
    var p := StepsDue();
    forall x: Item ensures p.queued(x) >= 0 {
      CascadeSize(x.tag, x.env);
    }
    SumNat(Queue(s, Session), p.queued);
    SumNat(Queue(s, Chat), p.queued);
    SumNat(Queue(s, Message), p.queued);
    SumNat(Queue(s, Storage), p.queued);
    SumNat(s.handled, p.handled);
    SumNat(s.leaked, p.lost);
    SumNat(s.freed, p.lost);
    SumNat(s.drained, p.lost);
    HandsNat(s.workers, p.hand);
  }

  /** The worker's next step is more than a look at an empty queue. */
  predicate Productive(cfg: Config, s: State, w: nat) {
    && w < |s.workers| && !s.workers[w].done
    && (s.workers[w].hand.Busy?
        || (s.workers[w].pos < |cfg.order| && Queue(s, cfg.order[s.workers[w].pos]) != []))
  }

  lemma PopEnergy(s: State, w: nat, a: ActorType)
    requires w < |s.workers| && s.workers[w].hand.Idle? && Queue(s, a) != [] && Addressed(Queue(s, a), a)
    ensures Energy(Pop(s, w, a)) == Energy(s) - 1
  {
    PopTotal(StepsDue(), s, w, a);
    CascadeSize(Queue(s, a)[0].tag, Queue(s, a)[0].env);
  }

  lemma SendEnergy(cfg: Config, s: State, w: nat)
    requires w < |s.workers| && s.workers[w].hand.Busy? && s.workers[w].hand.todo != []
    ensures Energy(SendNext(cfg, s, w)) < Energy(s)
  {
    var hand := s.workers[w].hand;
    SendTotal(StepsDue(), cfg, s, w);
    CascadeSize(hand.item.tag, hand.todo[0]);
    assert |Cascades(hand.item.tag, hand.todo)| == |Cascade(hand.item.tag, hand.todo[0])| + |Cascades(hand.item.tag, hand.todo[1..])|;
  }

  lemma FinishEnergy(cfg: Config, s: State, w: nat)
    requires w < |s.workers| && s.workers[w].hand.Busy? && s.workers[w].hand.todo == []
    requires !Throws(cfg, s.workers[w].hand.actor, s.workers[w].hand.item.env.payload)
    ensures Energy(Finish(cfg, s, w)) == Energy(s) - 1
  {
    FinishTotal(StepsDue(), cfg, s, w);
  }

  lemma SweepEnergy(cfg: Config, s: State, w: nat)
    requires w < |s.workers| && s.workers[w].hand.Idle?
    ensures Energy(AtHead(s, w)) == Energy(s) == Energy(Skip(cfg, s, w))
  {
    SweepTotal(StepsDue(), cfg, s, w);
  }

  /** Every productive step lowers the measure; every other step of a worker leaves mailboxes and
      handlers alone. */
  lemma WorkEnergy(cfg: Config, s: State, w: nat)
    requires PlacesOk(s) && w < |s.workers|
    requires !s.crashed && !WorkStep(cfg, s, w).crashed
    ensures Productive(cfg, s, w) ==> Energy(WorkStep(cfg, s, w)) < Energy(s)
    ensures !Productive(cfg, s, w) ==> Energy(WorkStep(cfg, s, w)) == Energy(s) && WorkStep(cfg, s, w).boxes == s.boxes
  {
    hide Energy;
    var wk := s.workers[w];
    if wk.done {
    } else if wk.hand.Busy? && wk.hand.todo != [] {
      SendEnergy(cfg, s, w);
    } else if wk.hand.Busy? {
      FinishEnergy(cfg, s, w);
    } else if wk.pos < |cfg.order| && Queue(s, cfg.order[wk.pos]) != [] {
      PopEnergy(s, w, cfg.order[wk.pos]);
    } else {
      SweepEnergy(cfg, s, w);
    }
  }

  // ---------------------------------------------------------------- schedules of workers only

  predicate OnlyWork(acts: seq<Action>) {
    forall i | 0 <= i < |acts| :: acts[i].Work?
  }

  function Turns(acts: seq<Action>, w: nat): nat {
    if acts == [] then 0 else Turns(acts[..|acts| - 1], w) + if acts[|acts| - 1] == Work(w) then 1 else 0
  }

  /** Every worker gets at least five turns: enough for one look at each position and the loop head. */
  predicate Fair(cfg: Config, acts: seq<Action>) {
    OnlyWork(acts) && forall w | 0 <= w < cfg.workers :: Turns(acts, w) >= 5
  }

  /** A state of a run, before `stop`. */
  ghost predicate Live(cfg: Config, s: State) {
    Sound(cfg, s) && WorkersOk(cfg, s) && s.running
  }

  lemma SoundPlaces(cfg: Config, s: State)
    requires Sound(cfg, s)
    ensures PlacesOk(s)
  {
  }

  lemma StepLive(cfg: Config, s: State, act: Action)
    requires Live(cfg, s) && act.Work?
    ensures Live(cfg, Step(cfg, s, act)) && |Step(cfg, s, act).workers| == |s.workers|
  {
    StepSound(cfg, s, act);
    StepWorkersOk(cfg, s, act);
  }

  lemma {:induction false} WorkLive(cfg: Config, s: State, acts: seq<Action>)
    requires Live(cfg, s) && OnlyWork(acts)
    ensures Live(cfg, RunFrom(cfg, s, acts)) && |RunFrom(cfg, s, acts).workers| == |s.workers|
    ensures s.crashed ==> RunFrom(cfg, s, acts).crashed
    ensures !RunFrom(cfg, s, acts).crashed ==> Energy(RunFrom(cfg, s, acts)) <= Energy(s)
  {
    hide Energy, WorkStep, Sound;
    if acts != [] {
      var n := |acts| - 1;
      WorkLive(cfg, s, acts[..n]);
      var u := RunFrom(cfg, s, acts[..n]);
      StepLive(cfg, u, acts[n]);
      if !u.crashed && acts[n].worker < |u.workers| && !Step(cfg, u, acts[n]).crashed {
        SoundPlaces(cfg, u);
        WorkEnergy(cfg, u, acts[n].worker);
      }
    }
  }

  /** Where a worker at `pos` stands after `c` turns that found nothing; 4 is the loop head. */
  function Spot(pos: nat, c: nat): nat {
    (pos + c) % 5
  }

  predicate Visited(pos: nat, turns: nat, q: nat) {
    exists c | 0 <= c < turns :: Spot(pos, c) == q
  }

  /** If the measure has not moved, nothing was popped, sent or finished, and each worker has gone round
      finding nothing. */
  ghost predicate Stalled(cfg: Config, s: State, t: State, w: nat, turns: nat)
    requires ValidOrder(cfg.order) && w < |s.workers| && w < |t.workers|
  {
    && t.boxes == s.boxes
    && t.workers[w].hand == s.workers[w].hand
    && (turns > 0 ==> s.workers[w].hand.Idle?)
    && t.workers[w].pos == Spot(s.workers[w].pos, turns)
    && (forall q | 0 <= q < 4 && Visited(s.workers[w].pos, turns, q) :: Queue(s, cfg.order[q]) == [])
  }

  lemma StallStep(cfg: Config, s: State, u: State, w: nat, turns: nat)
    requires ValidOrder(cfg.order) && Live(cfg, u) && w < |s.workers| && w < |u.workers| && !u.crashed
    requires Stalled(cfg, s, u, w, turns) && !Productive(cfg, u, w)
    ensures var t := WorkStep(cfg, u, w); w < |t.workers| && Stalled(cfg, s, t, w, turns + 1)
  {
    hide Sound;
    assert WorkerOk(cfg, u, u.workers[w]);
    var pos, t := s.workers[w].pos, WorkStep(cfg, u, w);
    forall q | 0 <= q < 4 && Visited(pos, turns + 1, q) ensures Queue(s, cfg.order[q]) == [] {
      var c :| 0 <= c < turns + 1 && Spot(pos, c) == q;
      if c < turns {
        assert Visited(pos, turns, q);
      } else {
        assert u.workers[w].pos == q;
      }
    }
  }

  lemma FlatStep(cfg: Config, u: State, act: Action)
    requires Live(cfg, u) && act.Work? && !Step(cfg, u, act).crashed && Energy(Step(cfg, u, act)) >= Energy(u)
    ensures !u.crashed && Energy(Step(cfg, u, act)) == Energy(u) && Step(cfg, u, act).boxes == u.boxes
    ensures act.worker < |u.workers| ==> !Productive(cfg, u, act.worker) && Step(cfg, u, act) == WorkStep(cfg, u, act.worker)
  {
    if act.worker < |u.workers| {
      WorkEnergy(cfg, u, act.worker);
    }
  }

  lemma StallOn(cfg: Config, s: State, u: State, t: State, act: Action, w: nat, turns: nat)
    requires ValidOrder(cfg.order) && Live(cfg, u) && w < |s.workers| && w < |u.workers|
    requires Stalled(cfg, s, u, w, turns) && act.Work? && t == Step(cfg, u, act)
    requires !t.crashed && Energy(t) >= Energy(u)
    ensures w < |t.workers| && Stalled(cfg, s, t, w, if act == Work(w) then turns + 1 else turns)
  {
    FlatStep(cfg, u, act);
    if act == Work(w) {
      StallStep(cfg, s, u, w, turns);
    } else {
      OthersStill(cfg, u, act, w);
    }
  }

  lemma StallBegins(cfg: Config, s: State, w: nat)
    requires ValidOrder(cfg.order) && WorkersOk(cfg, s) && w < |s.workers|
    ensures Stalled(cfg, s, s, w, 0)
  {
    assert WorkerOk(cfg, s, s.workers[w]);
  }

  lemma {:induction false} Stall(cfg: Config, s: State, acts: seq<Action>, w: nat)
    requires ValidOrder(cfg.order) && Live(cfg, s) && OnlyWork(acts) && w < |s.workers|
    requires !RunFrom(cfg, s, acts).crashed && Energy(RunFrom(cfg, s, acts)) == Energy(s)
    ensures w < |RunFrom(cfg, s, acts).workers| && Stalled(cfg, s, RunFrom(cfg, s, acts), w, Turns(acts, w))
  {
    hide Energy, Sound, Stalled, WorkStep;
    if acts == [] {
      StallBegins(cfg, s, w);
    } else {
      var pre, act := acts[..|acts| - 1], acts[|acts| - 1];
      WorkLive(cfg, s, pre);
      FlatStep(cfg, RunFrom(cfg, s, pre), act);
      Stall(cfg, s, pre, w);
      StallOn(cfg, s, RunFrom(cfg, s, pre), RunFrom(cfg, s, acts), act, w, Turns(pre, w));
      assert Turns(acts, w) == if act == Work(w) then Turns(pre, w) + 1 else Turns(pre, w);
    }
  }

  lemma RoundTripVisits(pos: nat, turns: nat, q: nat)
    requires pos <= 4 && q < 4 && turns >= 5
    ensures Visited(pos, turns, q)
  {
    assert Spot(pos, (q + 5 - pos) % 5) == q;
  }

  lemma StallEmpties(cfg: Config, s: State, t: State, turns: nat, a: ActorType)
    requires ValidOrder(cfg.order) && WorkersOk(cfg, s) && |s.workers| > 0 && |t.workers| > 0
    requires Stalled(cfg, s, t, 0, turns) && turns >= 5 && a in ALL_ACTORS
    ensures Queue(t, a) == []
  {
    assert a in cfg.order;
    var q :| 0 <= q < 4 && cfg.order[q] == a;
    assert WorkerOk(cfg, s, s.workers[0]);
    RoundTripVisits(s.workers[0].pos, turns, q);
  }

  /** A fair stretch in which the measure does not move ends in quiescence. */
  lemma StallMeansQuiescent(cfg: Config, s: State, acts: seq<Action>)
    requires ValidOrder(cfg.order) && Live(cfg, s) && cfg.workers > 0 && Fair(cfg, acts)
    requires !RunFrom(cfg, s, acts).crashed && Energy(RunFrom(cfg, s, acts)) == Energy(s)
    ensures Quiescent(RunFrom(cfg, s, acts))
  {
    var t := RunFrom(cfg, s, acts);
    WorkLive(cfg, s, acts);
    forall w | 0 <= w < |t.workers| ensures t.workers[w].hand.Idle? {
      Stall(cfg, s, acts, w);
    }
    Stall(cfg, s, acts, 0);
    forall a | a in t.boxes ensures t.boxes[a].queue == [] {
      StallEmpties(cfg, s, t, Turns(acts, 0), a);
    }
  }

  lemma {:induction false} QuiescentStays(cfg: Config, s: State, acts: seq<Action>)
    requires Quiescent(s) && OnlyWork(acts)
    ensures Quiescent(RunFrom(cfg, s, acts))
  {
    if acts != [] {
      QuiescentStays(cfg, s, acts[..|acts| - 1]);
      var u, w := RunFrom(cfg, s, acts[..|acts| - 1]), acts[|acts| - 1].worker;
      if w < |u.workers| {
        assert u.workers[w].hand.Idle?;
      }
    }
  }

  function Flatten(windows: seq<seq<Action>>): seq<Action> {
    if windows == [] then [] else windows[0] + Flatten(windows[1..])
  }

  /** Any schedule made of more fair stretches than the measure says drains the system, unless a handler
      throws. */
  lemma {:induction false} Drains(cfg: Config, s: State, windows: seq<seq<Action>>)
    requires ValidOrder(cfg.order) && Live(cfg, s) && cfg.workers > 0
    requires forall i | 0 <= i < |windows| :: Fair(cfg, windows[i])
    requires Energy(s) < |windows|
    ensures var t := RunFrom(cfg, s, Flatten(windows)); t.crashed || Quiescent(t)
    decreases |windows|
  {
    EnergyNat(s);
    var first, rest := windows[0], windows[1..];
    var u := RunFrom(cfg, s, first);
    RunConcat(cfg, s, first, Flatten(rest));
    OnlyWorkFlat(cfg, rest);
    WorkLive(cfg, s, first);
    WorkLive(cfg, u, Flatten(rest));
    if u.crashed {
    } else if Energy(u) == Energy(s) {
      StallMeansQuiescent(cfg, s, first);
      QuiescentStays(cfg, u, Flatten(rest));
    } else {
      Drains(cfg, u, rest);
    }
  }

  lemma {:induction false} OnlyWorkFlat(cfg: Config, windows: seq<seq<Action>>)
    requires forall i | 0 <= i < |windows| :: Fair(cfg, windows[i])
    ensures OnlyWork(Flatten(windows))
  {
    if windows != [] {
      OnlyWorkFlat(cfg, windows[1..]);
    }
  }

  // ---------------------------------------------------------------- the bound for runs

  lemma DispatchEnergy(cfg: Config, s: State, env: Envelope)
    requires IsRoot(env)
    ensures Energy(Dispatch(cfg, s, env)) <= Energy(s) + 14
    ensures |Dispatch(cfg, s, env).dispatched| == |s.dispatched| + 1
  {
    DispatchTotal(StepsDue(), cfg, s, env);
    CascadeOfRoot(|s.dispatched|, env);
    if env.payload.SendMessage? {
      assert |CallsOfSend(|s.dispatched|, env.payload.event)| <= 5;
    }
  }

  lemma TeardownEnergy(s: State, a: ActorType)
    ensures Energy(Teardown(s, a)) <= Energy(s)
  {
    var t, p := Teardown(s, a), StepsDue();
    if t != s {
      QueuedAfter(s, t, a, p.queued);
      SumConcat(s.drained, Queue(s, a), p.lost);
      forall x: Item ensures p.queued(x) >= 0 {
        CascadeSize(x.tag, x.env);
      }
      SumNat(Queue(s, a), p.queued);
      SumZero(Queue(s, a), p.lost);
    }
  }

  lemma {:induction false} SumZero(items: seq<Item>, f: Item -> int)
    requires forall x :: f(x) == 0
    ensures Sum(items, f) == 0
  {
    if items != [] {
      SumZero(items[..|items| - 1], f);
    }
  }

  lemma StopEnergy(s: State)
    ensures Energy(s.(running := false)) == Energy(s)
  {
    StopTotal(StepsDue(), s);
  }

  lemma StepEnergy(cfg: Config, s: State, act: Action)
    requires PlacesOk(s) && !s.crashed && !Step(cfg, s, act).crashed
    ensures Energy(Step(cfg, s, act)) - 14 * |Step(cfg, s, act).dispatched| <= Energy(s) - 14 * |s.dispatched|
  {
    hide Energy, WorkStep;
    match act
    case Receive(sessionId, frame) =>
      if Route(sessionId, frame).Event? {
        RouteGivesRoots(sessionId, frame);
        DispatchEnergy(cfg, s, Route(sessionId, frame).env);
      }
    case Work(w) =>
      if w < |s.workers| {
        WorkEnergy(cfg, s, w);
        WorkDispatchesNothing(cfg, s, w);
      }
    case Destroy(a) => TeardownEnergy(s, a);
    case Stop => StopEnergy(s);
    case StoreFails(w) =>
  }

  /** After n dispatched events at most 14n steps of work are due, in every reachable state. */
  lemma {:induction false} RunEnergy(cfg: Config, acts: seq<Action>)
    ensures Run(cfg, acts).crashed || Energy(Run(cfg, acts)) <= 14 * |Run(cfg, acts).dispatched|
  {
    if acts == [] {
      IdleHands(Init(cfg).workers, StepsDue().hand);
    } else if !Run(cfg, acts).crashed {
      RunEnergy(cfg, acts[..|acts| - 1]);
      RunSound(cfg, acts[..|acts| - 1]);
      StepEnergy(cfg, Run(cfg, acts[..|acts| - 1]), acts[|acts| - 1]);
    }
  }

  /** Once input stops, n dispatched events are worked off within 14n + 1 fair stretches, whatever ran
      before and however the workers interleave. */
  lemma Quiesces(cfg: Config, acts: seq<Action>, windows: seq<seq<Action>>)
    requires ValidOrder(cfg.order) && cfg.workers > 0 && Run(cfg, acts).running
    requires forall i | 0 <= i < |windows| :: Fair(cfg, windows[i])
    requires |windows| > 14 * |Run(cfg, acts).dispatched|
    ensures var t := Run(cfg, acts + Flatten(windows)); t.crashed || Quiescent(t)
  {
    var s := Run(cfg, acts);
    RunSound(cfg, acts);
    RunWorkersOk(cfg, acts);
    RunEnergy(cfg, acts);
    RunConcat(cfg, Init(cfg), acts, Flatten(windows));
    if s.crashed {
      OnlyWorkFlat(cfg, windows);
      WorkLive(cfg, s, Flatten(windows));
    } else {
      Drains(cfg, s, windows);
    }
  }
}
