/** What `stop` does: every worker leaves its loop after the rest of its sweep, and from then on nothing is
    handled; what is still queued goes down with its mailbox. */
module Stopping {
  import opened Messages
  import opened Mailboxes
  import opened Pipeline
  import opened Ownership
  import opened Routing
  import opened Sweeps
  import opened Drain

  /** Mailboxes the worker may still pop from before it is back at its loop head. */
  function PollsLeft(wk: Worker): nat {
    if wk.done || wk.pos > 4 then 0
    else if wk.hand.Idle? then 4 - wk.pos
    else if wk.pos < 4 then 3 - wk.pos
    else 0
  }

  /** Turns until a worker that is told to stop has left its loop: a poll takes a pop, at most three sends and
      a return, and the loop head takes one turn. */
  function TurnsLeft(wk: Worker): nat {
    if wk.done then 0
    else 1 + 5 * PollsLeft(wk) + if wk.hand.Busy? then 1 + |wk.hand.todo| else 0
  }

  /** Envelopes worker `w` popped in the course of `acts`. */
  function Popped(cfg: Config, s: State, acts: seq<Action>, w: nat): nat {
    if acts == [] then 0
    else
      var pre := acts[..|acts| - 1];
      var u, t := RunFrom(cfg, s, pre), RunFrom(cfg, s, acts);
      Popped(cfg, s, pre, w)
      + if w < |u.workers| && w < |t.workers| && u.workers[w].hand.Idle? && t.workers[w].hand.Busy? then 1 else 0
  }

  lemma FewSends(hand: Hand)
    requires hand.Busy? && HandOk(hand)
    ensures |hand.todo| <= |Sends(hand.actor, hand.item.env.payload)| <= 3
  {
  }

  /** Once `running_` is false, each of its own turns brings a worker closer to its end. */
  lemma OwnTurn(cfg: Config, s: State, w: nat)
    requires ValidOrder(cfg.order) && w < |s.workers| && WorkerOk(cfg, s, s.workers[w]) && HandOk(s.workers[w].hand)
    requires !s.running && !s.crashed && !WorkStep(cfg, s, w).crashed
    ensures var wk, t := s.workers[w], WorkStep(cfg, s, w);
      && w < |t.workers|
      && (wk.done ==> t.workers[w].done)
      && (!wk.done ==> TurnsLeft(t.workers[w]) < TurnsLeft(wk))
      && PollsLeft(t.workers[w]) + (if wk.hand.Idle? && t.workers[w].hand.Busy? then 1 else 0) <= PollsLeft(wk)
  {
    var wk := s.workers[w];
    if !wk.done && wk.hand.Idle? && wk.pos < 4 && Queue(s, cfg.order[wk.pos]) != [] {
      assert |Sends(cfg.order[wk.pos], Queue(s, cfg.order[wk.pos])[0].env.payload)| <= 3;
    }
  }

  lemma StaysStopped(cfg: Config, s: State, act: Action)
    requires !s.running
    ensures !Step(cfg, s, act).running && |Step(cfg, s, act).workers| == |s.workers|
    ensures s.crashed ==> Step(cfg, s, act).crashed
  {
  }

  /** Worker `w` since `stop`: so many turns made, so many envelopes popped. */
  predicate Winding(cfg: Config, s: State, acts: seq<Action>, w: nat) {
    var t := RunFrom(cfg, s, acts);
    && !t.running && w < |s.workers| && w < |t.workers|
    && (t.crashed || TurnsLeft(t.workers[w]) == 0 || TurnsLeft(t.workers[w]) + Turns(acts, w) <= TurnsLeft(s.workers[w]))
    && (t.crashed || PollsLeft(t.workers[w]) + Popped(cfg, s, acts, w) <= PollsLeft(s.workers[w]))
  }

  ghost predicate Ready(cfg: Config, s: State) {
    Sound(cfg, s) && WorkersOk(cfg, s)
  }

  lemma ReadyStep(cfg: Config, s: State, act: Action)
    requires Ready(cfg, s)
    ensures Ready(cfg, Step(cfg, s, act))
  {
    StepSound(cfg, s, act);
    StepWorkersOk(cfg, s, act);
  }

  lemma {:induction false} ReadyRun(cfg: Config, s: State, acts: seq<Action>)
    requires Ready(cfg, s)
    ensures Ready(cfg, RunFrom(cfg, s, acts))
  {
    if acts != [] {
      ReadyRun(cfg, s, acts[..|acts| - 1]);
      ReadyStep(cfg, RunFrom(cfg, s, acts[..|acts| - 1]), acts[|acts| - 1]);
    }
  }

  lemma WindStep(cfg: Config, u: State, act: Action, w: nat)
    requires ValidOrder(cfg.order) && Ready(cfg, u) && !u.running && w < |u.workers| && !u.crashed && !Step(cfg, u, act).crashed
    ensures var wk, t := u.workers[w], Step(cfg, u, act);
      && w < |t.workers|
      && (act != Work(w) ==> t.workers[w] == wk)
      && (act == Work(w) && TurnsLeft(wk) > 0 ==> TurnsLeft(t.workers[w]) < TurnsLeft(wk))
      && (TurnsLeft(wk) == 0 ==> TurnsLeft(t.workers[w]) == 0)
      && PollsLeft(t.workers[w]) + (if wk.hand.Idle? && t.workers[w].hand.Busy? then 1 else 0) <= PollsLeft(wk)
  {
    if act == Work(w) {
      assert WorkerOk(cfg, u, u.workers[w]) && HandOk(u.workers[w].hand);
      OwnTurn(cfg, u, w);
    } else {
      OthersStill(cfg, u, act, w);
    }
  }

  lemma {:induction false} Winds(cfg: Config, s: State, acts: seq<Action>, w: nat)
    requires ValidOrder(cfg.order) && Ready(cfg, s) && !s.running && w < |s.workers|
    ensures Winding(cfg, s, acts, w)
  {
    if acts != [] {
      var pre, act := acts[..|acts| - 1], acts[|acts| - 1];
      var u := RunFrom(cfg, s, pre);
      Winds(cfg, s, pre, w);
      ReadyRun(cfg, s, pre);
      StaysStopped(cfg, u, act);
      if !u.crashed && !Step(cfg, u, act).crashed {
        WindStep(cfg, u, act, w);
      }
      hide Step, TurnsLeft, PollsLeft;
    }
  }

  // ---------------------------------------------------------------- the theorem

  /** A worker is at most 21 turns from its end: four polls of five turns each, and the loop head. */
  lemma FewTurns(cfg: Config, s: State, w: nat)
    requires Ready(cfg, s) && ValidOrder(cfg.order) && w < |s.workers|
    ensures TurnsLeft(s.workers[w]) <= 21 && (TurnsLeft(s.workers[w]) == 0 <==> s.workers[w].done)
    ensures var wk := s.workers[w]; !wk.done ==> PollsLeft(wk) == if wk.hand.Idle? then 4 - wk.pos else 3 - wk.pos
  {
    assert WorkerOk(cfg, s, s.workers[w]) && HandOk(s.workers[w].hand);
    if s.workers[w].hand.Busy? {
      FewSends(s.workers[w].hand);
    }
  }

  lemma ReadyAfterStop(cfg: Config, before: seq<Action>)
    ensures var s := Run(cfg, before + [Stop]);
      && Ready(cfg, s) && |s.workers| == cfg.workers
      && (!s.crashed ==> !s.running) && s.workers == Run(cfg, before).workers
  {
    assert (before + [Stop])[..|before|] == before;
    RunSound(cfg, before + [Stop]);
    RunWorkersOk(cfg, before + [Stop]);
  }

  lemma {:induction false} StaysCrashed(cfg: Config, s: State, acts: seq<Action>)
    requires s.crashed
    ensures RunFrom(cfg, s, acts) == s
  {
    if acts != [] {
      StaysCrashed(cfg, s, acts[..|acts| - 1]);
    }
  }

  /** After `stop`, whatever else happens, a worker given 21 turns has left its loop, and at no time has it
      popped more than one envelope for each mailbox that was left in its sweep. */
  lemma StopEndsWorker(cfg: Config, before: seq<Action>, after: seq<Action>, w: nat)
    requires ValidOrder(cfg.order) && w < cfg.workers && !Run(cfg, before + [Stop] + after).crashed
    ensures var s, t := Run(cfg, before), Run(cfg, before + [Stop] + after);
      && w < |s.workers| && w < |t.workers| && !t.running
      && (Turns(after, w) >= 21 ==> t.workers[w].done)
      && Popped(cfg, Run(cfg, before + [Stop]), after, w)
           <= if s.workers[w].done then 0 else if s.workers[w].hand.Idle? then 4 - s.workers[w].pos else 3 - s.workers[w].pos
  {
    var s := Run(cfg, before + [Stop]);
    RunConcat(cfg, Init(cfg), before + [Stop], after);
    ReadyAfterStop(cfg, before);
    if s.crashed {
      StaysCrashed(cfg, s, after);
    }
    Winds(cfg, s, after, w);
    ReadyRun(cfg, s, after);
    FewTurns(cfg, s, w);
    FewTurns(cfg, RunFrom(cfg, s, after), w);
  }

  /** Every worker has left its loop after 21 turns each. */
  lemma StopEndsAll(cfg: Config, before: seq<Action>, after: seq<Action>)
    requires ValidOrder(cfg.order) && !Run(cfg, before + [Stop] + after).crashed
    requires forall w | 0 <= w < cfg.workers :: Turns(after, w) >= 21
    ensures AllDone(Run(cfg, before + [Stop] + after))
  {
    var t := Run(cfg, before + [Stop] + after);
    RunWorkersOk(cfg, before + [Stop] + after);
    forall w | 0 <= w < |t.workers| ensures t.workers[w].done {
      StopEndsWorker(cfg, before, after, w);
    }
    RunConcat(cfg, Init(cfg), before + [Stop], after);
    ReadyAfterStop(cfg, before);
    StillStopped(cfg, Run(cfg, before + [Stop]), after);
  }

  lemma {:induction false} StillStopped(cfg: Config, s: State, acts: seq<Action>)
    requires (!s.crashed ==> !s.running) && !RunFrom(cfg, s, acts).crashed
    ensures !s.crashed && !RunFrom(cfg, s, acts).running
  {
    if acts != [] {
      StillStopped(cfg, s, acts[..|acts| - 1]);
    }
  }

  /** No handler runs any more, and a queue only loses its envelopes to the mailbox's destruction. */
  lemma {:induction false} NothingRuns(cfg: Config, s: State, acts: seq<Action>)
    requires AllDone(s) && forall w | 0 <= w < |s.workers| :: s.workers[w].hand.Idle?
    ensures var t := RunFrom(cfg, s, acts); t.handled == s.handled && t.workers == s.workers && !t.running
  {
    if acts != [] {
      NothingRuns(cfg, s, acts[..|acts| - 1]);
    }
  }

  /** Shutting down: once the workers are joined nothing more is handled, whatever arrives, and destroying a
      mailbox moves its whole queue, in order, to the destroyed envelopes and closes it; what arrives for it
      later is destroyed too. */
  lemma ShutsDown(cfg: Config, before: seq<Action>, after: seq<Action>, rest: seq<Action>, a: ActorType)
    requires ValidOrder(cfg.order) && !Run(cfg, before + [Stop] + after + rest).crashed
    requires forall w | 0 <= w < cfg.workers :: Turns(after, w) >= 21
    ensures var s, t := Run(cfg, before + [Stop] + after), Run(cfg, before + [Stop] + after + rest);
      var u := Step(cfg, t, Destroy(a));
      && t.handled == s.handled && t.workers == s.workers
      && u.drained == t.drained + Queue(t, a) && Queue(u, a) == [] && a in u.boxes && !u.boxes[a].active
      && forall b | b != a :: Queue(u, b) == Queue(t, b)
  {
    var acts := before + [Stop] + after;
    var s := Run(cfg, acts);
    RunConcat(cfg, Init(cfg), acts, rest);
    if s.crashed {
      StaysCrashed(cfg, s, rest);
    }
    StopEndsAll(cfg, before, after);
    RunWorkersOk(cfg, acts);
    forall w | 0 <= w < |s.workers| ensures s.workers[w].hand.Idle? {
      assert WorkerOk(cfg, s, s.workers[w]);
    }
    NothingRuns(cfg, s, rest);
    RunWorkersOk(cfg, acts + rest);
    hide RunFrom, Run;
    EmptiesMailbox(cfg, Run(cfg, acts + rest), a);
  }

  lemma EmptiesMailbox(cfg: Config, t: State, a: ActorType)
    requires !t.crashed && AllDone(t) && t.boxes.Keys == ALL_ACTORS
    ensures var u := Step(cfg, t, Destroy(a));
      && u.drained == t.drained + Queue(t, a) && Queue(u, a) == [] && a in u.boxes && !u.boxes[a].active
      && forall b | b != a :: Queue(u, b) == Queue(t, b)
  {
    EveryActor(a);
  }

  /** No mailbox is ever closed under a running worker. */
  lemma {:induction false} ClosedOnlyAfterJoin(cfg: Config, acts: seq<Action>)
    ensures var s := Run(cfg, acts); (exists a :: a in s.boxes && !s.boxes[a].active) ==> AllDone(s)
  {
    if acts != [] {
      var s, act := Run(cfg, acts[..|acts| - 1]), acts[|acts| - 1];
      ClosedOnlyAfterJoin(cfg, acts[..|acts| - 1]);
      if !AllDone(s) {
        BoxesStayOpen(cfg, s, act);
      }
    }
  }

  lemma BoxesStayOpen(cfg: Config, s: State, act: Action)
    requires !AllDone(s) && forall a | a in s.boxes :: s.boxes[a].active
    ensures forall a | a in Step(cfg, s, act).boxes :: Step(cfg, s, act).boxes[a].active
  {
  }
}
