/** Conservation of envelopes: in every reachable state each envelope ever created is in exactly one of
    these places: queued, in a worker's hand, handled, leaked by a full queue, destroyed by the sender's
    pointer, destroyed with its mailbox. Nothing else is anywhere. */
module Ownership {
  import opened Messages
  import opened Mailboxes
  import opened Pipeline
  import opened Accounts

  /** One coin for every place `x` is in. */
  ghost function Is(x: Item): Prices {
    var f := (y: Item) => if y == x then 1 else 0;
    Prices(f, f, f, (h: Hand) => if h.Busy? && h.item == x then 1 else 0)
  }

  predicate Created(s: State, x: Item) {
    x.id < |s.created| && s.created[x.id] == x
  }

  /** Four mailboxes, none above its capacity, and numbered envelopes. */
  predicate Shaped(cfg: Config, s: State) {
    && s.boxes.Keys == ALL_ACTORS
    && |s.workers| == cfg.workers
    && (forall i | 0 <= i < |s.created| :: s.created[i].id == i)
    && (forall a | a in s.boxes :: |s.boxes[a].queue| <= cfg.capacity)
  }

  ghost predicate Owned(cfg: Config, s: State) {
    Shaped(cfg, s) && forall x: Item :: InOnePlace(s, x)
  }

  // ---------------------------------------------------------------- every step conserves

  ghost predicate InOnePlace(s: State, x: Item) {
    Total(Is(x), s) == if Created(s, x) then 1 else 0
  }

  lemma DispatchConserves(cfg: Config, s: State, env: Envelope, x: Item)
    requires InOnePlace(s, x)
    ensures InOnePlace(Dispatch(cfg, s, env), x)
  {
    DispatchTotal(Is(x), cfg, s, env);
    hide Total;
    assert Dispatch(cfg, s, env).created == s.created + [Item(|s.created|, |s.dispatched|, env)];
  }

  lemma SendConserves(cfg: Config, s: State, w: nat, x: Item)
    requires w < |s.workers| && s.workers[w].hand.Busy? && s.workers[w].hand.todo != []
    requires InOnePlace(s, x)
    ensures InOnePlace(SendNext(cfg, s, w), x)
  {
    SendTotal(Is(x), cfg, s, w);
    SendCreates(cfg, s, w);
    hide Total, SendNext, VerdictOn;
  }

  lemma SendCreates(cfg: Config, s: State, w: nat)
    requires w < |s.workers| && s.workers[w].hand.Busy? && s.workers[w].hand.todo != []
    ensures SendNext(cfg, s, w).created
         == s.created + [Item(|s.created|, s.workers[w].hand.item.tag, s.workers[w].hand.todo[0])]
  {
  }

  lemma PopConserves(s: State, w: nat, a: ActorType, x: Item)
    requires w < |s.workers| && s.workers[w].hand.Idle? && Queue(s, a) != []
    requires InOnePlace(s, x)
    ensures InOnePlace(Pop(s, w, a), x)
  {
    PopTotal(Is(x), s, w, a);
  }

  lemma FinishConserves(cfg: Config, s: State, w: nat, x: Item)
    requires w < |s.workers| && s.workers[w].hand.Busy?
    requires InOnePlace(s, x)
    ensures InOnePlace(Finish(cfg, s, w), x)
  {
    hide Total;
    if !Throws(cfg, s.workers[w].hand.actor, s.workers[w].hand.item.env.payload) {
      FinishTotal(Is(x), cfg, s, w);
    } else {
      CrashTotal(Is(x), s);
    }
  }

  lemma SweepConserves(cfg: Config, s: State, w: nat, x: Item)
    requires w < |s.workers| && s.workers[w].hand.Idle?
    requires InOnePlace(s, x)
    ensures InOnePlace(AtHead(s, w), x) && InOnePlace(Skip(cfg, s, w), x)
  {
    SweepTotal(Is(x), cfg, s, w);
  }

  lemma WorkConserves(cfg: Config, s: State, w: nat, x: Item)
    requires w < |s.workers|
    requires InOnePlace(s, x)
    ensures InOnePlace(WorkStep(cfg, s, w), x)
  {
    hide InOnePlace;
    var wk := s.workers[w];
    if wk.done {
    } else if wk.hand.Busy? && wk.hand.todo != [] {
      SendConserves(cfg, s, w, x);
    } else if wk.hand.Busy? {
      FinishConserves(cfg, s, w, x);
    } else if wk.pos < |cfg.order| && Queue(s, cfg.order[wk.pos]) != [] {
      PopConserves(s, w, cfg.order[wk.pos], x);
    } else {
      SweepConserves(cfg, s, w, x);
    }
  }

  lemma TeardownConserves(s: State, a: ActorType, x: Item)
    requires InOnePlace(s, x)
    ensures InOnePlace(Teardown(s, a), x)
  {
    TeardownTotal(Is(x), s, a);
  }

  lemma StopConserves(s: State, x: Item)
    requires InOnePlace(s, x)
    ensures InOnePlace(s.(running := false), x)
  {
  }

  lemma CrashConserves(s: State, x: Item)
    requires InOnePlace(s, x)
    ensures InOnePlace(Crash(s), x)
  {
    CrashTotal(Is(x), s);
  }

  lemma StepConserves(cfg: Config, s: State, act: Action, x: Item)
    requires InOnePlace(s, x)
    ensures InOnePlace(Step(cfg, s, act), x)
  {
    hide InOnePlace;
    if s.crashed {
      return;
    }
    CrashConserves(s, x);
    match act
    case Receive(sessionId, frame) =>
      if Route(sessionId, frame).Event? {
        DispatchConserves(cfg, s, Route(sessionId, frame).env, x);
      }
    case Work(w) =>
      if w < |s.workers| {
        WorkConserves(cfg, s, w, x);
      }
    case Destroy(a) => TeardownConserves(s, a, x);
    case Stop => StopConserves(s, x);
    case StoreFails(w) =>
  }

  lemma PushShapes(cfg: Config, s: State, tag: nat, env: Envelope)
    requires Shaped(cfg, s)
    ensures Shaped(cfg, Push(cfg, s, tag, env))
  {
  }

  lemma StepShapes(cfg: Config, s: State, act: Action)
    requires Shaped(cfg, s)
    ensures Shaped(cfg, Step(cfg, s, act))
  {
    if act.Receive? && Route(act.sessionId, act.frame).Event? {
      var env := Route(act.sessionId, act.frame).env;
      var entry := Dispatched(env, VerdictOn(cfg, s, env.destination) == Accepted);
      PushShapes(cfg, s.(dispatched := s.dispatched + [entry]), |s.dispatched|, env);
    } else if act.Work? && act.worker < |s.workers| {
      var hand := s.workers[act.worker].hand;
      if hand.Busy? && hand.todo != [] {
        PushShapes(cfg, s, hand.item.tag, hand.todo[0]);
      }
    }
  }

  lemma StepOwned(cfg: Config, s: State, act: Action)
    requires Owned(cfg, s)
    ensures Owned(cfg, Step(cfg, s, act))
  {
    hide InOnePlace, Shaped, Step;
    StepShapes(cfg, s, act);
    forall x: Item ensures InOnePlace(Step(cfg, s, act), x) {
      StepConserves(cfg, s, act, x);
    }
  }

  /** The theorem: conservation in every reachable state, and no mailbox above its capacity. */
  lemma {:induction false} RunOwned(cfg: Config, acts: seq<Action>)
    ensures Owned(cfg, Run(cfg, acts))
  {
    if acts == [] {
      forall x: Item ensures InOnePlace(Init(cfg), x) {
        IdleHands(Init(cfg).workers, Is(x).hand);
      }
    } else {
      RunOwned(cfg, acts[..|acts| - 1]);
      StepOwned(cfg, Run(cfg, acts[..|acts| - 1]), acts[|acts| - 1]);
    }
  }

  // ---------------------------------------------------------------- reading the conservation law

  lemma {:induction false} IdleHands(workers: seq<Worker>, f: Hand -> int)
    requires f(Idle) == 0
    requires forall w | 0 <= w < |workers| :: workers[w].hand.Idle?
    ensures Hands(workers, f) == 0
  {
    if workers != [] {
      IdleHands(workers[..|workers| - 1], f);
    }
  }

  lemma {:induction false} CountIn(xs: seq<Item>, x: Item)
    ensures Sum(xs, Is(x).queued) == multiset(xs)[x]
  {
    SumCount(xs, Is(x).queued, x);
  }

  lemma {:induction false} HandsHold(workers: seq<Worker>, x: Item)
    ensures Hands(workers, Is(x).hand) >= 0
    ensures forall w | 0 <= w < |workers| && workers[w].hand.Busy? && workers[w].hand.item == x :: Hands(workers, Is(x).hand) >= 1
    ensures forall v, w | 0 <= v < w < |workers| && workers[v].hand.Busy? && workers[w].hand.Busy?
              && workers[v].hand.item == x && workers[w].hand.item == x :: Hands(workers, Is(x).hand) >= 2
  {
    if workers != [] {
      HandsHold(workers[..|workers| - 1], x);
    }
  }

  /** How often `x` occurs in each place; by conservation these numbers add up to at most one. */
  lemma Places(cfg: Config, s: State, x: Item)
    requires Owned(cfg, s)
    ensures multiset(Queue(s, Session))[x] + multiset(Queue(s, Chat))[x] + multiset(Queue(s, Message))[x]
            + multiset(Queue(s, Storage))[x] + Hands(s.workers, Is(x).hand) + multiset(s.handled)[x]
            + multiset(s.leaked)[x] + multiset(s.freed)[x] + multiset(s.drained)[x]
            == if Created(s, x) then 1 else 0
  {
    CountIn(Queue(s, Session), x);
    CountIn(Queue(s, Chat), x);
    CountIn(Queue(s, Message), x);
    CountIn(Queue(s, Storage), x);
    CountIn(s.handled, x);
    CountIn(s.leaked, x);
    CountIn(s.freed, x);
    CountIn(s.drained, x);
    assert InOnePlace(s, x);
  }

  lemma HandCreated(cfg: Config, s: State, w: nat)
    requires Owned(cfg, s) && w < |s.workers| && s.workers[w].hand.Busy?
    ensures Created(s, s.workers[w].hand.item)
  {
    Places(cfg, s, s.workers[w].hand.item);
    HandsHold(s.workers, s.workers[w].hand.item);
  }

  /** Nothing is queued, held or handled that was not created. */
  lemma OnlyCreated(cfg: Config, s: State)
    requires Owned(cfg, s)
    ensures forall a, i | a in s.boxes && 0 <= i < |Queue(s, a)| :: Created(s, Queue(s, a)[i])
    ensures forall w | 0 <= w < |s.workers| && s.workers[w].hand.Busy? :: Created(s, s.workers[w].hand.item)
    ensures forall i | 0 <= i < |s.handled| :: Created(s, s.handled[i])
    ensures forall i | 0 <= i < |s.leaked| :: Created(s, s.leaked[i])
    ensures forall i | 0 <= i < |s.freed| :: Created(s, s.freed[i])
    ensures forall i | 0 <= i < |s.drained| :: Created(s, s.drained[i])
  {
    forall x: Item ensures
      (x in s.handled || x in s.leaked || x in s.freed || x in s.drained
       || x in Queue(s, Session) || x in Queue(s, Chat) || x in Queue(s, Message) || x in Queue(s, Storage)
       || Hands(s.workers, Is(x).hand) >= 1) ==> Created(s, x)
    {
      Places(cfg, s, x);
      HandsHold(s.workers, x);
    }
    forall w | 0 <= w < |s.workers| && s.workers[w].hand.Busy? ensures Created(s, s.workers[w].hand.item) {
      HandsHold(s.workers, s.workers[w].hand.item);
    }
  }

  /** No envelope is handled twice, in any run. */
  lemma HandledOnce(cfg: Config, acts: seq<Action>, i: nat, j: nat)
    requires i < j < |Run(cfg, acts).handled|
    ensures Run(cfg, acts).handled[i] != Run(cfg, acts).handled[j]
  {
    var s := Run(cfg, acts);
    RunOwned(cfg, acts);
    var x := s.handled[i];
    Places(cfg, s, x);
    HandsHold(s.workers, x);
    assert s.handled == s.handled[..j] + s.handled[j..];
    assert x in s.handled[..j];
    assert s.handled[j] in s.handled[j..];
  }
}
