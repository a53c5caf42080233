/** What every envelope of every run keeps: the right mailbox, a payload its actor expects, and fields
    copied unchanged from one dispatched event. */
module Routing {
  import opened Messages
  import opened Mailboxes
  import opened Pipeline
  import opened Ownership

  /** `env` is the event itself, its forwarded copy, or one of the chat actor's envelopes for it. */
  predicate Descends(root: Envelope, env: Envelope) {
    || env == root
    || (root.payload.SendMessage?
        && (env == Envelope(Chat, root.payload) || env in Sends(Chat, root.payload)))
  }

  /** An envelope the dispatcher can build. */
  predicate IsRoot(env: Envelope) {
    || (env.destination == Message && Meant(Message, env.payload))
    || (env.destination == Session && env.payload.Auth?)
  }

  predicate Bred(s: State, item: Item) {
    && item.tag < |s.dispatched|
    && Meant(item.env.destination, item.env.payload)
    && Descends(s.dispatched[item.tag].env, item.env)
  }

  /** A handler in hand: the envelope came from the actor's own mailbox and a suffix of its sends is left. */
  predicate HandOk(hand: Hand) {
    hand.Busy? ==>
      && hand.item.env.destination == hand.actor
      && var all := Sends(hand.actor, hand.item.env.payload);
         |hand.todo| <= |all| && hand.todo == all[|all| - |hand.todo|..]
  }

  predicate Addressed(items: seq<Item>, a: ActorType) {
    forall i | 0 <= i < |items| :: items[i].env.destination == a
  }

  predicate RootsOk(s: State) {
    forall t | 0 <= t < |s.dispatched| :: IsRoot(s.dispatched[t].env)
  }

  predicate CreatedOk(s: State) {
    forall i | 0 <= i < |s.created| :: Bred(s, s.created[i])
  }

  predicate PlacesOk(s: State) {
    && (forall a | a in s.boxes :: Addressed(s.boxes[a].queue, a))
    && (forall w | 0 <= w < |s.workers| :: HandOk(s.workers[w].hand))
  }

  ghost predicate Sound(cfg: Config, s: State) {
    Owned(cfg, s) && RootsOk(s) && CreatedOk(s) && PlacesOk(s)
  }

  lemma RouteGivesRoots(sessionId: string, frame: Inbound)
    ensures Route(sessionId, frame).Event? ==> IsRoot(Route(sessionId, frame).env)
  {
  }

  /** Whatever a handler sends descends from the same event and is addressed to an actor that expects it. */
  lemma SendsDescend(root: Envelope, env: Envelope, out: Envelope)
    requires IsRoot(root) && Descends(root, env) && out in Sends(env.destination, env.payload)
    ensures Descends(root, out) && Meant(out.destination, out.payload)
  {
  }

  lemma PushKeeps(cfg: Config, s: State, tag: nat, env: Envelope)
    requires RootsOk(s) && CreatedOk(s) && Bred(s, Item(|s.created|, tag, env))
    ensures RootsOk(Push(cfg, s, tag, env)) && CreatedOk(Push(cfg, s, tag, env))
    ensures Push(cfg, s, tag, env).workers == s.workers
  {
    var t := Push(cfg, s, tag, env);
    assert t.dispatched == s.dispatched && t.created == s.created + [Item(|s.created|, tag, env)];
  }

  lemma PushPlacesOk(cfg: Config, s: State, tag: nat, env: Envelope)
    requires PlacesOk(s)
    ensures PlacesOk(Push(cfg, s, tag, env))
  {
    var t := Push(cfg, s, tag, env);
    forall a | a in t.boxes ensures Addressed(t.boxes[a].queue, a) {
      assert Addressed(s.boxes[a].queue, a);
    }
  }

  lemma DispatchKeeps(cfg: Config, s: State, env: Envelope)
    requires RootsOk(s) && CreatedOk(s) && PlacesOk(s) && IsRoot(env)
    ensures var t := Dispatch(cfg, s, env); RootsOk(t) && CreatedOk(t) && PlacesOk(t)
  {
    var s1 := s.(dispatched := s.dispatched + [Dispatched(env, VerdictOn(cfg, s, env.destination) == Accepted)]);
    assert CreatedOk(s1) by {
      forall i | 0 <= i < |s1.created| ensures Bred(s1, s1.created[i]) {
        assert Bred(s, s.created[i]);
      }
    }
    assert Dispatch(cfg, s, env) == Push(cfg, s1, |s.dispatched|, env);
    PushKeeps(cfg, s1, |s.dispatched|, env);
    PushPlacesOk(cfg, s1, |s.dispatched|, env);
  }

  /** Moving a worker on touches no envelope. */
  lemma WorkerKeeps(s: State, w: nat, wk: Worker)
    requires RootsOk(s) && CreatedOk(s) && PlacesOk(s) && w < |s.workers| && HandOk(wk.hand)
    ensures var t := s.(workers := s.workers[w := wk]); RootsOk(t) && CreatedOk(t) && PlacesOk(t)
  {
    var t := s.(workers := s.workers[w := wk]);
    forall i | 0 <= i < |t.created| ensures Bred(t, t.created[i]) {
      assert Bred(s, s.created[i]);
    }
  }

  lemma SentHandOk(hand: Hand)
    requires hand.Busy? && HandOk(hand) && hand.todo != []
    ensures HandOk(hand.(todo := hand.todo[1..])) && hand.todo[0] in Sends(hand.item.env.destination, hand.item.env.payload)
  {
  }

  lemma SendKeeps(cfg: Config, s: State, w: nat)
    requires Sound(cfg, s) && w < |s.workers| && s.workers[w].hand.Busy? && s.workers[w].hand.todo != []
    ensures var t := SendNext(cfg, s, w); RootsOk(t) && CreatedOk(t) && PlacesOk(t)
  {
    var hand := s.workers[w].hand;
    HandCreated(cfg, s, w);
    assert HandOk(hand) && Bred(s, hand.item);
    SentHandOk(hand);
    SendsDescend(s.dispatched[hand.item.tag].env, hand.item.env, hand.todo[0]);
    hide Push, HandOk, RootsOk, CreatedOk, PlacesOk, Descends, Meant;
    PushKeeps(cfg, s, hand.item.tag, hand.todo[0]);
    PushPlacesOk(cfg, s, hand.item.tag, hand.todo[0]);
    WorkerKeeps(Push(cfg, s, hand.item.tag, hand.todo[0]), w, s.workers[w].(hand := hand.(todo := hand.todo[1..])));
  }

  lemma PopKeeps(s: State, w: nat, a: ActorType)
    requires RootsOk(s) && CreatedOk(s) && PlacesOk(s) && w < |s.workers| && Queue(s, a) != []
    ensures var t := Pop(s, w, a); RootsOk(t) && CreatedOk(t) && PlacesOk(t)
  {
    assert Addressed(s.boxes[a].queue, a);
  }

  lemma FinishKeeps(cfg: Config, s: State, w: nat)
    requires RootsOk(s) && CreatedOk(s) && PlacesOk(s) && w < |s.workers| && s.workers[w].hand.Busy?
    ensures var t := Finish(cfg, s, w); RootsOk(t) && CreatedOk(t) && PlacesOk(t)
  {
    WorkerKeeps(s, w, Advance(cfg, s.workers[w].(processed := true)));
  }

  lemma WorkKeeps(cfg: Config, s: State, w: nat)
    requires Sound(cfg, s) && w < |s.workers|
    ensures var t := WorkStep(cfg, s, w); RootsOk(t) && CreatedOk(t) && PlacesOk(t)
  {
    var wk := s.workers[w];
    assert HandOk(Idle) && RootsOk(s) && CreatedOk(s) && PlacesOk(s);
    hide HandOk, RootsOk, CreatedOk, PlacesOk, Owned;
    if wk.done {
    } else if wk.hand.Busy? && wk.hand.todo != [] {
      SendKeeps(cfg, s, w);
    } else if wk.hand.Busy? {
      FinishKeeps(cfg, s, w);
    } else if wk.pos < |cfg.order| && Queue(s, cfg.order[wk.pos]) != [] {
      PopKeeps(s, w, cfg.order[wk.pos]);
    } else {
      WorkerKeeps(s, w, AtHead(s, w).workers[w]);
      WorkerKeeps(s, w, Skip(cfg, s, w).workers[w]);
    }
  }

  lemma StepSound(cfg: Config, s: State, act: Action)
    requires Sound(cfg, s)
    ensures Sound(cfg, Step(cfg, s, act))
  {
    StepOwned(cfg, s, act);
    if s.crashed {
      return;
    }
    match act
    case Receive(sessionId, frame) =>
      RouteGivesRoots(sessionId, frame);
      if Route(sessionId, frame).Event? {
        DispatchKeeps(cfg, s, Route(sessionId, frame).env);
      }
    case Work(w) =>
      if w < |s.workers| {
        WorkKeeps(cfg, s, w);
      }
    case _ =>
  }

  lemma {:induction false} RunSound(cfg: Config, acts: seq<Action>)
    ensures Sound(cfg, Run(cfg, acts))
  {
    RunOwned(cfg, acts);
    if acts != [] {
      RunSound(cfg, acts[..|acts| - 1]);
      StepSound(cfg, Run(cfg, acts[..|acts| - 1]), acts[|acts| - 1]);
    }
  }

  lemma EveryActor(a: ActorType)
    ensures a in ALL_ACTORS
  {
    match a {
      case Session =>
      case Chat =>
      case Message =>
      case Storage =>
    }
  }

  /** Typed routing: in every reachable state each mailbox, and each handler in hand, has only payloads its
      actor is meant to receive, and every destination has a mailbox. */
  lemma TypedRouting(cfg: Config, acts: seq<Action>)
    ensures var s := Run(cfg, acts);
      && (forall env: Envelope :: env.destination in s.boxes)
      && (forall a, i | a in s.boxes && 0 <= i < |Queue(s, a)| ::
            Queue(s, a)[i].env.destination == a && Meant(a, Queue(s, a)[i].env.payload))
      && (forall w | 0 <= w < |s.workers| && s.workers[w].hand.Busy? ::
            s.workers[w].hand.item.env.destination == s.workers[w].hand.actor
            && Meant(s.workers[w].hand.actor, s.workers[w].hand.item.env.payload))
  {
    var s := Run(cfg, acts);
    RunSound(cfg, acts);
    OnlyCreated(cfg, s);
    forall env: Envelope ensures env.destination in s.boxes {
      EveryActor(env.destination);
      assert s.boxes.Keys == ALL_ACTORS;
    }
    forall a, i | a in s.boxes && 0 <= i < |Queue(s, a)|
      ensures Queue(s, a)[i].env.destination == a && Meant(a, Queue(s, a)[i].env.payload)
    {
      assert Addressed(s.boxes[a].queue, a) && Created(s, Queue(s, a)[i]);
      assert Bred(s, s.created[Queue(s, a)[i].id]);
    }
    forall w | 0 <= w < |s.workers| && s.workers[w].hand.Busy?
      ensures s.workers[w].hand.item.env.destination == s.workers[w].hand.actor
        && Meant(s.workers[w].hand.actor, s.workers[w].hand.item.env.payload)
    {
      assert HandOk(s.workers[w].hand) && Created(s, s.workers[w].hand.item);
      assert Bred(s, s.created[s.workers[w].hand.item.id]);
    }
  }

  predicate AllActive(s: State) {
    (forall a | a in s.boxes :: s.boxes[a].active) && s.freed == [] && s.drained == []
  }

  lemma PushActive(cfg: Config, s: State, tag: nat, env: Envelope)
    requires AllActive(s) && s.boxes.Keys == ALL_ACTORS
    ensures AllActive(Push(cfg, s, tag, env))
  {
    EveryActor(env.destination);
  }

  /** Until a mailbox is torn down, a push fails only because a queue is full. */
  lemma {:induction false} OnlyFullRefuses(cfg: Config, acts: seq<Action>)
    requires forall i | 0 <= i < |acts| :: !acts[i].Destroy?
    ensures AllActive(Run(cfg, acts)) && (NothingLost(Run(cfg, acts)) <==> Run(cfg, acts).leaked == [])
  {
    if acts != [] {
      var s, act := Run(cfg, acts[..|acts| - 1]), acts[|acts| - 1];
      OnlyFullRefuses(cfg, acts[..|acts| - 1]);
      RunOwned(cfg, acts[..|acts| - 1]);
      if act.Receive? && Route(act.sessionId, act.frame).Event? {
        var env := Route(act.sessionId, act.frame).env;
        var entry := Dispatched(env, VerdictOn(cfg, s, env.destination) == Accepted);
        PushActive(cfg, s.(dispatched := s.dispatched + [entry]), |s.dispatched|, env);
      } else if act.Work? && act.worker < |s.workers| {
        var hand := s.workers[act.worker].hand;
        if hand.Busy? && hand.todo != [] {
          PushActive(cfg, s, hand.item.tag, hand.todo[0]);
        }
      }
      hide Owned, Push;
    }
  }

  /** `t` is `s` with one new envelope, put where the mailbox of its destination lets it go. */
  predicate Placed(cfg: Config, s: State, t: State, x: Item) {
    var a := x.env.destination;
    && a in s.boxes && a in t.boxes && t.created == s.created + [x] && x.id == |s.created|
    && var box := s.boxes[a];
       && t.boxes[a].queue == box.queue + (if box.active && |box.queue| < cfg.capacity then [x] else [])
       && t.leaked == s.leaked + (if box.active && |box.queue| == cfg.capacity then [x] else [])
       && t.freed == s.freed + (if box.active then [] else [x])
  }

  lemma PushPlaces(cfg: Config, s: State, tag: nat, env: Envelope)
    requires env.destination in s.boxes && |s.boxes[env.destination].queue| <= cfg.capacity
    ensures Placed(cfg, s, Push(cfg, s, tag, env), Item(|s.created|, tag, env))
  {
  }

  lemma StepPlaces(cfg: Config, s: State, act: Action)
    requires Owned(cfg, s) && Step(cfg, s, act).created != s.created
    ensures var t := Step(cfg, s, act); |t.created| == |s.created| + 1 && Placed(cfg, s, t, t.created[|s.created|])
  {
    if act.Receive? {
      var env := Route(act.sessionId, act.frame).env;
      EveryActor(env.destination);
      var entry := Dispatched(env, VerdictOn(cfg, s, env.destination) == Accepted);
      PushPlaces(cfg, s.(dispatched := s.dispatched + [entry]), |s.dispatched|, env);
    } else {
      var hand := s.workers[act.worker].hand;
      EveryActor(hand.todo[0].destination);
      PushPlaces(cfg, s, hand.item.tag, hand.todo[0]);
    }
    hide Push, Owned;
  }

  lemma NotYetAnywhere(cfg: Config, s: State, x: Item)
    requires Owned(cfg, s) && x.id == |s.created| && x.env.destination in s.boxes
    ensures x !in s.boxes[x.env.destination].queue && x !in s.leaked && x !in s.freed
  {
    Places(cfg, s, x);
    HandsHold(s.workers, x);
    var a := x.env.destination;
    EveryActor(a);
    assert multiset(Queue(s, a))[x] == 0;
  }

  /** Where a new envelope goes, in every reachable state: into its mailbox exactly if that is open and below
      its capacity, leaked exactly if it is open and full, destroyed exactly if it is closed. */
  lemma CreatedGoesTo(cfg: Config, acts: seq<Action>, act: Action)
    requires Run(cfg, acts + [act]).created != Run(cfg, acts).created
    ensures var s, t := Run(cfg, acts), Run(cfg, acts + [act]);
      && |t.created| == |s.created| + 1
      && var x := t.created[|s.created|]; var a := x.env.destination;
         && a in s.boxes && a in t.boxes
         && (x in t.boxes[a].queue <==> s.boxes[a].active && |s.boxes[a].queue| < cfg.capacity)
         && (x in t.leaked <==> s.boxes[a].active && |s.boxes[a].queue| == cfg.capacity)
         && (x in t.freed <==> !s.boxes[a].active)
  {
    assert (acts + [act])[..|acts|] == acts;
    RunOwned(cfg, acts);
    hide Owned, Step;
    StepPlaces(cfg, Run(cfg, acts), act);
    NotYetAnywhere(cfg, Run(cfg, acts), Run(cfg, acts + [act]).created[|Run(cfg, acts).created|]);
  }

  /** A dispatched event is marked as accepted exactly if its mailbox was open and below its capacity. */
  lemma AcceptedExactly(cfg: Config, acts: seq<Action>, act: Action)
    requires Run(cfg, acts + [act]).dispatched != Run(cfg, acts).dispatched
    ensures var s, t := Run(cfg, acts), Run(cfg, acts + [act]);
      && |t.dispatched| == |s.dispatched| + 1 && t.dispatched[..|s.dispatched|] == s.dispatched
      && var d := t.dispatched[|s.dispatched|];
         && d.env.destination in s.boxes
         && (d.accepted <==> s.boxes[d.env.destination].active && |s.boxes[d.env.destination].queue| < cfg.capacity)
  {
    assert (acts + [act])[..|acts|] == acts;
    RunOwned(cfg, acts);
    EveryActor(Route(act.sessionId, act.frame).env.destination);
  }
}
