/** Building runs: what one worker can bring about by its own turns. A worker walks along the actor table,
    handling on its way whatever has no consequences, fetches an envelope, sends what its handler sends and
    returns. Every run built here is orderly. */
module Walks {
  import opened Messages
  import opened Mailboxes
  import opened Pipeline
  import opened Routing
  import opened Ledger
  import opened Fifo
  import opened Sweeps

  // ---------------------------------------------------------------- reachability

  ghost predicate Reaches(cfg: Config, s: State, t: State) {
    exists acts :: Orderly(acts) && t == RunFrom(cfg, s, acts)
  }

  lemma Then(cfg: Config, r: State, s: State, t: State)
    requires Reaches(cfg, r, s) && Reaches(cfg, s, t)
    ensures Reaches(cfg, r, t)
  {
    var xs :| Orderly(xs) && s == RunFrom(cfg, r, xs);
    var ys :| Orderly(ys) && t == RunFrom(cfg, s, ys);
    RunConcat(cfg, r, xs, ys);
    assert Orderly(xs + ys);
  }

  lemma Next(cfg: Config, s: State, act: Action)
    requires Orderly([act])
    ensures Reaches(cfg, s, Step(cfg, s, act))
  {
    assert [act][..0] == [];
    assert RunFrom(cfg, s, [act]) == Step(cfg, RunFrom(cfg, s, []), act);
  }

  lemma Turn(cfg: Config, s: State, w: nat)
    ensures Reaches(cfg, s, Step(cfg, s, Work(w)))
  {
    Next(cfg, s, Work(w));
  }

  lemma Stay(cfg: Config, s: State)
    ensures Reaches(cfg, s, s)
  {
    assert RunFrom(cfg, s, []) == s;
  }

  lemma Witness(cfg: Config, t: State) returns (acts: seq<Action>)
    requires Reaches(cfg, Init(cfg), t)
    ensures Orderly(acts) && t == Run(cfg, acts)
  {
    acts :| Orderly(acts) && t == RunFrom(cfg, Init(cfg), acts);
  }

  // ---------------------------------------------------------------- what a walk depends on

  /** Running, with open mailboxes. */
  predicate Calm(s: State) {
    s.running && !s.crashed && s.boxes.Keys == ALL_ACTORS && forall a | a in s.boxes :: s.boxes[a].active
  }

  predicate Free(s: State, w: nat) {
    w < |s.workers| && !s.workers[w].done && s.workers[w].hand.Idle? && s.workers[w].pos <= 4
  }

  predicate Holds(s: State, w: nat, a: ActorType, x: Item, todo: seq<Envelope>) {
    w < |s.workers| && !s.workers[w].done && s.workers[w].hand == Busy(a, x, todo) && s.workers[w].pos < 4
  }

  /** Only worker `w` moved. */
  predicate Apart(s: State, t: State, w: nat) {
    && t.dispatched == s.dispatched && |t.workers| == |s.workers|
    && forall v | 0 <= v < |s.workers| && v != w :: t.workers[v] == s.workers[v]
  }

  /** The effects of kind `k` so far, by the number of their events. */
  function Log(k: Kind, s: State): seq<nat> {
    Effects(k, s.handled)
  }

  /** Handling `x` sends nothing, cannot throw and is no effect of kind `k`. */
  predicate Inert(cfg: Config, k: Kind, a: ActorType, x: Item) {
    Sends(a, x.env.payload) == [] && !Throws(cfg, a, x.env.payload) && !IsKind(k, x.env)
  }

  predicate Idles(cfg: Config, k: Kind, s: State, a: ActorType) {
    forall i | 0 <= i < |Queue(s, a)| :: Inert(cfg, k, a, Queue(s, a)[i])
  }

  /** What idled still idles, what was empty is still empty. */
  predicate Quieter(cfg: Config, k: Kind, s: State, t: State) {
    forall a :: (Idles(cfg, k, s, a) ==> Idles(cfg, k, t, a)) && (Queue(s, a) == [] ==> Queue(t, a) == [])
  }

  lemma SameQueues(cfg: Config, k: Kind, s: State, t: State)
    requires forall a :: Queue(t, a) == Queue(s, a)
    ensures Quieter(cfg, k, s, t)
  {
    forall a ensures Idles(cfg, k, s, a) ==> Idles(cfg, k, t, a) {
    }
  }

  lemma ShorterQueue(cfg: Config, k: Kind, s: State, t: State, a: ActorType)
    requires Queue(s, a) != [] && Queue(t, a) == Queue(s, a)[1..] && forall b | b != a :: Queue(t, b) == Queue(s, b)
    ensures Quieter(cfg, k, s, t)
  {
    forall b ensures Idles(cfg, k, s, b) ==> Idles(cfg, k, t, b) {
    }
  }

  // ---------------------------------------------------------------- one turn of one worker

  lemma PushCalm(cfg: Config, s: State, tag: nat, env: Envelope)
    requires Calm(s)
    ensures var t := Push(cfg, s, tag, env);
      && Calm(t) && t.workers == s.workers && t.dispatched == s.dispatched && t.handled == s.handled
      && Queue(t, env.destination) == Queue(s, env.destination)
           + (if |Queue(s, env.destination)| < cfg.capacity then [Item(|s.created|, tag, env)] else [])
      && forall a | a != env.destination :: Queue(t, a) == Queue(s, a)
  {
    EveryActor(env.destination);
  }

  lemma MakesSend(cfg: Config, s: State, w: nat, a: ActorType, x: Item, todo: seq<Envelope>) returns (t: State)
    requires Calm(s) && Holds(s, w, a, x, todo) && todo != []
    ensures Calm(t) && Reaches(cfg, s, t) && Apart(s, t, w) && Holds(t, w, a, x, todo[1..])
    ensures forall k :: Log(k, t) == Log(k, s)
    ensures var env := todo[0];
      && Queue(t, env.destination) == Queue(s, env.destination)
           + (if |Queue(s, env.destination)| < cfg.capacity then [Item(|s.created|, x.tag, env)] else [])
      && forall b | b != env.destination :: Queue(t, b) == Queue(s, b)
  {
    hide Push;
    t := Step(cfg, s, Work(w));
    Turn(cfg, s, w);
    PushCalm(cfg, s, x.tag, todo[0]);
    assert t == SendNext(cfg, s, w);
  }

  lemma Returns(cfg: Config, s: State, w: nat, a: ActorType, x: Item) returns (t: State)
    requires Calm(s) && Holds(s, w, a, x, []) && !Throws(cfg, a, x.env.payload) && |cfg.order| == 4
    ensures Calm(t) && Reaches(cfg, s, t) && Apart(s, t, w)
    ensures forall b :: Queue(t, b) == Queue(s, b)
    ensures Free(t, w) && t.workers[w].pos == s.workers[w].pos + 1
    ensures forall k :: Log(k, t) == Log(k, s) + if IsKind(k, x.env) then [x.tag] else []
  {
    t := Step(cfg, s, Work(w));
    Turn(cfg, s, w);
    assert t == Finish(cfg, s, w);
    forall k ensures Log(k, t) == Log(k, s) + if IsKind(k, x.env) then [x.tag] else [] {
      EffectsPush(k, s.handled, x);
    }
  }

  lemma Pops(cfg: Config, s: State, w: nat, a: ActorType, x: Item) returns (t: State)
    requires Calm(s) && Free(s, w) && |cfg.order| == 4 && s.workers[w].pos < 4 && cfg.order[s.workers[w].pos] == a
    requires Queue(s, a) != [] && Queue(s, a)[0] == x
    ensures Calm(t) && Reaches(cfg, s, t) && Apart(s, t, w) && forall k :: Log(k, t) == Log(k, s)
    ensures Holds(t, w, a, x, Sends(a, x.env.payload)) && t.workers[w].pos == s.workers[w].pos
    ensures Queue(t, a) == Queue(s, a)[1..] && forall b | b != a :: Queue(t, b) == Queue(s, b)
  {
    hide Sends;
    t := Step(cfg, s, Work(w));
    Turn(cfg, s, w);
    assert t == Pop(s, w, a);
  }

  /** A look at an empty mailbox, or the loop head. */
  lemma MovesOn(cfg: Config, s: State, w: nat) returns (t: State)
    requires Calm(s) && Free(s, w) && |cfg.order| == 4
    requires s.workers[w].pos < 4 ==> Queue(s, cfg.order[s.workers[w].pos]) == []
    ensures Calm(t) && Reaches(cfg, s, t) && Apart(s, t, w) && forall k :: Log(k, t) == Log(k, s)
    ensures forall b :: Queue(t, b) == Queue(s, b)
    ensures Free(t, w) && t.workers[w].pos == if s.workers[w].pos == 4 then 0 else s.workers[w].pos + 1
  {
    t := Step(cfg, s, Work(w));
    Turn(cfg, s, w);
  }

  // ---------------------------------------------------------------- walking

  /** The worker handles an envelope without consequences. */
  lemma Absorbs(cfg: Config, k: Kind, s: State, w: nat) returns (t: State)
    requires Calm(s) && Free(s, w) && |cfg.order| == 4 && s.workers[w].pos < 4
    requires var a := cfg.order[s.workers[w].pos]; Queue(s, a) != [] && Inert(cfg, k, a, Queue(s, a)[0])
    ensures Calm(t) && Reaches(cfg, s, t) && Apart(s, t, w) && Log(k, t) == Log(k, s) && Quieter(cfg, k, s, t)
    ensures forall b | b != cfg.order[s.workers[w].pos] :: Queue(t, b) == Queue(s, b)
    ensures Queue(t, cfg.order[s.workers[w].pos]) == Queue(s, cfg.order[s.workers[w].pos])[1..]
    ensures Free(t, w) && t.workers[w].pos == s.workers[w].pos + 1
  {
    var a := cfg.order[s.workers[w].pos];
    var x := Queue(s, a)[0];
    assert Sends(a, x.env.payload) == [] && !Throws(cfg, a, x.env.payload) && !IsKind(k, x.env);
    hide Calm, Reaches, Log, Queue, Sends, Throws, IsKind, Inert, Quieter, Idles;
    var u := Pops(cfg, s, w, a, x);
    t := Returns(cfg, u, w, a, x);
    Then(cfg, s, u, t);
    ShorterQueue(cfg, k, s, t, a);
    assert Log(k, s) + [] == Log(k, s);
  }

  lemma HeadIsInert(cfg: Config, k: Kind, s: State, a: ActorType)
    requires Queue(s, a) != [] && Idles(cfg, k, s, a)
    ensures Inert(cfg, k, a, Queue(s, a)[0])
  {
  }

  /** Turns left until a worker at `pos` stands at position `i`. */
  function Distance(pos: nat, i: nat): nat
    requires pos <= 4 && i < 4
  {
    if pos <= i then i - pos else i + 5 - pos
  }

  /** A free worker walks to position `i` if on the way there is nothing with consequences. */
  lemma {:induction false} GoesTo(cfg: Config, k: Kind, s: State, w: nat, i: nat) returns (t: State)
    requires Calm(s) && Free(s, w) && ValidOrder(cfg.order) && i < 4
    requires forall b | b != cfg.order[i] :: Idles(cfg, k, s, b)
    ensures Calm(t) && Reaches(cfg, s, t) && Apart(s, t, w) && Log(k, t) == Log(k, s) && Quieter(cfg, k, s, t)
    ensures Queue(t, cfg.order[i]) == Queue(s, cfg.order[i])
    ensures Free(t, w) && t.workers[w].pos == i
    decreases Distance(s.workers[w].pos, i)
  {
    hide Calm, Log, Reaches, Idles, Queue;
    var pos := s.workers[w].pos;
    if pos == i {
      t := s;
      Stay(cfg, s);
    } else {
      var u;
      if pos < 4 && Queue(s, cfg.order[pos]) != [] {
        assert cfg.order[pos] != cfg.order[i];
        assert Idles(cfg, k, s, cfg.order[pos]);
        HeadIsInert(cfg, k, s, cfg.order[pos]);
        u := Absorbs(cfg, k, s, w);
      } else {
        u := MovesOn(cfg, s, w);
        SameQueues(cfg, k, s, u);
      }
      t := GoesTo(cfg, k, u, w, i);
      Then(cfg, s, u, t);
    }
  }

  lemma Place(order: seq<ActorType>, a: ActorType) returns (i: nat)
    requires ValidOrder(order)
    ensures i < 4 && order[i] == a
  {
    EveryActor(a);
    assert a in order;
    i :| 0 <= i < |order| && order[i] == a;
  }

  /** A free worker fetches the envelope at the head of the mailbox of `a`. */
  lemma Fetches(cfg: Config, k: Kind, s: State, w: nat, a: ActorType, x: Item) returns (t: State)
    requires Calm(s) && Free(s, w) && ValidOrder(cfg.order) && Queue(s, a) != [] && Queue(s, a)[0] == x
    requires forall b | b != a :: Idles(cfg, k, s, b)
    ensures Calm(t) && Reaches(cfg, s, t) && Apart(s, t, w) && Log(k, t) == Log(k, s) && Quieter(cfg, k, s, t)
    ensures Queue(t, a) == Queue(s, a)[1..] && Holds(t, w, a, x, Sends(a, x.env.payload))
  {
    hide Calm, Log, Reaches, Sends, Idles, Queue, Quieter;
    var i := Place(cfg.order, a);
    var u := GoesTo(cfg, k, s, w, i);
    t := Pops(cfg, u, w, a, x);
    Then(cfg, s, u, t);
    ShorterQueue(cfg, k, u, t, a);
    QuieterStill(cfg, k, s, u, t);
  }

  lemma QuieterStill(cfg: Config, k: Kind, r: State, s: State, t: State)
    requires Quieter(cfg, k, r, s) && Quieter(cfg, k, s, t)
    ensures Quieter(cfg, k, r, t)
  {
  }

  // ---------------------------------------------------------------- one event on its way

  /** Nothing is waiting at the message and chat actors, and nothing elsewhere has consequences for `k`. */
  predicate Clear(cfg: Config, k: Kind, s: State) {
    && Calm(s) && Queue(s, Message) == [] && Queue(s, Chat) == []
    && Idles(cfg, k, s, Storage) && Idles(cfg, k, s, Session)
  }

  lemma ClearIdles(cfg: Config, k: Kind, s: State, a: ActorType)
    requires Clear(cfg, k, s)
    ensures Idles(cfg, k, s, a)
  {
  }

  lemma StillClear(cfg: Config, k: Kind, s: State, t: State)
    requires Clear(cfg, k, s) && Calm(t) && Quieter(cfg, k, s, t)
    ensures Clear(cfg, k, t)
  {
    assert Idles(cfg, k, s, Storage) && Idles(cfg, k, s, Session);
  }

  /** The worker holds the message envelope of event `tag`. */
  predicate Took(s: State, w: nat, x: Item, e: SendEvent) {
    x.env == Envelope(Message, SendMessage(e)) && Holds(s, w, Message, x, [Envelope(Chat, x.env.payload)])
  }

  /** An event arrives and a free worker takes it in hand. */
  lemma Takes(cfg: Config, k: Kind, s: State, w: nat, e: SendEvent) returns (t: State, x: Item)
    requires Clear(cfg, k, s) && ValidOrder(cfg.order) && cfg.capacity > 0 && Free(s, w)
    ensures Clear(cfg, k, t) && Reaches(cfg, s, t) && Log(k, t) == Log(k, s) && Quieter(cfg, k, s, t)
    ensures |t.dispatched| == |s.dispatched| + 1 && |t.workers| == |s.workers|
    ensures forall v | 0 <= v < |s.workers| && v != w :: t.workers[v] == s.workers[v]
    ensures x.tag == |s.dispatched| && Took(t, w, x, e)
  {
    var u;
    u, x := Arrives(cfg, s, e);
    hide Calm, Reaches, Log, Queue, Sends, Quieter;
    assert forall b | b != Message :: Idles(cfg, k, u, b) by {
      forall b | b != Message ensures Idles(cfg, k, u, b) {
        ClearIdles(cfg, k, s, b);
      }
    }
    hide Idles;
    t := Fetches(cfg, k, u, w, Message, x);
    assert [x][1..] == [];
    Then(cfg, s, u, t);
    TookIt(x, e);
    NewEnvelopeGone(cfg, k, s, u, t);
    StillClear(cfg, k, s, t);
  }

  lemma TookIt(x: Item, e: SendEvent)
    requires x.env == Envelope(Message, SendMessage(e))
    ensures Sends(Message, x.env.payload) == [Envelope(Chat, x.env.payload)]
  {
  }

  lemma NewEnvelopeGone(cfg: Config, k: Kind, s: State, u: State, t: State)
    requires Quieter(cfg, k, u, t) && Queue(t, Message) == [] && forall b | b != Message :: Queue(u, b) == Queue(s, b)
    ensures Quieter(cfg, k, s, t)
  {
    forall b ensures Idles(cfg, k, s, b) ==> Idles(cfg, k, t, b) {
    }
  }

  lemma Arrives(cfg: Config, s: State, e: SendEvent) returns (u: State, x: Item)
    requires Calm(s) && Queue(s, Message) == [] && cfg.capacity > 0
    ensures Calm(u) && Reaches(cfg, s, u) && u.handled == s.handled && u.workers == s.workers
    ensures |u.dispatched| == |s.dispatched| + 1
    ensures x.tag == |s.dispatched| && x.env == Envelope(Message, SendMessage(e)) && Queue(u, Message) == [x]
    ensures forall b | b != Message :: Queue(u, b) == Queue(s, b)
  {
    x := Item(|s.created|, |s.dispatched|, Envelope(Message, SendMessage(e)));
    var act := Receive(e.sessionId, SendFrame(e.chatId, e.senderId, e.recipientId, e.text));
    u := Step(cfg, s, act);
    RouteReadsBack(e.sessionId, e.chatId, e.senderId, e.recipientId, e.text);
    var s1 := s.(dispatched := s.dispatched + [Dispatched(x.env, VerdictOn(cfg, s, Message) == Accepted)]);
    assert u == Push(cfg, s1, |s.dispatched|, x.env);
    hide Route;
    PushCalm(cfg, s1, |s.dispatched|, x.env);
    Next(cfg, s, act);
    assert forall b :: Queue(s1, b) == Queue(s, b);
  }

  /** The worker forwards the event to the chat actor and fetches it there. */
  lemma Forwards(cfg: Config, k: Kind, s: State, w: nat, x: Item, e: SendEvent) returns (t: State, y: Item)
    requires Clear(cfg, k, s) && ValidOrder(cfg.order) && cfg.capacity > 0 && Took(s, w, x, e)
    ensures Clear(cfg, k, t) && Reaches(cfg, s, t) && Apart(s, t, w) && Log(k, t) == Log(k, s) && Quieter(cfg, k, s, t)
    ensures y.tag == x.tag && y.env == Envelope(Chat, SendMessage(e)) && Holds(t, w, Chat, y, Sends(Chat, SendMessage(e)))
  {
    hide Calm, Log, Reaches, Sends, Queue, Quieter;
    y := Item(|s.created|, x.tag, Envelope(Chat, x.env.payload));
    var r := MakesSend(cfg, s, w, Message, x, [Envelope(Chat, x.env.payload)]);
    NoEffectYet(k, x.env);
    var u := Returns(cfg, r, w, Message, x);
    assert Log(k, r) + [] == Log(k, r);
    assert forall b | b != Chat :: Idles(cfg, k, u, b) by {
      forall b | b != Chat ensures Idles(cfg, k, u, b) {
        ClearIdles(cfg, k, s, b);
      }
    }
    hide Idles;
    t := Fetches(cfg, k, u, w, Chat, y);
    assert Queue(t, Chat) == [] by {
      assert [y][1..] == [];
    }
    ForwardGone(cfg, k, s, u, t);
    Then(cfg, s, r, u);
    Then(cfg, s, u, t);
    StillClear(cfg, k, s, t);
  }

  lemma ForwardGone(cfg: Config, k: Kind, s: State, u: State, t: State)
    requires Quieter(cfg, k, u, t) && Queue(t, Chat) == [] && forall b | b != Chat :: Queue(u, b) == Queue(s, b)
    ensures Quieter(cfg, k, s, t)
  {
    forall b ensures Idles(cfg, k, s, b) ==> Idles(cfg, k, t, b) {
    }
  }

  /** The worker at its chat handler sends an envelope that has no consequences for `k`. */
  lemma SendsInert(cfg: Config, k: Kind, s: State, w: nat, y: Item, todo: seq<Envelope>) returns (t: State)
    requires Clear(cfg, k, s) && Holds(s, w, Chat, y, todo) && todo != []
    requires todo[0].destination == Storage || todo[0].destination == Session
    requires forall id: nat :: Inert(cfg, k, todo[0].destination, Item(id, y.tag, todo[0]))
    ensures Clear(cfg, k, t) && Reaches(cfg, s, t) && Apart(s, t, w) && Log(k, t) == Log(k, s)
    ensures Holds(t, w, Chat, y, todo[1..])
    ensures Queue(t, todo[0].destination) == Queue(s, todo[0].destination)
      || Queue(t, todo[0].destination) == Queue(s, todo[0].destination) + [Item(|s.created|, y.tag, todo[0])]
    ensures Queue(s, todo[0].destination) == [] && cfg.capacity > 0 ==>
      Queue(t, todo[0].destination) == [Item(|s.created|, y.tag, todo[0])]
    ensures forall b | b != todo[0].destination :: Queue(t, b) == Queue(s, b)
  {
    hide Calm, Log, Reaches, Sends, Queue, Inert;
    t := MakesSend(cfg, s, w, Chat, y, todo);
    assert Inert(cfg, k, todo[0].destination, Item(|s.created|, y.tag, todo[0]));
    assert Idles(cfg, k, s, Storage) && Idles(cfg, k, s, Session);
  }
}
