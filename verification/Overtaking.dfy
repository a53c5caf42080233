/** The order theorem's condition is exact. With two workers, room in the mailboxes and one id the store
    takes, some schedule lets the second event overtake the first. For persist requests and echoes each
    worker takes one event from the message mailbox and the second worker runs ahead. For recipient frames
    that is not enough, since a mailbox of capacity one is full of the echo when the frame is sent: there
    the first worker steps aside with its own frame in hand at the right moment. */
module Overtaking {
  import opened Messages
  import opened Sequences
  import opened Pipeline
  import opened Ownership
  import opened Ledger
  import opened Fifo
  import opened Order
  import opened Sweeps
  import opened Walks

  // ---------------------------------------------------------------- persist requests and echoes

  /** The envelope of event `e` that is the effect of kind `k` is alone at its actor; the chat handler is
      about to return. */
  predicate FannedOut(cfg: Config, k: Kind, s: State, w: nat, y: Item, z: Item, e: SendEvent) {
    && Calm(s) && Holds(s, w, Chat, y, []) && z.tag == y.tag && z.env == EffectOf(k, e)
    && Queue(s, Sink(k)) == [z] && Queue(s, Message) == [] && Queue(s, Chat) == []
    && forall b | b != Sink(k) :: Idles(cfg, k, s, b)
  }

  lemma InertEnvelopes(cfg: Config, k: Kind, x: Item, e: SendEvent)
    ensures x.env == PersistOf(e) && !k.Persisted? && Parseable(cfg, e) ==> Inert(cfg, k, Storage, x)
    ensures x.env == EchoOf(e) && !k.Echo? ==> Inert(cfg, k, Session, x)
    ensures x.env == IncomingOf(e) && !k.Forward? ==> Inert(cfg, k, Session, x)
    ensures IsKind(k, EffectOf(k, e)) && EffectOf(k, e).destination == Sink(k) && Sends(Sink(k), EffectOf(k, e).payload) == []
  {
  }

  lemma SendsPersist(cfg: Config, k: Kind, s: State, w: nat, y: Item, e: SendEvent) returns (t: State, z: Item)
    requires k.Persisted? && Clear(cfg, k, s) && Queue(s, Storage) == [] && cfg.capacity > 0
    requires Holds(s, w, Chat, y, [PersistOf(e), EchoOf(e)])
    ensures Reaches(cfg, s, t) && Apart(s, t, w) && Log(k, t) == Log(k, s) && FannedOut(cfg, k, t, w, y, z, e)
  {
    hide Calm, Log, Reaches, Sends, Queue, Inert;
    z := Item(|s.created|, y.tag, PersistOf(e));
    var u := MakesSend(cfg, s, w, Chat, y, [PersistOf(e), EchoOf(e)]);
    t := MakesSend(cfg, u, w, Chat, y, [EchoOf(e)]);
    InertEnvelopes(cfg, k, Item(|u.created|, y.tag, EchoOf(e)), e);
    Then(cfg, s, u, t);
    forall b | b != Sink(k) ensures Idles(cfg, k, t, b) {
      ClearIdles(cfg, k, s, b);
    }
  }

  lemma SendsEcho(cfg: Config, k: Kind, s: State, w: nat, y: Item, e: SendEvent) returns (t: State, z: Item)
    requires k.Echo? && Clear(cfg, k, s) && Queue(s, Session) == [] && cfg.capacity > 0 && Parseable(cfg, e)
    requires Holds(s, w, Chat, y, [PersistOf(e), EchoOf(e)])
    ensures Reaches(cfg, s, t) && Apart(s, t, w) && Log(k, t) == Log(k, s) && FannedOut(cfg, k, t, w, y, z, e)
  {
    hide Calm, Log, Reaches, Sends, Queue, Inert;
    var u := MakesSend(cfg, s, w, Chat, y, [PersistOf(e), EchoOf(e)]);
    z := Item(|u.created|, y.tag, EchoOf(e));
    t := MakesSend(cfg, u, w, Chat, y, [EchoOf(e)]);
    InertEnvelopes(cfg, k, Item(|s.created|, y.tag, PersistOf(e)), e);
    Then(cfg, s, u, t);
    forall b | b != Sink(k) ensures Idles(cfg, k, t, b) {
      ClearIdles(cfg, k, s, b);
    }
  }

  /** An event without a recipient; all its effects of kind `k` can happen. */
  predicate Plain(cfg: Config, k: Kind, e: SendEvent) {
    !k.Forward? && e.recipientId == "" && (k.Persisted? || Parseable(cfg, e))
  }

  lemma FansOut(cfg: Config, k: Kind, s: State, w: nat, x: Item, e: SendEvent) returns (t: State, y: Item, z: Item)
    requires Clear(cfg, k, s) && ValidOrder(cfg.order) && cfg.capacity > 0 && Queue(s, Sink(k)) == []
    requires Took(s, w, x, e) && Plain(cfg, k, e)
    ensures Reaches(cfg, s, t) && Apart(s, t, w) && Log(k, t) == Log(k, s)
    ensures y.env == Envelope(Chat, SendMessage(e)) && y.tag == x.tag && FannedOut(cfg, k, t, w, y, z, e)
  {
    hide Calm, Log, Reaches, Queue, Inert, Idles;
    var q;
    q, y := Forwards(cfg, k, s, w, x, e);
    assert Sends(Chat, SendMessage(e)) == [PersistOf(e), EchoOf(e)];
    assert Queue(q, Sink(k)) == [];
    if k.Persisted? {
      t, z := SendsPersist(cfg, k, q, w, y, e);
    } else {
      t, z := SendsEcho(cfg, k, q, w, y, e);
    }
    Then(cfg, s, q, t);
  }

  /** One worker takes its event as far as the handler of its effect. */
  lemma Delivers(cfg: Config, k: Kind, s: State, w: nat, x: Item, e: SendEvent) returns (t: State, z: Item)
    requires Clear(cfg, k, s) && ValidOrder(cfg.order) && cfg.capacity > 0 && Queue(s, Sink(k)) == []
    requires Took(s, w, x, e) && Plain(cfg, k, e)
    ensures Clear(cfg, k, t) && Reaches(cfg, s, t) && Apart(s, t, w) && Log(k, t) == Log(k, s) && Queue(t, Sink(k)) == []
    ensures z.tag == x.tag && z.env == EffectOf(k, e) && Holds(t, w, Sink(k), z, [])
  {
    hide Calm, Log, Reaches, Queue, Inert, Idles, Sends, Quieter, Clear, Took, Plain;
    var r, y;
    r, y, z := FansOut(cfg, k, s, w, x, e);
    NoEffectYet(k, y.env);
    assert !Throws(cfg, Chat, y.env.payload);
    var u := Returns(cfg, r, w, Chat, y);
    assert Log(k, r) + [] == Log(k, r);
    SameQueues(cfg, k, r, u);
    StillIdle(cfg, k, r, u);
    InertEnvelopes(cfg, k, z, e);
    t := Fetches(cfg, k, u, w, Sink(k), z);
    assert [z][1..] == [];
    NowClear(cfg, k, u, t);
    Then(cfg, s, r, u);
    Then(cfg, s, u, t);
  }

  lemma StillIdle(cfg: Config, k: Kind, s: State, t: State)
    requires Quieter(cfg, k, s, t) && forall b | b != Sink(k) :: Idles(cfg, k, s, b)
    ensures forall b | b != Sink(k) :: Idles(cfg, k, t, b)
  {
  }

  lemma NowClear(cfg: Config, k: Kind, s: State, t: State)
    requires Calm(t) && Quieter(cfg, k, s, t) && Queue(t, Sink(k)) == [] && Queue(s, Message) == [] && Queue(s, Chat) == []
    requires forall b | b != Sink(k) :: Idles(cfg, k, s, b)
    ensures Clear(cfg, k, t)
  {
    assert Idles(cfg, k, t, Sink(k));
    assert Idles(cfg, k, t, Storage) && Idles(cfg, k, t, Session);
  }

  /** It then completes the effect. */
  lemma Completes(cfg: Config, k: Kind, s: State, w: nat, x: Item, e: SendEvent) returns (t: State)
    requires Clear(cfg, k, s) && ValidOrder(cfg.order) && cfg.capacity > 0 && Queue(s, Sink(k)) == []
    requires Took(s, w, x, e) && Plain(cfg, k, e) && Parseable(cfg, e)
    ensures Clear(cfg, k, t) && Reaches(cfg, s, t) && Apart(s, t, w) && Queue(t, Sink(k)) == []
    ensures Log(k, t) == Log(k, s) + [x.tag]
  {
    hide Calm, Log, Reaches, Queue, Idles, Took, Plain, Quieter;
    var u, z := Delivers(cfg, k, s, w, x, e);
    InertEnvelopes(cfg, k, z, e);
    assert !Throws(cfg, Sink(k), z.env.payload);
    t := Returns(cfg, u, w, Sink(k), z);
    SameQueues(cfg, k, u, t);
    StillClear(cfg, k, u, t);
    Then(cfg, s, u, t);
  }

  lemma Starts(cfg: Config, k: Kind)
    requires |cfg.order| == 4
    ensures var s := Init(cfg);
      && Clear(cfg, k, s) && Queue(s, Session) == [] && Queue(s, Storage) == [] && Log(k, s) == [] && |s.dispatched| == 0
      && |s.workers| == cfg.workers && forall w | 0 <= w < cfg.workers :: Free(s, w)
  {
  }

  lemma TookStill(s: State, t: State, w: nat, x: Item, e: SendEvent)
    requires Took(s, w, x, e) && w < |t.workers| && t.workers[w] == s.workers[w]
    ensures Took(t, w, x, e)
  {
  }

  /** Both workers have taken their event; the second one goes first. */
  lemma PlainOvertakes(cfg: Config, k: Kind, e: SendEvent) returns (t: State)
    requires ValidOrder(cfg.order) && cfg.workers >= 2 && cfg.capacity > 0 && Plain(cfg, k, e) && Parseable(cfg, e)
    ensures Reaches(cfg, Init(cfg), t) && Log(k, t) == [1, 0]
  {
    hide Calm, Reaches, Log, Init, Queue, Plain, Clear, Took, Parseable, Idles;
    var s := Init(cfg);
    Starts(cfg, k);
    assert Free(s, 0) && Free(s, 1);
    var p, x := Takes(cfg, k, s, 0, e);
    var q, y := Takes(cfg, k, p, 1, e);
    TookStill(p, q, 0, x, e);
    assert Queue(q, Sink(k)) == [];
    hide Quieter;
    var r := Completes(cfg, k, q, 1, y, e);
    TookStill(q, r, 0, x, e);
    t := Completes(cfg, k, r, 0, x, e);
    Then(cfg, s, p, q);
    Then(cfg, s, q, r);
    Then(cfg, s, r, t);
  }

  // ---------------------------------------------------------------- recipient frames

  /** The worker's chat handler has yet to send its echo and recipient frame, or only the latter. */
  predicate Owing(s: State, w: nat, y: Item, e: SendEvent, echo: bool) {
    Holds(s, w, Chat, y, (if echo then [EchoOf(e)] else []) + [IncomingOf(e)])
  }

  /** A worker takes its event to the chat handler and sends the persist request. */
  lemma Prepares(cfg: Config, k: Kind, s: State, w: nat, x: Item, e: SendEvent) returns (t: State, y: Item)
    requires k.Forward? && Clear(cfg, k, s) && ValidOrder(cfg.order) && cfg.capacity > 0 && Queue(s, Session) == []
    requires Took(s, w, x, e) && Parseable(cfg, e) && e.recipientId != ""
    ensures Clear(cfg, k, t) && Reaches(cfg, s, t) && Apart(s, t, w) && Log(k, t) == Log(k, s) && Queue(t, Session) == []
    ensures y.tag == x.tag && y.env == Envelope(Chat, SendMessage(e)) && Owing(t, w, y, e, true)
  {
    hide Calm, Log, Reaches, Queue, Inert, Idles, Took, Clear;
    var u;
    u, y := Forwards(cfg, k, s, w, x, e);
    assert Sends(Chat, SendMessage(e)) == [PersistOf(e), EchoOf(e), IncomingOf(e)];
    assert Queue(u, Session) == [];
    forall id: nat ensures Inert(cfg, k, Storage, Item(id, y.tag, PersistOf(e))) {
      InertEnvelopes(cfg, k, Item(id, y.tag, PersistOf(e)), e);
    }
    t := SendsInert(cfg, k, u, w, y, [PersistOf(e), EchoOf(e), IncomingOf(e)]);
    assert [PersistOf(e), EchoOf(e), IncomingOf(e)][1..] == [EchoOf(e)] + [IncomingOf(e)];
    Then(cfg, s, u, t);
  }

  /** It sends the echo and another worker, free, takes that echo away. */
  lemma EchoGoes(cfg: Config, k: Kind, s: State, w: nat, v: nat, y: Item, e: SendEvent) returns (t: State)
    requires k.Forward? && Clear(cfg, k, s) && ValidOrder(cfg.order) && cfg.capacity > 0 && Queue(s, Session) == []
    requires v != w && Free(s, v) && Owing(s, w, y, e, true)
    ensures Clear(cfg, k, t) && Reaches(cfg, s, t) && Log(k, t) == Log(k, s) && Queue(t, Session) == []
    ensures t.dispatched == s.dispatched && |t.workers| == |s.workers| && Free(t, v) && Owing(t, w, y, e, false)
  {
    hide Calm, Log, Reaches, Queue, Inert, Idles, Sends;
    var echo := Item(|s.created|, y.tag, EchoOf(e));
    var todo := [EchoOf(e)] + [IncomingOf(e)];
    forall id: nat ensures Inert(cfg, k, Session, Item(id, y.tag, EchoOf(e))) {
      InertEnvelopes(cfg, k, Item(id, y.tag, EchoOf(e)), e);
    }
    var p := SendsInert(cfg, k, s, w, y, todo);
    assert todo[1..] == [] + [IncomingOf(e)];
    forall b ensures Idles(cfg, k, p, b) {
      ClearIdles(cfg, k, p, b);
    }
    var q := Fetches(cfg, k, p, v, Session, echo);
    StillClear(cfg, k, p, q);
    hide Quieter;
    EchoEnds(cfg, k, echo, e);
    t := Returns(cfg, q, v, Session, echo);
    assert Log(k, q) + [] == Log(k, q);
    SameQueues(cfg, k, q, t);
    StillClear(cfg, k, q, t);
    Then(cfg, s, p, q);
    Then(cfg, s, q, t);
  }

  lemma EchoEnds(cfg: Config, k: Kind, x: Item, e: SendEvent)
    requires k.Forward? && x.env == EchoOf(e)
    ensures Sends(Session, x.env.payload) == [] && !Throws(cfg, Session, x.env.payload) && !IsKind(k, x.env)
  {
  }

  lemma FrameEnds(cfg: Config, k: Kind, x: Item, e: SendEvent)
    requires k.Forward? && x.env == IncomingOf(e)
    ensures Sends(Session, x.env.payload) == [] && !Throws(cfg, Session, x.env.payload) && IsKind(k, x.env)
  {
  }

  /** Both workers are in their chat handlers. The first sends its recipient frame and returns; the second
      sends its echo, accepted or not; then the first comes back for its frame and holds it. */
  lemma StepsAside(cfg: Config, k: Kind, s: State, y: Item, z: Item, e: SendEvent) returns (t: State, f: Item)
    requires k.Forward? && Clear(cfg, k, s) && ValidOrder(cfg.order) && cfg.capacity > 0 && Queue(s, Session) == []
    requires Owing(s, 0, y, e, false) && y.env == Envelope(Chat, SendMessage(e)) && Owing(s, 1, z, e, true)
    ensures Clear(cfg, k, t) && Reaches(cfg, s, t) && Log(k, t) == Log(k, s)
    ensures f.tag == y.tag && f.env == IncomingOf(e) && Holds(t, 0, Session, f, []) && Owing(t, 1, z, e, false)
    ensures |Queue(t, Session)| < cfg.capacity
  {
    hide Calm, Log, Reaches, Queue, Inert, Idles, Sends, Quieter;
    f := Item(|s.created|, y.tag, IncomingOf(e));
    assert [] + [IncomingOf(e)] == [IncomingOf(e)] && [IncomingOf(e)][1..] == [];
    var p := MakesSend(cfg, s, 0, Chat, y, [IncomingOf(e)]);
    NoEffectYet(k, y.env);
    var q := Returns(cfg, p, 0, Chat, y);
    assert Log(k, p) + [] == Log(k, p);
    var todo := [EchoOf(e)] + [IncomingOf(e)];
    assert todo[1..] == [] + [IncomingOf(e)];
    var r := MakesSend(cfg, q, 1, Chat, z, todo);
    var echo := Item(|q.created|, z.tag, EchoOf(e));
    assert Queue(r, Session) == [f] + if 1 < cfg.capacity then [echo] else [];
    forall b | b != Session ensures Idles(cfg, k, r, b) {
      OthersIdle(cfg, k, s, r, b);
    }
    FrameEnds(cfg, k, f, e);
    t := Fetches(cfg, k, r, 0, Session, f);
    InertEnvelopes(cfg, k, echo, e);
    ClearAgain(cfg, k, r, t, echo);
    Then(cfg, s, p, q);
    Then(cfg, s, q, r);
    Then(cfg, s, r, t);
  }

  lemma OthersIdle(cfg: Config, k: Kind, s: State, t: State, b: ActorType)
    requires Clear(cfg, k, s) && Queue(t, b) == Queue(s, b)
    ensures Idles(cfg, k, t, b)
  {
    ClearIdles(cfg, k, s, b);
  }

  lemma ClearAgain(cfg: Config, k: Kind, s: State, t: State, echo: Item)
    requires Calm(t) && Quieter(cfg, k, s, t) && Queue(s, Message) == [] && Queue(s, Chat) == []
    requires forall b | b != Session :: Idles(cfg, k, s, b)
    requires Inert(cfg, k, Session, echo) && (Queue(t, Session) == [] || Queue(t, Session) == [echo])
    ensures Clear(cfg, k, t)
  {
    assert Idles(cfg, k, s, Storage);
  }

  /** A free worker clears what is before `f` in the session mailbox and fetches `f`. */
  lemma {:induction false} FetchesLast(cfg: Config, k: Kind, s: State, w: nat, before: seq<Item>, f: Item) returns (t: State)
    requires Calm(s) && Free(s, w) && ValidOrder(cfg.order) && Queue(s, Session) == before + [f]
    requires forall b | b != Session :: Idles(cfg, k, s, b)
    requires forall i | 0 <= i < |before| :: Inert(cfg, k, Session, before[i])
    ensures Calm(t) && Reaches(cfg, s, t) && Apart(s, t, w) && Log(k, t) == Log(k, s)
    ensures Holds(t, w, Session, f, Sends(Session, f.env.payload))
    decreases |before|
  {
    hide Calm, Log, Reaches, Queue, Inert, Idles, Sends;
    if before == [] {
      t := Fetches(cfg, k, s, w, Session, f);
    } else {
      var i := Place(cfg.order, Session);
      var p := GoesTo(cfg, k, s, w, i);
      assert Queue(p, Session)[0] == before[0];
      var q := Absorbs(cfg, k, p, w);
      assert (before + [f])[1..] == before[1..] + [f];
      t := FetchesLast(cfg, k, q, w, before[1..], f);
      Then(cfg, s, p, q);
      Then(cfg, s, q, t);
    }
  }

  /** The second worker sends its recipient frame, returns, fetches the frame and delivers it. */
  lemma RunsAhead(cfg: Config, k: Kind, s: State, z: Item, e: SendEvent) returns (t: State)
    requires k.Forward? && Clear(cfg, k, s) && ValidOrder(cfg.order) && |Queue(s, Session)| < cfg.capacity
    requires Owing(s, 1, z, e, false) && z.env == Envelope(Chat, SendMessage(e))
    ensures Calm(t) && Reaches(cfg, s, t) && Apart(s, t, 1) && Log(k, t) == Log(k, s) + [z.tag]
  {
    hide Calm, Log, Reaches, Queue, Inert, Sends, Quieter;
    var g := Item(|s.created|, z.tag, IncomingOf(e));
    assert [] + [IncomingOf(e)] == [IncomingOf(e)] && [IncomingOf(e)][1..] == [];
    var p := MakesSend(cfg, s, 1, Chat, z, [IncomingOf(e)]);
    NoEffectYet(k, z.env);
    var q := Returns(cfg, p, 1, Chat, z);
    assert Log(k, p) + [] == Log(k, p);
    assert forall i | 0 <= i < |Queue(s, Session)| :: Inert(cfg, k, Session, Queue(s, Session)[i]);
    forall b | b != Session ensures Idles(cfg, k, q, b) {
      OthersIdle(cfg, k, s, q, b);
    }
    hide Idles;
    var r := FetchesLast(cfg, k, q, 1, Queue(s, Session), g);
    FrameEnds(cfg, k, g, e);
    t := Returns(cfg, r, 1, Session, g);
    Then(cfg, s, p, q);
    Then(cfg, s, q, r);
    Then(cfg, s, r, t);
  }

  lemma BothPrepared(cfg: Config, k: Kind, e: SendEvent) returns (t: State, y: Item, z: Item)
    requires k.Forward? && ValidOrder(cfg.order) && cfg.workers >= 2 && cfg.capacity > 0
    requires Parseable(cfg, e) && e.recipientId != ""
    ensures Clear(cfg, k, t) && Reaches(cfg, Init(cfg), t) && Log(k, t) == [] && Queue(t, Session) == []
    ensures y.tag == 0 && y.env == Envelope(Chat, SendMessage(e)) && Owing(t, 0, y, e, false)
    ensures z.tag == 1 && z.env == Envelope(Chat, SendMessage(e)) && Owing(t, 1, z, e, true)
  {
    hide Calm, Log, Reaches, Queue, Idles, Clear, Init, Parseable;
    var s := Init(cfg);
    Starts(cfg, k);
    assert Free(s, 0) && Free(s, 1);
    var p, x := Takes(cfg, k, s, 0, e);
    assert Queue(p, Session) == [];
    var q;
    q, y := Prepares(cfg, k, p, 0, x, e);
    var r := EchoGoes(cfg, k, q, 0, 1, y, e);
    var u, x' := Takes(cfg, k, r, 1, e);
    assert Queue(u, Session) == [];
    hide Quieter;
    t, z := Prepares(cfg, k, u, 1, x', e);
    Then(cfg, s, p, q);
    Then(cfg, s, q, r);
    Then(cfg, s, r, u);
    Then(cfg, s, u, t);
  }

  lemma FrameOvertakes(cfg: Config, k: Kind, e: SendEvent) returns (t: State)
    requires k.Forward? && ValidOrder(cfg.order) && cfg.workers >= 2 && cfg.capacity > 0
    requires Parseable(cfg, e) && e.recipientId != ""
    ensures Reaches(cfg, Init(cfg), t) && Log(k, t) == [1, 0]
  {
    hide Calm, Log, Reaches, Queue, Clear, Init, Parseable;
    var s := Init(cfg);
    var p, y, z := BothPrepared(cfg, k, e);
    var q, f := StepsAside(cfg, k, p, y, z, e);
    var r := RunsAhead(cfg, k, q, z, e);
    FrameEnds(cfg, k, f, e);
    t := Returns(cfg, r, 0, Session, f);
    Then(cfg, s, p, q);
    Then(cfg, s, q, r);
    Then(cfg, s, r, t);
  }

  // ---------------------------------------------------------------- the exact condition

  /** Whatever the number of workers above one, the capacity above zero and the order of the actor table,
      some run completes the effect of event 1 before that of event 0, for every kind of effect. */
  lemma Overtakes(cfg: Config, k: Kind, id: string) returns (acts: seq<Action>)
    requires ValidOrder(cfg.order) && cfg.workers >= 2 && cfg.capacity > 0 && cfg.uuidOk(id)
    ensures Orderly(acts) && Effects(k, Run(cfg, acts).handled) == [1, 0]
  {
    hide Reaches;
    var t;
    if k.Forward? {
      t := FrameOvertakes(cfg, k, SendEvent("1", id, id, "1", ""));
    } else {
      t := PlainOvertakes(cfg, k, SendEvent("1", id, id, "", ""));
    }
    acts := Witness(cfg, t);
  }

  ghost predicate AlwaysInOrder(cfg: Config, k: Kind) {
    forall acts :: Increasing(Effects(k, Run(cfg, acts).handled))
  }

  /** Mailboxes of capacity zero accept nothing, so nothing is ever handled. */
  lemma {:induction false} NoRoom(cfg: Config, acts: seq<Action>)
    requires cfg.capacity == 0
    ensures var s := Run(cfg, acts); s.handled == [] && forall w | 0 <= w < |s.workers| :: s.workers[w].hand.Idle?
  {
    if acts != [] {
      NoRoom(cfg, acts[..|acts| - 1]);
      RunOwned(cfg, acts[..|acts| - 1]);
      var s, act := Run(cfg, acts[..|acts| - 1]), acts[|acts| - 1];
      assert forall a :: Queue(s, a) == [];
    }
  }

  /** Where no id parses, no persist request is ever completed. */
  lemma {:induction false} NothingStored(cfg: Config, items: seq<Item>)
    requires forall id :: !cfg.uuidOk(id)
    requires forall i | 0 <= i < |items| :: !Throws(cfg, items[i].env.destination, items[i].env.payload)
    ensures Effects(Persisted, items) == []
  {
    if items != [] {
      NothingStored(cfg, items[..|items| - 1]);
    }
  }

  lemma InOrder(cfg: Config, k: Kind, acts: seq<Action>)
    requires cfg.workers <= 1 || cfg.capacity == 0 || (k.Persisted? && forall id :: !cfg.uuidOk(id))
    ensures Increasing(Effects(k, Run(cfg, acts).handled))
  {
    if cfg.workers <= 1 {
      OneWorkerIsExclusive(cfg, acts, k);
      EffectsIncrease(k, cfg, acts);
    } else if cfg.capacity == 0 {
      NoRoom(cfg, acts);
    } else {
      HandledParsed(cfg, acts);
      NothingStored(cfg, Run(cfg, acts).handled);
    }
  }

  /** Where some id parses, effects of each kind happen in the order of their events, in every run, exactly
      when at most one worker is started or the mailboxes hold nothing. For persist requests the case in
      which no id parses is settled too: nothing is stored then. */
  lemma AlwaysInOrderExactly(cfg: Config, k: Kind)
    requires ValidOrder(cfg.order) && (k.Persisted? || exists id :: cfg.uuidOk(id))
    ensures AlwaysInOrder(cfg, k) <==> cfg.workers <= 1 || cfg.capacity == 0 || forall id :: !cfg.uuidOk(id)
  {
    if cfg.workers <= 1 || cfg.capacity == 0 || forall id :: !cfg.uuidOk(id) {
      forall acts ensures Increasing(Effects(k, Run(cfg, acts).handled)) {
        InOrder(cfg, k, acts);
      }
    } else {
      var id :| cfg.uuidOk(id);
      var acts := Overtakes(cfg, k, id);
      assert [1, 0][0] > [1, 0][1];
      assert !Increasing(Effects(k, Run(cfg, acts).handled));
    }
  }
}
