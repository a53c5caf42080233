/** The actor system's own code: `send`, the dispatcher, the handlers and one sweep of a worker, over real
    mailboxes. Beside the memory each method moves the machine's state, and the two never part: every
    statement of a worker that touches shared memory is one step of that worker in the machine. */
module Runtime {
  import opened Messages
  import opened Mailboxes
  import opened Pipeline
  import opened Routing
  import opened Sweeps

  lemma OneMoreStep(cfg: Config, s: State, acts: seq<Action>, act: Action)
    ensures RunFrom(cfg, s, acts + [act]) == Step(cfg, RunFrom(cfg, s, acts), act)
  {
    assert (acts + [act])[..|acts|] == acts;
  }

  /** Only worker `w` acts. */
  predicate By(w: nat, acts: seq<Action>) {
    forall i | 0 <= i < |acts| :: acts[i] == Work(w) || acts[i] == StoreFails(w)
  }

  /** The worker after its handler's next send. */
  function SentOne(wk: Worker): Worker
    requires wk.hand.Busy? && wk.hand.todo != []
  {
    wk.(hand := wk.hand.(todo := wk.hand.todo[1..]))
  }

  lemma PushLeaves(cfg: Config, s: State, tag: nat, env: Envelope)
    ensures var t := Push(cfg, s, tag, env);
      t.workers == s.workers && t.crashed == s.crashed && t.dispatched == s.dispatched && |t.created| == |s.created| + 1
  {
  }

  lemma PushBoxes(cfg: Config, s: State, tag: nat, env: Envelope)
    ensures var t := Push(cfg, s, tag, env);
      && t.boxes.Keys == s.boxes.Keys
      && forall a | a in s.boxes ::
           t.boxes[a] == if a == env.destination && Offer(cfg.capacity, s.boxes[a]) == Accepted
                         then s.boxes[a].(queue := s.boxes[a].queue + [Item(|s.created|, tag, env)]) else s.boxes[a]
  {
  }

  lemma VerdictIs(cfg: Config, s: State, a: ActorType)
    ensures VerdictOn(cfg, s, a) == if a in s.boxes then Offer(cfg.capacity, s.boxes[a]) else Freed
  {
  }

  lemma SinksSendNothing(a: ActorType, item: Item)
    requires a == Storage || a == Session
    ensures Sends(a, item.env.payload) == []
  {
  }

  class ActorSystem {
    const cfg: Config
    const mailboxes: map<ActorType, Mailbox<Item>>
    /** How many envelopes were created and how many events dispatched. */
    var envelopes: nat
    var events: nat
    var crashed: bool
    /** The machine's state, and how the current call got there from `start`. */
    ghost var st: State
    ghost var start: State
    ghost var trace: seq<Action>

    /** The memory is what the machine's state says. */
    ghost predicate Valid()
      reads this, mailboxes.Values
    {
      && mailboxes.Keys == st.boxes.Keys
      && (forall a | a in mailboxes :: Holds(a))
      && (forall a, b | a in mailboxes && b in mailboxes && a != b :: mailboxes[a] != mailboxes[b])
      && envelopes == |st.created| && events == |st.dispatched| && crashed == st.crashed
    }

    ghost predicate Holds(a: ActorType)
      requires a in mailboxes && a in st.boxes
      reads this, mailboxes[a]
    {
      mailboxes[a].Valid() && mailboxes[a].capacity == cfg.capacity && mailboxes[a].View() == st.boxes[a]
    }

    /** Since `start` only worker `w` has acted. */
    ghost predicate Follows(w: nat)
      reads this
    {
      st == RunFrom(cfg, start, trace) && By(w, trace) && w < |st.workers|
    }

    /** The four actors registered, each with a mailbox of its own. */
    constructor (cfg: Config, mailboxes: map<ActorType, Mailbox<Item>>)
      requires mailboxes.Keys == ALL_ACTORS
      requires forall a | a in mailboxes :: mailboxes[a].capacity == cfg.capacity && mailboxes[a].View() == Box([], true)
      requires forall a, b | a in mailboxes && b in mailboxes && a != b :: mailboxes[a] != mailboxes[b]
      ensures this.cfg == cfg && this.mailboxes == mailboxes && Valid() && st == Init(cfg) && start == st && trace == []
    {
      this.cfg, this.mailboxes := cfg, mailboxes;
      envelopes, events, crashed := 0, 0, false;
      st, start, trace := Init(cfg), Init(cfg), [];
    }

    /** `send`: look up the destination and push into its mailbox. */
    method Enqueue(tag: nat, env: Envelope) returns (ok: bool)
      requires Valid()
      modifies this`st, this`envelopes, mailboxes.Values
      ensures Valid() && st == Push(cfg, old(st), tag, env)
      ensures ok <==> VerdictOn(cfg, old(st), env.destination) == Accepted
    {
      hide Push, VerdictOn;
      var item := Item(envelopes, tag, env);
      ghost var after := Push(cfg, st, tag, env);
      PushLeaves(cfg, st, tag, env);
      PushBoxes(cfg, st, tag, env);
      VerdictIs(cfg, st, env.destination);
      envelopes := envelopes + 1;
      ok := false;
      if env.destination in mailboxes {
        assert Holds(env.destination);
        ok := mailboxes[env.destination].Push(item);
      }
      st := after;
      forall a | a in mailboxes ensures Holds(a) {
        assert old(Holds(a));
        if a != env.destination {
          assert unchanged(mailboxes[a]) && st.boxes[a] == old(st).boxes[a];
        }
      }
    }

    /** An exception nobody catches. */
    method Terminate()
      requires Valid()
      modifies this`st, this`crashed
      ensures Valid() && st == Crash(old(st))
    {
      crashed := true;
      st := Crash(st);
      assert forall a | a in mailboxes :: old(Holds(a));
    }

    /** The dispatcher: a decoded frame becomes at most one envelope; the result of the push is ignored. */
    method Dispatch(sessionId: string, frame: Inbound)
      requires Valid() && !crashed
      modifies this`st, this`crashed, this`envelopes, this`events, mailboxes.Values
      ensures Valid() && st == Step(cfg, old(st), Receive(sessionId, frame))
    {
      if !frame.Object? {
        return;
      }
      var f := frame.fields;
      var kind := Value(f, "type");
      if kind.None? {
        Terminate();
        return;
      }
      var env;
      if kind.value == "auth" {
        var user := Value(f, "user_id");
        if user.None? {
          Terminate();
          return;
        }
        env := Envelope(Session, Auth(sessionId, user.value));
      } else if kind.value == "send_message" {
        var text := TextOf(f);
        var chat, sender, recipient := Value(f, "chat_id"), Value(f, "sender_id"), Value(f, "recipient_session_id");
        if text.None? || chat.None? || sender.None? || recipient.None? {
          Terminate();
          return;
        }
        env := Envelope(Message, SendMessage(SendEvent(sessionId, chat.value, sender.value, recipient.value, text.value)));
      } else if kind.value == "typing" {
        var chat, user := Value(f, "chat_id"), Value(f, "user_id");
        if chat.None? || user.None? {
          Terminate();
          return;
        }
        env := Envelope(Message, Typing(chat.value, user.value));
      } else if kind.value == "message_read" {
        var chat, user, message := Value(f, "chat_id"), Value(f, "user_id"), Value(f, "message_id");
        if chat.None? || user.None? || message.None? {
          Terminate();
          return;
        }
        env := Envelope(Message, Read(chat.value, user.value, message.value));
      } else {
        return;
      }
      assert Route(sessionId, frame) == Event(env);
      hide Route, Value, TextOf;
      Accept(env);
    }

    /** The dispatcher's `send`. */
    method Accept(env: Envelope)
      requires Valid()
      modifies this`st, this`envelopes, this`events, mailboxes.Values
      ensures Valid() && st == Pipeline.Dispatch(cfg, old(st), env)
    {
      hide Push;
      var tag := events;
      ghost var entry := Dispatched(env, VerdictOn(cfg, st, env.destination) == Accepted);
      events := events + 1;
      st := st.(dispatched := st.dispatched + [entry]);
      assert Valid() by {
        assert forall a | a in mailboxes :: old(Holds(a));
      }
      var _ := Enqueue(tag, env);
    }

    /** `send`, called by the handler this worker is running. */
    method Send(ghost w: nat, tag: nat, env: Envelope) returns (ok: bool)
      requires Valid() && Follows(w) && !crashed && !st.workers[w].done
      requires var hand := st.workers[w].hand; hand.Busy? && hand.item.tag == tag && hand.todo != [] && hand.todo[0] == env
      modifies this`st, this`envelopes, this`trace, mailboxes.Values
      ensures Valid() && Follows(w)
      ensures st.workers == old(st.workers)[w := SentOne(old(st.workers[w]))]
      ensures ok <==> VerdictOn(cfg, old(st), env.destination) == Accepted
    {
      hide RunFrom, Push, VerdictOn;
      OneMoreStep(cfg, start, trace, Work(w));
      ghost var before := st;
      ok := Enqueue(tag, env);
      PushLeaves(cfg, before, tag, env);
      ghost var pushed := st;
      st := st.(workers := before.workers[w := SentOne(before.workers[w])]);
      assert st == SendNext(cfg, before, w);
      trace := trace + [Work(w)];
      assert Valid() by {
        assert pushed.boxes == st.boxes;
      }
    }

    /** The worker is running the handler of `a` on `item`, which has not sent anything yet. */
    ghost predicate Entered(w: nat, a: ActorType, item: Item)
      reads this, mailboxes.Values
    {
      && Valid() && Follows(w) && !crashed && !st.workers[w].done
      && st.workers[w].hand == Busy(a, item, Sends(a, item.env.payload))
    }

    /** The handler of worker `wk` is about to return: everything it sends has been sent. */
    ghost predicate Sent(w: nat, wk: Worker)
      reads this, mailboxes.Values
    {
      Valid() && Follows(w) && !crashed && wk.hand.Busy? && st.workers[w] == wk.(hand := wk.hand.(todo := []))
    }

    method HandleMessage(ghost w: nat, item: Item)
      requires Entered(w, Message, item)
      modifies this`st, this`envelopes, this`trace, mailboxes.Values
      ensures Sent(w, old(st.workers[w]))
    {
      hide Valid, RunFrom, VerdictOn;
      var payload := item.env.payload;
      if payload.SendMessage? {
        var _ := Send(w, item.tag, Envelope(Chat, payload));
        assert st.workers[w].hand.todo == [];
      }
    }

    /** The fan-out: persist, echo and, if a recipient is named, forward; no result is looked at. */
    method HandleChat(ghost w: nat, item: Item)
      requires Entered(w, Chat, item)
      modifies this`st, this`envelopes, this`trace, mailboxes.Values
      ensures Sent(w, old(st.workers[w]))
    {
      hide Valid, RunFrom, VerdictOn;
      var payload := item.env.payload;
      if payload.SendMessage? {
        var event := payload.event;
        var _ := Send(w, item.tag, Envelope(Storage, Persist(event.chatId, event.senderId, event.text)));
        var _ := Send(w, item.tag, Envelope(Session, Outgoing(event.sessionId, Delivered(event.chatId, event.text))));
        if event.recipientId != "" {
          var _ := Send(w, item.tag, Envelope(Session, Outgoing(event.recipientId, Incoming(event.chatId, event.text, event.senderId))));
        }
        assert st.workers[w].hand.todo == [];
      }
    }

    /** The storage actor parses two ids and inserts; any of the three can throw. `insert` is what the database
        does. */
    method Store(item: Item, insert: bool) returns (ok: bool)
      ensures ok <==> !Throws(cfg, Storage, item.env.payload) && (item.env.payload.Persist? ==> insert)
    {
      if !item.env.payload.Persist? {
        return true;
      }
      if !cfg.uuidOk(item.env.payload.chatId) {
        return false;
      }
      if !cfg.uuidOk(item.env.payload.senderId) {
        return false;
      }
      return insert;
    }

    /** The rest of a handler, and the sweep moves on. */
    method Return(ghost w: nat, a: ActorType, item: Item, insert: bool)
      requires Valid() && Follows(w) && !crashed && !st.workers[w].done && st.workers[w].hand == Busy(a, item, [])
      modifies this`st, this`crashed, this`trace
      ensures Valid() && Follows(w) && crashed == st.crashed
      ensures st == if Storing(old(st).workers[w]) && !insert then Crash(old(st)) else Finish(cfg, old(st), w)
    {
      hide RunFrom;
      OneMoreStep(cfg, start, trace, Work(w));
      OneMoreStep(cfg, start, trace, StoreFails(w));
      var ok := true;
      if a == Storage {
        ok := Store(item, insert);
      }
      ghost var fails := Storing(st.workers[w]) && !insert;
      ghost var before := st;
      crashed := !ok;
      st := if fails then Crash(st) else Finish(cfg, st, w);
      trace := trace + [if fails then StoreFails(w) else Work(w)];
      assert Valid() by {
        assert st.boxes == before.boxes && forall b | b in mailboxes :: old(Holds(b));
      }
    }

    /** Pop from the mailbox of `a`. */
    method Take(ghost w: nat, a: ActorType) returns (item: Option<Item>)
      requires Valid() && Follows(w) && !crashed && a in mailboxes
      requires var wk := st.workers[w]; !wk.done && wk.hand.Idle? && wk.pos < |cfg.order| && cfg.order[wk.pos] == a
      modifies this`st, this`trace, mailboxes.Values
      ensures Valid() && Follows(w) && !st.crashed
      ensures item.None? <==> Queue(old(st), a) == []
      ensures item.None? ==> st == Skip(cfg, old(st), w)
      ensures item.Some? ==> item.value == Queue(old(st), a)[0] && st == Pop(old(st), w, a)
    {
      hide RunFrom;
      OneMoreStep(cfg, start, trace, Work(w));
      assert Holds(a);
      ghost var before := st;
      item := mailboxes[a].Pop();
      trace := trace + [Work(w)];
      st := Step(cfg, st, Work(w));
      assert st == if item.None? then Skip(cfg, before, w) else Pop(before, w, a);
      forall b | b in mailboxes ensures b in st.boxes && Holds(b) {
        assert old(Holds(b));
      }
    }

    /** One look at one mailbox: pop, handle, return. `inserts` is the database's answer, by envelope. */
    method Poll(ghost w: nat, a: ActorType, inserts: nat -> bool) returns (popped: bool)
      requires Valid() && Follows(w) && !crashed && a in mailboxes
      requires var wk := st.workers[w]; !wk.done && wk.hand.Idle? && wk.pos < |cfg.order| && cfg.order[wk.pos] == a
      modifies this`st, this`crashed, this`envelopes, this`trace, mailboxes.Values
      ensures Valid() && Follows(w)
      ensures popped <==> Queue(old(st), a) != []
      ensures !popped ==> st == Skip(cfg, old(st), w)
      ensures popped && !crashed ==> st.workers[w] == Advance(cfg, old(st.workers[w]).(processed := true))
    {
      hide RunFrom, Valid, Sends;
      ghost var wk := st.workers[w];
      var envelope := Take(w, a);
      popped := envelope.Some?;
      if popped {
        var item := envelope.value;
        match a {
          case Message => HandleMessage(w, item);
          case Chat => HandleChat(w, item);
          case Storage => SinksSendNothing(a, item);
          case Session => SinksSendNothing(a, item);
        }
        assert st.workers[w] == wk.(hand := Busy(a, item, []));
        Return(w, a, item, inserts(item.id));
      }
    }

    /** The body of the worker's loop. A sweep that reports nothing processed found every mailbox empty
        and changed nothing but the worker's own position. */
    method Sweep(ghost w: nat, inserts: nat -> bool) returns (processed: bool)
      requires Valid() && Follows(w) && !crashed && ValidOrder(cfg.order) && mailboxes.Keys == ALL_ACTORS
      requires var wk := st.workers[w]; wk.pos == 0 && wk.hand.Idle? && !wk.done && !wk.processed
      modifies this`st, this`crashed, this`envelopes, this`trace, mailboxes.Values
      ensures Valid() && Follows(w)
      ensures !crashed ==>
        && st.workers[w].pos == 4 && st.workers[w].hand.Idle? && st.workers[w].processed == processed
        && st.workers[w].sweeps == old(st.workers[w].sweeps) + 1
      ensures !processed && !crashed ==>
        && st.boxes == old(st.boxes) && |st.workers| == |old(st.workers)|
        && (forall a | a in ALL_ACTORS :: Queue(st, a) == [])
        && (forall v | 0 <= v < |st.workers| && v != w :: st.workers[v] == old(st.workers)[v])
    {
      hide RunFrom, Valid;
      processed := false;
      var i := 0;
      while i < |cfg.order| && !crashed
        invariant i <= 4 && Valid() && Follows(w)
        invariant !crashed ==>
          && st.workers[w].pos == i && st.workers[w].hand.Idle? && !st.workers[w].done
          && st.workers[w].processed == processed
          && st.workers[w].sweeps == old(st.workers[w].sweeps) + if i == 4 then 1 else 0
        invariant !processed && !crashed ==>
          && st.boxes == old(st.boxes) && |st.workers| == |old(st.workers)|
          && (forall j | 0 <= j < i :: Queue(st, cfg.order[j]) == [])
          && (forall v | 0 <= v < |st.workers| && v != w :: st.workers[v] == old(st.workers)[v])
      {
        EveryActor(cfg.order[i]);
        var popped := Poll(w, cfg.order[i], inserts);
        processed := processed || popped;
        i := i + 1;
      }
    }

    /** A lone worker whose sweep processed nothing has proved the system quiescent. */
    method SweepAlone(inserts: nat -> bool) returns (processed: bool)
      requires Valid() && Follows(0) && !crashed && ValidOrder(cfg.order) && |st.workers| == 1 && mailboxes.Keys == ALL_ACTORS
      requires var wk := st.workers[0]; wk.pos == 0 && wk.hand.Idle? && !wk.done && !wk.processed
      modifies this`st, this`crashed, this`envelopes, this`trace, mailboxes.Values
      ensures Valid() && Follows(0)
      ensures !processed && !crashed ==> Quiescent(st) && forall a | a in mailboxes :: mailboxes[a].queue == []
    {
      processed := Sweep(0, inserts);
      if !processed && !crashed {
        forall a | a in mailboxes ensures mailboxes[a].queue == [] && st.boxes[a].queue == [] {
          assert Holds(a) && Queue(st, a) == [];
        }
      }
    }
  }
}
