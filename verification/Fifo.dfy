/** Conditional FIFO. For one kind of effect, string together the tags of the effects that happened and of
    the envelopes that will still cause one, from the sink back to the message mailbox. As long as no two
    workers hold envelopes of the same mailbox on that path, this line stays strictly increasing: a step
    either leaves it alone, or deletes from it (a refused push), or appends a new event at its end. */
module Fifo {
  import opened Messages
  import opened Mailboxes
  import opened Sequences
  import opened Pipeline
  import opened Routing
  import opened Ledger

  function Sink(k: Kind): ActorType {
    if k.Persisted? then Storage else Session
  }

  predicate OnPath(k: Kind, a: ActorType) {
    a == Message || a == Chat || a == Sink(k)
  }

  /** Handling `env` and what it sends causes an effect of kind `k`. */
  predicate Yields(k: Kind, env: Envelope) {
    || IsKind(k, env)
    || ((env.destination == Message || env.destination == Chat) && env.payload.SendMessage?
        && (k.Forward? ==> env.payload.event.recipientId != ""))
  }

  predicate Owes(k: Kind, hand: Hand) {
    hand.Busy? && (IsKind(k, hand.item.env) || exists i | 0 <= i < |hand.todo| :: Yields(k, hand.todo[i]))
  }

  // ---------------------------------------------------------------- the line

  function Tag(k: Kind, x: Item): seq<nat> {
    if Yields(k, x.env) then [x.tag] else []
  }

  /** Tags of the queued items that will cause an effect. */
  function Tags(k: Kind, items: seq<Item>): seq<nat> {
    if items == [] then [] else Tags(k, items[..|items| - 1]) + Tag(k, items[|items| - 1])
  }

  /** Tags of the handled items that were an effect. */
  function Effects(k: Kind, items: seq<Item>): seq<nat> {
    if items == [] then []
    else Effects(k, items[..|items| - 1])
         + if IsKind(k, items[|items| - 1].env) then [items[|items| - 1].tag] else []
  }

  function Share(k: Kind, a: ActorType, hand: Hand): seq<nat> {
    if At(hand, a) && Owes(k, hand) then [hand.item.tag] else []
  }

  function Shares(k: Kind, a: ActorType, workers: seq<Worker>, n: nat): seq<nat>
    requires n <= |workers|
  {
    if n == 0 then [] else Shares(k, a, workers, n - 1) + Share(k, a, workers[n - 1].hand)
  }

  function Stage(k: Kind, s: State, a: ActorType): seq<nat> {
    Shares(k, a, s.workers, |s.workers|) + Tags(k, Queue(s, a))
  }

  function Line(k: Kind, s: State): seq<nat> {
    Effects(k, s.handled) + Stage(k, s, Sink(k)) + Stage(k, s, Chat) + Stage(k, s, Message)
  }

  // ---------------------------------------------------------------- exclusion

  predicate At(hand: Hand, a: ActorType) {
    hand.Busy? && hand.actor == a
  }

  predicate Exclusive(workers: seq<Worker>, a: ActorType) {
    forall v, w | 0 <= v < |workers| && 0 <= w < |workers| && v != w :: !At(workers[v].hand, a) || !At(workers[w].hand, a)
  }

  predicate ExclusivePath(k: Kind, s: State) {
    Exclusive(s.workers, Message) && Exclusive(s.workers, Chat) && Exclusive(s.workers, Sink(k))
  }

  /** In no state of the run do two workers hold envelopes of the same mailbox on the path of `k`. */
  predicate ExclusiveRun(cfg: Config, acts: seq<Action>, k: Kind) {
    forall n | 0 <= n <= |acts| :: ExclusivePath(k, Run(cfg, acts[..n]))
  }

  // ---------------------------------------------------------------- pieces of the line

  lemma TagsPush(k: Kind, items: seq<Item>, x: Item)
    ensures Tags(k, items + [x]) == Tags(k, items) + Tag(k, x)
  {
    assert (items + [x])[..|items|] == items;
  }

  lemma {:induction false} TagsPop(k: Kind, items: seq<Item>)
    requires items != []
    ensures Tags(k, items) == Tag(k, items[0]) + Tags(k, items[1..])
  {
    if |items| > 1 {
      TagsPop(k, items[..|items| - 1]);
      assert items[..|items| - 1][1..] == items[1..][..|items| - 2];
    }
  }

  lemma {:induction false} SharesNone(k: Kind, a: ActorType, workers: seq<Worker>, n: nat)
    requires n <= |workers| && forall v | 0 <= v < n :: Share(k, a, workers[v].hand) == []
    ensures Shares(k, a, workers, n) == []
  {
    if n > 0 {
      SharesNone(k, a, workers, n - 1);
    }
  }

  lemma {:induction false} SharesOne(k: Kind, a: ActorType, workers: seq<Worker>, w: nat, n: nat)
    requires w < n <= |workers| && forall v | 0 <= v < n && v != w :: Share(k, a, workers[v].hand) == []
    ensures Shares(k, a, workers, n) == Share(k, a, workers[w].hand)
  {
    hide Share;
    if w < n - 1 {
      SharesOne(k, a, workers, w, n - 1);
    } else {
      SharesNone(k, a, workers, n - 1);
    }
  }

  lemma {:induction false} SharesSame(k: Kind, a: ActorType, xs: seq<Worker>, ys: seq<Worker>, n: nat)
    requires n <= |xs| == |ys| && forall v | 0 <= v < n :: Share(k, a, xs[v].hand) == Share(k, a, ys[v].hand)
    ensures Shares(k, a, xs, n) == Shares(k, a, ys, n)
  {
    if n > 0 {
      SharesSame(k, a, xs, ys, n - 1);
    }
  }

  /** Exclusion isolates one worker's share of a stage, before and after it moves. */
  lemma SharesMove(k: Kind, a: ActorType, xs: seq<Worker>, w: nat, wk: Worker)
    requires w < |xs| && forall v | 0 <= v < |xs| && v != w :: !At(xs[v].hand, a)
    ensures Shares(k, a, xs, |xs|) == Share(k, a, xs[w].hand)
    ensures Shares(k, a, xs[w := wk], |xs|) == Share(k, a, wk.hand)
  {
    SharesOne(k, a, xs, w, |xs|);
    SharesOne(k, a, xs[w := wk], w, |xs|);
  }

  /** A worker that neither was nor is at `a` does not matter to its stage. */
  lemma SharesApart(k: Kind, a: ActorType, xs: seq<Worker>, w: nat, wk: Worker)
    requires w < |xs| && !At(xs[w].hand, a) && !At(wk.hand, a)
    ensures Shares(k, a, xs[w := wk], |xs|) == Shares(k, a, xs, |xs|)
  {
    SharesSame(k, a, xs[w := wk], xs, |xs|);
  }

  // ---------------------------------------------------------------- what a pop does

  lemma PopOwes(k: Kind, item: Item, a: ActorType)
    requires OnPath(k, a) && item.env.destination == a
    ensures Owes(k, Busy(a, item, Sends(a, item.env.payload))) == Yields(k, item.env)
  {
    var hand := Busy(a, item, Sends(a, item.env.payload));
    if a == Chat && item.env.payload.SendMessage? {
      var e := item.env.payload.event;
      assert hand.todo[0] == PersistOf(e) && hand.todo[1] == EchoOf(e);
      if e.recipientId != "" {
        assert hand.todo[2] == IncomingOf(e);
      }
    } else if a == Message && item.env.payload.SendMessage? {
      assert hand.todo[0] == Envelope(Chat, item.env.payload);
    }
  }

  /** A popped envelope keeps its place: it moves from the head of the queue into the hand. */
  lemma PopStage(k: Kind, s: State, w: nat, a: ActorType, b: ActorType)
    requires w < |s.workers| && s.workers[w].hand.Idle? && Queue(s, a) != [] && OnPath(k, b)
    requires Addressed(Queue(s, a), a) && Exclusive(Pop(s, w, a).workers, a)
    ensures Stage(k, Pop(s, w, a), b) == Stage(k, s, b)
  {
    hide Owes, Yields, Sends, Tags, Shares;
    var t := Pop(s, w, a);
    if a == b {
      assert forall v | 0 <= v < |s.workers| && v != w :: t.workers[v] == s.workers[v];
      assert At(t.workers[w].hand, a);
      SharesMove(k, a, s.workers, w, t.workers[w]);
      TagsPop(k, Queue(s, a));
      PopOwes(k, Queue(s, a)[0], a);
    } else {
      SharesApart(k, b, s.workers, w, t.workers[w]);
    }
  }

  lemma PopLine(k: Kind, s: State, w: nat, a: ActorType)
    requires w < |s.workers| && s.workers[w].hand.Idle? && Queue(s, a) != []
    requires Addressed(Queue(s, a), a) && (OnPath(k, a) ==> Exclusive(Pop(s, w, a).workers, a))
    ensures Line(k, Pop(s, w, a)) == Line(k, s)
  {
    hide Tags, Shares, Effects;
    if OnPath(k, a) {
      PopStage(k, s, w, a, Sink(k));
      PopStage(k, s, w, a, Chat);
      PopStage(k, s, w, a, Message);
    } else {
      SharesApart(k, Sink(k), s.workers, w, Pop(s, w, a).workers[w]);
      SharesApart(k, Chat, s.workers, w, Pop(s, w, a).workers[w]);
      SharesApart(k, Message, s.workers, w, Pop(s, w, a).workers[w]);
    }
  }

  // ---------------------------------------------------------------- what a push does

  predicate Joins(k: Kind, cfg: Config, s: State, env: Envelope, a: ActorType) {
    a == env.destination && VerdictOn(cfg, s, a) == Accepted && Yields(k, env)
  }

  lemma PushQueueIs(cfg: Config, s: State, tag: nat, env: Envelope, a: ActorType)
    ensures Queue(Push(cfg, s, tag, env), a)
         == if a == env.destination && VerdictOn(cfg, s, a) == Accepted then Queue(s, a) + [Item(|s.created|, tag, env)] else Queue(s, a)
    ensures Push(cfg, s, tag, env).workers == s.workers
  {
  }

  /** A pushed envelope goes to the end of the stage of its destination. */
  lemma PushStage(k: Kind, cfg: Config, s: State, tag: nat, env: Envelope, a: ActorType)
    ensures Stage(k, Push(cfg, s, tag, env), a)
         == if Joins(k, cfg, s, env, a) then Stage(k, s, a) + [tag] else Stage(k, s, a)
  {
    hide Push, Queue, VerdictOn, Tags, Shares, Yields;
    PushQueueIs(cfg, s, tag, env, a);
    var shares, tags := Shares(k, a, s.workers, |s.workers|), Tags(k, Queue(s, a));
    TagsPush(k, Queue(s, a), Item(|s.created|, tag, env));
    assert shares + (tags + [tag]) == (shares + tags) + [tag];
  }

  lemma DispatchStage(k: Kind, cfg: Config, s: State, env: Envelope, a: ActorType)
    ensures Stage(k, Dispatch(cfg, s, env), a)
         == if Joins(k, cfg, s, env, a) then Stage(k, s, a) + [|s.dispatched|] else Stage(k, s, a)
    ensures Dispatch(cfg, s, env).handled == s.handled
  {
    var entry := Dispatched(env, VerdictOn(cfg, s, env.destination) == Accepted);
    var s1 := s.(dispatched := s.dispatched + [entry]);
    PushStage(k, cfg, s1, |s.dispatched|, env, a);
    assert Push(cfg, s1, |s.dispatched|, env).handled == s.handled;
    assert Stage(k, s1, a) == Stage(k, s, a) && Joins(k, cfg, s1, env, a) == Joins(k, cfg, s, env, a);
    hide Push, Stage;
  }

  lemma DispatchLine(k: Kind, cfg: Config, s: State, env: Envelope)
    requires IsRoot(env)
    ensures Line(k, Dispatch(cfg, s, env)) == Line(k, s) || Line(k, Dispatch(cfg, s, env)) == Line(k, s) + [|s.dispatched|]
  {
    DispatchStage(k, cfg, s, env, Sink(k));
    DispatchStage(k, cfg, s, env, Chat);
    DispatchStage(k, cfg, s, env, Message);
    assert !Joins(k, cfg, s, env, Sink(k)) && !Joins(k, cfg, s, env, Chat);
    DispatchMoves(k, s, Dispatch(cfg, s, env), |s.dispatched|);
  }

  lemma DispatchMoves(k: Kind, s: State, t: State, tag: nat)
    requires t.handled == s.handled && Stage(k, t, Sink(k)) == Stage(k, s, Sink(k)) && Stage(k, t, Chat) == Stage(k, s, Chat)
    requires Stage(k, t, Message) == Stage(k, s, Message) || Stage(k, t, Message) == Stage(k, s, Message) + [tag]
    ensures Line(k, t) == Line(k, s) || Line(k, t) == Line(k, s) + [tag]
  {
    if Stage(k, t, Message) != Stage(k, s, Message) {
      var before := Effects(k, s.handled) + Stage(k, s, Sink(k)) + Stage(k, s, Chat);
      assert before + (Stage(k, s, Message) + [tag]) == (before + Stage(k, s, Message)) + [tag];
    }
  }

  // ---------------------------------------------------------------- what a send does

  /** Among the sends of one handler at most one yields an effect of kind `k`, and it goes to the next
      stage of the path. */
  lemma SendsOnce(k: Kind, env: Envelope, i: nat, j: nat)
    requires var all := Sends(env.destination, env.payload); i < j < |all| && Yields(k, all[i])
    ensures !Yields(k, Sends(env.destination, env.payload)[j])
  {
  }

  lemma SendsNext(k: Kind, a: ActorType, p: Payload, env: Envelope)
    requires env in Sends(a, p)
    ensures a == Chat || a == Message
    ensures Yields(k, env) ==> env.destination == if a == Chat then Sink(k) else Chat
  {
  }

  lemma NoEffectYet(k: Kind, env: Envelope)
    requires env.destination == Chat || env.destination == Message
    ensures !IsKind(k, env)
  {
  }

  lemma SendOwes(k: Kind, hand: Hand)
    requires hand.Busy? && HandOk(hand) && hand.todo != []
    ensures Yields(k, hand.todo[0]) ==> Owes(k, hand) && !Owes(k, hand.(todo := hand.todo[1..]))
    ensures !Yields(k, hand.todo[0]) ==> Owes(k, hand.(todo := hand.todo[1..])) == Owes(k, hand)
  {
    hide Sends, Yields, IsKind;
    var env, rest := hand.item.env, hand.todo[1..];
    var all := Sends(hand.actor, env.payload);
    var i := |all| - |hand.todo|;
    assert hand.todo == all[i..];
    SendsNext(k, hand.actor, env.payload, all[i]);
    NoEffectYet(k, env);
    if Yields(k, hand.todo[0]) {
      forall j | 0 <= j < |rest| ensures !Yields(k, rest[j]) {
        SendsOnce(k, env, i, i + 1 + j);
        assert rest[j] == all[i + 1 + j];
      }
    } else {
      assert forall j | 0 < j < |hand.todo| :: hand.todo[j] == rest[j - 1];
    }
  }

  /** A handler never sends to its own actor. */
  lemma NeverToSelf(a: ActorType, p: Payload, env: Envelope)
    requires env in Sends(a, p)
    ensures env.destination != a
  {
  }

  lemma PushElsewhere(cfg: Config, s: State, tag: nat, env: Envelope, a: ActorType)
    requires env.destination != a
    ensures Queue(Push(cfg, s, tag, env), a) == Queue(s, a)
  {
  }

  lemma SendKeepsOwnQueue(cfg: Config, s: State, w: nat)
    requires w < |s.workers| && s.workers[w].hand.Busy? && s.workers[w].hand.todo != [] && HandOk(s.workers[w].hand)
    ensures var hand := s.workers[w].hand; var t := SendNext(cfg, s, w);
      && Queue(t, hand.actor) == Queue(s, hand.actor)
      && t.workers == s.workers[w := s.workers[w].(hand := hand.(todo := hand.todo[1..]))]
  {
    hide Sends, Push;
    var hand := s.workers[w].hand;
    assert hand.todo[0] in Sends(hand.actor, hand.item.env.payload);
    NeverToSelf(hand.actor, hand.item.env.payload, hand.todo[0]);
    PushElsewhere(cfg, s, hand.item.tag, hand.todo[0], hand.actor);
  }

  lemma SendStageAt(k: Kind, cfg: Config, s: State, w: nat)
    requires w < |s.workers| && s.workers[w].hand.Busy? && s.workers[w].hand.todo != []
    requires HandOk(s.workers[w].hand) && Exclusive(s.workers, s.workers[w].hand.actor)
    ensures var hand := s.workers[w].hand; var t := SendNext(cfg, s, w);
      Stage(k, s, hand.actor)
      == if Yields(k, hand.todo[0]) then [hand.item.tag] + Stage(k, t, hand.actor) else Stage(k, t, hand.actor)
  {
    hide Tags, Shares, Yields, Owes, SendNext, Queue, HandOk;
    var hand := s.workers[w].hand;
    var b, rest, tags := hand.actor, hand.(todo := hand.todo[1..]), Tags(k, Queue(s, hand.actor));
    SendKeepsOwnQueue(cfg, s, w);
    assert At(hand, b);
    SharesMove(k, b, s.workers, w, s.workers[w].(hand := rest));
    SendOwes(k, hand);
    if Yields(k, hand.todo[0]) {
      assert Share(k, b, hand) == [hand.item.tag] && Share(k, b, rest) == [];
      assert [] + tags == tags;
    }
  }

  lemma SendStageAway(k: Kind, cfg: Config, s: State, w: nat, b: ActorType)
    requires w < |s.workers| && s.workers[w].hand.Busy? && s.workers[w].hand.todo != [] && b != s.workers[w].hand.actor
    ensures var hand := s.workers[w].hand;
      Stage(k, SendNext(cfg, s, w), b)
      == if Joins(k, cfg, s, hand.todo[0], b) then Stage(k, s, b) + [hand.item.tag] else Stage(k, s, b)
  {
    var hand, t := s.workers[w].hand, SendNext(cfg, s, w);
    var p := Push(cfg, s, hand.item.tag, hand.todo[0]);
    PushStage(k, cfg, s, hand.item.tag, hand.todo[0], b);
    assert p.workers == s.workers;
    hide Push, Tags, Shares, VerdictOn, Yields;
    SharesApart(k, b, s.workers, w, t.workers[w]);
    assert Stage(k, t, b) == Stage(k, p, b);
  }

  lemma SendLine(k: Kind, cfg: Config, s: State, w: nat, bound: nat)
    requires w < |s.workers| && s.workers[w].hand.Busy? && s.workers[w].hand.todo != []
    requires HandOk(s.workers[w].hand) && ExclusivePath(k, s)
    requires Ordered(Line(k, s), bound)
    ensures Ordered(Line(k, SendNext(cfg, s, w)), bound)
  {
    var hand, t := s.workers[w].hand, SendNext(cfg, s, w);
    var a, env := hand.actor, hand.todo[0];
    SendsNext(k, a, hand.item.env.payload, env);
    SendStageAt(k, cfg, s, w);
    SendStageAway(k, cfg, s, w, Sink(k));
    SendHandled(cfg, s, w);
    if a == Chat {
      SendStageAway(k, cfg, s, w, Message);
      assert !Joins(k, cfg, s, env, Message);
    } else {
      SendStageAway(k, cfg, s, w, Chat);
      assert !Joins(k, cfg, s, env, Sink(k));
    }
    SendMoves(k, s, t, a, hand.item.tag, bound, Yields(k, env));
  }

  lemma SendHandled(cfg: Config, s: State, w: nat)
    requires w < |s.workers| && s.workers[w].hand.Busy? && s.workers[w].hand.todo != []
    ensures SendNext(cfg, s, w).handled == s.handled
  {
  }

  /** The tag leaves the head of one stage and, if it is accepted, joins the end of the stage before it. */
  lemma SendMoves(k: Kind, s: State, t: State, a: ActorType, tag: nat, bound: nat, leaves: bool)
    requires t.handled == s.handled && Ordered(Line(k, s), bound) && (a == Chat || a == Message)
    requires Stage(k, s, a) == if leaves then [tag] + Stage(k, t, a) else Stage(k, t, a)
    requires a == Chat ==>
      && Stage(k, t, Message) == Stage(k, s, Message)
      && (Stage(k, t, Sink(k)) == Stage(k, s, Sink(k)) || (leaves && Stage(k, t, Sink(k)) == Stage(k, s, Sink(k)) + [tag]))
    requires a == Message ==>
      && Stage(k, t, Sink(k)) == Stage(k, s, Sink(k))
      && (Stage(k, t, Chat) == Stage(k, s, Chat) || (leaves && Stage(k, t, Chat) == Stage(k, s, Chat) + [tag]))
    ensures Ordered(Line(k, t), bound)
  {
    var x, y, c, m := Effects(k, s.handled), Stage(k, s, Sink(k)), Stage(k, s, Chat), Stage(k, s, Message);
    if leaves && a == Chat {
      IntoSecond(x, y, c, m, tag, Stage(k, t, Chat), bound);
    } else if leaves {
      IntoThird(x, y, c, m, tag, Stage(k, t, Message), bound);
    }
  }

  // ---------------------------------------------------------------- finishing, sweeping, tearing down

  lemma FinishStageAt(k: Kind, cfg: Config, s: State, w: nat)
    requires w < |s.workers| && s.workers[w].hand.Busy? && s.workers[w].hand.todo == []
    requires Exclusive(s.workers, s.workers[w].hand.actor)
    requires !Throws(cfg, s.workers[w].hand.actor, s.workers[w].hand.item.env.payload)
    ensures var hand := s.workers[w].hand; var t := Finish(cfg, s, w);
      Stage(k, s, hand.actor)
      == if IsKind(k, hand.item.env) then [hand.item.tag] + Stage(k, t, hand.actor) else Stage(k, t, hand.actor)
  {
    hide Tags, Shares, Yields, IsKind;
    var hand, t := s.workers[w].hand, Finish(cfg, s, w);
    assert At(hand, hand.actor);
    SharesMove(k, hand.actor, s.workers, w, t.workers[w]);
    assert Owes(k, hand) == IsKind(k, hand.item.env);
  }

  lemma FinishStageAway(k: Kind, cfg: Config, s: State, w: nat, b: ActorType)
    requires w < |s.workers| && s.workers[w].hand.Busy? && b != s.workers[w].hand.actor
    requires !Throws(cfg, s.workers[w].hand.actor, s.workers[w].hand.item.env.payload)
    ensures Stage(k, Finish(cfg, s, w), b) == Stage(k, s, b)
  {
    SharesApart(k, b, s.workers, w, Finish(cfg, s, w).workers[w]);
  }

  lemma FinishStage(k: Kind, cfg: Config, s: State, w: nat, b: ActorType)
    requires w < |s.workers| && s.workers[w].hand.Busy? && s.workers[w].hand.todo == []
    requires OnPath(k, b) && HandOk(s.workers[w].hand) && ExclusivePath(k, s)
    requires !Throws(cfg, s.workers[w].hand.actor, s.workers[w].hand.item.env.payload)
    ensures var hand := s.workers[w].hand; var t := Finish(cfg, s, w);
      Stage(k, s, b) == if b == Sink(k) && IsKind(k, hand.item.env) then [hand.item.tag] + Stage(k, t, b) else Stage(k, t, b)
  {
    if b == s.workers[w].hand.actor {
      FinishStageAt(k, cfg, s, w);
    } else {
      FinishStageAway(k, cfg, s, w, b);
    }
  }

  lemma EffectsPush(k: Kind, items: seq<Item>, x: Item)
    ensures Effects(k, items + [x]) == Effects(k, items) + if IsKind(k, x.env) then [x.tag] else []
  {
    assert (items + [x])[..|items|] == items;
  }

  /** A completed effect moves from the hand to the end of what has happened. */
  lemma FinishLine(k: Kind, cfg: Config, s: State, w: nat, bound: nat)
    requires w < |s.workers| && s.workers[w].hand.Busy? && s.workers[w].hand.todo == []
    requires HandOk(s.workers[w].hand) && ExclusivePath(k, s)
    requires Ordered(Line(k, s), bound)
    ensures Ordered(Line(k, Finish(cfg, s, w)), bound)
  {
    hide Stage, Effects;
    var hand, t := s.workers[w].hand, Finish(cfg, s, w);
    if !Throws(cfg, hand.actor, hand.item.env.payload) {
      EffectsPush(k, s.handled, hand.item);
      FinishStage(k, cfg, s, w, Sink(k));
      FinishStage(k, cfg, s, w, Chat);
      FinishStage(k, cfg, s, w, Message);
      FinishMoves(k, s, t, hand.item, bound);
    } else {
      CrashLine(k, s);
    }
  }

  lemma CrashLine(k: Kind, s: State)
    ensures Line(k, Crash(s)) == Line(k, s)
  {
  }

  lemma StopLine(k: Kind, s: State)
    ensures Line(k, s.(running := false)) == Line(k, s)
  {
  }

  lemma FinishMoves(k: Kind, s: State, t: State, item: Item, bound: nat)
    requires Effects(k, t.handled) == Effects(k, s.handled) + if IsKind(k, item.env) then [item.tag] else []
    requires Stage(k, t, Chat) == Stage(k, s, Chat) && Stage(k, t, Message) == Stage(k, s, Message)
    requires Stage(k, s, Sink(k)) == if IsKind(k, item.env) then [item.tag] + Stage(k, t, Sink(k)) else Stage(k, t, Sink(k))
    requires Ordered(Line(k, s), bound)
    ensures Ordered(Line(k, t), bound)
  {
    if IsKind(k, item.env) {
      IntoFirst(Effects(k, s.handled), Stage(k, s, Sink(k)), Stage(k, s, Chat), Stage(k, s, Message),
                item.tag, Stage(k, t, Sink(k)), bound);
    } else {
      assert Effects(k, s.handled) + [] == Effects(k, s.handled);
    }
  }

  lemma SweepLine(k: Kind, cfg: Config, s: State, w: nat)
    requires w < |s.workers| && s.workers[w].hand.Idle?
    ensures Line(k, AtHead(s, w)) == Line(k, s) == Line(k, Skip(cfg, s, w))
  {
    var h, n := AtHead(s, w).workers[w], Skip(cfg, s, w).workers[w];
    SharesApart(k, Sink(k), s.workers, w, h);
    SharesApart(k, Chat, s.workers, w, h);
    SharesApart(k, Message, s.workers, w, h);
    SharesApart(k, Sink(k), s.workers, w, n);
    SharesApart(k, Chat, s.workers, w, n);
    SharesApart(k, Message, s.workers, w, n);
  }

  lemma TeardownStage(k: Kind, s: State, a: ActorType, b: ActorType)
    requires Teardown(s, a) != s
    ensures Stage(k, s, b) == if a == b then Stage(k, Teardown(s, a), b) + Tags(k, Queue(s, a)) else Stage(k, Teardown(s, a), b)
  {
    hide Shares;
  }

  lemma TeardownLine(k: Kind, s: State, a: ActorType, bound: nat)
    requires Ordered(Line(k, s), bound)
    ensures Ordered(Line(k, Teardown(s, a)), bound)
  {
    hide Line, Stage, Ordered, Tags;
    var t := Teardown(s, a);
    if t != s {
      forall b ensures Stage(k, s, b) == if a == b then Stage(k, t, b) + Tags(k, Queue(s, a)) else Stage(k, t, b) {
        TeardownStage(k, s, a, b);
      }
      TeardownMoves(k, s, t, a, Tags(k, Queue(s, a)), bound);
    }
  }

  lemma TeardownMoves(k: Kind, s: State, t: State, a: ActorType, gone: seq<nat>, bound: nat)
    requires t.handled == s.handled && Ordered(Line(k, s), bound)
    requires forall b | b != a :: Stage(k, t, b) == Stage(k, s, b)
    requires Stage(k, s, a) == Stage(k, t, a) + gone
    ensures Ordered(Line(k, t), bound)
  {
    hide Stage, Effects;
    var x, y, c, m := Effects(k, s.handled), Stage(k, s, Sink(k)), Stage(k, s, Chat), Stage(k, s, Message);
    var kept := Stage(k, t, a);
    if a == Sink(k) {
      assert Line(k, s) == x + (kept + gone) + (c + m);
      DropTail(x, kept, gone, c + m, bound);
      assert Line(k, t) == x + kept + (c + m);
    } else if a == Chat {
      DropTail(x + y, kept, gone, m, bound);
    } else if a == Message {
      assert Line(k, s) == (x + y + c) + (kept + gone) + [];
      DropTail(x + y + c, kept, gone, [], bound);
      assert Line(k, t) == (x + y + c) + kept + [];
    }
  }

  // ---------------------------------------------------------------- every step

  lemma WorkLine(k: Kind, cfg: Config, s: State, w: nat, bound: nat)
    requires w < |s.workers| && PlacesOk(s)
    requires ExclusivePath(k, s) && ExclusivePath(k, WorkStep(cfg, s, w))
    requires Ordered(Line(k, s), bound)
    ensures Ordered(Line(k, WorkStep(cfg, s, w)), bound)
  {
    hide Line, Ordered;
    var wk := s.workers[w];
    if wk.done {
    } else if wk.hand.Busy? && wk.hand.todo != [] {
      SendLine(k, cfg, s, w, bound);
    } else if wk.hand.Busy? {
      FinishLine(k, cfg, s, w, bound);
    } else if wk.pos < |cfg.order| && Queue(s, cfg.order[wk.pos]) != [] {
      PopLine(k, s, w, cfg.order[wk.pos]);
    } else {
      SweepLine(k, cfg, s, w);
    }
  }

  lemma StepLine(k: Kind, cfg: Config, s: State, act: Action)
    requires PlacesOk(s)
    requires ExclusivePath(k, s) && ExclusivePath(k, Step(cfg, s, act))
    requires Ordered(Line(k, s), |s.dispatched|)
    ensures Ordered(Line(k, Step(cfg, s, act)), |Step(cfg, s, act).dispatched|)
  {
    hide Line, WorkStep;
    if s.crashed {
      return;
    }
    CrashLine(k, s);
    match act
    case Receive(sessionId, frame) =>
      if Route(sessionId, frame).Event? {
        RouteGivesRoots(sessionId, frame);
        DispatchLine(k, cfg, s, Route(sessionId, frame).env);
        OrderedPush(Line(k, s), |s.dispatched|);
      }
    case Work(w) =>
      if w < |s.workers| {
        WorkLine(k, cfg, s, w, |s.dispatched|);
        WorkDispatchesNothing(cfg, s, w);
      }
    case Destroy(a) => TeardownLine(k, s, a, |s.dispatched|);
    case Stop => StopLine(k, s);
    case StoreFails(w) =>
  }

  lemma {:induction false} RunLine(k: Kind, cfg: Config, acts: seq<Action>)
    requires ExclusiveRun(cfg, acts, k)
    ensures Ordered(Line(k, Run(cfg, acts)), |Run(cfg, acts).dispatched|)
  {
    if acts == [] {
      SharesNone(k, Sink(k), Init(cfg).workers, cfg.workers);
      SharesNone(k, Chat, Init(cfg).workers, cfg.workers);
      SharesNone(k, Message, Init(cfg).workers, cfg.workers);
    } else {
      var n := |acts| - 1;
      assert acts[..n + 1] == acts;
      assert ExclusivePath(k, Run(cfg, acts[..n])) && ExclusivePath(k, Run(cfg, acts[..n + 1]));
      forall m | 0 <= m <= n ensures ExclusivePath(k, Run(cfg, acts[..n][..m])) {
        assert acts[..n][..m] == acts[..m];
      }
      RunLine(k, cfg, acts[..n]);
      RunSound(cfg, acts[..n]);
      StepLine(k, cfg, Run(cfg, acts[..n]), acts[n]);
    }
  }

  /** In an exclusive run the effects of one kind happen in the order of their events. */
  lemma EffectsIncrease(k: Kind, cfg: Config, acts: seq<Action>)
    requires ExclusiveRun(cfg, acts, k)
    ensures Ordered(Effects(k, Run(cfg, acts).handled), |Run(cfg, acts).dispatched|)
  {
    var s := Run(cfg, acts);
    RunLine(k, cfg, acts);
    FirstOfLine(Effects(k, s.handled), Stage(k, s, Sink(k)), Stage(k, s, Chat), Stage(k, s, Message), |s.dispatched|);
  }

  lemma FirstOfLine(a: seq<nat>, b: seq<nat>, c: seq<nat>, d: seq<nat>, bound: nat)
    requires Ordered(a + b + c + d, bound)
    ensures Ordered(a, bound)
  {
    assert a + b + c + d == a + (b + c + d) + [];
    OrderedDrop(a, b + c + d, [], bound);
    assert a + [] == a;
  }
}
