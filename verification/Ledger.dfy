/** The ledger of handler calls. The reference is the cascade of an event: the calls made when it is
    handled alone, to completion, with no queue, no worker and no drop. In every run, the calls completed,
    the calls still due and the calls lost with refused envelopes add up to the cascades of all
    dispatched events. */
module Ledger {
  import opened Messages
  import opened Mailboxes
  import opened Pipeline
  import opened Accounts
  import opened Ownership
  import opened Routing

  /** One handler call: `env.destination` handles `env.payload` on behalf of event `tag`. */
  datatype Call = Call(tag: nat, env: Envelope)

  // ---------------------------------------------------------------- the sequential reference

  /** Handle `env`, then everything its handler sends. */
  function Cascade(tag: nat, env: Envelope): multiset<Call>
    decreases Rank(env.destination), 1, 0
  {
    multiset{Call(tag, env)}
    + CascadeBelow(tag, Sends(env.destination, env.payload), Rank(env.destination))
  }

  function CascadeBelow(tag: nat, envs: seq<Envelope>, rank: nat): multiset<Call>
    requires forall i | 0 <= i < |envs| :: Rank(envs[i].destination) < rank
    decreases rank, 0, |envs|
  {
    if envs == [] then multiset{} else Cascade(tag, envs[0]) + CascadeBelow(tag, envs[1..], rank)
  }

  function Cascades(tag: nat, envs: seq<Envelope>): multiset<Call> {
    if envs == [] then multiset{} else Cascade(tag, envs[0]) + Cascades(tag, envs[1..])
  }

  /** Running the dispatched events one after another. */
  function Sequential(events: seq<Dispatched>): multiset<Call> {
    if events == [] then multiset{}
    else Sequential(events[..|events| - 1]) + Cascade(|events| - 1, events[|events| - 1].env)
  }

  lemma {:induction false} BelowIsCascades(tag: nat, envs: seq<Envelope>, rank: nat)
    requires forall i | 0 <= i < |envs| :: Rank(envs[i].destination) < rank
    ensures CascadeBelow(tag, envs, rank) == Cascades(tag, envs)
  {
    if envs != [] {
      BelowIsCascades(tag, envs[1..], rank);
    }
  }

  lemma CascadeUnfolds(tag: nat, env: Envelope)
    ensures Cascade(tag, env) == multiset{Call(tag, env)} + Cascades(tag, Sends(env.destination, env.payload))
  {
    BelowIsCascades(tag, Sends(env.destination, env.payload), Rank(env.destination));
  }

  /** The calls a send_message causes: message, chat, storage, the sender's session and, when a
      recipient is named, the recipient's session. */
  function CallsOfSend(tag: nat, e: SendEvent): multiset<Call> {
    multiset{Call(tag, Envelope(Message, SendMessage(e)))} + CallsOfChat(tag, e)
  }

  function CallsOfChat(tag: nat, e: SendEvent): multiset<Call> {
    multiset{Call(tag, Envelope(Chat, SendMessage(e)))}
    + (multiset{Call(tag, PersistOf(e))} + (multiset{Call(tag, EchoOf(e))} + CallsOfForward(tag, e)))
  }

  function CallsOfForward(tag: nat, e: SendEvent): multiset<Call> {
    if e.recipientId != "" then multiset{Call(tag, IncomingOf(e))} else multiset{}
  }

  lemma LeafCascade(tag: nat, env: Envelope)
    requires Sends(env.destination, env.payload) == []
    ensures Cascade(tag, env) == multiset{Call(tag, env)}
  {
    CascadeUnfolds(tag, env);
  }

  lemma OneCascade(tag: nat, env: Envelope)
    ensures Cascades(tag, [env]) == Cascade(tag, env)
  {
    hide Cascade;
    assert [env][1..] == [];
  }

  lemma MoreCascades(tag: nat, env: Envelope, envs: seq<Envelope>)
    ensures Cascades(tag, [env] + envs) == Cascade(tag, env) + Cascades(tag, envs)
  {
    hide Cascade;
    assert ([env] + envs)[1..] == envs;
  }

  lemma ForwardCascade(tag: nat, e: SendEvent)
    ensures Cascades(tag, if e.recipientId != "" then [IncomingOf(e)] else []) == CallsOfForward(tag, e)
  {
    LeafCascade(tag, IncomingOf(e));
    OneCascade(tag, IncomingOf(e));
  }

  lemma ChatSends(e: SendEvent)
    ensures Sends(Chat, SendMessage(e))
         == [PersistOf(e)] + ([EchoOf(e)] + if e.recipientId != "" then [IncomingOf(e)] else [])
  {
  }

  lemma CascadeOfChat(tag: nat, e: SendEvent)
    ensures Cascade(tag, Envelope(Chat, SendMessage(e))) == CallsOfChat(tag, e)
  {
    hide Cascade, Cascades, CallsOfForward, Sends;
    var last := if e.recipientId != "" then [IncomingOf(e)] else [];
    CascadeUnfolds(tag, Envelope(Chat, SendMessage(e)));
    ChatSends(e);
    MoreCascades(tag, PersistOf(e), [EchoOf(e)] + last);
    MoreCascades(tag, EchoOf(e), last);
    ForwardCascade(tag, e);
    Leaves(tag, e);
  }

  lemma Leaves(tag: nat, e: SendEvent)
    ensures Cascade(tag, PersistOf(e)) == multiset{Call(tag, PersistOf(e))}
    ensures Cascade(tag, EchoOf(e)) == multiset{Call(tag, EchoOf(e))}
  {
    LeafCascade(tag, PersistOf(e));
    LeafCascade(tag, EchoOf(e));
  }

  lemma CascadeOfSend(tag: nat, e: SendEvent)
    ensures Cascade(tag, Envelope(Message, SendMessage(e))) == CallsOfSend(tag, e)
  {
    var root, chat := Envelope(Message, SendMessage(e)), Envelope(Chat, SendMessage(e));
    CascadeUnfolds(tag, root);
    OneCascade(tag, chat);
    CascadeOfChat(tag, e);
    hide Cascade, Cascades, CallsOfChat;
    assert Sends(Message, SendMessage(e)) == [chat];
  }

  /** Exactly what running an event alone does, for every event the dispatcher can build. */
  lemma CascadeOfRoot(tag: nat, env: Envelope)
    requires IsRoot(env)
    ensures Cascade(tag, env)
         == if env.payload.SendMessage? then CallsOfSend(tag, env.payload.event) else multiset{Call(tag, env)}
  {
    if env.payload.SendMessage? {
      CascadeOfSend(tag, env.payload.event);
    } else {
      LeafCascade(tag, env);
    }
  }

  lemma RootOnce(tag: nat, env: Envelope, c: Call)
    requires IsRoot(env)
    ensures Cascade(tag, env)[c] <= 1
    ensures c in Cascade(tag, env) ==> c.tag == tag && Descends(env, c.env)
  {
    CascadeOfRoot(tag, env);
  }

  lemma {:induction false} SequentialOnce(events: seq<Dispatched>, c: Call)
    requires forall t | 0 <= t < |events| :: IsRoot(events[t].env)
    ensures Sequential(events)[c] <= 1
    ensures c in Sequential(events) ==> c.tag < |events| && Descends(events[c.tag].env, c.env)
  {
    if events != [] {
      var n := |events| - 1;
      SequentialOnce(events[..n], c);
      RootOnce(n, events[n].env, c);
    }
  }

  lemma {:induction false} SequentialSize(events: seq<Dispatched>)
    requires forall t | 0 <= t < |events| :: IsRoot(events[t].env)
    ensures |Sequential(events)| <= 5 * |events|
  {
    if events != [] {
      var n := |events| - 1;
      SequentialSize(events[..n]);
      CascadeOfRoot(n, events[n].env);
    }
  }

  // ---------------------------------------------------------------- the price list of one call

  ghost function Due(c: Call): Prices {
    var whole := (x: Item) => Cascade(x.tag, x.env)[c] as int;
    Prices(whole, (x: Item) => if Call(x.tag, x.env) == c then 1 else 0, whole,
           (h: Hand) => if h.Idle? then 0
                        else (if Call(h.item.tag, h.item.env) == c then 1 else 0) + Cascades(h.item.tag, h.todo)[c])
  }

  ghost predicate Balanced(s: State, c: Call) {
    Total(Due(c), s) == Sequential(s.dispatched)[c]
  }

  lemma SequentialPush(events: seq<Dispatched>, event: Dispatched)
    ensures Sequential(events + [event]) == Sequential(events) + Cascade(|events|, event.env)
  {
    hide Cascade;
    assert (events + [event])[..|events|] == events;
  }

  lemma DispatchBalances(cfg: Config, s: State, env: Envelope, c: Call)
    requires Balanced(s, c)
    ensures Balanced(Dispatch(cfg, s, env), c)
  {
    var entry := Dispatched(env, VerdictOn(cfg, s, env.destination) == Accepted);
    DispatchTotal(Due(c), cfg, s, env);
    SequentialPush(s.dispatched, entry);
  }

  lemma SendBalances(cfg: Config, s: State, w: nat, c: Call)
    requires w < |s.workers| && s.workers[w].hand.Busy? && s.workers[w].hand.todo != []
    requires Balanced(s, c)
    ensures Balanced(SendNext(cfg, s, w), c)
  {
    SendTotal(Due(c), cfg, s, w);
  }

  lemma PopBalances(s: State, w: nat, a: ActorType, c: Call)
    requires w < |s.workers| && s.workers[w].hand.Idle? && Queue(s, a) != []
    requires Addressed(Queue(s, a), a) && Balanced(s, c)
    ensures Balanced(Pop(s, w, a), c)
  {
    PopTotal(Due(c), s, w, a);
    var item := Queue(s, a)[0];
    assert item.env.destination == a;
    CascadeUnfolds(item.tag, item.env);
    hide Total, Cascade, Cascades, Sends;
  }

  lemma FinishBalances(cfg: Config, s: State, w: nat, c: Call)
    requires w < |s.workers| && s.workers[w].hand.Busy? && s.workers[w].hand.todo == []
    requires Balanced(s, c)
    ensures Balanced(Finish(cfg, s, w), c)
  {
    hide Total;
    if !Throws(cfg, s.workers[w].hand.actor, s.workers[w].hand.item.env.payload) {
      FinishTotal(Due(c), cfg, s, w);
    } else {
      CrashTotal(Due(c), s);
    }
  }

  lemma SweepBalances(cfg: Config, s: State, w: nat, c: Call)
    requires w < |s.workers| && s.workers[w].hand.Idle?
    requires Balanced(s, c)
    ensures Balanced(AtHead(s, w), c) && Balanced(Skip(cfg, s, w), c)
  {
    SweepTotal(Due(c), cfg, s, w);
  }

  lemma WorkBalances(cfg: Config, s: State, w: nat, c: Call)
    requires PlacesOk(s) && w < |s.workers| && Balanced(s, c)
    ensures Balanced(WorkStep(cfg, s, w), c)
  {
    hide Balanced;
    var wk := s.workers[w];
    if wk.done {
    } else if wk.hand.Busy? && wk.hand.todo != [] {
      SendBalances(cfg, s, w, c);
    } else if wk.hand.Busy? {
      FinishBalances(cfg, s, w, c);
    } else if wk.pos < |cfg.order| && Queue(s, cfg.order[wk.pos]) != [] {
      PopBalances(s, w, cfg.order[wk.pos], c);
    } else {
      SweepBalances(cfg, s, w, c);
    }
  }

  lemma TeardownBalances(s: State, a: ActorType, c: Call)
    requires Balanced(s, c)
    ensures Balanced(Teardown(s, a), c)
  {
    TeardownTotal(Due(c), s, a);
  }

  lemma StopBalances(s: State, c: Call)
    requires Balanced(s, c)
    ensures Balanced(s.(running := false), c)
  {
    StopTotal(Due(c), s);
  }

  lemma CrashBalances(s: State, c: Call)
    requires Balanced(s, c)
    ensures Balanced(Crash(s), c)
  {
    CrashTotal(Due(c), s);
  }

  lemma StepBalances(cfg: Config, s: State, act: Action, c: Call)
    requires PlacesOk(s) && Balanced(s, c)
    ensures Balanced(Step(cfg, s, act), c)
  {
    hide Balanced;
    if s.crashed {
      return;
    }
    CrashBalances(s, c);
    match act
    case Receive(sessionId, frame) =>
      if Route(sessionId, frame).Event? {
        DispatchBalances(cfg, s, Route(sessionId, frame).env, c);
      }
    case Work(w) =>
      if w < |s.workers| {
        WorkBalances(cfg, s, w, c);
      }
    case Destroy(a) => TeardownBalances(s, a, c);
    case Stop => StopBalances(s, c);
    case StoreFails(w) =>
  }

  /** The conservation law, in every reachable state of every run. */
  lemma {:induction false} RunBalanced(cfg: Config, acts: seq<Action>, c: Call)
    ensures Balanced(Run(cfg, acts), c)
  {
    if acts == [] {
      IdleHands(Init(cfg).workers, Due(c).hand);
    } else {
      RunSound(cfg, acts[..|acts| - 1]);
      RunBalanced(cfg, acts[..|acts| - 1], c);
      StepBalances(cfg, Run(cfg, acts[..|acts| - 1]), acts[|acts| - 1], c);
    }
  }

  // ---------------------------------------------------------------- what the law implies

  /** The handler calls completed so far. */
  ghost function Completed(items: seq<Item>): multiset<Call> {
    multiset(seq(|items|, i requires 0 <= i < |items| => Call(items[i].tag, items[i].env)))
  }

  lemma {:induction false} CompletedCount(items: seq<Item>, c: Call)
    ensures Sum(items, Due(c).handled) == Completed(items)[c]
  {
    if items != [] {
      var n := |items| - 1;
      CompletedCount(items[..n], c);
      var calls := seq(|items|, i requires 0 <= i < |items| => Call(items[i].tag, items[i].env));
      assert calls == calls[..n] + [calls[n]];
      assert calls[..n] == seq(n, i requires 0 <= i < n => Call(items[..n][i].tag, items[..n][i].env));
    }
  }

  lemma {:induction false} SumNat(items: seq<Item>, f: Item -> int)
    requires forall x :: f(x) >= 0
    ensures Sum(items, f) >= 0
  {
    if items != [] {
      SumNat(items[..|items| - 1], f);
    }
  }

  lemma {:induction false} HandsNat(workers: seq<Worker>, f: Hand -> int)
    requires forall h :: f(h) >= 0
    ensures Hands(workers, f) >= 0
  {
    if workers != [] {
      HandsNat(workers[..|workers| - 1], f);
    }
  }

  /** Everything that is not completed is due or lost, never negative. */
  lemma CompletedWithin(cfg: Config, acts: seq<Action>, c: Call)
    ensures var s := Run(cfg, acts); Completed(s.handled)[c] <= Sequential(s.dispatched)[c]
  {
    var s, p := Run(cfg, acts), Due(c);
    RunBalanced(cfg, acts, c);
    CompletedCount(s.handled, c);
    SumNat(Queue(s, Session), p.queued);
    SumNat(Queue(s, Chat), p.queued);
    SumNat(Queue(s, Message), p.queued);
    SumNat(Queue(s, Storage), p.queued);
    SumNat(s.leaked, p.lost);
    SumNat(s.freed, p.lost);
    SumNat(s.drained, p.lost);
    HandsNat(s.workers, p.hand);
  }

  /** Schedule independence: whatever the number of workers, the capacity and the interleaving, a
      quiescent run that lost nothing has made exactly the calls of the sequential execution. */
  lemma ScheduleIndependence(cfg: Config, acts: seq<Action>)
    requires Quiescent(Run(cfg, acts)) && NothingLost(Run(cfg, acts))
    ensures var s := Run(cfg, acts); Completed(s.handled) == Sequential(s.dispatched)
  {
    var s := Run(cfg, acts);
    RunOwned(cfg, acts);
    forall c: Call ensures Completed(s.handled)[c] == Sequential(s.dispatched)[c] {
      RunBalanced(cfg, acts, c);
      CompletedCount(s.handled, c);
      IdleHands(s.workers, Due(c).hand);
    }
  }

  lemma {:induction false} SequentialIgnoresVerdicts(xs: seq<Dispatched>, ys: seq<Dispatched>)
    requires |xs| == |ys| && forall t | 0 <= t < |xs| :: xs[t].env == ys[t].env
    ensures Sequential(xs) == Sequential(ys)
  {
    if xs != [] {
      SequentialIgnoresVerdicts(xs[..|xs| - 1], ys[..|ys| - 1]);
    }
  }

  /** Two quiescent lossless runs on the same events agree, under any two configurations. */
  lemma SchedulesAgree(cfg: Config, acts: seq<Action>, cfg': Config, acts': seq<Action>)
    requires Quiescent(Run(cfg, acts)) && NothingLost(Run(cfg, acts))
    requires Quiescent(Run(cfg', acts')) && NothingLost(Run(cfg', acts'))
    requires var xs, ys := Run(cfg, acts).dispatched, Run(cfg', acts').dispatched;
      |xs| == |ys| && forall t | 0 <= t < |xs| :: xs[t].env == ys[t].env
    ensures Completed(Run(cfg, acts).handled) == Completed(Run(cfg', acts').handled)
  {
    ScheduleIndependence(cfg, acts);
    ScheduleIndependence(cfg', acts');
    SequentialIgnoresVerdicts(Run(cfg, acts).dispatched, Run(cfg', acts').dispatched);
  }

  /** n dispatched events cause at most 5n handler calls, in any schedule. */
  lemma HandlerBound(cfg: Config, acts: seq<Action>)
    ensures var s := Run(cfg, acts); |s.handled| <= 5 * |s.dispatched|
  {
    var s := Run(cfg, acts);
    RunSound(cfg, acts);
    forall c: Call ensures Completed(s.handled)[c] <= Sequential(s.dispatched)[c] {
      CompletedWithin(cfg, acts, c);
    }
    var rest := Sequential(s.dispatched) - Completed(s.handled);
    assert Sequential(s.dispatched) == Completed(s.handled) + rest;
    SequentialSize(s.dispatched);
  }

  // ---------------------------------------------------------------- at most once, and only what was caused

  /** The three effects of a send_message. */
  datatype Kind = Persisted | Echo | Forward

  predicate IsKind(k: Kind, env: Envelope) {
    match k
    case Persisted => env.destination == Storage && env.payload.Persist?
    case Echo => env.destination == Session && env.payload.Outgoing? && env.payload.frame.Delivered?
    case Forward => env.destination == Session && env.payload.Outgoing? && env.payload.frame.Incoming?
  }

  function EffectOf(k: Kind, e: SendEvent): Envelope {
    match k
    case Persisted => PersistOf(e)
    case Echo => EchoOf(e)
    case Forward => IncomingOf(e)
  }

  /** Provenance: an effect that happened has the fields of the send_message it is tagged with, and a
      recipient frame exists only if a recipient was named. */
  lemma Provenance(cfg: Config, acts: seq<Action>, i: nat, k: Kind)
    requires i < |Run(cfg, acts).handled| && IsKind(k, Run(cfg, acts).handled[i].env)
    ensures var s := Run(cfg, acts); var x := s.handled[i];
      && x.tag < |s.dispatched|
      && var root := s.dispatched[x.tag].env;
         && root.payload.SendMessage? && x.env == EffectOf(k, root.payload.event)
         && var e := root.payload.event;
            match k
            case Persisted => x.env.payload == Persist(e.chatId, e.senderId, e.text)
            case Echo => x.env.payload == Outgoing(e.sessionId, Delivered(e.chatId, e.text))
            case Forward =>
              e.recipientId != "" && x.env.payload == Outgoing(e.recipientId, Incoming(e.chatId, e.text, e.senderId))
  {
    var s := Run(cfg, acts);
    RunSound(cfg, acts);
    OnlyCreated(cfg, s);
    assert Bred(s, s.handled[i]);
    assert IsRoot(s.dispatched[s.handled[i].tag].env);
  }

  /** At most once: no event has the same effect twice, in any run, whatever was dropped. */
  lemma AtMostOnce(cfg: Config, acts: seq<Action>, i: nat, j: nat, k: Kind)
    requires i < |Run(cfg, acts).handled| && j < |Run(cfg, acts).handled|
    requires IsKind(k, Run(cfg, acts).handled[i].env) && IsKind(k, Run(cfg, acts).handled[j].env)
    requires Run(cfg, acts).handled[i].tag == Run(cfg, acts).handled[j].tag
    ensures i == j
  {
    var s := Run(cfg, acts);
    Provenance(cfg, acts, i, k);
    Provenance(cfg, acts, j, k);
    var c := Call(s.handled[i].tag, s.handled[i].env);
    CompletedWithin(cfg, acts, c);
    RunSound(cfg, acts);
    SequentialOnce(s.dispatched, c);
    if i != j {
      Twice(s.handled, if i < j then i else j, if i < j then j else i);
    }
  }

  lemma Twice(items: seq<Item>, i: nat, j: nat)
    requires i < j < |items| && items[i].tag == items[j].tag && items[i].env == items[j].env
    ensures Completed(items)[Call(items[i].tag, items[i].env)] >= 2
  {
    var calls := seq(|items|, n requires 0 <= n < |items| => Call(items[n].tag, items[n].env));
    assert calls == calls[..j] + calls[j..];
    assert calls[i] in calls[..j] && calls[j] in calls[j..];
  }

  // ---------------------------------------------------------------- exceptions

  /** No frame has a member of the wrong type and no insert fails: nothing outside the pipeline's own code
      throws. */
  predicate Orderly(acts: seq<Action>) {
    forall i | 0 <= i < |acts| ::
      !acts[i].StoreFails? && (acts[i].Receive? ==> !Route(acts[i].sessionId, acts[i].frame).Malformed?)
  }

  predicate Parseable(cfg: Config, e: SendEvent) {
    cfg.uuidOk(e.chatId) && cfg.uuidOk(e.senderId)
  }

  ghost predicate ThrownBy(cfg: Config, s: State) {
    exists w | 0 <= w < |s.workers| :: s.workers[w].hand.Busy? && Throws(cfg, s.workers[w].hand.actor, s.workers[w].hand.item.env.payload)
  }

  lemma {:induction false} CrashIsThrow(cfg: Config, acts: seq<Action>)
    ensures Run(cfg, acts).crashed && Orderly(acts) ==> ThrownBy(cfg, Run(cfg, acts))
  {
    if acts != [] {
      var s := Run(cfg, acts[..|acts| - 1]);
      CrashIsThrow(cfg, acts[..|acts| - 1]);
      if !s.crashed && Run(cfg, acts).crashed && Orderly(acts) {
        assert acts[|acts| - 1].Work?;
        var w := acts[|acts| - 1].worker;
        assert Run(cfg, acts) == Finish(cfg, s, w);
        assert Run(cfg, acts).workers[w] == s.workers[w];
      }
    }
  }

  /** The process ends only because a frame had a member of the wrong type, an insert failed, or some
      dispatched send_message had an id the UUID parser rejects. */
  lemma CrashNeedsBadId(cfg: Config, acts: seq<Action>) returns (t: nat)
    requires Run(cfg, acts).crashed
    ensures var s := Run(cfg, acts);
      || !Orderly(acts)
      || (t < |s.dispatched| && s.dispatched[t].env.payload.SendMessage? && !Parseable(cfg, s.dispatched[t].env.payload.event))
  {
    if !Orderly(acts) {
      return 0;
    }
    var s := Run(cfg, acts);
    RunSound(cfg, acts);
    CrashIsThrow(cfg, acts);
    var w :| 0 <= w < |s.workers| && s.workers[w].hand.Busy? && Throws(cfg, s.workers[w].hand.actor, s.workers[w].hand.item.env.payload);
    var item := s.workers[w].hand.item;
    t := item.tag;
    HandCreated(cfg, s, w);
    assert Bred(s, item) && HandOk(s.workers[w].hand);
    assert IsRoot(s.dispatched[t].env);
    PersistFromSend(s.dispatched[t].env, item.env);
  }

  lemma PersistFromSend(root: Envelope, env: Envelope)
    requires IsRoot(root) && Descends(root, env) && env.destination == Storage
    ensures root.payload.SendMessage? && env == PersistOf(root.payload.event)
  {
  }

  lemma {:induction false} HandledParsed(cfg: Config, acts: seq<Action>)
    ensures forall i | 0 <= i < |Run(cfg, acts).handled| ::
      !Throws(cfg, Run(cfg, acts).handled[i].env.destination, Run(cfg, acts).handled[i].env.payload)
  {
    if acts != [] {
      var s, t := Run(cfg, acts[..|acts| - 1]), Run(cfg, acts);
      HandledParsed(cfg, acts[..|acts| - 1]);
      RunSound(cfg, acts[..|acts| - 1]);
      if t.handled != s.handled {
        var hand := s.workers[acts[|acts| - 1].worker].hand;
        assert HandOk(hand) && t.handled == s.handled + [hand.item];
      }
    }
  }

  lemma {:induction false} SequentialHas(events: seq<Dispatched>, t: nat, c: Call)
    requires t < |events| && c in Cascade(t, events[t].env)
    ensures c in Sequential(events)
  {
    if t < |events| - 1 {
      SequentialHas(events[..|events| - 1], t, c);
    }
  }

  lemma CompletedHas(items: seq<Item>, c: Call) returns (i: nat)
    requires c in Completed(items)
    ensures i < |items| && items[i].tag == c.tag && items[i].env == c.env
  {
    var calls := seq(|items|, n requires 0 <= n < |items| => Call(items[n].tag, items[n].env));
    i :| 0 <= i < |calls| && calls[i] == c;
  }

  /** Every effect of every event happened, if everything was worked off and nothing was lost. */
  lemma EffectHappened(cfg: Config, acts: seq<Action>, t: nat, env: Envelope) returns (i: nat)
    requires Quiescent(Run(cfg, acts)) && NothingLost(Run(cfg, acts)) && t < |Run(cfg, acts).dispatched|
    requires Call(t, env) in Cascade(t, Run(cfg, acts).dispatched[t].env)
    ensures i < |Run(cfg, acts).handled| && Run(cfg, acts).handled[i].tag == t && Run(cfg, acts).handled[i].env == env
  {
    ScheduleIndependence(cfg, acts);
    SequentialHas(Run(cfg, acts).dispatched, t, Call(t, env));
    i := CompletedHas(Run(cfg, acts).handled, Call(t, env));
  }

  /** Conversely a bad id is fatal: a run that worked off everything and lost nothing had only good ids. */
  lemma DrainedMeansParseable(cfg: Config, acts: seq<Action>, t: nat)
    requires Quiescent(Run(cfg, acts)) && NothingLost(Run(cfg, acts)) && t < |Run(cfg, acts).dispatched|
    requires Run(cfg, acts).dispatched[t].env.payload.SendMessage?
    ensures Parseable(cfg, Run(cfg, acts).dispatched[t].env.payload.event)
  {
    var s := Run(cfg, acts);
    var e := s.dispatched[t].env.payload.event;
    assert Call(t, PersistOf(e)) in Cascade(t, s.dispatched[t].env) by {
      RunSound(cfg, acts);
      assert IsRoot(s.dispatched[t].env);
      CascadeOfSend(t, e);
    }
    var i := EffectHappened(cfg, acts, t, PersistOf(e));
    HandledParsed(cfg, acts);
  }
}
