/** Double-entry bookkeeping over the machine: give every place an envelope can be in a price, and each
    step changes the total by a known amount. Ownership, the ledger of handler calls and the drain
    measure are three price lists. */
module Accounts {
  import opened Messages
  import opened Mailboxes
  import opened Pipeline

  datatype Prices = Prices(queued: Item -> int, handled: Item -> int, lost: Item -> int, hand: Hand -> int)

  ghost function Sum(items: seq<Item>, f: Item -> int): int {
    if items == [] then 0 else Sum(items[..|items| - 1], f) + f(items[|items| - 1])
  }

  ghost function Hands(workers: seq<Worker>, f: Hand -> int): int {
    if workers == [] then 0 else Hands(workers[..|workers| - 1], f) + f(workers[|workers| - 1].hand)
  }

  ghost function Queued(s: State, f: Item -> int): int {
    Sum(Queue(s, Session), f) + Sum(Queue(s, Chat), f) + Sum(Queue(s, Message), f) + Sum(Queue(s, Storage), f)
  }

  ghost function Total(p: Prices, s: State): int {
    Queued(s, p.queued) + Hands(s.workers, p.hand) + Sum(s.handled, p.handled)
    + Sum(s.leaked, p.lost) + Sum(s.freed, p.lost) + Sum(s.drained, p.lost)
  }

  // ---------------------------------------------------------------- sums

  lemma {:induction false} SumConcat(xs: seq<Item>, ys: seq<Item>, f: Item -> int)
    ensures Sum(xs + ys, f) == Sum(xs, f) + Sum(ys, f)
  {
    if ys == [] {
      assert xs + ys == xs;
    } else {
      assert (xs + ys)[..|xs + ys| - 1] == xs + ys[..|ys| - 1];
      SumConcat(xs, ys[..|ys| - 1], f);
    }
  }

  lemma SumOne(x: Item, f: Item -> int)
    ensures Sum([x], f) == f(x)
  {
    assert [x][..0] == [];
  }

  lemma SumPush(xs: seq<Item>, x: Item, f: Item -> int)
    ensures Sum(xs + [x], f) == Sum(xs, f) + f(x)
  {
    assert (xs + [x])[..|xs|] == xs;
  }

  lemma SumPop(xs: seq<Item>, f: Item -> int)
    requires xs != []
    ensures Sum(xs, f) == f(xs[0]) + Sum(xs[1..], f)
  {
    assert xs == [xs[0]] + xs[1..];
    SumConcat([xs[0]], xs[1..], f);
    SumOne(xs[0], f);
  }

  lemma {:induction false} SumCount(xs: seq<Item>, f: Item -> int, x: Item)
    requires forall y :: f(y) == if y == x then 1 else 0
    ensures Sum(xs, f) == multiset(xs)[x]
  {
    if xs != [] {
      var n := |xs| - 1;
      SumCount(xs[..n], f, x);
      assert xs == xs[..n] + [xs[n]];
    }
  }

  lemma {:induction false} HandsAfter(workers: seq<Worker>, w: nat, wk: Worker, f: Hand -> int)
    requires w < |workers|
    ensures Hands(workers[w := wk], f) == Hands(workers, f) - f(workers[w].hand) + f(wk.hand)
  {
    var n := |workers| - 1;
    if w < n {
      HandsAfter(workers[..n], w, wk, f);
      assert workers[w := wk][..n] == workers[..n][w := wk];
    } else {
      assert workers[w := wk][..n] == workers[..n];
    }
  }

  // ---------------------------------------------------------------- one step

  lemma QueuedAfter(s: State, t: State, a: ActorType, f: Item -> int)
    requires a in s.boxes && a in t.boxes && t.boxes == s.boxes[a := t.boxes[a]]
    ensures Queued(t, f) == Queued(s, f) - Sum(Queue(s, a), f) + Sum(Queue(t, a), f)
  {
    assert forall b | b != a :: Queue(t, b) == Queue(s, b);
  }

  lemma PushTotal(p: Prices, cfg: Config, s: State, tag: nat, env: Envelope)
    ensures var item := Item(|s.created|, tag, env);
      Total(p, Push(cfg, s, tag, env)) - Total(p, s)
      == if VerdictOn(cfg, s, env.destination) == Accepted then p.queued(item) else p.lost(item)
  {
    var item, t := Item(|s.created|, tag, env), Push(cfg, s, tag, env);
    match VerdictOn(cfg, s, env.destination)
    case Accepted =>
      SumPush(s.boxes[env.destination].queue, item, p.queued);
      QueuedAfter(s, t, env.destination, p.queued);
    case Leaked =>
      SumPush(s.leaked, item, p.lost);
    case Freed =>
      SumPush(s.freed, item, p.lost);
  }

  lemma DispatchTotal(p: Prices, cfg: Config, s: State, env: Envelope)
    ensures var item := Item(|s.created|, |s.dispatched|, env);
      Total(p, Dispatch(cfg, s, env)) - Total(p, s)
      == if VerdictOn(cfg, s, env.destination) == Accepted then p.queued(item) else p.lost(item)
    ensures Dispatch(cfg, s, env).dispatched
      == s.dispatched + [Dispatched(env, VerdictOn(cfg, s, env.destination) == Accepted)]
  {
    var entry := Dispatched(env, VerdictOn(cfg, s, env.destination) == Accepted);
    PushTotal(p, cfg, s.(dispatched := s.dispatched + [entry]), |s.dispatched|, env);
  }

  lemma WorkerTotal(p: Prices, s: State, w: nat, wk: Worker)
    requires w < |s.workers|
    ensures Total(p, s.(workers := s.workers[w := wk])) == Total(p, s) - p.hand(s.workers[w].hand) + p.hand(wk.hand)
  {
    HandsAfter(s.workers, w, wk, p.hand);
  }

  lemma SendTotal(p: Prices, cfg: Config, s: State, w: nat)
    requires w < |s.workers| && s.workers[w].hand.Busy? && s.workers[w].hand.todo != []
    ensures var hand := s.workers[w].hand; var item := Item(|s.created|, hand.item.tag, hand.todo[0]);
      Total(p, SendNext(cfg, s, w)) - Total(p, s)
      == (if VerdictOn(cfg, s, hand.todo[0].destination) == Accepted then p.queued(item) else p.lost(item))
         + p.hand(hand.(todo := hand.todo[1..])) - p.hand(hand)
  {
    hide Total;
    var hand := s.workers[w].hand;
    PushTotal(p, cfg, s, hand.item.tag, hand.todo[0]);
    WorkerTotal(p, Push(cfg, s, hand.item.tag, hand.todo[0]), w, s.workers[w].(hand := hand.(todo := hand.todo[1..])));
  }

  lemma PopTotal(p: Prices, s: State, w: nat, a: ActorType)
    requires w < |s.workers| && Queue(s, a) != []
    ensures var item := Queue(s, a)[0];
      Total(p, Pop(s, w, a)) - Total(p, s)
      == p.hand(Busy(a, item, Sends(a, item.env.payload))) - p.hand(s.workers[w].hand) - p.queued(item)
  {
    var t := Pop(s, w, a);
    HandsAfter(s.workers, w, t.workers[w], p.hand);
    QueuedAfter(s, t, a, p.queued);
    SumPop(Queue(s, a), p.queued);
  }

  lemma HandledTotal(p: Prices, s: State, x: Item)
    ensures Total(p, s.(handled := s.handled + [x])) == Total(p, s) + p.handled(x)
  {
    SumPush(s.handled, x, p.handled);
  }

  lemma FinishTotal(p: Prices, cfg: Config, s: State, w: nat)
    requires w < |s.workers| && s.workers[w].hand.Busy?
    requires !Throws(cfg, s.workers[w].hand.actor, s.workers[w].hand.item.env.payload)
    ensures Total(p, Finish(cfg, s, w)) - Total(p, s)
      == p.handled(s.workers[w].hand.item) + p.hand(Idle) - p.hand(s.workers[w].hand)
  {
    hide Total;
    var wk := s.workers[w];
    var logged := s.(handled := s.handled + [wk.hand.item]);
    HandledTotal(p, s, wk.hand.item);
    WorkerTotal(p, logged, w, Advance(cfg, wk.(processed := true)));
  }

  /** Moving along a sweep costs nothing. */
  lemma SweepTotal(p: Prices, cfg: Config, s: State, w: nat)
    requires w < |s.workers| && s.workers[w].hand.Idle?
    ensures Total(p, AtHead(s, w)) == Total(p, s) == Total(p, Skip(cfg, s, w))
  {
    hide Total;
    WorkerTotal(p, s, w, AtHead(s, w).workers[w]);
    WorkerTotal(p, s, w, Skip(cfg, s, w).workers[w]);
  }

  lemma CrashTotal(p: Prices, s: State)
    ensures Total(p, Crash(s)) == Total(p, s)
  {
  }

  lemma StopTotal(p: Prices, s: State)
    ensures Total(p, s.(running := false)) == Total(p, s)
  {
  }

  lemma TeardownTotal(p: Prices, s: State, a: ActorType)
    requires forall i | 0 <= i < |Queue(s, a)| :: p.lost(Queue(s, a)[i]) == p.queued(Queue(s, a)[i])
    ensures Total(p, Teardown(s, a)) == Total(p, s)
  {
    var t := Teardown(s, a);
    if t != s {
      QueuedAfter(s, t, a, p.queued);
      SumConcat(s.drained, Queue(s, a), p.lost);
      SumSame(Queue(s, a), p.lost, p.queued);
    }
  }

  lemma {:induction false} SumSame(xs: seq<Item>, f: Item -> int, g: Item -> int)
    requires forall i | 0 <= i < |xs| :: f(xs[i]) == g(xs[i])
    ensures Sum(xs, f) == Sum(xs, g)
  {
    if xs != [] {
      SumSame(xs[..|xs| - 1], f, g);
    }
  }
}
