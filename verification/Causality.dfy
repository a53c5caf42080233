/** Causality of the fan-out: whatever other workers do meanwhile, no frame for a client exists before the
    persist request of its event, and no recipient frame before the echo. */
module Causality {
  import opened Messages
  import opened Mailboxes
  import opened Pipeline
  import opened Accounts
  import opened Ownership
  import opened Routing
  import opened Ledger

  predicate IsEffect(k: Kind, x: Item, tag: nat) {
    x.tag == tag && IsKind(k, x.env)
  }

  /** The envelopes of an event that come after its effect of kind `k`. */
  predicate Later(k: Kind, env: Envelope) {
    match k
    case Persisted => env.payload.Outgoing?
    case Echo => env.payload.Outgoing? && env.payload.frame.Incoming?
    case Forward => false
  }

  /** How many envelopes a chat handler sends before its effect of kind `k`. */
  function Before(k: Kind): nat {
    match k
    case Persisted => 0
    case Echo => 1
    case Forward => 2
  }

  /** Among the first `n` envelopes created is the effect of kind `k` of event `tag`. */
  predicate Requested(k: Kind, created: seq<Item>, tag: nat, n: nat) {
    exists j | 0 <= j < n && j < |created| :: IsEffect(k, created[j], tag)
  }

  predicate FramesOk(k: Kind, created: seq<Item>) {
    forall i | 0 <= i < |created| && Later(k, created[i].env) :: Requested(k, created, created[i].tag, i)
  }

  /** A chat handler that has sent enough has sent its effect of kind `k`. */
  predicate ChatOk(k: Kind, created: seq<Item>, hand: Hand) {
    hand.Busy? && hand.actor == Chat && |Sends(Chat, hand.item.env.payload)| - |hand.todo| > Before(k) ==>
      Requested(k, created, hand.item.tag, |created|)
  }

  predicate HandsOk(k: Kind, s: State) {
    forall w | 0 <= w < |s.workers| :: ChatOk(k, s.created, s.workers[w].hand)
  }

  lemma RequestedGrows(k: Kind, created: seq<Item>, x: Item, tag: nat, n: nat, m: nat)
    requires Requested(k, created, tag, n) && n <= m
    ensures Requested(k, created + [x], tag, m)
  {
    var j :| 0 <= j < n && j < |created| && IsEffect(k, created[j], tag);
    assert IsEffect(k, (created + [x])[j], tag);
  }

  lemma CreateKeeps(k: Kind, created: seq<Item>, workers: seq<Worker>, x: Item)
    requires FramesOk(k, created) && forall w | 0 <= w < |workers| :: ChatOk(k, created, workers[w].hand)
    requires Later(k, x.env) ==> Requested(k, created, x.tag, |created|)
    ensures FramesOk(k, created + [x]) && forall w | 0 <= w < |workers| :: ChatOk(k, created + [x], workers[w].hand)
  {
    var after := created + [x];
    forall i | 0 <= i < |after| && Later(k, after[i].env) ensures Requested(k, after, after[i].tag, i) {
      if i < |created| {
        assert Requested(k, created, created[i].tag, i);
        RequestedGrows(k, created, x, created[i].tag, i, i);
      } else {
        RequestedGrows(k, created, x, x.tag, |created|, |created|);
      }
    }
    forall w | 0 <= w < |workers| ensures ChatOk(k, after, workers[w].hand) {
      if workers[w].hand.Busy? && Requested(k, created, workers[w].hand.item.tag, |created|) {
        RequestedGrows(k, created, x, workers[w].hand.item.tag, |created|, |after|);
      }
    }
  }

  lemma PushCreates(cfg: Config, s: State, tag: nat, env: Envelope)
    ensures var t := Push(cfg, s, tag, env); t.created == s.created + [Item(|s.created|, tag, env)] && t.workers == s.workers
  {
  }

  /** A chat handler sends the persist request, then the echo, then the recipient frame. */
  lemma InTurn(k: Kind, hand: Hand)
    requires hand.Busy? && HandOk(hand) && hand.todo != []
    ensures var sent := |Sends(hand.actor, hand.item.env.payload)| - |hand.todo|;
      && (Later(k, hand.todo[0]) ==> hand.actor == Chat && sent > Before(k))
      && (hand.actor == Chat && sent == Before(k) ==> IsKind(k, hand.todo[0]))
  {
    var all := Sends(hand.actor, hand.item.env.payload);
    assert hand.todo[0] == all[|all| - |hand.todo|];
  }

  lemma SendKeepsOrder(k: Kind, cfg: Config, s: State, w: nat)
    requires w < |s.workers| && s.workers[w].hand.Busy? && s.workers[w].hand.todo != []
    requires HandOk(s.workers[w].hand) && FramesOk(k, s.created) && HandsOk(k, s)
    ensures var t := SendNext(cfg, s, w); FramesOk(k, t.created) && HandsOk(k, t)
  {
    var hand, t := s.workers[w].hand, SendNext(cfg, s, w);
    var x := Item(|s.created|, hand.item.tag, hand.todo[0]);
    InTurn(k, hand);
    PushCreates(cfg, s, hand.item.tag, hand.todo[0]);
    assert ChatOk(k, s.created, hand);
    CreateKeeps(k, s.created, s.workers, x);
    assert t.created == s.created + [x];
    var sent := |Sends(hand.actor, hand.item.env.payload)| - |hand.todo|;
    if hand.actor == Chat && sent >= Before(k) {
      if sent > Before(k) {
        RequestedGrows(k, s.created, x, hand.item.tag, |s.created|, |t.created|);
      } else {
        assert IsEffect(k, t.created[|s.created|], hand.item.tag);
      }
    }
  }

  lemma StepKeepsOrder(k: Kind, cfg: Config, s: State, act: Action)
    requires PlacesOk(s) && FramesOk(k, s.created) && HandsOk(k, s)
    ensures FramesOk(k, Step(cfg, s, act).created) && HandsOk(k, Step(cfg, s, act))
  {
    if s.crashed {
      return;
    }
    match act
    case Receive(sessionId, frame) =>
      if Route(sessionId, frame).Event? {
        var env := Route(sessionId, frame).env;
        var entry := Dispatched(env, VerdictOn(cfg, s, env.destination) == Accepted);
        PushCreates(cfg, s.(dispatched := s.dispatched + [entry]), |s.dispatched|, env);
        CreateKeeps(k, s.created, s.workers, Item(|s.created|, |s.dispatched|, env));
      }
    case Work(w) =>
      if w < |s.workers| && !s.workers[w].done && s.workers[w].hand.Busy? && s.workers[w].hand.todo != [] {
        SendKeepsOrder(k, cfg, s, w);
      }
    case _ =>
  }

  lemma {:induction false} RunKeepsOrder(k: Kind, cfg: Config, acts: seq<Action>)
    ensures FramesOk(k, Run(cfg, acts).created) && HandsOk(k, Run(cfg, acts))
  {
    if acts != [] {
      RunKeepsOrder(k, cfg, acts[..|acts| - 1]);
      RunSound(cfg, acts[..|acts| - 1]);
      StepKeepsOrder(k, cfg, Run(cfg, acts[..|acts| - 1]), acts[|acts| - 1]);
    }
  }

  /** `x` is in the storage mailbox or past it. */
  ghost predicate AtStorage(s: State, x: Item) {
    || x in Queue(s, Storage)
    || (exists w | 0 <= w < |s.workers| :: s.workers[w].hand.Busy? && s.workers[w].hand.actor == Storage && s.workers[w].hand.item == x)
    || x in s.handled
    || x in s.drained
  }

  lemma {:induction false} HeldBySomeone(workers: seq<Worker>, x: Item) returns (w: nat)
    requires Hands(workers, Is(x).hand) >= 1
    ensures w < |workers| && workers[w].hand.Busy? && workers[w].hand.item == x
  {
    var n := |workers| - 1;
    if workers[n].hand.Busy? && workers[n].hand.item == x {
      w := n;
    } else {
      w := HeldBySomeone(workers[..n], x);
    }
  }

  /** In every reachable state, the event of every outgoing frame ever created already has a persist
      request, created earlier; unless the storage mailbox refused that request, it is in the storage
      mailbox or past it. */
  lemma PersistPrecedesFrames(cfg: Config, acts: seq<Action>, i: nat) returns (j: nat)
    requires i < |Run(cfg, acts).created| && Run(cfg, acts).created[i].env.payload.Outgoing?
    ensures var s := Run(cfg, acts);
      && j < i && IsEffect(Persisted, s.created[j], s.created[i].tag)
      && (s.created[j] !in s.leaked && s.created[j] !in s.freed ==> AtStorage(s, s.created[j]))
  {
    var s := Run(cfg, acts);
    RunKeepsOrder(Persisted, cfg, acts);
    RunSound(cfg, acts);
    assert Requested(Persisted, s.created, s.created[i].tag, i);
    j :| 0 <= j < i && IsEffect(Persisted, s.created[j], s.created[i].tag);
    var x := s.created[j];
    Places(cfg, s, x);
    assert x !in Queue(s, Session) && x !in Queue(s, Chat) && x !in Queue(s, Message);
    if Hands(s.workers, Is(x).hand) >= 1 {
      var w := HeldBySomeone(s.workers, x);
      assert HandOk(s.workers[w].hand);
    } else {
      HandsHold(s.workers, x);
    }
  }

  /** In every reachable state, every recipient frame ever created has the echo of its event created before
      it. */
  lemma EchoPrecedesForward(cfg: Config, acts: seq<Action>, i: nat) returns (j: nat)
    requires i < |Run(cfg, acts).created| && IsKind(Forward, Run(cfg, acts).created[i].env)
    ensures var s := Run(cfg, acts); j < i && s.created[j].tag == s.created[i].tag && IsKind(Echo, s.created[j].env)
  {
    var s := Run(cfg, acts);
    RunKeepsOrder(Echo, cfg, acts);
    assert Requested(Echo, s.created, s.created[i].tag, i);
    j :| 0 <= j < i && IsEffect(Echo, s.created[j], s.created[i].tag);
  }
}
