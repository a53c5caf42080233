/** The order theorem: effects happen in the order their events were accepted. */
module Order {
  import opened Messages
  import opened Mailboxes
  import opened Sequences
  import opened Pipeline
  import opened Ownership
  import opened Ledger
  import opened Fifo

  // ---------------------------------------------------------------- only accepted events have descendants

  predicate Admitted(s: State, tag: nat) {
    tag < |s.dispatched| && s.dispatched[tag].accepted
  }

  predicate AllAdmitted(s: State, items: seq<Item>) {
    forall i | 0 <= i < |items| :: Admitted(s, items[i].tag)
  }

  predicate AdmittedOk(s: State) {
    && (forall a | a in s.boxes :: AllAdmitted(s, s.boxes[a].queue))
    && (forall w | 0 <= w < |s.workers| && s.workers[w].hand.Busy? :: Admitted(s, s.workers[w].hand.item.tag))
    && AllAdmitted(s, s.handled)
  }

  lemma PushAdmitted(cfg: Config, s: State, tag: nat, env: Envelope)
    requires AdmittedOk(s) && (VerdictOn(cfg, s, env.destination) == Accepted ==> Admitted(s, tag))
    ensures AdmittedOk(Push(cfg, s, tag, env))
  {
    var t := Push(cfg, s, tag, env);
    assert t.dispatched == s.dispatched && t.workers == s.workers && t.handled == s.handled;
    forall a | a in t.boxes ensures AllAdmitted(t, t.boxes[a].queue) {
      assert a in s.boxes && AllAdmitted(s, s.boxes[a].queue);
    }
  }

  lemma DispatchAdmitted(cfg: Config, s: State, env: Envelope)
    requires AdmittedOk(s)
    ensures AdmittedOk(Dispatch(cfg, s, env))
  {
    var s1 := s.(dispatched := s.dispatched + [Dispatched(env, VerdictOn(cfg, s, env.destination) == Accepted)]);
    assert AdmittedOk(s1) by {
      forall a | a in s1.boxes ensures AllAdmitted(s1, s1.boxes[a].queue) {
        assert AllAdmitted(s, s.boxes[a].queue);
      }
    }
    PushAdmitted(cfg, s1, |s.dispatched|, env);
  }

  lemma WorkerAdmitted(s: State, w: nat, wk: Worker)
    requires AdmittedOk(s) && w < |s.workers| && (wk.hand.Busy? ==> Admitted(s, wk.hand.item.tag))
    ensures AdmittedOk(s.(workers := s.workers[w := wk]))
  {
    var t := s.(workers := s.workers[w := wk]);
    forall a | a in t.boxes ensures AllAdmitted(t, t.boxes[a].queue) {
      assert AllAdmitted(s, s.boxes[a].queue);
    }
    assert AllAdmitted(s, s.handled);
  }

  lemma PopAdmitted(s: State, w: nat, a: ActorType)
    requires AdmittedOk(s) && w < |s.workers| && Queue(s, a) != []
    ensures AdmittedOk(Pop(s, w, a))
  {
    var t := Pop(s, w, a);
    assert AllAdmitted(s, s.boxes[a].queue);
    forall b | b in t.boxes ensures AllAdmitted(t, t.boxes[b].queue) {
      assert AllAdmitted(s, s.boxes[b].queue);
    }
    assert AllAdmitted(s, s.handled);
  }

  lemma FinishAdmitted(cfg: Config, s: State, w: nat)
    requires AdmittedOk(s) && w < |s.workers| && s.workers[w].hand.Busy?
    ensures AdmittedOk(Finish(cfg, s, w))
  {
    var t := Finish(cfg, s, w);
    forall a | a in t.boxes ensures AllAdmitted(t, t.boxes[a].queue) {
      assert AllAdmitted(s, s.boxes[a].queue);
    }
    assert AllAdmitted(s, s.handled);
  }

  lemma SendAdmitted(cfg: Config, s: State, w: nat)
    requires AdmittedOk(s) && w < |s.workers| && s.workers[w].hand.Busy? && s.workers[w].hand.todo != []
    ensures AdmittedOk(SendNext(cfg, s, w))
  {
    var hand := s.workers[w].hand;
    var p := Push(cfg, s, hand.item.tag, hand.todo[0]);
    PushAdmitted(cfg, s, hand.item.tag, hand.todo[0]);
    assert p.workers == s.workers && Admitted(p, hand.item.tag);
    hide AdmittedOk, Push;
    WorkerAdmitted(p, w, s.workers[w].(hand := hand.(todo := hand.todo[1..])));
  }

  lemma WorkAdmitted(cfg: Config, s: State, w: nat)
    requires AdmittedOk(s) && w < |s.workers|
    ensures AdmittedOk(WorkStep(cfg, s, w))
  {
    hide AdmittedOk;
    var wk := s.workers[w];
    if wk.done {
    } else if wk.hand.Busy? && wk.hand.todo != [] {
      SendAdmitted(cfg, s, w);
    } else if wk.hand.Busy? {
      FinishAdmitted(cfg, s, w);
    } else if wk.pos < |cfg.order| && Queue(s, cfg.order[wk.pos]) != [] {
      PopAdmitted(s, w, cfg.order[wk.pos]);
    } else {
      WorkerAdmitted(s, w, AtHead(s, w).workers[w]);
      WorkerAdmitted(s, w, Skip(cfg, s, w).workers[w]);
    }
  }

  lemma {:induction false} RunAdmitted(cfg: Config, acts: seq<Action>)
    ensures AdmittedOk(Run(cfg, acts))
  {
    if acts != [] {
      var s, act := Run(cfg, acts[..|acts| - 1]), acts[|acts| - 1];
      RunAdmitted(cfg, acts[..|acts| - 1]);
      if !s.crashed && act.Receive? && Route(act.sessionId, act.frame).Event? {
        DispatchAdmitted(cfg, s, Route(act.sessionId, act.frame).env);
      } else if !s.crashed && act.Work? && act.worker < |s.workers| {
        WorkAdmitted(cfg, s, act.worker);
      }
    }
  }

  // ---------------------------------------------------------------- the theorem

  /** The effects of kind `k` that happened, in the order they happened. */
  function Done(k: Kind, s: State): seq<Item> {
    Filter(s.handled, (x: Item) => IsKind(k, x.env))
  }

  lemma {:induction false} DoneTags(k: Kind, items: seq<Item>)
    ensures var done := Filter(items, (x: Item) => IsKind(k, x.env));
      && |done| == |Effects(k, items)|
      && forall i | 0 <= i < |done| :: done[i].tag == Effects(k, items)[i] && done[i] in items && IsKind(k, done[i].env)
  {
    if items != [] {
      DoneTags(k, items[..|items| - 1]);
    }
  }

  predicate AcceptedSend(d: Dispatched) {
    d.accepted && d.env.payload.SendMessage?
  }

  /** The dispatched events these items were caused by. */
  function Causes(s: State, items: seq<Item>): seq<Dispatched>
    requires forall i | 0 <= i < |items| :: items[i].tag < |s.dispatched|
  {
    seq(|items|, i requires 0 <= i < |items| => s.dispatched[items[i].tag])
  }

  /** Each effect carries the fields of its own event. */
  ghost predicate Faithful(k: Kind, s: State, done: seq<Item>) {
    forall i | 0 <= i < |done| ::
      && done[i].tag < |s.dispatched|
      && AcceptedSend(s.dispatched[done[i].tag])
      && done[i].env == EffectOf(k, s.dispatched[done[i].tag].env.payload.event)
  }

  lemma DoneFaithful(cfg: Config, acts: seq<Action>, k: Kind)
    ensures Faithful(k, Run(cfg, acts), Done(k, Run(cfg, acts)))
  {
    var s := Run(cfg, acts);
    var done := Done(k, s);
    DoneTags(k, s.handled);
    RunAdmitted(cfg, acts);
    forall i | 0 <= i < |done|
      ensures done[i].tag < |s.dispatched| && AcceptedSend(s.dispatched[done[i].tag])
        && done[i].env == EffectOf(k, s.dispatched[done[i].tag].env.payload.event)
    {
      var j :| 0 <= j < |s.handled| && s.handled[j] == done[i];
      Provenance(cfg, acts, j, k);
      assert Admitted(s, s.handled[j].tag);
    }
  }

  /** In every run in which no two workers hold envelopes of one mailbox on the path at once, the effects
      of kind `k` happen in the order in which their events were accepted; full mailboxes may drop some,
      never reorder them. */
  lemma EffectsInOrder(cfg: Config, acts: seq<Action>, k: Kind)
    requires ExclusiveRun(cfg, acts, k)
    ensures var s := Run(cfg, acts); var done := Done(k, s);
      Faithful(k, s, done) && Subsequence(Causes(s, done), Filter(s.dispatched, d => AcceptedSend(d)))
  {
    var s := Run(cfg, acts);
    var done := Done(k, s);
    DoneFaithful(cfg, acts, k);
    DoneTags(k, s.handled);
    EffectsIncrease(k, cfg, acts);
    var tags := Effects(k, s.handled);
    assert Picks(tags, Causes(s, done), s.dispatched);
    PickedIsSubsequence(tags, Causes(s, done), s.dispatched, d => AcceptedSend(d));
  }

  /** One worker is always enough. */
  lemma OneWorkerIsExclusive(cfg: Config, acts: seq<Action>, k: Kind)
    requires cfg.workers <= 1
    ensures ExclusiveRun(cfg, acts, k)
  {
    forall n | 0 <= n <= |acts| ensures ExclusivePath(k, Run(cfg, acts[..n])) {
      RunOwned(cfg, acts[..n]);
    }
  }
}
