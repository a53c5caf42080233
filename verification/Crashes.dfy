/** What ends the process. A frame with a member of the wrong type ends it at once. Otherwise only the storage
    actor can: by the UUID parser, or by an insert that fails. */
module Crashes {
  import opened Messages
  import opened Pipeline
  import opened Ownership
  import opened Routing
  import opened Ledger
  import opened Fifo
  import opened Sweeps
  import opened Walks
  import opened Overtaking

  /** No frame has a member of the wrong type; inserts may fail. */
  predicate WellTyped(acts: seq<Action>) {
    forall i | 0 <= i < |acts| :: acts[i].Receive? ==> !Route(acts[i].sessionId, acts[i].frame).Malformed?
  }

  /** One malformed frame from one client ends the process, in whatever state. */
  lemma MalformedEnds(cfg: Config, acts: seq<Action>, sessionId: string, frame: Inbound)
    requires Route(sessionId, frame).Malformed?
    ensures Run(cfg, acts + [Receive(sessionId, frame)]).crashed
  {
    assert (acts + [Receive(sessionId, frame)])[..|acts|] == acts;
  }

  predicate HoldsPersist(s: State, w: nat) {
    w < |s.workers| && s.workers[w].hand.Busy? && s.workers[w].hand.actor == Storage && s.workers[w].hand.item.env.payload.Persist?
  }

  lemma {:induction false} CrashAtStore(cfg: Config, acts: seq<Action>)
    requires WellTyped(acts) && Run(cfg, acts).crashed
    ensures exists w :: HoldsPersist(Run(cfg, acts), w)
  {
    var pre, act := acts[..|acts| - 1], acts[|acts| - 1];
    if Run(cfg, pre).crashed {
      CrashAtStore(cfg, pre);
    } else {
      assert act.Work? || act.StoreFails?;
      assert HoldsPersist(Run(cfg, acts), act.worker);
    }
  }

  /** With well-typed frames the process ends only in the storage actor's handler of a persist request, and
      that request is the one of some dispatched send_message. */
  lemma CrashNeedsSend(cfg: Config, acts: seq<Action>) returns (w: nat, t: nat)
    requires WellTyped(acts) && Run(cfg, acts).crashed
    ensures var s := Run(cfg, acts);
      && HoldsPersist(s, w) && t < |s.dispatched| && t == s.workers[w].hand.item.tag
      && s.dispatched[t].env.payload.SendMessage? && s.workers[w].hand.item.env == PersistOf(s.dispatched[t].env.payload.event)
  {
    var s := Run(cfg, acts);
    CrashAtStore(cfg, acts);
    w :| HoldsPersist(s, w);
    t := s.workers[w].hand.item.tag;
    RunSound(cfg, acts);
    HandCreated(cfg, s, w);
    assert Bred(s, s.workers[w].hand.item) && HandOk(s.workers[w].hand);
    assert IsRoot(s.dispatched[t].env);
    PersistFromSend(s.dispatched[t].env, s.workers[w].hand.item.env);
  }

  /** A run that brings the persist request of an event with this id into the storage handler. */
  lemma ReachesStore(cfg: Config, id: string) returns (acts: seq<Action>, z: Item)
    requires ValidOrder(cfg.order) && cfg.workers > 0 && cfg.capacity > 0
    ensures Orderly(acts) && !Run(cfg, acts).crashed && Holds(Run(cfg, acts), 0, Storage, z, [])
    ensures z.env.payload.Persist? && z.env.payload.chatId == id
  {
    hide Reaches, Idles, Queue, Init;
    var s, k, e := Init(cfg), Persisted, SendEvent("1", id, id, "", "");
    Starts(cfg, k);
    assert Free(s, 0);
    var p, x := Takes(cfg, k, s, 0, e);
    assert Queue(p, Sink(k)) == [];
    var t;
    t, z := Delivers(cfg, k, p, 0, x, e);
    Then(cfg, s, p, t);
    acts := Witness(cfg, t);
  }

  lemma OneMore(cfg: Config, acts: seq<Action>, act: Action)
    ensures Run(cfg, acts + [act]) == Step(cfg, Run(cfg, acts), act)
  {
    assert (acts + [act])[..|acts|] == acts;
  }

  /** An id the parser rejects can end the process: there is a run in which it does. */
  lemma BadIdEnds(cfg: Config, id: string) returns (acts: seq<Action>)
    requires ValidOrder(cfg.order) && cfg.workers > 0 && cfg.capacity > 0 && !cfg.uuidOk(id)
    ensures Orderly(acts) && Run(cfg, acts).crashed
  {
    var before, z := ReachesStore(cfg, id);
    acts := before + [Work(0)];
    OneMore(cfg, before, Work(0));
  }

  /** So can a failing insert, whatever the id. */
  lemma FailedInsertEnds(cfg: Config, id: string) returns (acts: seq<Action>)
    requires ValidOrder(cfg.order) && cfg.workers > 0 && cfg.capacity > 0
    ensures WellTyped(acts) && Run(cfg, acts).crashed
  {
    var before, z := ReachesStore(cfg, id);
    acts := before + [StoreFails(0)];
    OneMore(cfg, before, StoreFails(0));
  }

  /** Without workers, or without room in the mailboxes, no handler ever runs. */
  lemma {:induction false} NoHandlerNoCrash(cfg: Config, acts: seq<Action>)
    requires (cfg.workers == 0 || cfg.capacity == 0) && WellTyped(acts)
    ensures !Run(cfg, acts).crashed
  {
    if acts != [] {
      var pre := acts[..|acts| - 1];
      NoHandlerNoCrash(cfg, pre);
      RunWorkersOk(cfg, pre);
      if cfg.capacity == 0 {
        NoRoom(cfg, pre);
      }
    }
  }

  /** With well-typed frames and a store that never fails, no run ends the process if and only if no handler
      ever runs or the parser accepts every id. */
  lemma CrashFreeExactly(cfg: Config)
    requires ValidOrder(cfg.order)
    ensures (forall acts | Orderly(acts) :: !Run(cfg, acts).crashed)
      <==> cfg.workers == 0 || cfg.capacity == 0 || forall id :: cfg.uuidOk(id)
  {
    if cfg.workers == 0 || cfg.capacity == 0 {
      forall acts | Orderly(acts) ensures !Run(cfg, acts).crashed {
        assert WellTyped(acts);
        NoHandlerNoCrash(cfg, acts);
      }
    } else if forall id :: cfg.uuidOk(id) {
      forall acts | Orderly(acts) ensures !Run(cfg, acts).crashed {
        if Run(cfg, acts).crashed {
          var t := CrashNeedsBadId(cfg, acts);
        }
      }
    } else {
      var id :| !cfg.uuidOk(id);
      var acts := BadIdEnds(cfg, id);
    }
  }

  /** If inserts may fail, only a system in which no handler ever runs is safe. */
  lemma CrashFreeWithFailingStore(cfg: Config)
    requires ValidOrder(cfg.order)
    ensures (forall acts | WellTyped(acts) :: !Run(cfg, acts).crashed) <==> cfg.workers == 0 || cfg.capacity == 0
  {
    if cfg.workers == 0 || cfg.capacity == 0 {
      forall acts | WellTyped(acts) ensures !Run(cfg, acts).crashed {
        NoHandlerNoCrash(cfg, acts);
      }
    } else {
      var acts := FailedInsertEnds(cfg, "");
    }
  }
}
