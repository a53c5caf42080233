/** The way from a client to a client, without gaps: what is read is dispatched, what is dispatched is handled,
    what is handled is posted, what is posted is written. */
module Completeness {
  import opened Machine
  import opened Messages
  import opened Sequences
  import opened EndToEnd
  import opened Deliveries
  import P = Pipeline
  import N = Sessions
  import R = Routing
  import L = Ledger
  import W = Writing

  // ---------------------------------------------------------------- what is read is dispatched

  /** The event a completed read amounts to: the reading session and the envelope its text decodes to. */
  function ReadOf(y: Server, act: Action): seq<Line> {
    if act.Read? && !y.p.crashed && act.session < |y.n.sessions| && y.n.sessions[act.session].phase.Reading?
       && Route(y.n.sessions[act.session].id, act.frame).Event? then
      [Line(act.session, Route(y.n.sessions[act.session].id, act.frame).env)]
    else []
  }

  function ReadsOf(cfg: P.Config, acts: seq<Action>): seq<Line> {
    if acts == [] then []
    else ReadsOf(cfg, acts[..|acts| - 1]) + ReadOf(Run(cfg, acts[..|acts| - 1]), acts[|acts| - 1])
  }

  lemma StepHistory(cfg: P.Config, y: Server, act: Action)
    requires SourcesOk(y) && SourcesOk(Step(cfg, y, act))
    ensures History(Step(cfg, y, act)) == History(y) + ReadOf(y, act)
  {
    var z := Step(cfg, y, act);
    if PipePart(y, act).Some? && !y.p.crashed {
      var step := PipePart(y, act).value;
      PipeDispatches(cfg, y.p, step);
      if step.Receive? {
        ReceiveDispatches(cfg, y.p, step);
      }
    }
  }

  lemma ReceiveDispatches(cfg: P.Config, p: P.State, step: P.Action)
    requires step.Receive? && !p.crashed
    ensures var d, r := P.Step(cfg, p, step).dispatched, Route(step.sessionId, step.frame);
      if r.Event? then |d| == |p.dispatched| + 1 && d[..|p.dispatched|] == p.dispatched && d[|p.dispatched|].env == r.env
      else d == p.dispatched
  {
  }

  /** The dispatched events are exactly the completed reads whose text is an event, in order, each with the
      session it was read from. */
  lemma {:induction false} ReadsAreDispatched(cfg: P.Config, acts: seq<Action>)
    ensures SourcesOk(Run(cfg, acts)) && History(Run(cfg, acts)) == ReadsOf(cfg, acts)
  {
    RunSources(cfg, acts);
    if acts != [] {
      var pre, act := acts[..|acts| - 1], acts[|acts| - 1];
      ReadsAreDispatched(cfg, pre);
      StepHistory(cfg, Run(cfg, pre), act);
      hide Step, ReadOf;
    }
  }

  // ---------------------------------------------------------------- callbacks and workers go their own way

  /** A callback that neither delivers nor dispatches. */
  predicate Own(act: N.Action) {
    !act.Deliver? && !(act.ReadDone? && act.ok)
  }

  function Calls(acts: seq<N.Action>): seq<Action> {
    seq(|acts|, i requires 0 <= i < |acts| => Callback(acts[i]))
  }

  /** Network callbacks move the network as they do alone, and nothing else. */
  lemma {:induction false} CallbacksRun(cfg: P.Config, before: seq<Action>, acts: seq<N.Action>)
    requires !Run(cfg, before).p.crashed && forall i | 0 <= i < |acts| :: Own(acts[i])
    ensures var y := Run(cfg, before); Run(cfg, before + Calls(acts)) == y.(n := N.RunFrom(y.n, acts))
  {
    if acts == [] {
      assert before + Calls(acts) == before;
    } else {
      var pre, act := acts[..|acts| - 1], acts[|acts| - 1];
      CallbacksRun(cfg, before, pre);
      CallsSplit(before, acts);
      hide Calls;
      OneMore(cfg, before + Calls(pre), Callback(act));
      hide Run;
      CallbackStep(cfg, Run(cfg, before + Calls(pre)), act);
      hide Step, N.Step;
    }
  }

  lemma CallsSplit(before: seq<Action>, acts: seq<N.Action>)
    requires acts != []
    ensures before + Calls(acts) == (before + Calls(acts[..|acts| - 1])) + [Callback(acts[|acts| - 1])]
  {
  }

  lemma StepsSplit(before: seq<Action>, steps: seq<P.Action>)
    requires steps != []
    ensures before + Steps(steps) == (before + Steps(steps[..|steps| - 1])) + [Pipe(steps[|steps| - 1])]
  {
  }

  lemma CallbackStep(cfg: P.Config, y: Server, act: N.Action)
    requires !y.p.crashed && Own(act)
    ensures Step(cfg, y, Callback(act)) == y.(n := N.Step(y.n, act))
  {
  }

  lemma PipeStep(cfg: P.Config, y: Server, step: P.Action)
    requires !step.Receive?
    ensures Step(cfg, y, Pipe(step)).p == P.Step(cfg, y.p, step)
  {
  }

  /** The steps of workers, of `stop` and of the mailboxes move the pipeline as they do alone. */
  lemma {:induction false} StepsRun(cfg: P.Config, before: seq<Action>, steps: seq<P.Action>)
    requires forall i | 0 <= i < |steps| :: !steps[i].Receive?
    ensures Run(cfg, before + Steps(steps)).p == P.RunFrom(cfg, Run(cfg, before).p, steps)
  {
    if steps == [] {
      assert before + Steps(steps) == before;
    } else {
      var pre, step := steps[..|steps| - 1], steps[|steps| - 1];
      StepsRun(cfg, before, pre);
      StepsSplit(before, steps);
      hide Steps;
      OneMore(cfg, before + Steps(pre), Pipe(step));
      hide Run;
      PipeStep(cfg, Run(cfg, before + Steps(pre)), step);
      hide Step, P.Step;
    }
  }

  function Steps(steps: seq<P.Action>): seq<Action> {
    seq(|steps|, i requires 0 <= i < |steps| => Pipe(steps[i]))
  }

  // ---------------------------------------------------------------- from the client to the wire

  lemma {:induction false} ItemAt(outcomes: seq<Outcome>, x: P.Item) returns (j: nat)
    requires x in Items(outcomes)
    ensures j < |outcomes| && outcomes[j].item == x
  {
    var n := |outcomes| - 1;
    if outcomes[n].item == x {
      j := n;
    } else {
      j := ItemAt(outcomes[..n], x);
    }
  }

  lemma {:induction false} PostedNote(outcomes: seq<Outcome>, j: nat, i: nat)
    requires j < |outcomes| && outcomes[j].to == Some(i) && outcomes[j].item.env.payload.Outgoing?
    ensures NoteOf(outcomes[j].item) in PostedTo(outcomes, i)
  {
    if j < |outcomes| - 1 {
      PostedNote(outcomes[..|outcomes| - 1], j, i);
    }
  }

  /** Every frame whose handler returned is accounted for. */
  lemma HandledIsAccounted(cfg: P.Config, acts: seq<Action>, h: nat) returns (j: nat)
    requires |Run(cfg, acts).n.sessions| <= TWO_64
    requires h < |Run(cfg, acts).p.handled| && IsOutgoing(Run(cfg, acts).p.handled[h])
    ensures j < |Outcomes(cfg, acts)| && Outcomes(cfg, acts)[j].item == Run(cfg, acts).p.handled[h]
  {
    AllAccounted(cfg, acts);
    Lands(Run(cfg, acts).p.handled, (x: P.Item) => IsOutgoing(x), h);
    j := ItemAt(Outcomes(cfg, acts), Run(cfg, acts).p.handled[h]);
  }

  /** Flushing session `i` by its own callbacks puts everything posted to it on its wire. */
  lemma FlushesToWire(cfg: P.Config, acts: seq<Action>, i: nat)
    requires !Run(cfg, acts).p.crashed && i < |Run(cfg, acts).n.sessions| && W.CanWrite(Run(cfg, acts).n.sessions[i])
    ensures var y := Run(cfg, acts); var z := Run(cfg, acts + Calls(W.Flushing(y.n, i)));
      && z.p == y.p && i < |z.n.sessions|
      && z.n.sessions[i].wire == z.n.sessions[i].written == z.n.sessions[i].posts == y.n.sessions[i].posts
  {
    var y := Run(cfg, acts);
    Projects(cfg, acts);
    W.Flushes(NetActs(cfg, acts), i);
    hide Run, N.RunFrom;
    CallbacksRun(cfg, acts, W.Flushing(y.n, i));
  }

  /** The frame of kind `k` an event owes to some client. */
  predicate Owes(k: L.Kind, e: SendEvent) {
    k.Echo? || (k.Forward? && e.recipientId != "")
  }

  lemma OwedCall(cfg: P.Config, acts: seq<P.Action>, k: L.Kind, t: nat)
    requires t < |P.Run(cfg, acts).dispatched| && P.Run(cfg, acts).dispatched[t].env.payload.SendMessage?
    requires Owes(k, P.Run(cfg, acts).dispatched[t].env.payload.event)
    ensures var env := P.Run(cfg, acts).dispatched[t].env;
      L.Call(t, L.EffectOf(k, env.payload.event)) in L.Cascade(t, env)
  {
    R.RunSound(cfg, acts);
    assert R.IsRoot(P.Run(cfg, acts).dispatched[t].env);
    L.CascadeOfSend(t, P.Run(cfg, acts).dispatched[t].env.payload.event);
  }

  /** From client to client: in a run that has worked everything off and lost nothing, every send_message has had
      its echo and, if it names a recipient, its recipient frame handled; each was posted to the session then
      registered under its id, or there was none; and unless that session's writes have failed its own
      callbacks bring the frame onto its wire. */
  lemma FrameReachesWire(cfg: P.Config, acts: seq<Action>, k: L.Kind, t: nat) returns (j: nat)
    requires |Run(cfg, acts).n.sessions| <= TWO_64 && !Run(cfg, acts).p.crashed
    requires P.Quiescent(Run(cfg, acts).p) && P.NothingLost(Run(cfg, acts).p)
    requires t < |Run(cfg, acts).p.dispatched| && Run(cfg, acts).p.dispatched[t].env.payload.SendMessage?
    requires Owes(k, Run(cfg, acts).p.dispatched[t].env.payload.event)
    ensures var y := Run(cfg, acts); var env := L.EffectOf(k, y.p.dispatched[t].env.payload.event);
      && j < |Outcomes(cfg, acts)|
      && var o := Outcomes(cfg, acts)[j];
         && o.item.tag == t && o.item.env == env && env.payload.Outgoing?
         && match o.to
            case None => true
            case Some(i) =>
              && i < |y.n.sessions| && y.n.sessions[i].id == env.payload.sessionId
              && N.Note(t, env.payload.frame) in y.n.sessions[i].posts
              && (W.CanWrite(y.n.sessions[i]) ==>
                    var z := Run(cfg, acts + Calls(W.Flushing(y.n, i)));
                    i < |z.n.sessions| && N.Note(t, env.payload.frame) in z.n.sessions[i].wire)
  {
    var y := Run(cfg, acts);
    var env := L.EffectOf(k, y.p.dispatched[t].env.payload.event);
    Projects(cfg, acts);
    OwedCall(cfg, PipeActs(cfg, acts), k, t);
    var h := L.EffectHappened(cfg, PipeActs(cfg, acts), t, env);
    j := HandledIsAccounted(cfg, acts, h);
    AllAccounted(cfg, acts);
    hide Run, Outcomes, PostedTo, Items, FramesOf, P.Run, P.Quiescent, P.NothingLost;
    var o := Outcomes(cfg, acts)[j];
    assert Addressed(y.n, o);
    if o.to.Some? {
      var i := o.to.value;
      PostedNote(Outcomes(cfg, acts), j, i);
      if W.CanWrite(y.n.sessions[i]) {
        FlushesToWire(cfg, acts, i);
      }
    }
  }
}
