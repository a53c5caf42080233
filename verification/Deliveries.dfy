/** Nothing the session actor handles disappears: every frame whose handler returns is posted to the session
    registered under its id, or no session was registered under it at that moment. And nothing a client
    sends disappears before the pipeline: the dispatched events are the reads, one by one. */
module Deliveries {
  import opened Machine
  import opened Messages
  import opened Sequences
  import opened EndToEnd
  import P = Pipeline
  import N = Sessions
  import R = Routing
  import L = Ledger
  import W = Writing

  lemma OneMore(cfg: P.Config, acts: seq<Action>, act: Action)
    ensures Run(cfg, acts + [act]) == Step(cfg, Run(cfg, acts), act)
  {
    assert (acts + [act])[..|acts|] == acts;
  }

  // ---------------------------------------------------------------- one handler returns

  predicate IsOutgoing(x: P.Item) {
    x.env.destination == Session && x.env.payload.Outgoing?
  }

  function FramesOf(items: seq<P.Item>): seq<P.Item> {
    Filter(items, (x: P.Item) => IsOutgoing(x))
  }

  lemma FramesPush(items: seq<P.Item>, x: P.Item)
    ensures FramesOf(items + [x]) == FramesOf(items) + if IsOutgoing(x) then [x] else []
  {
    FilterPush(items, x, (x: P.Item) => IsOutgoing(x));
  }

  /** Worker `w` is about to return from the session actor's handler of an outgoing frame. */
  predicate Returning(p: P.State, w: nat) {
    && !p.crashed && w < |p.workers| && !p.workers[w].done
    && p.workers[w].hand.Busy? && p.workers[w].hand.todo == []
    && p.workers[w].hand.actor == Session && p.workers[w].hand.item.env.payload.Outgoing?
  }

  /** The session registered under the id the frame is for. */
  function Addressee(n: N.Net, x: P.Item): Option<nat>
    requires x.env.payload.Outgoing?
  {
    if x.env.payload.sessionId in n.registry then Some(n.registry[x.env.payload.sessionId]) else None
  }

  function NoteOf(x: P.Item): N.Note
    requires x.env.payload.Outgoing?
  {
    N.Note(x.tag, x.env.payload.frame)
  }

  lemma ServerSound(cfg: P.Config, acts: seq<Action>)
    requires |Run(cfg, acts).n.sessions| <= TWO_64
    ensures var y := Run(cfg, acts);
      R.Sound(cfg, y.p) && N.RegistryOk(y.n) && N.DistinctIds(y.n) && N.AllWriteOk(y.n)
  {
    Projects(cfg, acts);
    R.RunSound(cfg, PipeActs(cfg, acts));
    N.RunRegistryOk(NetActs(cfg, acts));
    N.RunWriteOk(NetActs(cfg, acts));
  }

  /** The frame is posted to the session registered under its id, behind what was posted to it before, and
      nothing else of the network changes; if there is none, nothing changes. */
  predicate PostedOnly(n: N.Net, t: N.Net, x: P.Item)
    requires x.env.payload.Outgoing?
  {
    match Addressee(n, x)
    case None => t == n
    case Some(i) =>
      && i < |n.sessions| && n.sessions[i].id == x.env.payload.sessionId
      && |t.sessions| == |n.sessions| && t.registry == n.registry
      && t.sessions[i].posts == n.sessions[i].posts + [NoteOf(x)]
      && t.sessions[i].tasks == n.sessions[i].tasks + [NoteOf(x)]
      && t.sessions[i].id == n.sessions[i].id
      && forall j | 0 <= j < |n.sessions| && j != i :: t.sessions[j] == n.sessions[j]
  }

  lemma DeliverPostsOnly(n: N.Net, x: P.Item)
    requires N.RegistryOk(n) && x.env.payload.Outgoing?
    ensures PostedOnly(n, N.Step(n, N.Deliver(x.env.payload.sessionId, NoteOf(x))), x)
  {
  }

  lemma StepReturns(cfg: P.Config, y: Server, w: nat)
    requires Returning(y.p, w) && R.HandOk(y.p.workers[w].hand)
    ensures var x := y.p.workers[w].hand.item; var z := Step(cfg, y, Pipe(P.Work(w)));
      && IsOutgoing(x) && z.p.handled == y.p.handled + [x]
      && z.n == N.Step(y.n, N.Deliver(x.env.payload.sessionId, NoteOf(x)))
  {
    hide N.Step;
    assert P.Step(cfg, y.p, P.Work(w)) == P.Finish(cfg, y.p, w);
  }

  /** When the handler of an outgoing frame returns, in any reachable state, the frame is posted. */
  lemma ReturnPosts(cfg: P.Config, acts: seq<Action>, w: nat)
    requires |Run(cfg, acts).n.sessions| <= TWO_64 && Returning(Run(cfg, acts).p, w)
    ensures var y := Run(cfg, acts); var z := Run(cfg, acts + [Pipe(P.Work(w))]); var x := y.p.workers[w].hand.item;
      IsOutgoing(x) && z.p.handled == y.p.handled + [x] && PostedOnly(y.n, z.n, x)
  {
    hide R.HandOk, PostedOnly, N.RegistryOk, N.AllWriteOk, N.DistinctIds, Step, N.Step;
    ServerSound(cfg, acts);
    OneMore(cfg, acts, Pipe(P.Work(w)));
    StepReturns(cfg, Run(cfg, acts), w);
    DeliverPostsOnly(Run(cfg, acts).n, Run(cfg, acts).p.workers[w].hand.item);
  }

  // ---------------------------------------------------------------- over whole runs

  /** What became of a handled frame: the session it was posted to, if one was registered. */
  datatype Outcome = Outcome(item: P.Item, to: Option<nat>)

  function OutcomeOf(y: Server, act: Action): seq<Outcome> {
    if act.Pipe? && act.step.Work? && Returning(y.p, act.step.worker) then
      var x := y.p.workers[act.step.worker].hand.item;
      [Outcome(x, Addressee(y.n, x))]
    else []
  }

  /** The frames handled in the course of a run, each with the session registered under its id at the time. */
  function Outcomes(cfg: P.Config, acts: seq<Action>): seq<Outcome> {
    if acts == [] then []
    else Outcomes(cfg, acts[..|acts| - 1]) + OutcomeOf(Run(cfg, acts[..|acts| - 1]), acts[|acts| - 1])
  }

  function Items(outcomes: seq<Outcome>): seq<P.Item> {
    if outcomes == [] then [] else Items(outcomes[..|outcomes| - 1]) + [outcomes[|outcomes| - 1].item]
  }

  function Share(o: Outcome, i: nat): seq<N.Note> {
    if o.to == Some(i) && o.item.env.payload.Outgoing? then [NoteOf(o.item)] else []
  }

  /** The frames that went to session `i`. */
  function PostedTo(outcomes: seq<Outcome>, i: nat): seq<N.Note> {
    if outcomes == [] then [] else PostedTo(outcomes[..|outcomes| - 1], i) + Share(outcomes[|outcomes| - 1], i)
  }

  lemma ItemsPush(outcomes: seq<Outcome>, o: Outcome)
    ensures Items(outcomes + [o]) == Items(outcomes) + [o.item]
    ensures forall i: nat :: PostedTo(outcomes + [o], i) == PostedTo(outcomes, i) + Share(o, i)
  {
    assert (outcomes + [o])[..|outcomes|] == outcomes;
  }

  /** An outcome names a session that has the frame's id. */
  predicate Addressed(n: N.Net, o: Outcome) {
    && IsOutgoing(o.item)
    && (o.to.Some? ==> o.to.value < |n.sessions| && n.sessions[o.to.value].id == o.item.env.payload.sessionId)
  }

  predicate Balances(y: Server, outcomes: seq<Outcome>) {
    && Items(outcomes) == FramesOf(y.p.handled)
    && (forall j | 0 <= j < |outcomes| :: Addressed(y.n, outcomes[j]))
    && (forall i | 0 <= i < |y.n.sessions| :: y.n.sessions[i].posts == PostedTo(outcomes, i))
  }

  predicate Accounted(cfg: P.Config, acts: seq<Action>) {
    Balances(Run(cfg, acts), Outcomes(cfg, acts))
  }

  lemma {:induction false} NobodyYet(outcomes: seq<Outcome>, n: N.Net, i: nat)
    requires |n.sessions| <= i && forall j | 0 <= j < |outcomes| :: Addressed(n, outcomes[j])
    ensures PostedTo(outcomes, i) == []
  {
    if outcomes != [] {
      NobodyYet(outcomes[..|outcomes| - 1], n, i);
    }
  }

  // ---------------------------------------------------------------- every step keeps the account

  /** No frame was handled or posted, and no session changed its id. */
  predicate PostsNothing(y: Server, z: Server) {
    && FramesOf(z.p.handled) == FramesOf(y.p.handled)
    && |y.n.sessions| <= |z.n.sessions|
    && (forall i | 0 <= i < |y.n.sessions| ::
          z.n.sessions[i].posts == y.n.sessions[i].posts && z.n.sessions[i].id == y.n.sessions[i].id)
    && (forall i | |y.n.sessions| <= i < |z.n.sessions| :: z.n.sessions[i].posts == [])
  }

  /** A step that returns from no such handler posts nothing. */
  lemma OtherSteps(cfg: P.Config, y: Server, act: Action)
    requires R.PlacesOk(y.p) && !(act.Pipe? && act.step.Work? && Returning(y.p, act.step.worker))
    ensures PostsNothing(y, Step(cfg, y, act))
  {
    var z := Step(cfg, y, act);
    if !y.p.crashed {
      if PipePart(y, act).Some? {
        HandledOther(cfg, y.p, PipePart(y, act).value);
      }
      if NetPart(cfg, y, act).Some? {
        assert !NetPart(cfg, y, act).value.Deliver?;
        hide PipePart, NetPart;
        OtherCallbacks(y.n, NetPart(cfg, y, act).value);
      }
    }
  }

  lemma OtherBalances(y: Server, z: Server, outcomes: seq<Outcome>)
    requires Balances(y, outcomes) && PostsNothing(y, z)
    ensures Balances(z, outcomes)
  {
    hide Items, PostedTo, FramesOf, IsOutgoing;
    forall i | 0 <= i < |z.n.sessions| ensures z.n.sessions[i].posts == PostedTo(outcomes, i) {
      if i < |y.n.sessions| {
        assert y.n.sessions[i].posts == PostedTo(outcomes, i);
      } else {
        NobodyYet(outcomes, y.n, i);
      }
    }
    forall j | 0 <= j < |outcomes| ensures Addressed(z.n, outcomes[j]) {
      assert Addressed(y.n, outcomes[j]);
    }
  }

  lemma OtherCallbacks(n: N.Net, act: N.Action)
    requires !act.Deliver?
    ensures var t := N.Step(n, act);
      && |n.sessions| <= |t.sessions|
      && (forall i | 0 <= i < |n.sessions| :: t.sessions[i].posts == n.sessions[i].posts && t.sessions[i].id == n.sessions[i].id)
      && (forall i | |n.sessions| <= i < |t.sessions| :: t.sessions[i].posts == [])
  {
  }

  lemma HandledOther(cfg: P.Config, p: P.State, step: P.Action)
    requires R.PlacesOk(p) && !p.crashed && !(step.Work? && Returning(p, step.worker))
    ensures var q := P.Step(cfg, p, step);
      || q.handled == p.handled
      || (exists x :: q.handled == p.handled + [x] && !IsOutgoing(x))
    ensures var q := P.Step(cfg, p, step);
      FramesOf(q.handled) == FramesOf(p.handled)
  {
    var q := P.Step(cfg, p, step);
    if q.handled != p.handled {
      var hand := p.workers[step.worker].hand;
      assert R.HandOk(hand) && q.handled == p.handled + [hand.item];
      FramesPush(p.handled, hand.item);
    }
  }

  lemma ReturnBalances(y: Server, z: Server, outcomes: seq<Outcome>, x: P.Item)
    requires Balances(y, outcomes) && IsOutgoing(x) && z.p.handled == y.p.handled + [x] && PostedOnly(y.n, z.n, x)
    ensures Balances(z, outcomes + [Outcome(x, Addressee(y.n, x))])
  {
    var o := Outcome(x, Addressee(y.n, x));
    FramesPush(y.p.handled, x);
    ItemsPush(outcomes, o);
    hide Items, PostedTo, FramesOf;
    forall i | 0 <= i < |z.n.sessions| ensures z.n.sessions[i].posts == PostedTo(outcomes, i) + Share(o, i) {
      assert y.n.sessions[i].posts == PostedTo(outcomes, i);
    }
    forall j | 0 <= j < |outcomes + [o]| ensures Addressed(z.n, (outcomes + [o])[j]) {
      if j < |outcomes| {
        assert Addressed(y.n, outcomes[j]);
      }
    }
  }

  lemma OutcomesPush(cfg: P.Config, pre: seq<Action>, act: Action)
    ensures Outcomes(cfg, pre + [act])
      == Outcomes(cfg, pre) + OutcomeOf(Run(cfg, pre), act)
  {
    assert (pre + [act])[..|pre|] == pre;
  }

  lemma StepAccounted(cfg: P.Config, pre: seq<Action>, act: Action)
    requires |Run(cfg, pre).n.sessions| <= TWO_64 && Accounted(cfg, pre)
    ensures Accounted(cfg, pre + [act])
  {
    var y, outcomes := Run(cfg, pre), Outcomes(cfg, pre);
    OutcomesPush(cfg, pre, act);
    hide Run, Outcomes, Balances, Step;
    if act.Pipe? && act.step.Work? && Returning(y.p, act.step.worker) {
      ReturnPosts(cfg, pre, act.step.worker);
      ReturnBalances(y, Run(cfg, pre + [act]), outcomes, y.p.workers[act.step.worker].hand.item);
    } else {
      ServerSound(cfg, pre);
      OneMore(cfg, pre, act);
      OtherSteps(cfg, y, act);
      OtherBalances(y, Run(cfg, pre + [act]), outcomes);
      assert outcomes + [] == outcomes;
    }
  }

  /** In every run with at most 2^64 accepts: the frames whose session handler returned, in order, are the ones
      accounted for; each was posted to the session that was registered under its id, or none was; and what
      was posted to a session is exactly the frames accounted to it, in order. */
  lemma {:induction false} AllAccounted(cfg: P.Config, acts: seq<Action>)
    requires |Run(cfg, acts).n.sessions| <= TWO_64
    ensures Accounted(cfg, acts)
  {
    if acts != [] {
      var pre, act := acts[..|acts| - 1], acts[|acts| - 1];
      assert acts == pre + [act];
      SessionsGrow(cfg, Run(cfg, pre), act);
      AllAccounted(cfg, pre);
      StepAccounted(cfg, pre, act);
    }
  }
}
