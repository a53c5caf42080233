/** The whole server: network callbacks and the actor pipeline interleaved. A completed read dispatches its
    frame into the pipeline; a session handler that completes posts its frame to the registered session. */
module EndToEnd {
  import opened Machine
  import opened Messages
  import opened Sequences
  import P = Pipeline
  import N = Sessions
  import L = Ledger
  import F = Fifo
  import O = Order

  /** `sources[t]` is the session whose read produced event `t`. */
  datatype Server = Server(p: P.State, n: N.Net, sources: seq<nat>)

  datatype Action =
    | Callback(act: N.Action)
    | Read(session: nat, frame: Inbound)
    | Pipe(step: P.Action)

  function Init(cfg: P.Config): Server {
    Server(P.Init(cfg), N.Init(), [])
  }

  predicate CanRead(y: Server, i: nat) {
    i < |y.n.sessions| && y.n.sessions[i].phase.Reading?
  }

  /** The delivery a pipeline step makes: the session handler that completed in it, if any. */
  function Delivery(p: P.State, q: P.State): Option<N.Action> {
    if |q.handled| <= |p.handled| then None
    else
      var x := q.handled[|q.handled| - 1];
      if x.env.destination == Session && x.env.payload.Outgoing? then
        Some(N.Deliver(x.env.payload.sessionId, N.Note(x.tag, x.env.payload.frame)))
      else None
  }

  /** The pipeline action and the network action an action of the server amounts to. */
  function PipePart(y: Server, act: Action): Option<P.Action> {
    match act
    case Callback(_) => None
    case Read(i, frame) => if CanRead(y, i) then Some(P.Receive(y.n.sessions[i].id, frame)) else None
    case Pipe(step) => if step.Receive? then None else Some(step)
  }

  function NetPart(cfg: P.Config, y: Server, act: Action): Option<N.Action> {
    match act
    case Callback(a) => if a.Deliver? || (a.ReadDone? && a.ok) then None else Some(a)
    case Read(i, _) => if CanRead(y, i) then Some(N.ReadDone(i, true)) else None
    case Pipe(step) => if step.Receive? then None else Delivery(y.p, P.Step(cfg, y.p, step))
  }

  function Step(cfg: P.Config, y: Server, act: Action): Server {
    if y.p.crashed then y
    else
      var p := if PipePart(y, act).Some? then P.Step(cfg, y.p, PipePart(y, act).value) else y.p;
      var n := if NetPart(cfg, y, act).Some? then N.Step(y.n, NetPart(cfg, y, act).value) else y.n;
      Server(p, n, if act.Read? && |p.dispatched| > |y.p.dispatched| then y.sources + [act.session] else y.sources)
  }

  function Run(cfg: P.Config, acts: seq<Action>): Server {
    if acts == [] then Init(cfg) else Step(cfg, Run(cfg, acts[..|acts| - 1]), acts[|acts| - 1])
  }

  // ---------------------------------------------------------------- both halves are runs of their own machines

  function PipeActs(cfg: P.Config, acts: seq<Action>): seq<P.Action> {
    if acts == [] then []
    else
      var pre, act := acts[..|acts| - 1], acts[|acts| - 1];
      var y := Run(cfg, pre);
      PipeActs(cfg, pre) + if !y.p.crashed && PipePart(y, act).Some? then [PipePart(y, act).value] else []
  }

  function NetActs(cfg: P.Config, acts: seq<Action>): seq<N.Action> {
    if acts == [] then []
    else
      var pre, act := acts[..|acts| - 1], acts[|acts| - 1];
      var y := Run(cfg, pre);
      NetActs(cfg, pre) + if !y.p.crashed && NetPart(cfg, y, act).Some? then [NetPart(cfg, y, act).value] else []
  }

  lemma PipeOneMore(cfg: P.Config, xs: seq<P.Action>, x: P.Action)
    ensures P.Run(cfg, xs + [x]) == P.Step(cfg, P.Run(cfg, xs), x)
  {
    assert (xs + [x])[..|xs|] == xs;
  }

  lemma NetOneMore(xs: seq<N.Action>, x: N.Action)
    ensures N.Run(xs + [x]) == N.Step(N.Run(xs), x)
  {
    assert (xs + [x])[..|xs|] == xs;
  }

  lemma {:induction false} Projects(cfg: P.Config, acts: seq<Action>)
    ensures Run(cfg, acts).p == P.Run(cfg, PipeActs(cfg, acts))
    ensures Run(cfg, acts).n == N.Run(NetActs(cfg, acts))
  {
    if acts != [] {
      var pre, act := acts[..|acts| - 1], acts[|acts| - 1];
      var y := Run(cfg, pre);
      Projects(cfg, pre);
      if !y.p.crashed && PipePart(y, act).Some? {
        PipeOneMore(cfg, PipeActs(cfg, pre), PipePart(y, act).value);
      } else {
        assert PipeActs(cfg, pre) + [] == PipeActs(cfg, pre);
      }
      if !y.p.crashed && NetPart(cfg, y, act).Some? {
        NetOneMore(NetActs(cfg, pre), NetPart(cfg, y, act).value);
      } else {
        assert NetActs(cfg, pre) + [] == NetActs(cfg, pre);
      }
    }
  }

  // ---------------------------------------------------------------- every event knows its session

  predicate SourceOk(y: Server, t: nat)
    requires t < |y.sources| && t < |y.p.dispatched|
  {
    && y.sources[t] < |y.n.sessions|
    && (y.p.dispatched[t].env.payload.SendMessage? ==>
          y.p.dispatched[t].env.payload.event.sessionId == y.n.sessions[y.sources[t]].id)
  }

  predicate SourcesOk(y: Server) {
    |y.sources| == |y.p.dispatched| && forall t | 0 <= t < |y.sources| :: SourceOk(y, t)
  }

  lemma NetKeepsIds(n: N.Net, act: N.Action)
    ensures |n.sessions| <= |N.Step(n, act).sessions|
    ensures forall i | 0 <= i < |n.sessions| :: N.Step(n, act).sessions[i].id == n.sessions[i].id
  {
    N.IdsStay(n, act);
  }

  /** Only a routed frame is dispatched, and it carries the reading session's id. */
  lemma PipeDispatches(cfg: P.Config, p: P.State, step: P.Action)
    ensures !step.Receive? ==> P.Step(cfg, p, step).dispatched == p.dispatched
    ensures step.Receive? ==>
      || P.Step(cfg, p, step).dispatched == p.dispatched
      || (exists d | P.Step(cfg, p, step).dispatched == p.dispatched + [d] ::
            d.env.payload.SendMessage? ==> d.env.payload.event.sessionId == step.sessionId)
  {
    if step.Receive? && P.Step(cfg, p, step).dispatched != p.dispatched {
      var env := Route(step.sessionId, step.frame).env;
      var d := P.Dispatched(env, P.VerdictOn(cfg, p, env.destination).Accepted?);
      assert P.Step(cfg, p, step).dispatched == p.dispatched + [d];
    }
  }

  lemma StepSources(cfg: P.Config, y: Server, act: Action)
    requires SourcesOk(y)
    ensures SourcesOk(Step(cfg, y, act))
  {
    var z := Step(cfg, y, act);
    if !y.p.crashed {
      if PipePart(y, act).Some? {
        PipeDispatches(cfg, y.p, PipePart(y, act).value);
      }
      if NetPart(cfg, y, act).Some? {
        NetKeepsIds(y.n, NetPart(cfg, y, act).value);
      }
      forall t | 0 <= t < |z.sources| ensures t < |z.p.dispatched| && SourceOk(z, t) {
        if t < |y.sources| {
          assert SourceOk(y, t);
        }
      }
    }
  }

  lemma {:induction false} RunSources(cfg: P.Config, acts: seq<Action>)
    ensures SourcesOk(Run(cfg, acts))
  {
    if acts != [] {
      RunSources(cfg, acts[..|acts| - 1]);
      StepSources(cfg, Run(cfg, acts[..|acts| - 1]), acts[|acts| - 1]);
    }
  }

  // ---------------------------------------------------------------- what is posted to a session

  /** The frames clients see: message_delivered for an echo, incoming_message for a forward. */
  predicate IsFrame(k: L.Kind, frame: Frame) {
    match k
    case Persisted => false
    case Echo => frame.Delivered?
    case Forward => frame.Incoming?
  }

  /** Events of the frames of kind `k`, in order. */
  function NoteTags(k: L.Kind, notes: seq<N.Note>): seq<nat> {
    if notes == [] then []
    else NoteTags(k, notes[..|notes| - 1]) + if IsFrame(k, notes[|notes| - 1].frame) then [notes[|notes| - 1].tag] else []
  }

  lemma NoteTagsPush(k: L.Kind, notes: seq<N.Note>, note: N.Note)
    ensures NoteTags(k, notes + [note]) == NoteTags(k, notes) + if IsFrame(k, note.frame) then [note.tag] else []
  {
    assert (notes + [note])[..|notes|] == notes;
  }

  lemma {:induction false} NoteTagsPrefix(k: L.Kind, xs: seq<N.Note>, ys: seq<N.Note>)
    requires xs <= ys
    ensures NoteTags(k, xs) <= NoteTags(k, ys)
  {
    if |xs| < |ys| {
      NoteTagsPrefix(k, xs, ys[..|ys| - 1]);
    } else {
      assert xs == ys;
    }
  }

  /** A frame of kind `k` for this session is the one its event's chat handler addresses to this session. */
  predicate NoteOk(k: L.Kind, p: P.State, id: string, note: N.Note) {
    IsFrame(k, note.frame) ==>
      && note.tag < |p.dispatched|
      && p.dispatched[note.tag].env.payload.SendMessage?
      && var e := p.dispatched[note.tag].env.payload.event;
         Envelope(Session, Outgoing(id, note.frame)) == L.EffectOf(k, e) && (k.Forward? ==> e.recipientId != "")
  }

  predicate PostsOk(k: L.Kind, p: P.State, x: N.Socket) {
    && (forall j | 0 <= j < |x.posts| :: NoteOk(k, p, x.id, x.posts[j]))
    && Increasing(NoteTags(k, x.posts))
    && (forall j | 0 <= j < |NoteTags(k, x.posts)| :: NoteTags(k, x.posts)[j] in F.Effects(k, p.handled))
  }

  predicate AllPostsOk(k: L.Kind, y: Server) {
    forall i | 0 <= i < |y.n.sessions| :: PostsOk(k, y.p, y.n.sessions[i])
  }

  /** Nothing already posted is disturbed when the pipeline moves on. */
  lemma PostsGrow(k: L.Kind, p: P.State, q: P.State, x: N.Socket)
    requires PostsOk(k, p, x) && p.dispatched <= q.dispatched && p.handled <= q.handled
    ensures PostsOk(k, q, x)
  {
    EffectsPrefix(k, p.handled, q.handled);
    forall j | 0 <= j < |x.posts| ensures NoteOk(k, q, x.id, x.posts[j]) {
      assert NoteOk(k, p, x.id, x.posts[j]);
    }
  }

  lemma {:induction false} EffectsPrefix(k: L.Kind, xs: seq<P.Item>, ys: seq<P.Item>)
    requires xs <= ys
    ensures F.Effects(k, xs) <= F.Effects(k, ys)
  {
    if |xs| < |ys| {
      EffectsPrefix(k, xs, ys[..|ys| - 1]);
    } else {
      assert xs == ys;
    }
  }

  /** A new frame comes after every frame of its kind posted before it, because effects happen in order. */
  lemma PostInOrder(k: L.Kind, p: P.State, q: P.State, x: N.Socket, item: P.Item, frame: Frame)
    requires PostsOk(k, q, x) && PostsOk(k, p, x) && q.handled == p.handled + [item]
    requires item.env == Envelope(Session, Outgoing(x.id, frame))
    requires NoteOk(k, q, x.id, N.Note(item.tag, frame))
    requires Increasing(F.Effects(k, q.handled))
    ensures PostsOk(k, q, N.Post(x, N.Note(item.tag, frame)))
  {
    var note := N.Note(item.tag, frame);
    NoteTagsPush(k, x.posts, note);
    F.EffectsPush(k, p.handled, item);
    if IsFrame(k, frame) {
      var before, after := F.Effects(k, p.handled), F.Effects(k, q.handled);
      assert after == before + [item.tag];
      forall j | 0 <= j < |NoteTags(k, x.posts)| ensures NoteTags(k, x.posts)[j] < item.tag {
        assert NoteTags(k, x.posts)[j] in before;
        var m :| 0 <= m < |before| && before[m] == NoteTags(k, x.posts)[j];
        assert after[m] < after[|before|];
      }
    }
  }

  // ---------------------------------------------------------------- every step keeps the posts in order

  lemma PipeLogsGrow(cfg: P.Config, p: P.State, step: P.Action)
    ensures var q := P.Step(cfg, p, step);
      p.dispatched <= q.dispatched && (q.handled == p.handled || exists x :: q.handled == p.handled + [x])
  {
    PipeDispatches(cfg, p, step);
    var q := P.Step(cfg, p, step);
    if q.handled != p.handled {
      assert q.handled == p.handled + [p.workers[step.worker].hand.item];
    }
  }

  lemma NetKeepsPosts(n: N.Net, act: N.Action, i: nat)
    requires !act.Deliver? && i < |n.sessions|
    ensures i < |N.Step(n, act).sessions| && N.Step(n, act).sessions[i].posts == n.sessions[i].posts
  {
  }

  lemma CallbackPosts(k: L.Kind, p: P.State, n: N.Net, act: N.Action)
    requires !act.Deliver? && forall i | 0 <= i < |n.sessions| :: PostsOk(k, p, n.sessions[i])
    ensures forall i | 0 <= i < |N.Step(n, act).sessions| :: PostsOk(k, p, N.Step(n, act).sessions[i])
  {
    var t := N.Step(n, act);
    N.IdsStay(n, act);
    forall i | 0 <= i < |t.sessions| ensures PostsOk(k, p, t.sessions[i]) {
      if i < |n.sessions| {
        NetKeepsPosts(n, act, i);
        assert PostsOk(k, p, n.sessions[i]);
        NetKeepsIds(n, act);
      }
    }
  }

  lemma DeliverPosts(k: L.Kind, p: P.State, q: P.State, n: N.Net, item: P.Item, frame: Frame)
    requires N.RegistryOk(n) && q.handled == p.handled + [item] && p.dispatched <= q.dispatched
    requires item.env.destination == Session && item.env.payload.Outgoing? && item.env.payload.frame == frame
    requires forall i | 0 <= i < |n.sessions| :: PostsOk(k, p, n.sessions[i])
    requires NoteOk(k, q, item.env.payload.sessionId, N.Note(item.tag, frame))
    requires Increasing(F.Effects(k, q.handled))
    ensures var t := N.Step(n, N.Deliver(item.env.payload.sessionId, N.Note(item.tag, frame)));
      forall i | 0 <= i < |t.sessions| :: PostsOk(k, q, t.sessions[i])
  {
    var id := item.env.payload.sessionId;
    var t := N.Step(n, N.Deliver(id, N.Note(item.tag, frame)));
    forall i | 0 <= i < |t.sessions| ensures PostsOk(k, q, t.sessions[i]) {
      PostsGrow(k, p, q, n.sessions[i]);
      if id in n.registry && n.registry[id] == i {
        PostInOrder(k, p, q, n.sessions[i], item, frame);
      }
    }
  }

  /** The item a session handler completed is an effect of the event it is tagged with. */
  lemma HandledNote(cfg: P.Config, k: L.Kind, steps: seq<P.Action>)
    requires P.Run(cfg, steps).handled != []
    ensures var q := P.Run(cfg, steps); var x := q.handled[|q.handled| - 1];
      x.env.destination == Session && x.env.payload.Outgoing? ==>
        NoteOk(k, q, x.env.payload.sessionId, N.Note(x.tag, x.env.payload.frame))
  {
    var q := P.Run(cfg, steps);
    var i := |q.handled| - 1;
    if L.IsKind(k, q.handled[i].env) {
      L.Provenance(cfg, steps, i, k);
    }
  }

  lemma StepPosts(cfg: P.Config, k: L.Kind, pre: seq<Action>, act: Action)
    requires AllPostsOk(k, Run(cfg, pre))
    requires |Run(cfg, pre).n.sessions| <= TWO_64
    requires F.ExclusiveRun(cfg, PipeActs(cfg, pre + [act]), k)
    ensures AllPostsOk(k, Step(cfg, Run(cfg, pre), act))
  {
    var y := Run(cfg, pre);
    if y.p.crashed {
      return;
    }
    var z := Step(cfg, y, act);
    assert (pre + [act])[..|pre|] == pre;
    Projects(cfg, pre);
    Projects(cfg, pre + [act]);
    var p, q := y.p, z.p;
    if PipePart(y, act).Some? {
      PipeLogsGrow(cfg, p, PipePart(y, act).value);
    }
    if NetPart(cfg, y, act).Some? && NetPart(cfg, y, act).value.Deliver? {
      var item := q.handled[|q.handled| - 1];
      assert q.handled == p.handled + [item];
      N.RunRegistryOk(NetActs(cfg, pre));
      HandledNote(cfg, k, PipeActs(cfg, pre + [act]));
      F.EffectsIncrease(k, cfg, PipeActs(cfg, pre + [act]));
      DeliverPosts(k, p, q, y.n, item, item.env.payload.frame);
    } else {
      forall i | 0 <= i < |y.n.sessions| ensures PostsOk(k, q, y.n.sessions[i]) {
        PostsGrow(k, p, q, y.n.sessions[i]);
      }
      if NetPart(cfg, y, act).Some? {
        CallbackPosts(k, q, y.n, NetPart(cfg, y, act).value);
      }
    }
  }

  lemma ExclusivePrefix(cfg: P.Config, k: L.Kind, xs: seq<P.Action>, ys: seq<P.Action>)
    requires xs <= ys && F.ExclusiveRun(cfg, ys, k)
    ensures F.ExclusiveRun(cfg, xs, k)
  {
    forall m | 0 <= m <= |xs| ensures F.ExclusivePath(k, P.Run(cfg, xs[..m])) {
      assert xs[..m] == ys[..m];
    }
  }

  lemma SessionsGrow(cfg: P.Config, y: Server, act: Action)
    ensures |y.n.sessions| <= |Step(cfg, y, act).n.sessions|
  {
    if !y.p.crashed && NetPart(cfg, y, act).Some? {
      NetKeepsIds(y.n, NetPart(cfg, y, act).value);
    }
  }

  lemma {:induction false} RunPosts(cfg: P.Config, k: L.Kind, acts: seq<Action>)
    requires |Run(cfg, acts).n.sessions| <= TWO_64
    requires F.ExclusiveRun(cfg, PipeActs(cfg, acts), k)
    ensures AllPostsOk(k, Run(cfg, acts))
  {
    if acts != [] {
      var pre, act := acts[..|acts| - 1], acts[|acts| - 1];
      assert acts == pre + [act];
      SessionsGrow(cfg, Run(cfg, pre), act);
      assert PipeActs(cfg, pre) <= PipeActs(cfg, acts);
      ExclusivePrefix(cfg, k, PipeActs(cfg, pre), PipeActs(cfg, acts));
      RunPosts(cfg, k, pre);
      StepPosts(cfg, k, pre, act);
      assert Run(cfg, acts) == Step(cfg, Run(cfg, pre), act);
    }
  }

  // ---------------------------------------------------------------- the theorem

  /** One event read by a session. */
  datatype Line = Line(source: nat, env: Envelope)

  function History(y: Server): seq<Line>
    requires |y.sources| == |y.p.dispatched|
  {
    seq(|y.sources|, t requires 0 <= t < |y.sources| => Line(y.sources[t], y.p.dispatched[t].env))
  }

  /** The send_message events that owe session `i`, called `id`, a frame of kind `k`: an echo goes to the session
      the event was read from, a recipient frame to the session it names. */
  predicate Owed(k: L.Kind, i: nat, id: string, line: Line) {
    line.env.payload.SendMessage? &&
    match k
    case Persisted => false
    case Echo => line.source == i
    case Forward => line.env.payload.event.recipientId == id
  }

  /** The frame says what the event said. */
  predicate Conveys(k: L.Kind, frame: Frame, e: SendEvent) {
    match k
    case Persisted => false
    case Echo => frame == Delivered(e.chatId, e.text)
    case Forward => frame == Incoming(e.chatId, e.text, e.senderId)
  }

  /** The frames of kind `k` that reached the wire of a session, in wire order. */
  function FramesOnWire(k: L.Kind, x: N.Socket): seq<N.Note> {
    Filter(x.wire, (note: N.Note) => IsFrame(k, note.frame))
  }

  lemma {:induction false} NoteTagsAre(k: L.Kind, notes: seq<N.Note>)
    ensures var frames := Filter(notes, (note: N.Note) => IsFrame(k, note.frame));
      && |frames| == |NoteTags(k, notes)|
      && forall j | 0 <= j < |frames| :: frames[j].tag == NoteTags(k, notes)[j] && frames[j] in notes && IsFrame(k, frames[j].frame)
  {
    if notes != [] {
      NoteTagsAre(k, notes[..|notes| - 1]);
    }
  }

  /** The reads these frames answer. */
  function Answered(y: Server, frames: seq<N.Note>): seq<Line>
    requires |y.sources| == |y.p.dispatched|
    requires forall j | 0 <= j < |frames| :: frames[j].tag < |y.sources|
  {
    seq(|frames|, j requires 0 <= j < |frames| => History(y)[frames[j].tag])
  }

  /** The wire shows what was posted, from the first post on. */
  lemma WireIsPrefix(x: N.Socket)
    requires N.WriteOk(x)
    ensures x.wire <= x.posts
  {
    assert x.posts == x.written + x.queue + x.tasks;
  }

  lemma WirePostsOk(k: L.Kind, p: P.State, x: N.Socket)
    requires N.WriteOk(x) && PostsOk(k, p, x)
    ensures Increasing(NoteTags(k, x.wire)) && forall j | 0 <= j < |x.wire| :: NoteOk(k, p, x.id, x.wire[j])
  {
    WireIsPrefix(x);
    NoteTagsPrefix(k, x.wire, x.posts);
    forall j | 0 <= j < |x.wire| ensures NoteOk(k, p, x.id, x.wire[j]) {
      assert x.wire[j] == x.posts[j];
    }
  }

  lemma WireOk(cfg: P.Config, k: L.Kind, acts: seq<Action>, i: nat)
    requires |Run(cfg, acts).n.sessions| <= TWO_64 && i < |Run(cfg, acts).n.sessions|
    requires F.ExclusiveRun(cfg, PipeActs(cfg, acts), k)
    ensures var y := Run(cfg, acts); var x := y.n.sessions[i];
      Increasing(NoteTags(k, x.wire)) && forall j | 0 <= j < |x.wire| :: NoteOk(k, y.p, x.id, x.wire[j])
  {
    RunPosts(cfg, k, acts);
    Projects(cfg, acts);
    N.RunWriteOk(NetActs(cfg, acts));
    WirePostsOk(k, Run(cfg, acts).p, Run(cfg, acts).n.sessions[i]);
  }

  /** The frames of kind `k` on the wire of session `i` answer, in order and in their own words, a subsequence of the
      events that owe it one. */
  ghost predicate AnswersInOrder(k: L.Kind, y: Server, i: nat)
    requires i < |y.n.sessions|
  {
    var x := y.n.sessions[i];
    var frames := FramesOnWire(k, x);
    && |y.sources| == |y.p.dispatched|
    && (forall j | 0 <= j < |frames| ::
          && frames[j].tag < |y.sources|
          && Owed(k, i, x.id, History(y)[frames[j].tag])
          && Conveys(k, frames[j].frame, History(y)[frames[j].tag].env.payload.event))
    && Subsequence(Answered(y, frames), Filter(History(y), line => Owed(k, i, x.id, line)))
  }

  lemma FrameAnswers(k: L.Kind, y: Server, i: nat, note: N.Note)
    requires i < |y.n.sessions| && N.DistinctIds(y.n) && SourcesOk(y)
    requires IsFrame(k, note.frame) && NoteOk(k, y.p, y.n.sessions[i].id, note)
    ensures note.tag < |y.sources| && Owed(k, i, y.n.sessions[i].id, History(y)[note.tag])
    ensures Conveys(k, note.frame, History(y)[note.tag].env.payload.event)
  {
    assert SourceOk(y, note.tag);
  }

  /** End-to-end order: in every run with at most 2^64 accepts in which no two workers hold envelopes of one
      mailbox at once, the message_delivered frames on a session's wire answer, in order, a subsequence of
      the send_message frames read from that session, and the incoming_message frames on it a subsequence
      of the send_message frames, read from any session, that name it as recipient. */
  lemma DeliveredInOrder(cfg: P.Config, k: L.Kind, acts: seq<Action>, i: nat)
    requires |Run(cfg, acts).n.sessions| <= TWO_64 && i < |Run(cfg, acts).n.sessions|
    requires F.ExclusiveRun(cfg, PipeActs(cfg, acts), k)
    ensures AnswersInOrder(k, Run(cfg, acts), i)
  {
    var y := Run(cfg, acts);
    var x := y.n.sessions[i];
    var frames := FramesOnWire(k, x);
    WireOk(cfg, k, acts, i);
    RunSources(cfg, acts);
    NoteTagsAre(k, x.wire);
    Projects(cfg, acts);
    N.RunRegistryOk(NetActs(cfg, acts));
    hide Run, N.RegistryOk, SourcesOk, NoteOk, Owed, Conveys;
    forall j | 0 <= j < |frames|
      ensures frames[j].tag < |y.sources| && Owed(k, i, x.id, History(y)[frames[j].tag])
        && Conveys(k, frames[j].frame, History(y)[frames[j].tag].env.payload.event)
    {
      var m :| 0 <= m < |x.wire| && x.wire[m] == frames[j];
      FrameAnswers(k, y, i, x.wire[m]);
    }
    assert Picks(NoteTags(k, x.wire), Answered(y, frames), History(y));
    PickedIsSubsequence(NoteTags(k, x.wire), Answered(y, frames), History(y), line => Owed(k, i, x.id, line));
  }

  /** With one worker the order holds in every run. */
  lemma OneWorkerDeliversInOrder(cfg: P.Config, k: L.Kind, acts: seq<Action>, i: nat)
    requires cfg.workers <= 1
    requires |Run(cfg, acts).n.sessions| <= TWO_64 && i < |Run(cfg, acts).n.sessions|
    ensures AnswersInOrder(k, Run(cfg, acts), i)
  {
    O.OneWorkerIsExclusive(cfg, PipeActs(cfg, acts), k);
    DeliveredInOrder(cfg, k, acts, i);
  }
}
