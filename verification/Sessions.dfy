/** The WebSocket side: the listener's session ids, the transport registry and each session's strand, read
    loop and write queue, as a step machine over their callbacks. */
module Sessions {
  import opened Machine
  import opened Messages
  import opened Decimal

  /** A frame with the number of the event that caused it. */
  datatype Note = Note(tag: nat, frame: Frame)

  /** What a session's read side is doing. `Rearming`: one of its own handlers is running on the strand and
      is about to start the next read. */
  datatype Phase = Handshaking | Rearming | Reading | Ended

  /** `tasks` are posted to the strand and have not run; `queue` is the write queue; `writing` is the frame
      handed to the outstanding asynchronous write. The other fields are history. */
  datatype Socket = Socket(
    id: string,
    phase: Phase,
    tasks: seq<Note>,
    queue: seq<Note>,
    writing: Option<Note>,
    failed: bool,
    posts: seq<Note>,
    ran: seq<Note>,
    wire: seq<Note>,
    written: seq<Note>)

  datatype Event = Bound(session: nat) | Unbound(session: nat) | Posted(session: nat)

  datatype Net = Net(next: nat, sessions: seq<Socket>, registry: map<string, nat>, log: seq<Event>)

  datatype Action =
    | Accept(ok: bool)
    | Handshake(session: nat, ok: bool)
    | Rearm(session: nat)
    | ReadDone(session: nat, ok: bool)
    | RunTask(session: nat)
    | WriteDone(session: nat, ok: bool)
    | Deliver(sessionId: string, note: Note)

  // ---------------------------------------------------------------- one session

  function NewSocket(id: string): Socket {
    Socket(id, Handshaking, [], [], None, false, [], [], [], [])
  }

  function StartWrite(x: Socket): Socket
    requires x.queue != []
  {
    x.(writing := Some(x.queue[0]), wire := x.wire + [x.queue[0]])
  }

  function Post(x: Socket, note: Note): Socket {
    x.(tasks := x.tasks + [note], posts := x.posts + [note])
  }

  /** The posted lambda of `send`: queue the payload, start a write if none can be outstanding. */
  function Ran(x: Socket): Socket
    requires x.tasks != []
  {
    var writing := x.queue != [];
    var y := x.(tasks := x.tasks[1..], queue := x.queue + [x.tasks[0]], ran := x.ran + [x.tasks[0]]);
    if writing then y else StartWrite(y)
  }

  /** `onWrite`: on an error the queue is left as it is. */
  function Wrote(x: Socket, ok: bool): Socket
    requires x.writing.Some? && x.queue != []
  {
    if !ok then x.(writing := None, failed := true)
    else
      var y := x.(queue := x.queue[1..], writing := None, written := x.written + [x.queue[0]]);
      if y.queue != [] then StartWrite(y) else y
  }

  /** Some outstanding operation, running handler or posted task owns the session. */
  predicate Live(x: Socket) {
    !x.phase.Ended? || x.tasks != [] || x.writing.Some?
  }

  /** The write-queue protocol. */
  predicate WriteOk(x: Socket) {
    && x.ran == x.written + x.queue
    && x.posts == x.ran + x.tasks
    && (x.writing.Some? <==> x.queue != [] && !x.failed)
    && (x.writing.Some? ==> x.writing.value == x.queue[0])
    && (x.failed ==> x.queue != [])
    && x.wire == x.written + if x.queue != [] then [x.queue[0]] else []
  }

  lemma RanOk(x: Socket)
    requires WriteOk(x) && x.tasks != []
    ensures WriteOk(Ran(x))
  {
    var y := Ran(x);
    assert x.ran + x.tasks == (x.ran + [x.tasks[0]]) + x.tasks[1..];
    assert y.ran == y.written + y.queue;
    if x.queue != [] {
      assert y.queue[0] == x.queue[0];
    }
  }

  lemma WroteOk(x: Socket, ok: bool)
    requires WriteOk(x) && x.writing.Some?
    ensures WriteOk(Wrote(x, ok))
  {
    if ok {
      assert x.written + x.queue == (x.written + [x.queue[0]]) + x.queue[1..];
    }
  }

  // ---------------------------------------------------------------- the machine

  function Init(): Net {
    Net(0, [], map[], [])
  }

  function Unbind(n: Net, i: nat): Net
    requires i < |n.sessions|
  {
    n.(registry := n.registry - {n.sessions[i].id}, log := n.log + [Unbound(i)])
  }

  function Put(n: Net, i: nat, x: Socket): Net
    requires i < |n.sessions|
  {
    n.(sessions := n.sessions[i := x])
  }

  function Step(n: Net, act: Action): Net {
    match act
    case Accept(ok) =>
      if !ok then n
      else
        var next := Wrap(n.next + 1);
        n.(next := next, sessions := n.sessions + [NewSocket(Digits(next))])
    case Handshake(i, ok) =>
      if i >= |n.sessions| || !n.sessions[i].phase.Handshaking? then n
      else if !ok then Put(n, i, n.sessions[i].(phase := Ended))
      else
        Put(n.(registry := n.registry[n.sessions[i].id := i], log := n.log + [Bound(i)]), i,
            n.sessions[i].(phase := Rearming))
    case Rearm(i) =>
      if i >= |n.sessions| || !n.sessions[i].phase.Rearming? then n
      else Put(n, i, n.sessions[i].(phase := Reading))
    case ReadDone(i, ok) =>
      if i >= |n.sessions| || !n.sessions[i].phase.Reading? then n
      else if ok then Put(n, i, n.sessions[i].(phase := Rearming))
      else Put(Unbind(n, i), i, n.sessions[i].(phase := Ended))
    case RunTask(i) =>
      if i >= |n.sessions| || n.sessions[i].phase.Rearming? || n.sessions[i].tasks == [] then n
      else Put(n, i, Ran(n.sessions[i]))
    case WriteDone(i, ok) =>
      if i >= |n.sessions| || n.sessions[i].phase.Rearming? || n.sessions[i].writing.None? || n.sessions[i].queue == [] then n
      else if ok then Put(n, i, Wrote(n.sessions[i], ok))
      else Put(Unbind(n, i), i, Wrote(n.sessions[i], ok))
    case Deliver(sessionId, note) =>
      if sessionId !in n.registry then n
      else
        var i := n.registry[sessionId];
        if i < |n.sessions| && Live(n.sessions[i]) then Put(n.(log := n.log + [Posted(i)]), i, Post(n.sessions[i], note))
        else n
  }

  function RunFrom(n: Net, acts: seq<Action>): Net {
    if acts == [] then n else Step(RunFrom(n, acts[..|acts| - 1]), acts[|acts| - 1])
  }

  function Run(acts: seq<Action>): Net {
    RunFrom(Init(), acts)
  }

  // ---------------------------------------------------------------- write queue, in every run

  predicate AllWriteOk(n: Net) {
    forall i | 0 <= i < |n.sessions| :: WriteOk(n.sessions[i])
  }

  lemma StepWriteOk(n: Net, act: Action)
    requires AllWriteOk(n)
    ensures AllWriteOk(Step(n, act))
  {
    match act
    case RunTask(i) =>
      if i < |n.sessions| && n.sessions[i].tasks != [] {
        RanOk(n.sessions[i]);
      }
    case WriteDone(i, ok) =>
      if i < |n.sessions| && n.sessions[i].writing.Some? {
        WroteOk(n.sessions[i], ok);
      }
    case Deliver(sessionId, note) =>
      if sessionId in n.registry && n.registry[sessionId] < |n.sessions| {
        var x := n.sessions[n.registry[sessionId]];
        assert x.ran + (x.tasks + [note]) == (x.ran + x.tasks) + [note];
      }
    case _ =>
  }

  /** The write-queue protocol holds for every session in every reachable state. */
  lemma {:induction false} RunWriteOk(acts: seq<Action>)
    ensures AllWriteOk(Run(acts))
  {
    if acts != [] {
      RunWriteOk(acts[..|acts| - 1]);
      StepWriteOk(Run(acts[..|acts| - 1]), acts[|acts| - 1]);
    }
  }

  /** What has reached the wire is never taken back, and after a write error it never grows again. */
  lemma {:induction false} WireGrows(n: Net, acts: seq<Action>, i: nat)
    requires AllWriteOk(n) && i < |n.sessions|
    ensures var t := RunFrom(n, acts);
      && AllWriteOk(t) && i < |t.sessions|
      && n.sessions[i].wire <= t.sessions[i].wire
      && (n.sessions[i].failed ==> t.sessions[i].failed && t.sessions[i].wire == n.sessions[i].wire)
  {
    if acts != [] {
      var u := RunFrom(n, acts[..|acts| - 1]);
      WireGrows(n, acts[..|acts| - 1], i);
      StepWriteOk(u, acts[|acts| - 1]);
      StepWire(u, acts[|acts| - 1], i);
      hide Step, AllWriteOk;
    }
  }

  lemma StepWire(n: Net, act: Action, i: nat)
    requires AllWriteOk(n) && i < |n.sessions|
    ensures var t := Step(n, act);
      && i < |t.sessions| && n.sessions[i].wire <= t.sessions[i].wire
      && (n.sessions[i].failed ==> t.sessions[i].failed && t.sessions[i].wire == n.sessions[i].wire)
  {
    assert WriteOk(n.sessions[i]);
  }

  lemma StepFront(n: Net, act: Action, i: nat)
    requires AllWriteOk(n) && i < |n.sessions| && n.sessions[i].writing.Some?
    requires !(act.WriteDone? && act.session == i)
    ensures var x, y := n.sessions[i], Step(n, act).sessions;
      i < |y| && y[i].writing == x.writing && y[i].queue != [] && y[i].queue[0] == x.writing.value && y[i].wire == x.wire
  {
    assert WriteOk(n.sessions[i]);
  }

  /** From the start of a write until its own completion, whatever else happens to this session or to any
      other, write completions of other sessions included, the write stays outstanding, nobody touches the
      buffer it was given, and nothing else goes to the wire. */
  lemma {:induction false} FrontStays(n: Net, acts: seq<Action>, i: nat)
    requires AllWriteOk(n) && i < |n.sessions| && n.sessions[i].writing.Some?
    requires forall j | 0 <= j < |acts| :: !(acts[j].WriteDone? && acts[j].session == i)
    ensures var x, t := n.sessions[i], RunFrom(n, acts);
      && AllWriteOk(t) && i < |t.sessions| && t.sessions[i].writing == x.writing
      && t.sessions[i].queue != [] && t.sessions[i].queue[0] == x.queue[0] == x.writing.value
      && t.sessions[i].wire == x.wire
  {
    assert WriteOk(n.sessions[i]);
    if acts != [] {
      var pre, act := acts[..|acts| - 1], acts[|acts| - 1];
      FrontStays(n, pre, i);
      StepWriteOk(RunFrom(n, pre), act);
      StepFront(RunFrom(n, pre), act, i);
      hide Step, AllWriteOk;
    }
  }

  // ---------------------------------------------------------------- session ids

  predicate Numbered(n: Net) {
    && n.next == Wrap(|n.sessions|)
    && forall i | 0 <= i < |n.sessions| :: n.sessions[i].id == Digits(Wrap(i + 1))
  }

  lemma WrapOnce(x: nat)
    ensures Wrap(Wrap(x) + 1) == Wrap(x + 1)
  {
  }

  lemma WrapShift(x: nat, y: nat)
    ensures Wrap(x + 1) == Wrap(y + 1) <==> Wrap(x) == Wrap(y)
  {
  }

  lemma IdsStay(n: Net, act: Action)
    ensures !(act.Accept? && act.ok) ==>
      |Step(n, act).sessions| == |n.sessions| && Step(n, act).next == n.next
      && forall i | 0 <= i < |n.sessions| :: Step(n, act).sessions[i].id == n.sessions[i].id
  {
  }

  lemma {:induction false} RunNumbered(acts: seq<Action>)
    ensures Numbered(Run(acts))
  {
    if acts != [] {
      hide Wrap, Digits;
      var n, act := Run(acts[..|acts| - 1]), acts[|acts| - 1];
      RunNumbered(acts[..|acts| - 1]);
      WrapOnce(|n.sessions|);
      if act.Accept? && act.ok {
        assert Step(n, act).sessions == n.sessions + [NewSocket(Digits(Wrap(n.next + 1)))];
      } else {
        IdsStay(n, act);
        hide Step;
      }
    } else {
      assert Wrap(0) == 0;
    }
  }

  /** How many accepts of the run succeeded. */
  function Accepts(acts: seq<Action>): nat {
    if acts == [] then 0 else Accepts(acts[..|acts| - 1]) + if acts[|acts| - 1] == Accept(true) then 1 else 0
  }

  /** Every successful accept, and nothing else, makes a session. */
  lemma {:induction false} AcceptsMakeSessions(acts: seq<Action>)
    ensures |Run(acts).sessions| == Accepts(acts)
  {
    if acts != [] {
      AcceptsMakeSessions(acts[..|acts| - 1]);
      IdsStay(Run(acts[..|acts| - 1]), acts[|acts| - 1]);
    }
  }

  /** Two sessions share an id exactly when a multiple of 2^64 accepts lies between them. */
  lemma IdsCollide(acts: seq<Action>, i: nat, j: nat)
    requires i < |Run(acts).sessions| && j < |Run(acts).sessions|
    ensures Run(acts).sessions[i].id == Run(acts).sessions[j].id <==> i % TWO_64 == j % TWO_64
  {
    RunNumbered(acts);
    DigitsInjective(Wrap(i + 1), Wrap(j + 1));
    WrapShift(i, j);
  }

  predicate DistinctIds(n: Net) {
    forall i, j | 0 <= i < |n.sessions| && 0 <= j < |n.sessions| && i != j :: n.sessions[i].id != n.sessions[j].id
  }

  lemma IdsDistinct(acts: seq<Action>)
    requires |Run(acts).sessions| <= TWO_64
    ensures DistinctIds(Run(acts))
  {
    forall i, j | 0 <= i < |Run(acts).sessions| && 0 <= j < |Run(acts).sessions| && i != j
      ensures Run(acts).sessions[i].id != Run(acts).sessions[j].id
    {
      IdsCollide(acts, i, j);
    }
  }

  // ---------------------------------------------------------------- registry and life cycle

  predicate Open(x: Socket) {
    (x.phase.Rearming? || x.phase.Reading?) && !x.failed
  }

  /** The registry is exactly the open sessions, each under its own id. */
  predicate RegistryOk(n: Net) {
    && (forall k | k in n.registry :: n.registry[k] < |n.sessions| && n.sessions[n.registry[k]].id == k && Open(n.sessions[n.registry[k]]))
    && (forall i | 0 <= i < |n.sessions| && Open(n.sessions[i]) :: n.sessions[i].id in n.registry && n.registry[n.sessions[i].id] == i)
  }

  lemma SameRegistry(n: Net, i: nat, x: Socket)
    requires RegistryOk(n) && i < |n.sessions| && x.id == n.sessions[i].id && Open(x) == Open(n.sessions[i])
    ensures RegistryOk(Put(n, i, x))
  {
  }

  lemma Binds(n: Net, i: nat, x: Socket)
    requires RegistryOk(n) && DistinctIds(n) && i < |n.sessions| && x.id == n.sessions[i].id && Open(x)
    ensures RegistryOk(Put(n.(registry := n.registry[x.id := i], log := n.log + [Bound(i)]), i, x))
  {
  }

  /** Unbinding removes this session's entry and no other. */
  lemma Unbinds(n: Net, i: nat, x: Socket)
    requires RegistryOk(n) && DistinctIds(n) && i < |n.sessions| && x.id == n.sessions[i].id && !Open(x)
    ensures RegistryOk(Put(Unbind(n, i), i, x))
    ensures forall k | k in n.registry && n.registry[k] != i :: k in Unbind(n, i).registry && Unbind(n, i).registry[k] == n.registry[k]
  {
  }

  lemma AcceptKeepsRegistry(n: Net, x: Socket, next: nat)
    requires RegistryOk(n) && !Open(x)
    ensures RegistryOk(n.(next := next, sessions := n.sessions + [x]))
  {
  }

  lemma StepRegistryOk(n: Net, act: Action)
    requires RegistryOk(n) && DistinctIds(n) && FreshOk(n)
    ensures RegistryOk(Step(n, act))
  {
    match act
    case Accept(ok) =>
      AcceptKeepsRegistry(n, NewSocket(Digits(Wrap(n.next + 1))), Wrap(n.next + 1));
    case Handshake(i, ok) =>
      if i < |n.sessions| && n.sessions[i].phase.Handshaking? {
        if ok {
          Binds(n, i, n.sessions[i].(phase := Rearming));
        } else {
          SameRegistry(n, i, n.sessions[i].(phase := Ended));
        }
      }
    case Rearm(i) =>
      if i < |n.sessions| && n.sessions[i].phase.Rearming? {
        SameRegistry(n, i, n.sessions[i].(phase := Reading));
      }
    case ReadDone(i, ok) =>
      if i < |n.sessions| && n.sessions[i].phase.Reading? {
        if ok {
          SameRegistry(n, i, n.sessions[i].(phase := Rearming));
        } else {
          Unbinds(n, i, n.sessions[i].(phase := Ended));
        }
      }
    case RunTask(i) =>
      if i < |n.sessions| && n.sessions[i].tasks != [] {
        SameRegistry(n, i, Ran(n.sessions[i]));
      }
    case WriteDone(i, ok) =>
      if i < |n.sessions| && n.sessions[i].writing.Some? && n.sessions[i].queue != [] {
        if ok {
          SameRegistry(n, i, Wrote(n.sessions[i], ok));
        } else {
          Unbinds(n, i, Wrote(n.sessions[i], ok));
        }
      }
    case Deliver(sessionId, note) =>
      if sessionId in n.registry {
        SameRegistry(n, n.registry[sessionId], Post(n.sessions[n.registry[sessionId]], note));
      }
  }

  lemma SessionsGrow(n: Net, act: Action)
    ensures |n.sessions| <= |Step(n, act).sessions|
  {
  }

  /** A session whose handshake is still running has had nothing posted and no write error. */
  predicate FreshOk(n: Net) {
    forall i | 0 <= i < |n.sessions| && n.sessions[i].phase.Handshaking? :: n.sessions[i].posts == [] && !n.sessions[i].failed
  }

  lemma StepFreshOk(n: Net, act: Action)
    requires RegistryOk(n) && FreshOk(n) && AllWriteOk(n)
    ensures FreshOk(Step(n, act))
  {
    match act
    case WriteDone(i, ok) =>
      if i < |n.sessions| {
        assert WriteOk(n.sessions[i]);
      }
    case _ =>
  }

  /** Over any interleaving of accepts, handshakes, reads, writes, errors and deliveries with at most 2^64
      accepts, the registry is exactly the open sessions. */
  lemma {:induction false} RunRegistryOk(acts: seq<Action>)
    requires |Run(acts).sessions| <= TWO_64
    ensures RegistryOk(Run(acts)) && FreshOk(Run(acts)) && DistinctIds(Run(acts))
  {
    IdsDistinct(acts);
    if acts != [] {
      var n := Run(acts[..|acts| - 1]);
      SessionsGrow(n, acts[|acts| - 1]);
      RunRegistryOk(acts[..|acts| - 1]);
      RunWriteOk(acts[..|acts| - 1]);
      StepRegistryOk(n, acts[|acts| - 1]);
      StepFreshOk(n, acts[|acts| - 1]);
    }
  }

  /** A bound session is owned by one of its own operations, so the registry's weak pointer locks: every
      frame addressed to a bound id is posted to the session of that id. */
  lemma BoundIsLive(acts: seq<Action>, id: string, note: Note)
    requires |Run(acts).sessions| <= TWO_64 && id in Run(acts).registry
    ensures var n := Run(acts); var i := n.registry[id];
      && i < |n.sessions| && n.sessions[i].id == id && Live(n.sessions[i])
      && (n.sessions[i].phase.Reading? || n.sessions[i].phase.Rearming?)
      && var t := Step(n, Deliver(id, note));
         i < |t.sessions| && t.sessions[i].posts == n.sessions[i].posts + [note]
         && forall j | 0 <= j < |n.sessions| && j != i :: t.sessions[j] == n.sessions[j]
  {
    RunRegistryOk(acts);
  }

  /** What happens to one session, errors included, never removes another session's entry. */
  lemma OthersStayBound(acts: seq<Action>, act: Action, id: string)
    requires |Run(acts).sessions| <= TWO_64 && id in Run(acts).registry
    requires !act.Accept? && !act.Deliver? ==> act.session != Run(acts).registry[id]
    ensures var t := Step(Run(acts), act); id in t.registry && t.registry[id] == Run(acts).registry[id]
  {
    RunRegistryOk(acts);
  }

  // ---------------------------------------------------------------- the life cycle of an id

  /** A session is bound before anything else happens to it, and only once; it is posted to only after it
      was bound and before it was first unbound. */
  predicate LifeOk(log: seq<Event>) {
    forall p | 0 <= p < |log| ::
      match log[p]
      case Bound(i) => Bound(i) !in log[..p] && Unbound(i) !in log[..p] && Posted(i) !in log[..p]
      case Unbound(i) => Bound(i) in log[..p]
      case Posted(i) => Bound(i) in log[..p] && Unbound(i) !in log[..p]
  }

  lemma LifeGrows(log: seq<Event>, e: Event)
    requires LifeOk(log)
    requires match e
      case Bound(i) => Bound(i) !in log && Unbound(i) !in log && Posted(i) !in log
      case Unbound(i) => Bound(i) in log
      case Posted(i) => Bound(i) in log && Unbound(i) !in log
    ensures LifeOk(log + [e])
  {
    var after := log + [e];
    assert after[..|log|] == log;
    assert forall p | 0 <= p < |log| :: after[..p] == log[..p];
  }

  /** What the log says about session `i`, by its state. */
  predicate LogAt(n: Net, i: nat) {
    if i >= |n.sessions| || n.sessions[i].phase.Handshaking? then
      Bound(i) !in n.log && Unbound(i) !in n.log && Posted(i) !in n.log
    else
      && (Open(n.sessions[i]) ==> Bound(i) in n.log && Unbound(i) !in n.log)
      && (!n.sessions[i].phase.Ended? || n.sessions[i].posts != [] ==> Bound(i) in n.log)
  }

  ghost predicate LogOk(n: Net) {
    forall i: nat :: LogAt(n, i)
  }

  lemma StepLifeOk(n: Net, act: Action)
    requires LifeOk(n.log) && LogOk(n) && RegistryOk(n) && AllWriteOk(n) && FreshOk(n)
    ensures LifeOk(Step(n, act).log)
  {
    if !act.Accept? && !act.Deliver? {
      assert LogAt(n, act.session);
    } else if act.Deliver? && act.sessionId in n.registry {
      assert LogAt(n, n.registry[act.sessionId]);
    }
    match act
    case Handshake(i, ok) => if i < |n.sessions| && n.sessions[i].phase.Handshaking? && ok { LifeGrows(n.log, Bound(i)); }
    case ReadDone(i, ok) => if i < |n.sessions| && n.sessions[i].phase.Reading? && !ok { LifeGrows(n.log, Unbound(i)); }
    case WriteDone(i, ok) =>
      if i < |n.sessions| && n.sessions[i].writing.Some? && !ok {
        assert WriteOk(n.sessions[i]);
        LifeGrows(n.log, Unbound(i));
      }
    case Deliver(sessionId, note) => if sessionId in n.registry { LifeGrows(n.log, Posted(n.registry[sessionId])); }
    case _ =>
  }

  lemma ReadLogAt(n: Net, act: Action, i: nat)
    requires LogAt(n, i) && FreshOk(n) && (act.Handshake? || act.Rearm? || act.ReadDone?)
    ensures LogAt(Step(n, act), i)
  {
  }

  lemma WriteLogAt(n: Net, act: Action, i: nat)
    requires LogAt(n, i) && AllWriteOk(n) && FreshOk(n) && (act.RunTask? || act.WriteDone?)
    ensures LogAt(Step(n, act), i)
  {
    if i < |n.sessions| {
      assert WriteOk(n.sessions[i]);
    }
  }

  lemma DeliverLogAt(n: Net, act: Action, i: nat)
    requires LogAt(n, i) && RegistryOk(n) && (act.Deliver? || act.Accept?)
    ensures LogAt(Step(n, act), i)
  {
  }

  lemma StepLogAt(n: Net, act: Action, i: nat)
    requires LogAt(n, i) && RegistryOk(n) && AllWriteOk(n) && FreshOk(n)
    ensures LogAt(Step(n, act), i)
  {
    if act.RunTask? || act.WriteDone? {
      WriteLogAt(n, act, i);
    } else if act.Deliver? || act.Accept? {
      DeliverLogAt(n, act, i);
    } else {
      ReadLogAt(n, act, i);
    }
  }

  lemma StepLogOk(n: Net, act: Action)
    requires LogOk(n) && RegistryOk(n) && AllWriteOk(n) && FreshOk(n)
    ensures LogOk(Step(n, act))
  {
    forall i: nat ensures LogAt(Step(n, act), i) {
      StepLogAt(n, act, i);
    }
  }

  /** Never bound, then bound, then unbound for good: in every run, for every session. */
  lemma {:induction false} RunLifeOk(acts: seq<Action>)
    requires |Run(acts).sessions| <= TWO_64
    ensures LifeOk(Run(acts).log) && LogOk(Run(acts))
  {
    if acts != [] {
      var n := Run(acts[..|acts| - 1]);
      SessionsGrow(n, acts[|acts| - 1]);
      RunLifeOk(acts[..|acts| - 1]);
      RunRegistryOk(acts[..|acts| - 1]);
      RunWriteOk(acts[..|acts| - 1]);
      StepLifeOk(n, acts[|acts| - 1]);
      StepLogOk(n, acts[|acts| - 1]);
    }
  }
}
