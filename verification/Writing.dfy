/** Progress of the write queue: what is posted reaches the wire. Running a session's tasks and completing
    its writes, as often as there is something to run and to write, puts everything posted on the wire, in
    the order of the posts. */
module Writing {
  import opened Machine
  import opened Messages
  import opened Sessions

  /** Session `i`'s strand runs `m` tasks. */
  function Tasks(i: nat, m: nat): seq<Action> {
    seq(m, _ => RunTask(i))
  }

  /** `m` writes of session `i` complete. */
  function Writes(i: nat, m: nat): seq<Action> {
    seq(m, _ => WriteDone(i, true))
  }

  lemma OneMore(n: Net, acts: seq<Action>, act: Action)
    ensures RunFrom(n, acts + [act]) == Step(RunFrom(n, acts), act)
  {
    assert (acts + [act])[..|acts|] == acts;
  }

  lemma {:induction false} Concat(n: Net, xs: seq<Action>, ys: seq<Action>)
    ensures RunFrom(n, xs + ys) == RunFrom(RunFrom(n, xs), ys)
  {
    if ys == [] {
      assert xs + ys == xs;
    } else {
      assert (xs + ys)[..|xs + ys| - 1] == xs + ys[..|ys| - 1];
      Concat(n, xs, ys[..|ys| - 1]);
    }
  }

  /** Nothing of the network moved but session `i`. */
  predicate Alone(n: Net, t: Net, i: nat) {
    && i < |n.sessions| && |t.sessions| == |n.sessions|
    && t.next == n.next && t.registry == n.registry && t.log == n.log
    && forall j | 0 <= j < |n.sessions| && j != i :: t.sessions[j] == n.sessions[j]
  }

  /** The session can write: no write has failed and none of its own handlers is running. */
  predicate CanWrite(x: Socket) {
    !x.failed && !x.phase.Rearming?
  }

  /** What running tasks and completing writes does not touch. */
  predicate Same(x: Socket, y: Socket) {
    y.id == x.id && y.phase == x.phase && y.failed == x.failed && y.posts == x.posts
  }

  lemma TaskStep(n: Net, i: nat)
    requires AllWriteOk(n) && i < |n.sessions| && CanWrite(n.sessions[i]) && n.sessions[i].tasks != []
    ensures var t := Step(n, RunTask(i)); var x := n.sessions[i];
      && AllWriteOk(t) && Alone(n, t, i) && Same(x, t.sessions[i])
      && t.sessions[i].tasks == x.tasks[1..]
      && t.sessions[i].queue == x.queue + [x.tasks[0]]
      && t.sessions[i].written == x.written
  {
    StepWriteOk(n, RunTask(i));
  }

  lemma WriteStep(n: Net, i: nat)
    requires AllWriteOk(n) && i < |n.sessions| && CanWrite(n.sessions[i]) && n.sessions[i].queue != []
    ensures var t := Step(n, WriteDone(i, true)); var x := n.sessions[i];
      && AllWriteOk(t) && Alone(n, t, i) && Same(x, t.sessions[i])
      && t.sessions[i].tasks == x.tasks
      && t.sessions[i].queue == x.queue[1..]
      && t.sessions[i].written == x.written + [x.queue[0]]
  {
    assert WriteOk(n.sessions[i]);
    StepWriteOk(n, WriteDone(i, true));
  }

  lemma {:induction false} RunsTasks(n: Net, i: nat, m: nat)
    requires AllWriteOk(n) && i < |n.sessions| && CanWrite(n.sessions[i]) && m <= |n.sessions[i].tasks|
    ensures var t := RunFrom(n, Tasks(i, m)); var x := n.sessions[i];
      && AllWriteOk(t) && Alone(n, t, i) && Same(x, t.sessions[i])
      && t.sessions[i].tasks == x.tasks[m..]
      && t.sessions[i].queue == x.queue + x.tasks[..m]
      && t.sessions[i].written == x.written
  {
    if m > 0 {
      hide AllWriteOk, Step;
      var tasks := n.sessions[i].tasks;
      RunsTasks(n, i, m - 1);
      assert tasks[m - 1..][1..] == tasks[m..] && tasks[..m - 1] + [tasks[m - 1]] == tasks[..m];
      assert Tasks(i, m) == Tasks(i, m - 1) + [RunTask(i)];
      OneMore(n, Tasks(i, m - 1), RunTask(i));
      TaskStep(RunFrom(n, Tasks(i, m - 1)), i);
    }
  }

  lemma {:induction false} CompletesWrites(n: Net, i: nat, m: nat)
    requires AllWriteOk(n) && i < |n.sessions| && CanWrite(n.sessions[i]) && m <= |n.sessions[i].queue|
    ensures var t := RunFrom(n, Writes(i, m)); var x := n.sessions[i];
      && AllWriteOk(t) && Alone(n, t, i) && Same(x, t.sessions[i])
      && t.sessions[i].tasks == x.tasks
      && t.sessions[i].queue == x.queue[m..]
      && t.sessions[i].written == x.written + x.queue[..m]
  {
    if m > 0 {
      hide AllWriteOk, Step;
      var queue := n.sessions[i].queue;
      CompletesWrites(n, i, m - 1);
      assert queue[m - 1..][1..] == queue[m..] && queue[..m - 1] + [queue[m - 1]] == queue[..m];
      assert Writes(i, m) == Writes(i, m - 1) + [WriteDone(i, true)];
      OneMore(n, Writes(i, m - 1), WriteDone(i, true));
      WriteStep(RunFrom(n, Writes(i, m - 1)), i);
    }
  }

  /** Every task run and every write completed. */
  function Flushing(n: Net, i: nat): seq<Action>
    requires i < |n.sessions|
  {
    var x := n.sessions[i];
    Tasks(i, |x.tasks|) + Writes(i, |x.queue| + |x.tasks|)
  }

  lemma FlushesTasks(n: Net, i: nat)
    requires AllWriteOk(n) && i < |n.sessions| && CanWrite(n.sessions[i])
    ensures var t := RunFrom(n, Flushing(n, i)); var x := n.sessions[i];
      && AllWriteOk(t) && Alone(n, t, i) && Same(x, t.sessions[i]) && t.sessions[i].tasks == [] && t.sessions[i].queue == []
  {
    hide AllWriteOk, RunFrom;
    var x := n.sessions[i];
    RunsTasks(n, i, |x.tasks|);
    CompletesWrites(RunFrom(n, Tasks(i, |x.tasks|)), i, |x.queue| + |x.tasks|);
    Concat(n, Tasks(i, |x.tasks|), Writes(i, |x.queue| + |x.tasks|));
    hide Tasks, Writes;
  }

  /** From any reachable state, if no write has failed, the session's own tasks and write completions bring
      everything ever posted to it onto the wire, in order, and leave nothing pending; nothing else moves. */
  lemma Flushes(acts: seq<Action>, i: nat)
    requires i < |Run(acts).sessions| && CanWrite(Run(acts).sessions[i])
    ensures var n := Run(acts); var t := RunFrom(n, Flushing(n, i)); var x := n.sessions[i];
      && Alone(n, t, i) && Same(x, t.sessions[i])
      && t.sessions[i].tasks == [] && t.sessions[i].queue == [] && t.sessions[i].writing == None
      && t.sessions[i].wire == t.sessions[i].written == t.sessions[i].posts == x.posts
  {
    RunWriteOk(acts);
    hide AllWriteOk, Run, RunFrom, Flushing;
    FlushesTasks(Run(acts), i);
    NothingPending(RunFrom(Run(acts), Flushing(Run(acts), i)), i);
  }

  lemma NothingPending(n: Net, i: nat)
    requires AllWriteOk(n) && i < |n.sessions| && n.sessions[i].tasks == [] && n.sessions[i].queue == []
    ensures var x := n.sessions[i]; x.writing == None && x.wire == x.written == x.posts
  {
    assert WriteOk(n.sessions[i]);
  }
}
