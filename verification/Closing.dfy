/** The end of a session: after a read or write error it is out of the registry for good. */
module Closing {
  import opened Machine
  import opened Messages
  import opened Sessions
  import opened Writing

  /** The session had a read or write error. */
  predicate Closed(x: Socket) {
    x.phase.Ended? || (x.failed && !x.phase.Handshaking?)
  }

  /** What stays of a closed session, whatever happens to the network. */
  predicate StaysClosed(x: Socket, y: Socket) {
    && Closed(y) && y.id == x.id && y.posts == x.posts
    && (x.phase.Ended? ==> y.phase.Ended?) && (x.failed ==> y.failed && y.wire == x.wire)
  }

  lemma StepStaysClosed(n: Net, act: Action, i: nat)
    requires RegistryOk(n) && AllWriteOk(n) && i < |n.sessions| && Closed(n.sessions[i])
    ensures i < |Step(n, act).sessions| && StaysClosed(n.sessions[i], Step(n, act).sessions[i])
  {
    assert WriteOk(n.sessions[i]);
    if act.Deliver? && act.sessionId in n.registry {
      assert n.registry[act.sessionId] != i;
    }
  }

  lemma {:induction false} SessionsGrowFrom(n: Net, acts: seq<Action>)
    ensures |n.sessions| <= |RunFrom(n, acts).sessions|
  {
    if acts != [] {
      SessionsGrowFrom(n, acts[..|acts| - 1]);
      SessionsGrow(RunFrom(n, acts[..|acts| - 1]), acts[|acts| - 1]);
    }
  }

  /** Once closed, a session is never again registered, posted to or, if it was reading, read from; after a
      write error its wire does not grow either. */
  lemma {:induction false} ClosedForGood(before: seq<Action>, after: seq<Action>, i: nat)
    requires |Run(before + after).sessions| <= TWO_64
    requires i < |Run(before).sessions| && Closed(Run(before).sessions[i])
    ensures var n, t := Run(before), Run(before + after);
      && i < |t.sessions| && StaysClosed(n.sessions[i], t.sessions[i]) && n.sessions[i].id !in t.registry
  {
    if after == [] {
      assert before + after == before;
      RunRegistryOk(before);
      NotRegistered(Run(before), i);
    } else {
      var pre, act := after[..|after| - 1], after[|after| - 1];
      assert before + after == (before + pre) + [act];
      OneMore(Init(), before + pre, act);
      SessionsGrow(Run(before + pre), act);
      ClosedForGood(before, pre, i);
      RunRegistryOk(before + pre);
      RunWriteOk(before + pre);
      RunRegistryOk(before + after);
      StepStaysClosed(Run(before + pre), act, i);
      NotRegistered(Run(before + after), i);
    }
  }

  lemma NotRegistered(n: Net, i: nat)
    requires RegistryOk(n) && DistinctIds(n) && i < |n.sessions| && Closed(n.sessions[i])
    ensures n.sessions[i].id !in n.registry
  {
  }

  /** A client disconnects: from the failing read on, whatever follows, the session reads no more, is not
      registered and gets no post. */
  lemma ReadErrorCloses(before: seq<Action>, after: seq<Action>, i: nat)
    requires |Run(before + [ReadDone(i, false)] + after).sessions| <= TWO_64
    requires i < |Run(before).sessions| && Run(before).sessions[i].phase.Reading?
    ensures var x, t := Run(before).sessions[i], Run(before + [ReadDone(i, false)] + after);
      i < |t.sessions| && t.sessions[i].phase.Ended? && t.sessions[i].posts == x.posts && x.id !in t.registry
  {
    OneMore(Init(), before, ReadDone(i, false));
    ClosedForGood(before + [ReadDone(i, false)], after, i);
  }

  /** A write fails: from then on the session is not registered, gets no post and writes no more. Its read
      side goes on until its own error. */
  lemma WriteErrorCloses(before: seq<Action>, after: seq<Action>, i: nat)
    requires |Run(before + [WriteDone(i, false)] + after).sessions| <= TWO_64
    requires i < |Run(before).sessions| && Run(before).sessions[i].writing.Some? && !Run(before).sessions[i].phase.Rearming?
    ensures var x, t := Run(before).sessions[i], Run(before + [WriteDone(i, false)] + after);
      i < |t.sessions| && t.sessions[i].failed && t.sessions[i].posts == x.posts && t.sessions[i].wire == x.wire && x.id !in t.registry
  {
    RunWriteOk(before);
    assert WriteOk(Run(before).sessions[i]);
    OneMore(Init(), before, WriteDone(i, false));
    SessionsGrowFrom(Run(before), [WriteDone(i, false)] + after);
    Concat(Init(), before, [WriteDone(i, false)] + after);
    assert before + [WriteDone(i, false)] + after == before + ([WriteDone(i, false)] + after);
    RegistryOkBefore(before, [WriteDone(i, false)] + after);
    assert !Run(before).sessions[i].phase.Handshaking?;
    ClosedForGood(before + [WriteDone(i, false)], after, i);
  }

  /** The registry law for the beginning of a run. */
  lemma RegistryOkBefore(before: seq<Action>, after: seq<Action>)
    requires |Run(before + after).sessions| <= TWO_64
    ensures RegistryOk(Run(before)) && FreshOk(Run(before)) && DistinctIds(Run(before))
  {
    Concat(Init(), before, after);
    SessionsGrowFrom(Run(before), after);
    RunRegistryOk(before);
  }
}
