/** The network objects themselves: the listener's counter, the session actor's registry and a session's
    write queue, with their fields updated in place, each proved against the step machine. */
module Transport {
  import opened Machine
  import opened Messages
  import opened Decimal
  import opened Sessions

  class WebSocketListener {
    var nextSessionId: nat
    ghost var accepts: nat

    ghost predicate Valid()
      reads this
    {
      nextSessionId == Wrap(accepts)
    }

    constructor ()
      ensures Valid() && accepts == 0
    {
      nextSessionId, accepts := 0, 0;
    }

    /** The id of the new session, if the accept succeeded: the number of accepts so far, modulo 2^64. */
    method OnAccept(ok: bool) returns (id: Option<string>)
      requires Valid()
      modifies this
      ensures Valid()
      ensures ok ==> accepts == old(accepts) + 1 && id == Some(Digits(Wrap(accepts)))
      ensures !ok ==> accepts == old(accepts) && id == None
    {
      if !ok {
        return None;
      }
      WrapOnce(accepts);
      nextSessionId := Wrap(nextSessionId + 1);
      accepts := accepts + 1;
      id := Some(Digits(nextSessionId));
    }
  }

  class SessionActor {
    var transports: map<string, nat>

    constructor ()
      ensures transports == map[]
    {
      transports := map[];
    }

    /** After its handshake session `transport` of the network `n` is registered: the registry becomes that of
        the machine's handshake step, and stays exactly the open sessions if it was. */
    method BindTransport(sessionId: string, transport: nat, ghost n: Net)
      requires transports == n.registry
      requires transport < |n.sessions| && n.sessions[transport].id == sessionId && n.sessions[transport].phase.Handshaking?
      modifies this
      ensures transports == Step(n, Handshake(transport, true)).registry
      ensures RegistryOk(n) && DistinctIds(n) && FreshOk(n) ==>
        RegistryOk(Step(n, Handshake(transport, true))) && Open(Step(n, Handshake(transport, true)).sessions[transport])
    {
      transports := transports[sessionId := transport];
      if RegistryOk(n) && DistinctIds(n) && FreshOk(n) {
        StepRegistryOk(n, Handshake(transport, true));
      }
    }

    /** Forgets this id and no other; an id that is not there is not an error. This is what the machine does
        to the registry on a read or write error. */
    method UnbindTransport(sessionId: string, ghost transport: nat, ghost n: Net)
      requires transports == n.registry && transport < |n.sessions| && n.sessions[transport].id == sessionId
      modifies this
      ensures transports == Unbind(n, transport).registry
      ensures sessionId !in transports
      ensures forall k | k in n.registry && k != sessionId :: k in transports && transports[k] == n.registry[k]
      ensures forall k | k in transports :: k in n.registry
    {
      transports := transports - {sessionId};
    }

    /** The session to post to: the one registered under the frame's id, if it is still alive. */
    method Handle(payload: Payload, n: Net) returns (target: Option<nat>)
      requires transports == n.registry && RegistryOk(n)
      ensures payload.Outgoing? && payload.sessionId in n.registry ==>
        target.Some? && target.value < |n.sessions| && n.sessions[target.value].id == payload.sessionId
      ensures !(payload.Outgoing? && payload.sessionId in n.registry) ==> target.None?
      ensures forall tag: nat | payload.Outgoing? :: var t := Step(n, Deliver(payload.sessionId, Note(tag, payload.frame)));
        t == if target.Some? && target.value < |n.sessions| then
               Put(n.(log := n.log + [Posted(target.value)]), target.value, Post(n.sessions[target.value], Note(tag, payload.frame)))
             else n
    {
      if payload.Outgoing? {
        if payload.sessionId !in transports {
          return None;
        }
        var transport := transports[payload.sessionId];
        if Live(n.sessions[transport]) {
          return Some(transport);
        }
      }
      return None;
    }
  }

  /** A session of the network; `transport` is its number there. */
  class WebSocketSession {
    const id: string
    const transport: nat
    const sessionActor: SessionActor
    var phase: Phase
    var readBuffer: string
    var tasks: seq<Note>
    var writeQueue: seq<Note>
    /** The frame handed to the outstanding asynchronous write. */
    var outstanding: Option<Note>
    var failed: bool
    ghost var posts: seq<Note>
    ghost var ran: seq<Note>
    ghost var wire: seq<Note>
    ghost var written: seq<Note>

    ghost function View(): Socket
      reads this
    {
      Socket(id, phase, tasks, writeQueue, outstanding, failed, posts, ran, wire, written)
    }

    /** Between callbacks: the write-queue protocol holds and the read buffer is empty. */
    ghost predicate Valid()
      reads this
    {
      WriteOk(View()) && !phase.Rearming? && readBuffer == ""
    }

    /** This object and the registry are what the network `n` says. */
    ghost predicate Mirrors(n: Net)
      reads this, sessionActor
    {
      transport < |n.sessions| && n.sessions[transport] == View() && n.registry == sessionActor.transports
    }

    constructor (id: string, transport: nat, sessionActor: SessionActor)
      ensures Valid() && View() == NewSocket(id) && this.transport == transport && this.sessionActor == sessionActor
    {
      this.id, this.transport, this.sessionActor := id, transport, sessionActor;
      phase, readBuffer := Handshaking, "";
      tasks, writeQueue, outstanding, failed := [], [], None, false;
      posts, ran, wire, written := [], [], [], [];
    }

    /** The handshake has completed: bind, then start reading; or give up. */
    method OnAccept(ok: bool, ghost n: Net)
      requires Valid() && Mirrors(n) && phase.Handshaking?
      modifies this, sessionActor
      ensures Valid() && Mirrors(Step(Step(n, Handshake(transport, ok)), Rearm(transport)))
      ensures phase == if ok then Reading else Ended
      ensures sessionActor.transports == if ok then old(sessionActor.transports)[id := transport] else old(sessionActor.transports)
    {
      if !ok {
        phase := Ended;
        return;
      }
      sessionActor.BindTransport(id, transport, n);
      DoRead();
    }

    method DoRead()
      modifies this`phase
      ensures phase == Reading
    {
      phase := Reading;
    }

    /** A read has completed with `received` in the buffer: exactly that text goes to the dispatcher, and the
        next read starts on an empty buffer; on an error the session is unbound and reads no more. */
    method OnRead(ok: bool, received: string, ghost n: Net) returns (frame: Option<string>)
      requires Valid() && Mirrors(n) && phase.Reading?
      modifies this, sessionActor
      ensures Valid() && Mirrors(Step(Step(n, ReadDone(transport, ok)), Rearm(transport)))
      ensures frame == if ok then Some(received) else None
      ensures ok ==> phase == Reading && sessionActor.transports == old(sessionActor.transports)
      ensures !ok ==> phase == Ended && sessionActor.transports == old(sessionActor.transports) - {id}
    {
      if !ok {
        sessionActor.UnbindTransport(id, transport, n);
        phase := Ended;
        return None;
      }
      readBuffer := readBuffer + received;
      assert readBuffer == received;
      frame := Some(readBuffer);
      readBuffer := "";
      DoRead();
    }

    /** `send`, from any thread: post to the strand. */
    method Send(note: Note)
      requires Valid()
      modifies this`tasks, this`posts
      ensures Valid() && View() == Post(old(View()), note)
    {
      tasks := tasks + [note];
      posts := posts + [note];
      assert ran + tasks == (ran + old(tasks)) + [note];
    }

    /** The posted lambda runs on the strand. */
    method RunPosted(ghost n: Net)
      requires Valid() && Mirrors(n) && tasks != []
      modifies this
      ensures Valid() && Mirrors(Step(n, RunTask(transport)))
      ensures tasks == old(tasks)[1..] && ran == old(ran) + [old(tasks)[0]] && writeQueue == old(writeQueue) + [old(tasks)[0]]
      ensures wire == old(wire) + if old(writeQueue) == [] then [old(tasks)[0]] else []
      ensures phase == old(phase) && failed == old(failed)
    {
      RanOk(View());
      var payload := tasks[0];
      tasks := tasks[1..];
      var writing := writeQueue != [];
      writeQueue := writeQueue + [payload];
      ran := ran + [payload];
      if !writing {
        DoWrite();
      }
    }

    /** Hands the front of the queue to the stream; the stream must not be busy. */
    method DoWrite()
      requires writeQueue != [] && outstanding.None? && !failed
      modifies this`outstanding, this`wire
      ensures outstanding == Some(writeQueue[0]) && wire == old(wire) + [writeQueue[0]]
    {
      outstanding := Some(writeQueue[0]);
      wire := wire + [writeQueue[0]];
    }

    /** The write has completed. */
    method OnWrite(ok: bool, ghost n: Net)
      requires Valid() && Mirrors(n) && outstanding.Some?
      modifies this, sessionActor
      ensures Valid() && Mirrors(Step(n, WriteDone(transport, ok)))
      ensures !ok ==> failed && writeQueue == old(writeQueue) && outstanding == None && wire == old(wire)
      ensures ok ==> writeQueue == old(writeQueue)[1..] && written == old(written) + [old(writeQueue)[0]]
      ensures sessionActor.transports == if ok then old(sessionActor.transports) else old(sessionActor.transports) - {id}
      ensures ok ==> wire == old(wire) + if writeQueue == [] then [] else [writeQueue[0]]
      ensures phase == old(phase) && tasks == old(tasks)
    {
      WroteOk(View(), ok);
      outstanding := None;
      if !ok {
        sessionActor.UnbindTransport(id, transport, n);
        failed := true;
        return;
      }
      written := written + [writeQueue[0]];
      writeQueue := writeQueue[1..];
      if writeQueue != [] {
        DoWrite();
      }
    }
  }
}
