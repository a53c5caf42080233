/** The bounded mailbox: a linearizable FIFO that takes ownership of an envelope before it knows
    whether there is room for it. */
module Mailboxes {
  import opened Messages

  datatype Box<T> = Box(queue: seq<T>, active: bool)

  /** What becomes of an envelope handed to a mailbox. A full queue is found out only after the owning
      pointer was released, so nobody owns a `Leaked` envelope; an inactive mailbox leaves ownership with
      the caller's pointer, which destroys the envelope. */
  datatype Verdict = Accepted | Leaked | Freed

  function Offer<T>(capacity: nat, box: Box<T>): Verdict {
    if !box.active then Freed
    else if |box.queue| < capacity then Accepted
    else Leaked
  }

  class Mailbox<T(==)> {
    const capacity: nat
    var queue: seq<T>
    var active: bool
    /** Envelopes whose owning pointer was released and that no queue took. */
    ghost var leaked: seq<T>
    /** Envelopes destroyed here, in order. */
    ghost var destroyed: seq<T>

    ghost predicate Valid()
      reads this
    {
      |queue| <= capacity
    }

    function View(): Box<T>
      reads this
    {
      Box(queue, active)
    }

    constructor (capacity: nat)
      ensures Valid() && this.capacity == capacity
      ensures View() == Box([], true) && leaked == [] && destroyed == []
    {
      this.capacity := capacity;
      queue, active := [], true;
      leaked, destroyed := [], [];
    }

    /** Exactly one of queued, leaked and destroyed gains the envelope; only the first is reported as
        success. */
    method Push(message: T) returns (ok: bool)
      requires Valid()
      modifies this
      ensures Valid() && active == old(active)
      ensures ok <==> Offer(capacity, old(View())) == Accepted
      ensures ok <==> old(active) && |old(queue)| < capacity
      ensures match Offer(capacity, old(View()))
        case Accepted => queue == old(queue) + [message] && leaked == old(leaked) && destroyed == old(destroyed)
        case Leaked => queue == old(queue) && leaked == old(leaked) + [message] && destroyed == old(destroyed)
        case Freed => queue == old(queue) && leaked == old(leaked) && destroyed == old(destroyed) + [message]
    {
      if !active {
        destroyed := destroyed + [message];
        return false;
      }
      if |queue| < capacity {
        queue := queue + [message];
        ok := true;
      } else {
        leaked := leaked + [message];
        ok := false;
      }
    }

    method Pop() returns (message: Option<T>)
      requires Valid()
      modifies this`queue
      ensures Valid()
      ensures message.None? <==> old(queue) == []
      ensures message.None? ==> queue == []
      ensures message.Some? ==> old(queue) == [message.value] + queue
    {
      if queue == [] {
        return None;
      }
      message := Some(queue[0]);
      queue := queue[1..];
    }

    /** The destructor: closes the mailbox, then destroys what is still queued, oldest first. What was
        leaked stays leaked. */
    method Destroy()
      requires Valid()
      modifies this
      ensures Valid() && View() == Box([], false)
      ensures leaked == old(leaked) && destroyed == old(destroyed) + old(queue)
    {
      active := false;
      var raw := Pop();
      while raw.Some?
        invariant Valid() && !active && leaked == old(leaked)
        invariant raw.None? ==> queue == []
        invariant destroyed + (if raw.Some? then [raw.value] else []) + queue == old(destroyed) + old(queue)
        decreases raw.Some?, |queue|
      {
        destroyed := destroyed + [raw.value];
        raw := Pop();
      }
    }
  }
}
