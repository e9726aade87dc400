/** The inbound queue of the JavaScript host (js/polyengine/websocket.ts, `incomingQueue`): a bounded
    backlog, waiters, and direct hand-off. */
module JsQueue {
  import opened Types

  /** A pending promise: of a `receive` call, or of the claimed stream's pull. */
  datatype Waiter = RecvWaiter(id: nat) | PullWaiter

  /** How a promise settled. */
  datatype Answer = Resolved(waiter: Waiter, message: Message) | Rejected(waiter: Waiter, error: Error)

  datatype Queue = Queue(messages: seq<Message>, waiters: seq<Waiter>, buffered: nat, overflowed: bool, closed: bool)

  const Empty: Queue := Queue([], [], 0, false, false)

  /** A pending waiter implies an empty backlog; the counter is the backlog's bytes, within the bound. */
  ghost predicate QueueInv(limit: nat, q: Queue) {
    && (q.waiters != [] ==> q.messages == [] && !q.closed)
    && q.buffered == Bytes(q.messages)
    && q.buffered <= limit
  }

  function RejectAll(waiters: seq<Waiter>, error: Error): seq<Answer> {
    seq(|waiters|, i requires 0 <= i < |waiters| => Rejected(waiters[i], error))
  }

  /** A data message arrived; also whether it overflowed the bound. */
  function OnMessage(limit: nat, q: Queue, m: Message): (Queue, seq<Answer>, bool) {
    if q.overflowed then (q, [], false)
    else if q.buffered + m.Size() > limit then (q.(overflowed := true), [], true)
    else if q.waiters != [] then (q.(waiters := q.waiters[1..]), [Resolved(q.waiters[0], m)], false)
    else (q.(messages := q.messages + [m], buffered := q.buffered + m.Size()), [], false)
  }

  function EndError(q: Queue): Error { if q.overflowed then ReceiveBufferOverflow else Closed }

  function NextMessage(q: Queue, w: Waiter): (Queue, seq<Answer>) {
    if q.messages != [] then
      var m := q.messages[0];
      (q.(messages := q.messages[1..], buffered := if m.Size() <= q.buffered then q.buffered - m.Size() else 0),
       [Resolved(w, m)])
    else if q.overflowed then (q, [Rejected(w, ReceiveBufferOverflow)])
    else if q.closed then (q, [Rejected(w, Closed)])
    else (q.(waiters := q.waiters + [w]), [])
  }

  function RejectWaiters(q: Queue, error: Error): (Queue, seq<Answer>) {
    (q.(waiters := []), RejectAll(q.waiters, error))
  }

  function End(q: Queue): (Queue, seq<Answer>) {
    if q.closed then (q, [])
    else (q.(closed := true, waiters := []), RejectAll(q.waiters, EndError(q)))
  }

  function Discard(q: Queue): (Queue, seq<Answer>) {
    (q.(messages := [], buffered := 0, closed := true, waiters := []), RejectAll(q.waiters, Closed))
  }

  lemma OnMessageKeeps(limit: nat, q: Queue, m: Message)
    requires QueueInv(limit, q)
    ensures QueueInv(limit, OnMessage(limit, q, m).0)
  {
    BytesSnoc(q.messages, m);
  }

  lemma NextMessageKeeps(limit: nat, q: Queue, w: Waiter)
    requires QueueInv(limit, q)
    ensures QueueInv(limit, NextMessage(q, w).0)
  {
  }

  lemma EndingKeeps(limit: nat, q: Queue, error: Error)
    requires QueueInv(limit, q)
    ensures QueueInv(limit, RejectWaiters(q, error).0) && QueueInv(limit, End(q).0) && QueueInv(limit, Discard(q).0)
  {
  }

  // ----- the object --------------------------------------------------------------------------------------

  /** The closure's state as an object; `answers` records the promises it settled, in order. */
  class IncomingQueue {
    const limit: nat
    var messages: seq<Message>
    var waiters: seq<Waiter>
    var buffered: nat
    var overflowed: bool
    var closed: bool
    var answers: seq<Answer>

    ghost function Contents(): Queue
      reads this
    {
      Queue(messages, waiters, buffered, overflowed, closed)
    }

    ghost predicate Valid()
      reads this
    {
      QueueInv(limit, Contents())
    }

    constructor (limit: nat)
      ensures Valid() && this.limit == limit && Contents() == Empty && answers == []
    {
      this.limit := limit;
      messages, waiters, buffered := [], [], 0;
      overflowed, closed, answers := false, false, [];
    }

    /** The `message` listener. */
    method HandleMessage(m: Message) returns (overflow: bool)
      requires Valid()
      modifies this
      ensures Valid()
      ensures var (q, settled, over) := OnMessage(limit, old(Contents()), m);
              Contents() == q && answers == old(answers) + settled && overflow == over
    {
      OnMessageKeeps(limit, Contents(), m);
      if overflowed {
        return false;
      }
      if buffered + m.Size() > limit {
        overflowed := true;
        return true;
      }
      if |waiters| > 0 {
        var waiter := waiters[0];
        waiters := waiters[1..];
        answers := answers + [Resolved(waiter, m)];
      } else {
        buffered := buffered + m.Size();
        messages := messages + [m];
      }
      return false;
    }

    method Next(w: Waiter)
      requires Valid()
      modifies this
      ensures Valid()
      ensures var (q, settled) := NextMessage(old(Contents()), w);
              Contents() == q && answers == old(answers) + settled
    {
      NextMessageKeeps(limit, Contents(), w);
      if |messages| > 0 {
        var m := messages[0];
        messages := messages[1..];
        buffered := buffered - m.Size();
        answers := answers + [Resolved(w, m)];
      } else if overflowed {
        answers := answers + [Rejected(w, ReceiveBufferOverflow)];
      } else if closed {
        answers := answers + [Rejected(w, Closed)];
      } else {
        waiters := waiters + [w];
      }
    }

    /** The loop every rejecting operation shares: waiters leave in order, each rejected once. */
    method RejectPending(error: Error)
      modifies this`waiters, this`answers
      ensures waiters == [] && answers == old(answers) + RejectAll(old(waiters), error)
    {
      ghost var all := waiters;
      ghost var done := 0;
      while |waiters| > 0
        invariant 0 <= done <= |all| && waiters == all[done..]
        invariant answers == old(answers) + RejectAll(all[..done], error)
        decreases |waiters|
      {
        var waiter := waiters[0];
        waiters := waiters[1..];
        answers := answers + [Rejected(waiter, error)];
        assert RejectAll(all[..done + 1], error) == RejectAll(all[..done], error) + [Rejected(waiter, error)];
        done := done + 1;
      }
      assert all[..done] == all;
    }

    /** `end`: the socket closed or failed, or the owner settled. */
    method Finish()
      requires Valid()
      modifies this
      ensures Valid()
      ensures var (q, settled) := End(old(Contents())); Contents() == q && answers == old(answers) + settled
    {
      if closed {
        return;
      }
      closed := true;
      RejectPending(if overflowed then ReceiveBufferOverflow else Closed);
    }

    /** `discard`: a local close drops the unread backlog. */
    method DiscardBacklog()
      requires Valid()
      modifies this
      ensures Valid()
      ensures var (q, settled) := Discard(old(Contents())); Contents() == q && answers == old(answers) + settled
    {
      messages := [];
      buffered := 0;
      closed := true;
      RejectPending(Closed);
    }
  }
}
