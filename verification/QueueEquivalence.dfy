/** The JavaScript queue, with waiters and direct hand-off, against the Rust one, a channel with a byte
    budget whose pending receivers run as soon as a message is queued. */
module QueueEquivalence {
  import opened Types
  import opened JsQueue

  datatype Channel = Channel(queue: seq<Message>, buffered: nat, overflowed: bool, ended: bool, pending: seq<Waiter>)

  datatype Event = Arrive(message: Message) | Ask(waiter: Waiter) | Finish

  /** The first pending receiver takes the head of the queue and releases its bytes. */
  function HandOff(c: Channel): Channel
    requires c.queue != [] && c.pending != []
  {
    var n := c.queue[0].Size();
    c.(queue := c.queue[1..], pending := c.pending[1..], buffered := if n <= c.buffered then c.buffered - n else 0)
  }

  /** Polling the pending receivers, until there is no message or no receiver left. */
  function Poll(c: Channel): (Channel, seq<Answer>)
    decreases |c.queue|
  {
    if c.queue != [] && c.pending != [] then
      var (d, rest) := Poll(HandOff(c));
      (d, [Resolved(c.pending[0], c.queue[0])] + rest)
    else if c.queue == [] && c.ended then
      (c.(pending := []), RejectAll(c.pending, if c.overflowed then ReceiveBufferOverflow else Closed))
    else (c, [])
  }

  function RustStep(limit: nat, c: Channel, e: Event): (Channel, seq<Answer>) {
    match e
    case Arrive(m) =>
      if c.overflowed then (c, [])
      else if c.buffered + m.Size() > limit then (c.(overflowed := true), [])
      else Poll(c.(queue := c.queue + [m], buffered := c.buffered + m.Size()))
    case Ask(w) => Poll(c.(pending := c.pending + [w]))
    case Finish => Poll(c.(ended := true))
  }

  function JsStep(limit: nat, q: Queue, e: Event): (Queue, seq<Answer>) {
    match e
    case Arrive(m) => (OnMessage(limit, q, m).0, OnMessage(limit, q, m).1)
    case Ask(w) => NextMessage(q, w)
    case Finish => End(q)
  }

  /** The platform delivers no message once the connection ended. */
  predicate Proper(ended: bool, es: seq<Event>)
    decreases |es|
  {
    es == [] || ((es[0].Arrive? ==> !ended) && Proper(ended || es[0].Finish?, es[1..]))
  }

  function RustRun(limit: nat, c: Channel, es: seq<Event>): (Channel, seq<Answer>)
    decreases |es|
  {
    if es == [] then (c, [])
    else
      var (d, now) := RustStep(limit, c, es[0]);
      var (e, later) := RustRun(limit, d, es[1..]);
      (e, now + later)
  }

  function JsRun(limit: nat, q: Queue, es: seq<Event>): (Queue, seq<Answer>)
    decreases |es|
  {
    if es == [] then (q, [])
    else
      var (r, now) := JsStep(limit, q, es[0]);
      var (t, later) := JsRun(limit, r, es[1..]);
      (t, now + later)
  }

  /** The coupling. `early` are the receivers the JavaScript queue already refused because of the overflow,
      while the Rust ones wait for the queue's end to be refused alike. */
  ghost predicate Coupled(limit: nat, q: Queue, c: Channel, early: seq<Waiter>) {
    && QueueInv(limit, q)
    && c.queue == q.messages && c.buffered == q.buffered
    && c.overflowed == q.overflowed && c.ended == q.closed
    && c.pending == q.waiters + early
    && (early != [] ==> q.overflowed && !q.closed && q.messages == [])
  }

  function EarlyNext(q: Queue, early: seq<Waiter>, e: Event): seq<Waiter> {
    if e.Ask? && q.messages == [] && q.overflowed && !q.closed then early + [e.waiter]
    else if e.Finish? then []
    else early
  }

  lemma RejectAllConcat(a: seq<Waiter>, b: seq<Waiter>, error: Error)
    ensures RejectAll(a + b, error) == RejectAll(a, error) + RejectAll(b, error)
  {
  }

  /** One receiver runs at a time: with a backlog there is at most the one that just asked, with waiters at
      most the message that just arrived. */
  lemma PollOnce(c: Channel)
    requires c.queue == [] || |c.pending| <= 1 || (|c.queue| == 1 && !c.ended)
    ensures c.queue != [] && c.pending != [] ==> Poll(c) == (HandOff(c), [Resolved(c.pending[0], c.queue[0])])
    ensures c.queue != [] && c.pending == [] ==> Poll(c) == (c, [])
    ensures c.queue == [] && !c.ended ==> Poll(c) == (c, [])
  {
    if c.queue != [] && c.pending != [] {
      var d := HandOff(c);
      if d.queue == [] && d.ended {
        assert RejectAll(d.pending, if d.overflowed then ReceiveBufferOverflow else Closed) == [];
        assert d == d.(pending := []);
      }
      assert Poll(d) == (d, []);
      var first := [Resolved(c.pending[0], c.queue[0])];
      assert first + [] == first;
    }
  }

  /** What a step of the coupled queues promises: coupled again, and the same answers but for the early
      refusals, which the Rust queue gives at its end. */
  ghost predicate StepAgrees(limit: nat, q: Queue, c: Channel, early: seq<Waiter>, e: Event) {
    var (r, js) := JsStep(limit, q, e);
    var (d, rust) := RustStep(limit, c, e);
    var next := EarlyNext(q, early, e);
    && Coupled(limit, r, d, next)
    && multiset(js) + multiset(RejectAll(early, ReceiveBufferOverflow))
       == multiset(rust) + multiset(RejectAll(next, ReceiveBufferOverflow))
    && (!r.overflowed ==> js == rust)
  }

  /** Answers that agree outright, with the early refusals as they were. */
  lemma AgreeOutright(limit: nat, q: Queue, c: Channel, early: seq<Waiter>, e: Event)
    requires EarlyNext(q, early, e) == early && JsStep(limit, q, e).1 == RustStep(limit, c, e).1
    requires Coupled(limit, JsStep(limit, q, e).0, RustStep(limit, c, e).0, early)
    ensures StepAgrees(limit, q, c, early, e)
  {
    hide JsStep, RustStep, Coupled;
  }

  lemma ArriveAgrees(limit: nat, q: Queue, c: Channel, early: seq<Waiter>, m: Message)
    requires Coupled(limit, q, c, early) && !q.closed
    ensures StepAgrees(limit, q, c, early, Arrive(m))
  {
    OnMessageKeeps(limit, q, m);
    if !c.overflowed && c.buffered + m.Size() <= limit {
      FittingArrival(limit, q, c, m);
    }
    hide QueueInv, Poll;
    AgreeOutright(limit, q, c, early, Arrive(m));
  }

  lemma FittingArrival(limit: nat, q: Queue, c: Channel, m: Message)
    requires Coupled(limit, q, c, []) && !q.closed && !c.overflowed && c.buffered + m.Size() <= limit
    ensures var d := c.(queue := c.queue + [m], buffered := c.buffered + m.Size());
            Poll(d) == if q.waiters != [] then (c.(pending := q.waiters[1..]), [Resolved(q.waiters[0], m)]) else (d, [])
  {
    var d := c.(queue := c.queue + [m], buffered := c.buffered + m.Size());
    assert d.pending == q.waiters;
    PollOnce(d);
    if q.waiters != [] {
      assert c.queue == [] && d.queue == [m] && d.queue[1..] == [];
    }
  }

  lemma AskAgrees(limit: nat, q: Queue, c: Channel, early: seq<Waiter>, w: Waiter)
    requires Coupled(limit, q, c, early)
    ensures StepAgrees(limit, q, c, early, Ask(w))
  {
    NextMessageKeeps(limit, q, w);
    var d := c.(pending := c.pending + [w]);
    PollOnce(d);
    if q.messages != [] {
      assert c.pending == [] && d.pending == [w] && d.pending[1..] == [];
    } else if q.overflowed && !q.closed {
      RejectAllConcat(early, [w], ReceiveBufferOverflow);
      assert RejectAll([w], ReceiveBufferOverflow) == [Rejected(w, ReceiveBufferOverflow)];
    } else if q.closed {
      assert d.pending == [w];
      assert RejectAll([w], EndError(q)) == [Rejected(w, EndError(q))];
    } else {
      assert q.waiters + early + [w] == q.waiters + [w] + early;
    }
  }

  lemma FinishAgrees(limit: nat, q: Queue, c: Channel, early: seq<Waiter>)
    requires Coupled(limit, q, c, early)
    ensures StepAgrees(limit, q, c, early, Finish)
  {
    EndingKeeps(limit, q, Closed);
    var d := c.(ended := true);
    if q.messages == [] {
      RejectAllConcat(q.waiters, early, EndError(q));
      assert early == [] ==> c.pending == q.waiters;
    } else {
      assert c.pending == [];
      PollOnce(d);
    }
  }

  lemma StepCoupled(limit: nat, q: Queue, c: Channel, early: seq<Waiter>, e: Event)
    requires Coupled(limit, q, c, early) && (e.Arrive? ==> !q.closed)
    ensures StepAgrees(limit, q, c, early, e)
  {
    match e
    case Arrive(m) => ArriveAgrees(limit, q, c, early, m);
    case Ask(w) => AskAgrees(limit, q, c, early, w);
    case Finish => FinishAgrees(limit, q, c, early);
  }

  /** The receivers refused early by the end of a run. */
  function EarlyRun(limit: nat, q: Queue, early: seq<Waiter>, es: seq<Event>): seq<Waiter>
    decreases |es|
  {
    if es == [] then early else EarlyRun(limit, JsStep(limit, q, es[0]).0, EarlyNext(q, early, es[0]), es[1..])
  }

  lemma OverflowStays(limit: nat, q: Queue, e: Event)
    ensures q.overflowed ==> JsStep(limit, q, e).0.overflowed
    ensures JsStep(limit, q, e).0.closed == (q.closed || e.Finish?)
  {
  }

  lemma {:induction false} OverflowStaysInRun(limit: nat, q: Queue, es: seq<Event>)
    ensures q.overflowed ==> JsRun(limit, q, es).0.overflowed
    decreases |es|
  {
    if es != [] {
      OverflowStays(limit, q, es[0]);
      OverflowStaysInRun(limit, JsStep(limit, q, es[0]).0, es[1..]);
    }
  }

  lemma {:induction false} RunCoupled(limit: nat, q: Queue, c: Channel, early: seq<Waiter>, es: seq<Event>)
    requires Coupled(limit, q, c, early) && Proper(q.closed, es)
    ensures var (r, js) := JsRun(limit, q, es);
            var (d, rust) := RustRun(limit, c, es);
            var last := EarlyRun(limit, q, early, es);
            && Coupled(limit, r, d, last)
            && multiset(js) + multiset(RejectAll(early, ReceiveBufferOverflow))
               == multiset(rust) + multiset(RejectAll(last, ReceiveBufferOverflow))
            && (!r.overflowed ==> js == rust)
    decreases |es|
  {
    hide JsStep, RustStep, Coupled;
    if es != [] {
      assert q.closed == c.ended && c.pending == q.waiters + early by { CouplingSays(limit, q, c, early); }
      StepCoupled(limit, q, c, early, es[0]);
      OverflowStays(limit, q, es[0]);
      var (r, js) := JsStep(limit, q, es[0]);
      var (d, rust) := RustStep(limit, c, es[0]);
      var next := EarlyNext(q, early, es[0]);
      RunCoupled(limit, r, d, next, es[1..]);
      OverflowStaysInRun(limit, r, es[1..]);
      var last := EarlyRun(limit, r, next, es[1..]);
      Balance(js, rust, JsRun(limit, r, es[1..]).1, RustRun(limit, d, es[1..]).1,
              RejectAll(early, ReceiveBufferOverflow), RejectAll(next, ReceiveBufferOverflow),
              RejectAll(last, ReceiveBufferOverflow));
    }
  }

  /** Two balanced accounts in a row are one. */
  lemma Balance(js: seq<Answer>, rust: seq<Answer>, js': seq<Answer>, rust': seq<Answer>,
                a: seq<Answer>, b: seq<Answer>, c: seq<Answer>)
    requires multiset(js) + multiset(a) == multiset(rust) + multiset(b)
    requires multiset(js') + multiset(b) == multiset(rust') + multiset(c)
    ensures multiset(js + js') + multiset(a) == multiset(rust + rust') + multiset(c)
  {
    var x, y, z, w := multiset(js), multiset(rust), multiset(js'), multiset(rust');
    var A, B, C := multiset(a), multiset(b), multiset(c);
    assert x + z + A == (x + A) + z;
    assert (y + B) + z == y + (z + B);
    assert y + (w + C) == (y + w) + C;
  }

  lemma CouplingSays(limit: nat, q: Queue, c: Channel, early: seq<Waiter>)
    requires Coupled(limit, q, c, early)
    ensures c.queue == q.messages && c.buffered == q.buffered == Bytes(q.messages) && q.buffered <= limit
    ensures c.ended == q.closed && c.pending == q.waiters + early
    ensures q.waiters != [] ==> q.messages == [] && q.buffered == 0
    ensures q.closed || !q.overflowed ==> early == []
  {
  }

  /** For every sequence of arrivals, receives and an end: the two queues hold the same backlog and count the
      same bytes; without an overflow they have given the same answers in the same order; and once ended they
      have given every receiver the same answer, overflow or not. Before that, with the overflow latched, the
      JavaScript queue is ahead by exactly the refusals of the receivers that asked after the drain. */
  lemma QueuesAgree(limit: nat, es: seq<Event>)
    requires Proper(false, es)
    ensures var (q, js) := JsRun(limit, Empty, es);
            var (c, rust) := RustRun(limit, Channel([], 0, false, false, []), es);
            && c.queue == q.messages && c.buffered == q.buffered == Bytes(q.messages) && q.buffered <= limit
            && (q.waiters != [] ==> q.messages == [] && q.buffered == 0)
            && (!q.overflowed ==> js == rust && c.pending == q.waiters)
            && (q.closed ==> multiset(js) == multiset(rust))
            && exists early :: c.pending == q.waiters + early
                               && multiset(js) == multiset(rust) + multiset(RejectAll(early, ReceiveBufferOverflow))
  {
    var c0 := Channel([], 0, false, false, []);
    assert Coupled(limit, Empty, c0, []);
    RunCoupled(limit, Empty, c0, [], es);
    var early := EarlyRun(limit, Empty, [], es);
    var (q, js) := JsRun(limit, Empty, es);
    var (c, rust) := RustRun(limit, c0, es);
    CouplingSays(limit, q, c, early);
    hide JsRun, RustRun, EarlyRun, Coupled;
    assert RejectAll([], ReceiveBufferOverflow) == [];
    assert q.waiters + [] == q.waiters;
    var refused := multiset(RejectAll(early, ReceiveBufferOverflow));
    assert multiset(js) == multiset(rust) + refused;
  }
}
