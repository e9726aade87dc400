/** The reference pump's queue is the atomic queue of the byte accounting: its delivery is the whole `reserve` step
    that every interleaving of the atomic steps amounts to. */
module ReferenceBudget {
  import opened Types
  import opened ReferencePump
  import opened ReferenceInvariants
  import opened ReferenceTermination
  import Budget = InboundBudget

  function Sizes(queue: seq<Message>): seq<nat> { seq(|queue|, i requires 0 <= i < |queue| => queue[i].Size()) }

  /** The queue as the accounting sees it: sizes, and the message being handed over. */
  function AsCoarse(q: Inbound): Budget.Coarse {
    Budget.Coarse(q.buffered, q.overflowed, Sizes(q.queue), if q.unreleased.Some? then [q.unreleased.value] else [])
  }

  /** What a step of the connection does to the accounting. */
  function OpsOf(s: Pump, e: Event): seq<Budget.Op> {
    match e
    case ReadSocket =>
      if s.inbox == [] then []
      else if s.inbox[0].Data? && !s.task.wireClosing then [Budget.Reserve(s.inbox[0].message.Size())]
      else if s.inbox[0].CapacityError? then [Budget.LatchOp]
      else []
    case ReceivePoll => if Takes(s) && !s.guest.claimed then [Budget.PopOp] else []
    case StreamPoll => if Takes(s) then [Budget.PopOp] else []
    case ReleaseBytes => [Budget.ReleaseOp(0)]
    case _ => []
  }

  predicate Takes(s: Pump) { !s.guest.localClosed && s.inbound.queue != [] }

  lemma SizesOfQueue(queue: seq<Message>, m: Message)
    ensures Sizes(queue + [m]) == Sizes(queue) + [m.Size()]
    ensures queue != [] ==> Sizes(queue)[1..] == Sizes(queue[1..]) && Sizes(queue)[0] == queue[0].Size()
  {
  }

  /** A delivery is one whole `reserve`, with the send that follows it. */
  lemma DeliverIsReserve(cfg: Config, s: Pump, m: Message)
    requires !s.task.wireClosing
    ensures AsCoarse(Deliver(cfg, s, m).0.inbound) == Budget.ReserveAndSend(cfg.limit, AsCoarse(s.inbound), m.Size())
  {
    hide BeginClose;
    SizesOfQueue(s.inbound.queue, m);
  }

  lemma TakeIsPop(q: Inbound)
    requires q.queue != [] && q.unreleased.None?
    ensures AsCoarse(TakeHead(q)) == Budget.Apply(0, AsCoarse(q), Budget.PopOp)
  {
    SizesOfQueue(q.queue, q.queue[0]);
    assert [] + [q.queue[0].Size()] == [q.queue[0].Size()];
  }

  lemma StepIsOps(cfg: Config, s: Pump, e: Event)
    requires Enabled(s, e) && BudgetInv(cfg, s.inbound)
    ensures AsCoarse(StepOf(cfg, s, e).0.inbound) == Budget.ApplyAll(cfg.limit, AsCoarse(s.inbound), OpsOf(s, e))
  {
    hide BeginClose, PeerCloses, BoundedWrite, EndWrite, AfterWrite, Deliver, Sizes, TakeHead;
    if OpsOf(s, e) != [] {
      Budget.ApplyOne(cfg.limit, AsCoarse(s.inbound), OpsOf(s, e)[0]);
      assert OpsOf(s, e) == [OpsOf(s, e)[0]];
    }
    match e
    case ReadSocket => ReadIsOps(cfg, s);
    case ReceivePoll => if Takes(s) { TakeIsPop(s.inbound); }
    case StreamPoll => if Takes(s) { TakeIsPop(s.inbound); }
    case FinalizeStep => FinalizeIsQuiet(s);
    case _ =>
  }

  lemma ReadIsOps(cfg: Config, s: Pump)
    requires Enabled(s, ReadSocket)
    ensures AsCoarse(HandleRead(cfg, s).0.inbound)
         == Budget.ApplyAll(cfg.limit, AsCoarse(s.inbound), OpsOf(s, ReadSocket))
  {
    hide BeginClose, PeerCloses, BoundedWrite, Sizes;
    if OpsOf(s, ReadSocket) != [] {
      Budget.ApplyOne(cfg.limit, AsCoarse(s.inbound), OpsOf(s, ReadSocket)[0]);
      assert OpsOf(s, ReadSocket) == [OpsOf(s, ReadSocket)[0]];
    }
    if s.inbox[0].Data? && !s.task.wireClosing {
      DeliverIsReserve(cfg, s.(inbox := s.inbox[1..]), s.inbox[0].message);
    }
  }

  lemma FinalizeIsQuiet(s: Pump)
    ensures AsCoarse(Finalize(s).0.inbound) == AsCoarse(s.inbound)
  {
    hide FinalizeTask;
  }

  function OpsIn(cfg: Config, s: Pump, events: seq<Event>): seq<Budget.Op>
    decreases |events|
  {
    if events == [] then [] else OpsOf(s, events[0]) + OpsIn(cfg, StepOf(cfg, s, events[0]).0, events[1..])
  }

  /** Over every run the pump's queue and counter are what its operations make of the atomic queue. */
  lemma {:induction false} RunIsOps(cfg: Config, s: Pump, events: seq<Event>)
    requires Inv(cfg, s) && CanRun(cfg, s, events)
    ensures AsCoarse(Run(cfg, s, events).inbound)
         == Budget.ApplyAll(cfg.limit, AsCoarse(s.inbound), OpsIn(cfg, s, events))
    decreases |events|
  {
    hide Inv, StepOf, Enabled, AsCoarse, OpsOf, Budget.Apply;
    if events != [] {
      assert BudgetInv(cfg, s.inbound) by { BudgetOf(cfg, s); }
      StepIsOps(cfg, s, events[0]);
      InvKept(cfg, s, events[0]);
      var t := StepOf(cfg, s, events[0]).0;
      RunIsOps(cfg, t, events[1..]);
      Budget.ApplyAllConcat(cfg.limit, AsCoarse(s.inbound), OpsOf(s, events[0]), OpsIn(cfg, t, events[1..]));
    }
  }

  lemma BudgetOf(cfg: Config, s: Pump)
    requires Inv(cfg, s)
    ensures BudgetInv(cfg, s.inbound)
  {
  }
}
