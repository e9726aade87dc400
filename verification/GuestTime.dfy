/** Control and time in the in-guest pump: a local close is bounded end to end; a deadline armed by the
    peer's close can be overrun, and exactly when. */
module GuestTime {
  import opened Types
  import opened CallIds
  import opened GuestPump
  import opened GuestInvariants
  import opened GuestSends

  ghost predicate CellsInv(s: Provider) {
    && s.cells.closeInfo == (if s.reader.ReaderDone? then Some(s.cells.peerFrame) else None)
    && (s.reader.ReaderDone? ==> s.cells.lifecycle.IsClosed?)
    && (s.cells.localClosed ==> s.cells.lifecycle.Rank() >= 1)
    && s.cells.closedAt.Some? == s.cells.localClosed
    && (s.cells.feeder ==> s.cells.claimed)
    && (forall c <- s.calls.cmds :: (c.ClaimCmd? ==> s.cells.claimed) && (c.CloseCmd? ==> s.cells.localClosed))
    && (s.cmd.CmdLate? ==> s.reader.ReaderDone?)
  }

  ghost predicate InboundInv(cfg: Config, s: Provider) {
    && s.inbound.ended == s.reader.ReaderDone?
    && (s.inbound.overflowed ==> s.wire.wireClosing || s.reader.ReaderDone?)
    && QueueOk(cfg, s.inbound)
  }

  ghost predicate QueueOk(cfg: Config, q: Inbound) {
    q.used == Bytes(q.queue) && q.used <= cfg.limit
  }

  lemma CellsKept(cfg: Config, s: Provider, e: Event)
    requires Enabled(s, e) && CellsInv(s)
    ensures CellsInv(StepOf(cfg, s, e).0)
  {
    hide HandleCmd, HandleRead, LastDrain, HandleFlush, CellsInv;
    match e
    case TakeCmd(encoded) => CmdCellsKept(cfg, s, encoded);
    case Read(step, closing) => ReadCellsKept(cfg, s, step, closing);
    case FeedEnd(rest) => LastDrainCellsKept(cfg, s, rest);
    case FlushStep(who, step) => FlushCellsKept(cfg, s, who, step);
    case _ => OtherCellsKept(cfg, s, e);
  }

  lemma CmdCellsKept(cfg: Config, s: Provider, encoded: Encoded)
    requires Enabled(s, TakeCmd(encoded)) && CellsInv(s)
    ensures CellsInv(HandleCmd(cfg, s, encoded).0)
  {
    hide BeginClose;
    assert s.calls.cmds[0] in s.calls.cmds;
    assert forall c <- s.calls.cmds[1..] :: c in s.calls.cmds;
  }

  lemma ReadCellsKept(cfg: Config, s: Provider, step: CoreRead, closing: Encoded)
    requires s.reader.Draining? && CellsInv(s)
    ensures CellsInv(HandleRead(cfg, s, step, closing).0)
  {
    hide BeginClose;
  }

  lemma {:induction false} LastDrainCellsKept(cfg: Config, s: Provider, rest: seq<CoreRead>)
    requires s.reader.Selecting? && CellsInv(s)
    ensures CellsInv(LastDrain(cfg, s, rest).0)
    ensures LastDrain(cfg, s, rest).0.cells.closedAt == s.cells.closedAt
    decreases |rest|
  {
    if rest != [] {
      match rest[0]
      case Data(m) =>
        LastDrainCellsKept(cfg, s.(inbound := Deliver(cfg, s.wire.wireClosing, s.inbound, m).0), rest[1..]);
      case Control(reply) => LastDrainCellsKept(cfg, s.(wire := CoreWrites(s.wire, reply)), rest[1..]);
      case RawFrame => LastDrainCellsKept(cfg, s, rest[1..]);
      case _ =>
    }
  }

  lemma FlushCellsKept(cfg: Config, s: Provider, who: Who, e: FlushEvent)
    requires Enabled(s, FlushStep(who, e)) && CellsInv(s)
    ensures CellsInv(HandleFlush(cfg, s, who, e).0)
  {
    hide FlushNext;
  }

  lemma OtherCellsKept(cfg: Config, s: Provider, e: Event)
    requires Enabled(s, e) && CellsInv(s)
    requires !e.TakeCmd? && !e.Read? && !e.FeedEnd? && !e.FlushStep?
    ensures CellsInv(StepOf(cfg, s, e).0)
  {
    if e.TakeLateCmd? {
      assert s.calls.cmds[0] in s.calls.cmds;
      assert forall c <- s.calls.cmds[1..] :: c in s.calls.cmds;
    }
  }

  // ----- causes ------------------------------------------------------------------------------------------

  /** Where a closing comes from: an armed deadline, and a flush the reader leaves its loop after, have a cause.
      No send is enqueued behind a close command. */
  ghost predicate CauseInv(s: Provider) {
    && (s.wire.deadline.Some? ==> s.wire.wireClosing || s.wire.writeDead || s.cells.localClosed)
    && (s.reader.ReaderFlush? && s.reader.thenBreak ==> s.wire.wireClosing)
    && (s.cmd.CmdCloses? ==> s.wire.wireClosing)
    && (forall i, j :: 0 <= i < j < |s.calls.cmds| && s.calls.cmds[i].CloseCmd? ==> s.calls.cmds[j].CloseCmd?)
  }

  /** A deadline armed on the wire comes with its latch. */
  ghost predicate ArmedFor(w: Wire, v: Wire) {
    && (w.wireClosing ==> v.wireClosing) && (w.writeDead ==> v.writeDead)
    && (v.deadline.Some? ==> w.deadline.Some? || v.wireClosing || v.writeDead)
  }

  lemma CauseByFrame(s: Provider, t: Provider)
    requires CauseInv(s) && ArmedFor(s.wire, t.wire) && t.cells.localClosed == s.cells.localClosed
    requires t.calls.cmds == s.calls.cmds || (s.calls.cmds != [] && t.calls.cmds == s.calls.cmds[1..])
    requires t.reader.ReaderFlush? && t.reader.thenBreak ==> t.wire.wireClosing
    requires t.cmd == s.cmd || (t.cmd.CmdCloses? ==> t.wire.wireClosing)
    ensures CauseInv(t)
  {
  }

  lemma BeginCloseArmsFor(cfg: Config, now: nat, w: Wire, frame: Option<CloseInfo>, closing: Encoded)
    ensures var v := BeginClose(cfg, now, w, frame, closing).0; ArmedFor(w, v) && v.wireClosing
  {
  }

  lemma CauseKept(cfg: Config, s: Provider, e: Event)
    requires Enabled(s, e) && CellsInv(s) && CauseInv(s)
    ensures CauseInv(StepOf(cfg, s, e).0)
  {
    hide HandleCmd, HandleRead, LastDrain, HandleFlush, CauseInv;
    match e
    case TakeCmd(encoded) => CmdCauseKept(cfg, s, encoded);
    case Read(step, closing) => ReadCauseKept(cfg, s, step, closing);
    case FeedEnd(rest) => LastDrainCause(cfg, s, rest); CauseByFrame(s, LastDrain(cfg, s, rest).0);
    case FlushStep(who, step) => FlushCauseKept(cfg, s, who, step);
    case _ => OtherCauseKept(cfg, s, e);
  }

  lemma CmdCauseKept(cfg: Config, s: Provider, encoded: Encoded)
    requires Enabled(s, TakeCmd(encoded)) && CauseInv(s)
    ensures CauseInv(HandleCmd(cfg, s, encoded).0)
  {
    if s.calls.cmds[0].CloseCmd? {
      BeginCloseArmsFor(cfg, s.now, s.wire, s.calls.cmds[0].frame, encoded);
    }
    hide BeginClose, CauseInv;
    assert s.reader.ReaderFlush? && s.reader.thenBreak ==> s.wire.wireClosing by { FlushClosing(s); }
    CauseByFrame(s, HandleCmd(cfg, s, encoded).0);
  }

  lemma FlushClosing(s: Provider)
    requires CauseInv(s)
    ensures s.reader.ReaderFlush? && s.reader.thenBreak ==> s.wire.wireClosing
  {
  }

  lemma ReadCauseKept(cfg: Config, s: Provider, step: CoreRead, closing: Encoded)
    requires s.reader.Draining? && CauseInv(s)
    ensures CauseInv(HandleRead(cfg, s, step, closing).0)
  {
    BeginCloseArmsFor(cfg, s.now, s.wire, None, closing);
    hide BeginClose, CauseInv;
    CauseByFrame(s, HandleRead(cfg, s, step, closing).0);
  }

  lemma {:induction false} LastDrainCause(cfg: Config, s: Provider, rest: seq<CoreRead>)
    ensures var t := LastDrain(cfg, s, rest).0;
            && t.reader.ReaderDone? && t.calls == s.calls && t.cmd == s.cmd && ArmedFor(s.wire, t.wire)
            && t.cells.localClosed == s.cells.localClosed
    decreases |rest|
  {
    if rest != [] {
      match rest[0]
      case Data(m) => LastDrainCause(cfg, s.(inbound := Deliver(cfg, s.wire.wireClosing, s.inbound, m).0), rest[1..]);
      case Control(reply) => LastDrainCause(cfg, s.(wire := CoreWrites(s.wire, reply)), rest[1..]);
      case RawFrame => LastDrainCause(cfg, s, rest[1..]);
      case _ =>
    }
  }

  lemma FlushCauseKept(cfg: Config, s: Provider, who: Who, e: FlushEvent)
    requires Enabled(s, FlushStep(who, e)) && CauseInv(s)
    ensures CauseInv(HandleFlush(cfg, s, who, e).0)
  {
  }

  lemma OtherCauseKept(cfg: Config, s: Provider, e: Event)
    requires Enabled(s, e) && CellsInv(s) && CauseInv(s)
    requires !e.TakeCmd? && !e.Read? && !e.FeedEnd? && !e.FlushStep?
    ensures CauseInv(StepOf(cfg, s, e).0)
  {
  }

  // ----- accounting --------------------------------------------------------------------------------------

  lemma DeliverKeeps(cfg: Config, closing: bool, q: Inbound, m: Message)
    requires QueueOk(cfg, q)
    ensures var r := Deliver(cfg, closing, q, m).0;
            && QueueOk(cfg, r) && r.ended == q.ended && (q.overflowed ==> r.overflowed)
            && (closing ==> r.overflowed == q.overflowed)
  {
    BytesSnoc(q.queue, m);
  }

  lemma InboundKept(cfg: Config, s: Provider, e: Event)
    requires Enabled(s, e) && InboundInv(cfg, s)
    ensures InboundInv(cfg, StepOf(cfg, s, e).0)
  {
    hide HandleCmd, HandleRead, LastDrain, HandleFlush, InboundInv;
    match e
    case TakeCmd(encoded) => CmdInboundKept(cfg, s, encoded);
    case Read(step, closing) => ReadInboundKept(cfg, s, step, closing);
    case FeedEnd(rest) => FeedEndInboundKept(cfg, s, rest);
    case FlushStep(who, step) => FlushInboundKept(cfg, s, who, step);
    case _ => OtherInboundKept(cfg, s, e);
  }

  lemma CmdInboundKept(cfg: Config, s: Provider, encoded: Encoded)
    requires Enabled(s, TakeCmd(encoded)) && InboundInv(cfg, s)
    ensures InboundInv(cfg, HandleCmd(cfg, s, encoded).0)
  {
  }

  lemma ReadInboundKept(cfg: Config, s: Provider, step: CoreRead, closing: Encoded)
    requires s.reader.Draining? && InboundInv(cfg, s)
    ensures InboundInv(cfg, HandleRead(cfg, s, step, closing).0)
  {
    if step.Data? {
      DeliverKeeps(cfg, s.wire.wireClosing, s.inbound, step.message);
      hide Deliver;
    }
  }

  lemma FeedEndInboundKept(cfg: Config, s: Provider, rest: seq<CoreRead>)
    requires s.reader.Selecting? && InboundInv(cfg, s)
    ensures InboundInv(cfg, LastDrain(cfg, s, rest).0)
  {
    LastDrainInboundKept(cfg, s, rest);
  }

  lemma {:induction false} LastDrainInboundKept(cfg: Config, s: Provider, rest: seq<CoreRead>)
    requires s.reader.Selecting? && QueueOk(cfg, s.inbound)
    ensures InboundInv(cfg, LastDrain(cfg, s, rest).0)
    decreases |rest|
  {
    if rest != [] {
      match rest[0]
      case Data(m) =>
        DeliverKeeps(cfg, s.wire.wireClosing, s.inbound, m);
        LastDrainInboundKept(cfg, s.(inbound := Deliver(cfg, s.wire.wireClosing, s.inbound, m).0), rest[1..]);
      case Control(reply) => LastDrainInboundKept(cfg, s.(wire := CoreWrites(s.wire, reply)), rest[1..]);
      case RawFrame => LastDrainInboundKept(cfg, s, rest[1..]);
      case _ =>
    }
  }

  lemma FlushInboundKept(cfg: Config, s: Provider, who: Who, e: FlushEvent)
    requires Enabled(s, FlushStep(who, e)) && InboundInv(cfg, s)
    ensures InboundInv(cfg, HandleFlush(cfg, s, who, e).0)
  {
  }

  lemma OtherInboundKept(cfg: Config, s: Provider, e: Event)
    requires Enabled(s, e) && InboundInv(cfg, s)
    requires !e.TakeCmd? && !e.Read? && !e.FeedEnd? && !e.FlushStep?
    ensures InboundInv(cfg, StepOf(cfg, s, e).0)
  {
  }

  // ----- time --------------------------------------------------------------------------------------------

  predicate WritesUnbounded(f: Option<Flush>) { f.Some? && f.value.Writing? && f.value.bound.AwaitClose? }

  /** The reader's flush waits for the lock, which the command task holds in a write that races nothing but
      a local close nobody requested. */
  predicate Stalled(s: Provider) {
    && WritesUnbounded(FlushOf(s, CmdTask))
    && s.reader.ReaderFlush? && s.reader.flush.WaitLock?
    && !s.cells.localClosed
  }

  ghost predicate TimeInv(cfg: Config, s: Provider) {
    && (s.wire.deadline.Some? ==> s.wire.deadline.value <= s.now + cfg.closeTimeout)
    // A reader's write that started without a deadline never meets one armed by the other task alone.
    && (WritesUnbounded(FlushOf(s, ReaderTask)) && s.wire.deadline.Some? ==> s.cells.localClosed)
    && (s.cells.closedAt.Some? ==> s.cells.closedAt.value <= s.now)
    && (s.cells.closedAt.Some? && !s.reader.ReaderDone? ==>
          if s.wire.deadline.Some?
          then (s.now <= s.wire.deadline.value || s.now == s.cells.closedAt.value)
               && s.wire.deadline.value <= s.cells.closedAt.value + cfg.closeTimeout
          else s.now == s.cells.closedAt.value && exists c :: c in s.calls.cmds && c.CloseCmd?)
  }

  /** Time passes an expired deadline with the reader still running exactly when it is stalled. */
  lemma OverrunExactly(cfg: Config, s: Provider)
    requires WireInv(s) && CellsInv(s) && TimeInv(cfg, s) && Expired(s) && !s.reader.ReaderDone?
    ensures Enabled(s, Tick) <==> Stalled(s)
  {
    var c, r := FlushOf(s, CmdTask), FlushOf(s, ReaderTask);
    if Enabled(s, Tick) {
      assert !FlushReady(s, CmdTask) && !FlushReady(s, ReaderTask);
      assert s.reader.ReaderFlush?;
      if r.value.Writing? {
        assert false;
      }
      assert s.wire.lock.Some? && s.wire.lock != Some(ReaderTask);
      assert s.wire.lock.value.CmdTask?;
      assert c.Some? && c.value.Writing?;
    }
  }

  /** A requested close always has a task to act on it at once. */
  lemma CloseWakesATask(cfg: Config, s: Provider)
    requires WireInv(s) && CellsInv(s) && !s.reader.ReaderDone?
    requires s.cells.localClosed && s.wire.deadline.None? && s.calls.cmds != []
    ensures !Enabled(s, Tick)
  {
    var c, r := FlushOf(s, CmdTask), FlushOf(s, ReaderTask);
    if c.Some? {
      if c.value.WaitLock? && s.wire.lock.Some? {
        assert s.wire.lock != Some(CmdTask);
        assert s.wire.lock.value.ReaderTask?;
        assert r.Some? && r.value.Writing?;
        assert FlushReady(s, ReaderTask);
      } else {
        assert FlushReady(s, CmdTask);
      }
    }
  }

  lemma TimeKept(cfg: Config, s: Provider, e: Event)
    requires Enabled(s, e) && WireInv(s) && CellsInv(s) && TimeInv(cfg, s)
    ensures TimeInv(cfg, StepOf(cfg, s, e).0)
  {
    hide HandleCmd, HandleRead, LastDrain, HandleFlush, TimeInv, WireInv, CellsInv;
    match e
    case TakeCmd(encoded) => CmdTimeKept(cfg, s, encoded);
    case Read(step, closing) => ReadTimeKept(cfg, s, step, closing);
    case FeedEnd(rest) => LastDrainTimeKept(cfg, s, rest);
    case FlushStep(who, step) => FlushTimeKept(cfg, s, who, step);
    case Tick => TickTimeKept(cfg, s);
    case _ => OtherTimeKept(cfg, s, e);
  }

  /** What a command changes of what the clock looks at. */
  lemma CmdFrame(cfg: Config, s: Provider, encoded: Encoded)
    requires Enabled(s, TakeCmd(encoded)) && WireInv(s)
    ensures var t := HandleCmd(cfg, s, encoded).0;
            && t.now == s.now && t.reader == s.reader && t.calls.cmds == s.calls.cmds[1..]
            && t.cells.closedAt == s.cells.closedAt && t.cells.localClosed == s.cells.localClosed
            && (s.calls.cmds[0].CloseCmd? ==> t.wire.deadline.Some?)
            && (!s.calls.cmds[0].CloseCmd? ==> t.wire.deadline == s.wire.deadline)
  {
    if s.calls.cmds[0].CloseCmd? {
      BeginCloseKeeps(cfg, s.now, s.wire, s.calls.cmds[0].frame, encoded, AllLeft(s));
    }
    hide BeginClose, BytesOk;
  }

  lemma CmdTimeKept(cfg: Config, s: Provider, encoded: Encoded)
    requires Enabled(s, TakeCmd(encoded)) && WireInv(s) && CellsInv(s) && TimeInv(cfg, s)
    ensures TimeInv(cfg, HandleCmd(cfg, s, encoded).0)
  {
    CmdFrame(cfg, s, encoded);
    CmdWireKept(cfg, s, encoded);
    var cmds := s.calls.cmds;
    assert cmds[0] in cmds;
    assert cmds[0].CloseCmd? ==> s.cells.localClosed;
    assert forall c :: c in cmds ==> c == cmds[0] || c in cmds[1..];
    hide HandleCmd, WireInv, CellsInv;
  }

  lemma ReadTimeKept(cfg: Config, s: Provider, step: CoreRead, closing: Encoded)
    requires s.reader.Draining? && WireInv(s) && TimeInv(cfg, s)
    ensures TimeInv(cfg, HandleRead(cfg, s, step, closing).0)
  {
    BeginCloseKeeps(cfg, s.now, s.wire, None, closing, AllLeft(s));
    ReadFrame(cfg, s, step, closing);
    hide BeginClose, BytesOk, Deliver;
  }

  lemma LastDrainTimeKept(cfg: Config, s: Provider, rest: seq<CoreRead>)
    requires s.reader.Selecting? && WireInv(s) && CellsInv(s) && TimeInv(cfg, s)
    ensures TimeInv(cfg, LastDrain(cfg, s, rest).0)
  {
    LastDrainFrame(cfg, s, rest);
    LastDrainWireKept(cfg, s, rest);
    LastDrainCellsKept(cfg, s, rest);
    hide LastDrain;
  }

  lemma FlushTimeKept(cfg: Config, s: Provider, who: Who, e: FlushEvent)
    requires Enabled(s, FlushStep(who, e)) && WireInv(s) && TimeInv(cfg, s)
    ensures TimeInv(cfg, HandleFlush(cfg, s, who, e).0)
  {
    LeftOfOne(s, who, e);
    FlushWireKept(cfg, s, who, e);
    LeftOfOneAfter(cfg, s, who, e);
    assert s.wire.lock != Some(if who.CmdTask? then ReaderTask else CmdTask);
    FlushBound(cfg, s, who, e);
    hide FlushNext, WireInv;
  }

  /** A flush that races nothing but a local close started without a deadline, or was doing so already. */
  lemma FlushBound(cfg: Config, s: Provider, who: Who, e: FlushEvent)
    requires Enabled(s, FlushStep(who, e))
    ensures var t := HandleFlush(cfg, s, who, e).0;
            && t.now == s.now && t.cells.closedAt == s.cells.closedAt && t.cells.localClosed == s.cells.localClosed
            && t.calls.cmds == s.calls.cmds
            && (WritesUnbounded(FlushOf(t, who)) ==>
                  (t.wire.deadline.None? || WritesUnbounded(FlushOf(s, who))) && t.wire.deadline == s.wire.deadline)
            && (t.reader.ReaderDone? || !s.reader.ReaderDone?)
  {
  }

  lemma TickTimeKept(cfg: Config, s: Provider)
    requires Enabled(s, Tick) && WireInv(s) && CellsInv(s) && TimeInv(cfg, s)
    ensures TimeInv(cfg, s.(now := s.now + 1))
  {
    if Expired(s) && !s.reader.ReaderDone? {
      OverrunExactly(cfg, s);
    }
    if s.cells.localClosed && s.wire.deadline.None? && !s.reader.ReaderDone? {
      CloseWakesATask(cfg, s);
    }
  }

  lemma OtherTimeKept(cfg: Config, s: Provider, e: Event)
    requires Enabled(s, e) && CellsInv(s) && TimeInv(cfg, s)
    requires !e.TakeCmd? && !e.Read? && !e.FeedEnd? && !e.FlushStep? && !e.Tick?
    ensures TimeInv(cfg, StepOf(cfg, s, e).0)
  {
    var t := StepOf(cfg, s, e).0;
    assert !e.TakeLateCmd? ==> forall c :: c in s.calls.cmds ==> c in t.calls.cmds;
    if e.CloseCall? && CloseArgsOk(e.code, e.reason) && !s.cells.localClosed {
      assert CloseCmd(FrameFor(e.code, e.reason)) in t.calls.cmds;
    }
  }

  // ----- everything kept, over runs ----------------------------------------------------------------------

  ghost predicate Inv(cfg: Config, s: Provider) {
    WireInv(s) && BytesInv(s) && OrderInv(s) && CellsInv(s) && CauseInv(s) && InboundInv(cfg, s) && TimeInv(cfg, s)
  }

  lemma StartInv(cfg: Config)
    ensures Inv(cfg, Start)
  {
  }

  lemma InvKept(cfg: Config, s: Provider, e: Event)
    requires Enabled(s, e) && Inv(cfg, s)
    ensures Inv(cfg, StepOf(cfg, s, e).0)
  {
    hide WireInv, BytesInv, OrderInv, CellsInv, CauseInv, InboundInv, TimeInv, StepOf;
    WireKept(cfg, s, e);
    BytesKept(cfg, s, e);
    OrderKept(cfg, s, e);
    CellsKept(cfg, s, e);
    CauseKept(cfg, s, e);
    InboundKept(cfg, s, e);
    TimeKept(cfg, s, e);
  }

  lemma {:induction false} RunInv(cfg: Config, s: Provider, events: seq<Event>)
    requires Inv(cfg, s) && CanRun(cfg, s, events)
    ensures Inv(cfg, Run(cfg, s, events))
    decreases |events|
  {
    hide Inv, StepOf;
    if events != [] {
      InvKept(cfg, s, events[0]);
      RunInv(cfg, StepOf(cfg, s, events[0]).0, events[1..]);
    }
  }

  lemma Reached(cfg: Config, events: seq<Event>)
    requires CanRun(cfg, Start, events)
    ensures Inv(cfg, Run(cfg, Start, events))
  {
    StartInv(cfg);
    RunInv(cfg, Start, events);
  }

  lemma PartsOf(cfg: Config, s: Provider)
    requires Inv(cfg, s)
    ensures WireInv(s) && BytesInv(s) && OrderInv(s) && CellsInv(s) && CauseInv(s)
    ensures InboundInv(cfg, s) && TimeInv(cfg, s)
  {
  }

  /** All of a send's bytes are among the accepted ones, where the core wrote them. */
  predicate AllAccepted(w: Wire, m: Sending) { m.End() <= |w.accepted| && w.accepted[m.start..m.End()] == m.bytes }

  /** For every interleaving of the two tasks' flushes: the bytes the stream writer accepted are a prefix of
      those the protocol core wrote; drained but unaccepted bytes exist only in the hands of the flush that
      holds the write lock, or once the write half is dead; and a send answered `Ok` has all its bytes, where
      the core wrote them, among the accepted ones, whichever task's flush carried them. */
  lemma BytesInEveryRun(cfg: Config, events: seq<Event>)
    requires CanRun(cfg, Start, events)
    ensures var s := Run(cfg, Start, events);
            && s.wire.accepted <= s.wire.written
            && (!s.wire.writeDead && s.wire.lock.None? ==> s.wire.written == s.wire.accepted + s.wire.outbound)
            && (!s.wire.writeDead && s.wire.lock.Some? ==>
                  s.wire.written == s.wire.accepted + Left(FlushOf(s, s.wire.lock.value)) + s.wire.outbound)
            && forall a <- s.calls.acks :: a.result.Sent? ==> AllAccepted(s.wire, a.sending)
  {
    hide Inv, Run;
    Reached(cfg, events);
    BytesOfState(cfg, Run(cfg, Start, events));
  }

  lemma BytesOfState(cfg: Config, s: Provider)
    requires Inv(cfg, s)
    ensures s.wire.accepted <= s.wire.written
    ensures !s.wire.writeDead ==>
              var held := if s.wire.lock.Some? then Left(FlushOf(s, s.wire.lock.value)) else [];
              s.wire.written == s.wire.accepted + held + s.wire.outbound
    ensures forall a <- s.calls.acks :: a.result.Sent? ==> AllAccepted(s.wire, a.sending)
  {
    if s.wire.lock.Some? {
      assert AllLeft(s) == Left(FlushOf(s, s.wire.lock.value));
    } else {
      assert AllLeft(s) == [];
    }
    AcksAccepted(s);
    hide WireInv, BytesInv, OrderInv, CellsInv, CauseInv, InboundInv, TimeInv, AllAccepted;
  }

  lemma AcksAccepted(s: Provider)
    requires BytesInv(s) && s.wire.accepted <= s.wire.written
    ensures forall a <- s.calls.acks :: a.result.Sent? ==> AllAccepted(s.wire, a.sending)
  {
    forall a | a in s.calls.acks && a.result.Sent?
      ensures AllAccepted(s.wire, a.sending)
    {
      assert AckOk(s.wire, a);
      assert s.wire.written[..|s.wire.accepted|] == s.wire.accepted;
      assert s.wire.accepted[a.sending.start..a.sending.End()] == s.wire.written[a.sending.start..a.sending.End()];
    }
  }

  /** Each enqueued send is answered at most once, in command order; all of them once the command task has
      caught up. */
  lemma SendsInEveryRun(cfg: Config, events: seq<Event>)
    requires CanRun(cfg, Start, events)
    ensures var s := Run(cfg, Start, events);
            && s.calls.issued == s.calls.answered + InFlight(s.cmd) + CmdIds(s.calls.cmds)
            && Increasing(s.calls.issued, s.calls.made)
  {
    hide Inv, Run;
    Reached(cfg, events);
    var s := Run(cfg, Start, events);
    assert OrderInv(s) by { PartsOf(cfg, s); }
    assert s.calls.answered + Pending(s) == s.calls.answered + InFlight(s.cmd) + CmdIds(s.calls.cmds);
  }

  /** After a local close the connection is finalized within one close timeout of the call; and time never
      passes while a write races an expired deadline or a local close already requested. */
  lemma LocalCloseIsBounded(cfg: Config, events: seq<Event>)
    requires CanRun(cfg, Start, events)
    ensures var s := Run(cfg, Start, events);
            && (s.cells.closedAt.Some? && s.cells.closedAt.value + cfg.closeTimeout < s.now ==> s.reader.ReaderDone?)
            && (Enabled(s, Tick) ==> forall who :: FlushOf(s, who).Some? && FlushOf(s, who).value.Writing? ==>
                  match FlushOf(s, who).value.bound
                  case AwaitClose => !s.cells.localClosed
                  case Until(d) => s.now < d)
  {
    hide Inv, Run;
    Reached(cfg, events);
    CloseOfState(cfg, Run(cfg, Start, events));
    if Enabled(Run(cfg, Start, events), Tick) {
      TicksSpareWrites(Run(cfg, Start, events));
    }
  }

  lemma CloseOfState(cfg: Config, s: Provider)
    requires Inv(cfg, s)
    ensures s.cells.closedAt.Some? && s.cells.closedAt.value + cfg.closeTimeout < s.now ==> s.reader.ReaderDone?
  {
    hide WireInv, BytesInv, OrderInv, CellsInv, CauseInv, InboundInv;
  }

  lemma TicksSpareWrites(s: Provider)
    requires Enabled(s, Tick)
    ensures forall who :: FlushOf(s, who).Some? && FlushOf(s, who).value.Writing? ==>
              match FlushOf(s, who).value.bound
              case AwaitClose => !s.cells.localClosed
              case Until(d) => s.now < d
  {
    forall who | Enabled(s, Tick) && FlushOf(s, who).Some? && FlushOf(s, who).value.Writing?
      ensures !FlushReady(s, who)
    {
      if who.CmdTask? {
        assert !FlushReady(s, CmdTask);
      } else {
        assert !FlushReady(s, ReaderTask);
      }
    }
  }

  /** In every run, time passes the armed deadline of a reader that has not finalized exactly when the reader
      waits for the write lock behind a send whose write began before the deadline was armed, with no local
      close requested. */
  lemma DeadlineOverrunExactly(cfg: Config, events: seq<Event>)
    requires CanRun(cfg, Start, events)
    ensures var s := Run(cfg, Start, events);
            Expired(s) && !s.reader.ReaderDone? ==> (Enabled(s, Tick) <==> Stalled(s))
  {
    hide Inv, Run;
    Reached(cfg, events);
    var s := Run(cfg, Start, events);
    PartsOf(cfg, s);
    if Expired(s) && !s.reader.ReaderDone? {
      OverrunExactly(cfg, s);
    }
  }

  function Ticks(n: nat): seq<Event> { if n == 0 then [] else [Tick] + Ticks(n - 1) }

  lemma {:induction false} StallLasts(cfg: Config, s: Provider, n: nat)
    requires Stalled(s) && s.wire.lock == Some(CmdTask)
    ensures CanRun(cfg, s, Ticks(n))
    ensures Run(cfg, s, Ticks(n)) == s.(now := s.now + n)
    decreases n
  {
    if n > 0 {
      assert Ticks(n)[0] == Tick && Ticks(n)[1..] == Ticks(n - 1);
      assert Enabled(s, Tick);
      StallLasts(cfg, s.(now := s.now + 1), n - 1);
    }
  }

  /** The run that stalls: a send's write is in progress when the peer's close frame is read. */
  const StallSend: Event := SendCall(Binary([]))
  const StallTake: Event := TakeCmd(Encodes([1]))
  const StallWrite: Event := FlushStep(CmdTask, TakeLock)
  const StallRead: Event := Read(PeerClose(None, [2]), Refuses(Closed))

  function AfterSend(cfg: Config): Provider { StepOf(cfg, Start, StallSend).0 }

  lemma StallBegins(cfg: Config)
    ensures var s := AfterSend(cfg);
            && Enabled(s, StallTake)
            && var t := StepOf(cfg, s, StallTake).0;
               && t == s.(wire := s.wire.(written := [1], outbound := [1], handed := [MessageToCore(0, Binary([]))]),
                          cmd := CmdSends(Sending(0, 0, [1]), WaitLock),
                          calls := s.calls.(cmds := []))
  {
    var s := AfterSend(cfg);
    assert s.calls.cmds == [SendCmd(0, Binary([]))];
    assert s.wire.written + [1] == [1] && s.wire.outbound + [1] == [1];
    assert s.calls.cmds[1..] == [];
  }

  lemma StallWrites(cfg: Config, s: Provider)
    requires s.cmd == CmdSends(Sending(0, 0, [1]), WaitLock) && s.reader.Draining? && !s.cells.localClosed
    requires s.wire == Wire([1], [1], [], None, false, false, None, s.wire.handed) && s.now == 0
    ensures Enabled(s, StallWrite)
    ensures var t := StepOf(cfg, s, StallWrite).0;
            && t == s.(wire := s.wire.(outbound := [], lock := Some(CmdTask)),
                       cmd := CmdSends(Sending(0, 0, [1]), Writing([1], AwaitClose)))
            && Enabled(t, StallRead)
  {
  }

  lemma StallReads(cfg: Config, s: Provider)
    requires s.cmd == CmdSends(Sending(0, 0, [1]), Writing([1], AwaitClose))
    requires s.reader.Draining? && !s.cells.localClosed
    requires s.wire == Wire([1], [], [], Some(CmdTask), false, false, None, s.wire.handed) && s.now == 0
    ensures var t := StepOf(cfg, s, StallRead).0;
            && Stalled(t) && t.wire.deadline == Some(cfg.closeTimeout) && t.now == 0
            && t.wire.lock == Some(CmdTask) && !t.wire.writeDead && t.cmd == s.cmd
            && t.wire.written == [1, 2] && t.wire.outbound == [2] && t.wire.accepted == []
  {
  }

  /** So the bound does not cover a close the peer begins: however long one waits past the deadline, there is
      a run in which the reader has not finalized. */
  lemma DeadlineCanBeOverrun(cfg: Config, n: nat) returns (events: seq<Event>)
    ensures CanRun(cfg, Start, events)
    ensures var s := Run(cfg, Start, events);
            s.wire.deadline == Some(cfg.closeTimeout) && s.now == cfg.closeTimeout + n && !s.reader.ReaderDone?
  {
    var s1 := AfterSend(cfg);
    StallBegins(cfg);
    var s2 := StepOf(cfg, s1, StallTake).0;
    StallWrites(cfg, s2);
    var s3 := StepOf(cfg, s2, StallWrite).0;
    StallReads(cfg, s3);
    var s4 := StepOf(cfg, s3, StallRead).0;
    var ticks := Ticks(cfg.closeTimeout + n);
    hide StepOf;
    StallLasts(cfg, s4, cfg.closeTimeout + n);
    RunOne(cfg, s3, StallRead, ticks);
    RunOne(cfg, s2, StallWrite, [StallRead] + ticks);
    RunOne(cfg, s1, StallTake, [StallWrite] + ([StallRead] + ticks));
    events := [StallSend] + ([StallTake] + ([StallWrite] + ([StallRead] + ticks)));
    RunOne(cfg, Start, StallSend, [StallTake] + ([StallWrite] + ([StallRead] + ticks)));
  }

  lemma RunOne(cfg: Config, s: Provider, e: Event, rest: seq<Event>)
    requires Enabled(s, e) && CanRun(cfg, StepOf(cfg, s, e).0, rest)
    ensures CanRun(cfg, s, [e] + rest) && Run(cfg, s, [e] + rest) == Run(cfg, StepOf(cfg, s, e).0, rest)
  {
    hide StepOf;
    assert ([e] + rest)[1..] == rest;
  }
}
