/** What a local close does to the sends the in-guest pump was given before it. */
module GuestClose {
  import opened Types
  import opened Contract
  import opened GuestPump
  import opened GuestInvariants
  import opened GuestSends
  import opened GuestTime

  /** Nothing more is written; or no send is in flight and none will be encoded. A send in flight is past the
      test of the closing latch: its flush goes on, even beyond the reader's finalization. */
  predicate NothingToFlush(s: Provider) {
    || s.wire.writeDead
    || (!s.cmd.CmdSends? && (CmdIds(s.calls.cmds) == [] || s.wire.wireClosing || s.reader.ReaderDone?))
  }

  // ----- nothing to flush: every later answer is `closed` ------------------------------------------------

  lemma StepStaysClosed(cfg: Config, s: Provider, e: Event)
    requires Enabled(s, e) && WireInv(s) && s.cells.localClosed && NothingToFlush(s)
    ensures var (t, ls) := StepOf(cfg, s, e); AnswersClosed(ls) && NothingToFlush(t) && t.cells.localClosed
  {
    hide HandleCmd, HandleRead, LastDrain, HandleFlush, WireInv, NothingToFlush;
    match e
    case TakeCmd(encoded) => CmdStaysClosed(cfg, s, encoded);
    case Read(step, closing) => ReadStaysClosed(cfg, s, step, closing);
    case FeedEnd(rest) => LastDrainStaysClosed(cfg, s, rest);
    case FlushStep(who, step) => FlushStaysClosed(cfg, s, who, step);
    case _ => OtherStaysClosed(cfg, s, e);
  }

  lemma CmdStaysClosed(cfg: Config, s: Provider, encoded: Encoded)
    requires Enabled(s, TakeCmd(encoded)) && NothingToFlush(s)
    ensures var (t, ls) := HandleCmd(cfg, s, encoded);
            AnswersClosed(ls) && NothingToFlush(t) && t.cells.localClosed == s.cells.localClosed
  {
    if s.calls.cmds[0].CloseCmd? {
      BeginCloseLatches(cfg, s.now, s.wire, s.calls.cmds[0].frame, encoded);
    }
    hide BeginClose;
    if s.calls.cmds[0].SendCmd? {
      assert CmdIds(s.calls.cmds) != [];
    }
  }

  lemma BeginCloseLatches(cfg: Config, now: nat, w: Wire, frame: Option<CloseInfo>, closing: Encoded)
    ensures var v := BeginClose(cfg, now, w, frame, closing).0; v.wireClosing && v.writeDead == w.writeDead
  {
  }

  lemma ReadStaysClosed(cfg: Config, s: Provider, step: CoreRead, closing: Encoded)
    requires s.reader.Draining? && NothingToFlush(s)
    ensures var (t, ls) := HandleRead(cfg, s, step, closing);
            AnswersClosed(ls) && NothingToFlush(t) && t.cells.localClosed == s.cells.localClosed
  {
    BeginCloseLatches(cfg, s.now, s.wire, None, closing);
    hide BeginClose;
  }

  lemma {:induction false} LastDrainStaysClosed(cfg: Config, s: Provider, rest: seq<CoreRead>)
    requires NothingToFlush(s)
    ensures var (t, ls) := LastDrain(cfg, s, rest);
            AnswersClosed(ls) && NothingToFlush(t) && t.cells.localClosed == s.cells.localClosed
    decreases |rest|
  {
    if rest != [] {
      match rest[0]
      case Data(m) =>
        LastDrainStaysClosed(cfg, s.(inbound := Deliver(cfg, s.wire.wireClosing, s.inbound, m).0), rest[1..]);
      case Control(reply) => LastDrainStaysClosed(cfg, s.(wire := CoreWrites(s.wire, reply)), rest[1..]);
      case RawFrame => LastDrainStaysClosed(cfg, s, rest[1..]);
      case _ =>
    }
  }

  lemma FlushStaysClosed(cfg: Config, s: Provider, who: Who, e: FlushEvent)
    requires Enabled(s, FlushStep(who, e)) && WireInv(s) && NothingToFlush(s)
    ensures var (t, ls) := HandleFlush(cfg, s, who, e);
            AnswersClosed(ls) && NothingToFlush(t) && t.cells.localClosed == s.cells.localClosed
  {
    var f := FlushOf(s, who).value;
    LeftOfOne(s, who, e);
    FlushKeeps(cfg, s.now, s.cells.localClosed, s.wire, who, f, e);
    if s.wire.writeDead {
      assert f.WaitLock?;
      DeadFlushFails(cfg, s.now, s.wire, who, f, e);
    }
    hide FlushNext, WireInv, BytesOk;
  }

  /** With the write half dead a flush can only fail. */
  lemma DeadFlushFails(cfg: Config, now: nat, w: Wire, who: Who, f: Flush, e: FlushEvent)
    requires w.writeDead && f.WaitLock?
    ensures FlushNext(cfg, now, w, who, f, e).1 == Returned(Failed(Closed))
  {
  }

  lemma OtherStaysClosed(cfg: Config, s: Provider, e: Event)
    requires Enabled(s, e) && s.cells.localClosed && NothingToFlush(s)
    requires !e.TakeCmd? && !e.Read? && !e.FeedEnd? && !e.FlushStep?
    ensures var (t, ls) := StepOf(cfg, s, e); AnswersClosed(ls) && NothingToFlush(t) && t.cells.localClosed
  {
  }

  lemma {:induction false} RunStaysClosed(cfg: Config, s: Provider, events: seq<Event>)
    requires CanRun(cfg, s, events) && Inv(cfg, s) && s.cells.localClosed && NothingToFlush(s)
    ensures AnswersClosed(Trace(cfg, s, events))
    decreases |events|
  {
    hide StepOf, Inv, NothingToFlush;
    if events != [] {
      PartsOf(cfg, s);
      StepStaysClosed(cfg, s, events[0]);
      InvKept(cfg, s, events[0]);
      RunStaysClosed(cfg, StepOf(cfg, s, events[0]).0, events[1..]);
    }
  }

  // ----- something to flush: it may be answered `Ok` -----------------------------------------------------

  lemma TraceOne(cfg: Config, s: Provider, e: Event, rest: seq<Event>)
    requires Enabled(s, e) && CanRun(cfg, StepOf(cfg, s, e).0, rest)
    ensures CanRun(cfg, s, [e] + rest)
    ensures Trace(cfg, s, [e] + rest) == StepOf(cfg, s, e).1 + Trace(cfg, StepOf(cfg, s, e).0, rest)
  {
    hide StepOf, Enabled;
    assert ([e] + rest)[1..] == rest;
  }

  /** One more step before a run that answers a send otherwise than `closed`. */
  lemma AnswersLater(cfg: Config, s: Provider, e: Event, rest: seq<Event>)
    requires Enabled(s, e)
    requires var t := StepOf(cfg, s, e).0; CanRun(cfg, t, rest) && !AnswersClosed(Trace(cfg, t, rest))
    ensures CanRun(cfg, s, [e] + rest) && !AnswersClosed(Trace(cfg, s, [e] + rest))
  {
    hide StepOf, Enabled;
    TraceOne(cfg, s, e, rest);
  }

  /** A send whose write is in progress: the stream writer takes the rest. */
  lemma WriteGoesWell(cfg: Config, s: Provider) returns (events: seq<Event>)
    requires s.cmd.CmdSends? && s.cmd.flush.Writing? && s.cmd.flush.left != []
    ensures CanRun(cfg, s, events) && !AnswersClosed(Trace(cfg, s, events))
  {
    var e := FlushStep(CmdTask, WriterAccepts(|s.cmd.flush.left|));
    var out := StepOf(cfg, s, e);
    assert out.1[|out.1| - 1] == SendDone(s.cmd.sending.id, Sent);
    hide StepOf;
    TraceOne(cfg, s, e, []);
    events := [e] + [];
    assert out.1[|out.1| - 1] in Trace(cfg, s, events);
  }

  /** The lock is free: the flush takes it. */
  lemma FreeFlushGoesWell(cfg: Config, s: Provider) returns (events: seq<Event>)
    requires s.cmd.CmdSends? && s.cmd.flush.WaitLock? && s.wire.lock.None? && !s.wire.writeDead
    ensures CanRun(cfg, s, events) && !AnswersClosed(Trace(cfg, s, events))
  {
    var e := FlushStep(CmdTask, TakeLock);
    var out := StepOf(cfg, s, e);
    if s.wire.outbound == [] {
      assert out.1[|out.1| - 1] == SendDone(s.cmd.sending.id, Sent);
      hide StepOf;
      TraceOne(cfg, s, e, []);
      events := [e] + [];
      assert out.1[|out.1| - 1] in Trace(cfg, s, events);
    } else {
      var rest := WriteGoesWell(cfg, out.0);
      hide StepOf, Trace;
      AnswersLater(cfg, s, e, rest);
      events := [e] + rest;
    }
  }

  /** A send in flight, wherever its flush is: behind the reader's write it waits for the lock. */
  lemma FlightGoesWell(cfg: Config, s: Provider) returns (events: seq<Event>)
    requires WireInv(s) && s.cmd.CmdSends? && !s.wire.writeDead
    ensures CanRun(cfg, s, events) && !AnswersClosed(Trace(cfg, s, events))
  {
    if s.cmd.flush.Writing? {
      events := WriteGoesWell(cfg, s);
    } else if s.wire.lock.None? {
      events := FreeFlushGoesWell(cfg, s);
    } else {
      var e := ReaderReleases(cfg, s);
      var t := StepOf(cfg, s, e).0;
      hide StepOf, Trace, WireInv;
      var rest := FreeFlushGoesWell(cfg, t);
      AnswersLater(cfg, s, e, rest);
      events := [e] + rest;
    }
  }

  lemma ReaderReleases(cfg: Config, s: Provider) returns (e: Event)
    requires WireInv(s) && s.cmd.CmdSends? && s.cmd.flush.WaitLock? && s.wire.lock.Some? && !s.wire.writeDead
    ensures Enabled(s, e)
    ensures var t := StepOf(cfg, s, e).0; t.wire.lock.None? && !t.wire.writeDead && t.cmd == s.cmd
  {
    assert s.wire.lock != Some(CmdTask);
    assert s.wire.lock.value.ReaderTask?;
    assert s.reader.ReaderFlush? && s.reader.flush.Writing? && s.reader.flush.left != [];
    e := FlushStep(ReaderTask, WriterAccepts(|s.reader.flush.left|));
  }

  /** A send still in the channel, its closing latch open: claims before it are taken first. */
  lemma {:induction false} QueuedGoesWell(cfg: Config, s: Provider) returns (events: seq<Event>)
    requires Inv(cfg, s) && s.cmd.CmdIdle? && CmdIds(s.calls.cmds) != []
    requires !s.wire.writeDead && !s.wire.wireClosing && !s.reader.ReaderDone?
    ensures CanRun(cfg, s, events) && !AnswersClosed(Trace(cfg, s, events))
    decreases |s.calls.cmds|
  {
    PartsOf(cfg, s);
    var e := TakeCmd(Encodes([1]));
    InvKept(cfg, s, e);
    var t := StepOf(cfg, s, e).0;
    PartsOf(cfg, t);
    hide Inv, WireInv, Trace;
    var rest;
    match s.calls.cmds[0] {
      case SendCmd(_, _) => rest := FlightGoesWell(cfg, t);
      case ClaimCmd => rest := QueuedGoesWell(cfg, t);
      case CloseCmd(_) => NoSendBehindClose(s.calls.cmds); assert false;
    }
    hide StepOf;
    AnswersLater(cfg, s, e, rest);
    events := [e] + rest;
  }

  lemma {:induction false} NoSendBehindClose(cmds: seq<Cmd>)
    requires forall i :: 0 <= i < |cmds| ==> cmds[0].CloseCmd? && (0 < i ==> cmds[i].CloseCmd?)
    ensures CmdIds(cmds) == []
  {
    if cmds != [] {
      assert cmds[1..] != [] ==> cmds[1].CloseCmd?;
      NoSendBehindClose(cmds[1..]);
    }
  }

  /** In every reachable state after a local close, all later answers are `closed`, whatever comes, if and only if
      the write half is dead, or no send is in flight and the channel holds none that the pump would encode. */
  lemma ClosedAnswersExactly(cfg: Config, events: seq<Event>)
    requires CanRun(cfg, Start, events) && Run(cfg, Start, events).cells.localClosed
    ensures var s := Run(cfg, Start, events);
            (forall more :: CanRun(cfg, s, more) ==> AnswersClosed(Trace(cfg, s, more))) <==> NothingToFlush(s)
  {
    hide Inv, Run, Trace, WireInv;
    Reached(cfg, events);
    var s := Run(cfg, Start, events);
    if NothingToFlush(s) {
      forall more | CanRun(cfg, s, more)
        ensures AnswersClosed(Trace(cfg, s, more))
      {
        RunStaysClosed(cfg, s, more);
      }
    } else {
      var more := PendingGoesWell(cfg, s);
      assert !AnswersClosed(Trace(cfg, s, more));
    }
  }

  lemma PendingGoesWell(cfg: Config, s: Provider) returns (events: seq<Event>)
    requires Inv(cfg, s) && !NothingToFlush(s)
    ensures CanRun(cfg, s, events) && !AnswersClosed(Trace(cfg, s, events))
  {
    PartsOf(cfg, s);
    hide Inv, WireInv, Trace;
    if s.cmd.CmdSends? {
      events := FlightGoesWell(cfg, s);
    } else {
      assert !s.cmd.CmdLate? && !s.cmd.CmdCloses?;
      events := QueuedGoesWell(cfg, s);
    }
  }
}
