/** The in-guest pump in its own form: the cells its two tasks share, the write path, and the tasks' bodies of
    rust/guest-provider/src/pump.rs, each shown to be the step machine's. An await is a return to the
    schedule, at the task's program counter. */
module GuestTask {
  import opened Types
  import opened Contract
  import opened PeerInput
  import opened GuestPump
  import opened GuestDelivery

  class Pump {
    const cfg: Config
    var now: nat
    // PumpFlags
    var wireClosing: bool
    var writeDead: bool
    var deadline: Option<nat>
    // the byte path
    var written: seq<Byte>
    var outbound: seq<Byte>
    var accepted: seq<Byte>
    var lock: Option<Who>
    var handed: seq<ToCore>
    // the two tasks
    var cmdPc: CmdPc
    var readerPc: ReaderPc
    // Shared
    var cells: Cells
    var queue: seq<Message>
    var ended: bool
    var budgetUsed: nat
    var overflowed: bool
    var calls: Calls
    ghost var log: seq<Label>

    ghost function AsWire(): Wire
      reads this
    {
      Wire(written, outbound, accepted, lock, writeDead, wireClosing, deadline, handed)
    }

    ghost function AsInbound(): Inbound
      reads this
    {
      Inbound(queue, ended, budgetUsed, overflowed)
    }

    ghost function State(): Provider
      reads this
    {
      Provider(now, AsWire(), cmdPc, readerPc, cells, AsInbound(), calls)
    }

    constructor (cfg: Config)
      ensures this.cfg == cfg && State() == Start && log == []
    {
      this.cfg := cfg;
      now, wireClosing, writeDead, deadline := 0, false, false, None;
      written, outbound, accepted, lock, handed := [], [], [], None, [];
      cmdPc, readerPc, cells := CmdIdle, Draining, Start.cells;
      queue, ended, budgetUsed, overflowed, calls := [], false, 0, false, Start.calls;
      log := [];
    }

    // ----- PumpFlags and Shared --------------------------------------------------------------------------

    method ArmDeadline()
      modifies this`deadline
      ensures AsWire() == Arm(cfg, now, old(AsWire()))
    {
      if deadline.None? {
        deadline := Some(now + cfg.closeTimeout);
      }
    }

    /** `reserve`: false latches the overflow. */
    method Reserve(len: nat) returns (ok: bool)
      modifies this`budgetUsed, this`overflowed
      ensures ok <==> !old(overflowed) && old(budgetUsed) + len <= cfg.limit
      ensures overflowed == !ok && budgetUsed == if ok then old(budgetUsed) + len else old(budgetUsed)
    {
      if overflowed {
        return false;
      }
      if budgetUsed + len > cfg.limit {
        overflowed := true;
        return false;
      }
      budgetUsed := budgetUsed + len;
      return true;
    }

    /** `deliver`. */
    method Deliver(m: Message)
      modifies this`queue, this`budgetUsed, this`overflowed, this`log
      ensures var (q, l) := GuestPump.Deliver(cfg, wireClosing, old(AsInbound()), m);
              AsInbound() == q && log == old(log) + [l]
    {
      if wireClosing {
        log := log + [Drop(m)];
        return;
      }
      ghost var late := overflowed;
      var ok := Reserve(m.Size());
      if ok {
        queue := queue + [m];
      }
      log := log + [if ok then Accept(m) else if late then Drop(m) else Overflow(m)];
    }

    // ----- the write path --------------------------------------------------------------------------------

    /** The protocol core writes into the virtual transport. */
    method CoreWrite(bytes: seq<Byte>)
      modifies this`written, this`outbound
      ensures AsWire() == CoreWrites(old(AsWire()), bytes)
    {
      written := written + bytes;
      outbound := outbound + bytes;
    }

    /** `flush_outbound` up to its write: the lock is taken, whatever the core wrote is drained. */
    method StartFlush(who: Who) returns (out: FlushOut)
      requires lock.None?
      modifies this`outbound, this`lock
      ensures var (w, o) := FlushNext(cfg, now, old(AsWire()), who, WaitLock, TakeLock); AsWire() == w && out == o
    {
      var bytes := outbound;
      outbound := [];
      if |bytes| == 0 {
        return Returned(if writeDead then Failed(Closed) else Sent);
      }
      if writeDead {
        return Returned(Failed(Closed));
      }
      lock := Some(who);
      return Still(Writing(bytes, if deadline.None? then AwaitClose else Until(deadline.value)));
    }

    /** The write failed, or its bound expired. */
    method KillWrites()
      modifies this`writeDead, this`lock, this`deadline, this`log
      ensures AsWire() == WriteDies(cfg, now, old(AsWire()))
      ensures log == old(log) + DeathLabels(old(AsWire()), AsWire())
    {
      log := log + if writeDead then [] else [WriteDied];
      writeDead := true;
      ArmDeadline();
      lock := None;
    }

    /** What happens to a write in progress. */
    method WriteTurn(who: Who, left: seq<Byte>, bound: Bound, e: FlushEvent) returns (out: FlushOut)
      requires !e.TakeLock? && (e.WriterAccepts? ==> e.count <= |left|)
      modifies this`accepted, this`lock, this`writeDead, this`deadline, this`log
      ensures var (w, o) := FlushNext(cfg, now, old(AsWire()), who, Writing(left, bound), e); AsWire() == w && out == o
      ensures log == old(log) + DeathLabels(old(AsWire()), AsWire())
    {
      match e
      case WriterAccepts(n) =>
        accepted := accepted + left[..n];
        if n == |left| {
          lock := None;
          return Returned(Sent);
        }
        return Still(Writing(left[n..], bound));
      case SeeLocalClose =>
        ArmDeadline();
        return Still(Writing(left, Until(deadline.value)));
      case WriterGone =>
        KillWrites();
        return Returned(Failed(Closed));
      case BoundExpires =>
        KillWrites();
        return Returned(Failed(Closed));
    }

    /** `begin_close` up to its flush, if it has one. */
    method BeginClose(frame: Option<CloseInfo>, closing: Encoded) returns (flush: bool)
      modifies this`wireClosing, this`deadline, this`written, this`outbound, this`handed, this`log
      ensures var (w, f) := GuestPump.BeginClose(cfg, now, old(AsWire()), frame, closing); AsWire() == w && flush == f
      ensures log == old(log) + StopLabels(old(AsWire()))
    {
      if wireClosing {
        return false;
      }
      wireClosing := true;
      log := log + [Stop];
      ArmDeadline();
      handed := handed + [CloseToCore(frame)];
      if closing.Encodes? {
        CoreWrite(closing.bytes);
        return true;
      }
      return false;
    }

    // ----- the command task ------------------------------------------------------------------------------

    method Answer(sending: Sending, result: SendResult)
      modifies this`calls, this`log
      ensures var (s, labels) := GuestPump.Answer(old(State()), sending, result);
              State() == s && log == old(log) + labels
    {
      calls := calls.(acks := calls.acks + [Ack(sending, result)], answered := calls.answered + [sending.id]);
      log := log + [SendDone(sending.id, result)];
    }

    method TakeCommand() returns (cmd: Cmd)
      requires calls.cmds != []
      modifies this`calls
      ensures cmd == old(calls.cmds[0]) && State() == PopCmd(old(State()))
    {
      cmd := calls.cmds[0];
      calls := calls.(cmds := calls.cmds[1..]);
    }

    /** Phase 1: the connection is live. */
    method OnCommand(encoded: Encoded)
      requires cmdPc.CmdIdle? && calls.cmds != []
      modifies this
      ensures var (s, labels) := HandleCmd(cfg, old(State()), encoded); State() == s && log == old(log) + labels
    {
      hide GuestPump.BeginClose, StopLabels, HandleSend;
      var cmd := TakeCommand();
      match cmd
      case SendCmd(id, m) => OnSend(id, m, encoded);
      case CloseCmd(frame) =>
        var flush := BeginClose(frame, encoded);
        cmdPc := if flush then CmdCloses(WaitLock) else CmdIdle;
      case ClaimCmd => cells := cells.(feeder := true);
    }

    method OnSend(id: nat, m: Message, encoded: Encoded)
      modifies this
      ensures var (s, labels) := HandleSend(old(State()), id, m, encoded); State() == s && log == old(log) + labels
    {
      hide CoreWrites;
      var start := |written|;
      if wireClosing || writeDead {
        Answer(Sending(id, start, []), Failed(Closed));
        return;
      }
      match encoded
      case Refuses(e) => Answer(Sending(id, start, []), Failed(e));
      case Encodes(bytes) =>
        handed := handed + [MessageToCore(id, m)];
        CoreWrite(bytes);
        cmdPc := CmdSends(Sending(id, start, bytes), WaitLock);
    }

    /** Phase 2: the pump has finalized. */
    method OnLateCommand()
      requires calls.cmds != []
      modifies this
      ensures var (s, labels) := HandleLateCmd(old(State())); State() == s && log == old(log) + labels
    {
      var cmd := TakeCommand();
      match cmd
      case SendCmd(id, _) => Answer(Sending(id, |written|, []), Failed(Closed));
      case CloseCmd(_) =>
      case ClaimCmd => cells := cells.(feeder := true);
    }

    // ----- the reader task -------------------------------------------------------------------------------

    method Finalize()
      modifies this`readerPc, this`cells, this`ended, this`log
      ensures var (s, labels) := GuestPump.Finalize(old(State())); State() == s && log == old(log) + labels
    {
      cells := cells.(closeInfo := Some(cells.peerFrame), lifecycle := cells.lifecycle.AdvanceByRank(IsClosed));
      ended := true;
      readerPc := ReaderDone;
      log := log + [Settle, Progress(IsClosed), End];
    }

    /** The core or the stream reported the end, or an error. */
    method EndInput()
      modifies this`readerPc, this`cells, this`ended, this`log
      ensures var (s, labels) := EndOfInput(old(State())); State() == s && log == old(log) + labels
    {
      hide GuestPump.Finalize;
      ghost var seen := log;
      log := log + [InputEnds];
      ghost var later := GuestPump.Finalize(State()).1;
      Finalize();
      assert (seen + [InputEnds]) + later == seen + ([InputEnds] + later);
    }

    /** The reader's own close, and what follows it. */
    method ReaderBeginsClose(closing: Encoded, thenBreak: bool)
      modifies this
      ensures var (s, labels) := ReaderCloses(cfg, old(State()), closing, thenBreak);
              State() == s && log == old(log) + labels
    {
      hide GuestPump.BeginClose, GuestPump.Finalize, StopLabels;
      ghost var logged := log;
      var flush := BeginClose(None, closing);
      ghost var stops := StopLabels(old(AsWire()));
      if flush {
        readerPc := ReaderFlush(WaitLock, thenBreak);
      } else if thenBreak {
        ghost var ends := GuestPump.Finalize(State()).1;
        Finalize();
        assert (logged + stops) + ends == logged + (stops + ends);
      } else {
        readerPc := Draining;
      }
    }

    method RecordPeerFrame(frame: Option<CloseInfo>)
      modifies this`cells
      ensures cells == PeerInfo(old(cells), frame)
    {
      if cells.peerFrame.None? {
        cells := cells.(peerFrame := Some(CloseInfoFrom(frame)));
      }
    }

    method OnData(m: Message, closing: Encoded)
      modifies this
      ensures var (s, labels) := HandleRead(cfg, old(State()), Data(m), closing);
              State() == s && log == old(log) + labels
    {
      hide GuestPump.Deliver, ReaderCloses;
      ghost var logged, l := log, GuestPump.Deliver(cfg, wireClosing, AsInbound(), m).1;
      Deliver(m);
      if overflowed && !wireClosing {
        ghost var later := ReaderCloses(cfg, State(), closing, false).1;
        ReaderBeginsClose(closing, false);
        assert (logged + [l]) + later == logged + ([l] + later);
      }
    }

    method OnPeerClose(frame: Option<CloseInfo>, reply: seq<Byte>)
      modifies this`cells, this`deadline, this`written, this`outbound, this`wireClosing, this`readerPc, this`log
      ensures State() == HandlePeerClose(cfg, old(State()), frame, reply).0
      ensures log == old(log) + HandlePeerClose(cfg, old(State()), frame, reply).1
    {
      hide Arm, CoreWrites, PeerInfo, WsState.AdvanceByRank, CloseInfoFrom;
      MarkPeerClosing(frame);
      QueueReply(reply);
      readerPc := ReaderFlush(WaitLock, false);
      log := log + [PeerFrame(CloseInfoFrom(frame)), Progress(IsClosing)];
    }

    method MarkPeerClosing(frame: Option<CloseInfo>)
      modifies this`cells
      ensures cells == PeerInfo(old(cells), frame).(lifecycle := old(cells).lifecycle.AdvanceByRank(IsClosing))
    {
      RecordPeerFrame(frame);
      cells := cells.(lifecycle := cells.lifecycle.AdvanceByRank(IsClosing));
    }

    /** The core queued its close reply in the same read. */
    method QueueReply(reply: seq<Byte>)
      modifies this`deadline, this`written, this`outbound, this`wireClosing
      ensures AsWire() == CoreWrites(Arm(cfg, now, old(AsWire())), reply).(wireClosing := true)
    {
      ArmDeadline();
      CoreWrite(reply);
      wireClosing := true;
    }

    method OnCapacityError(closing: Encoded)
      modifies this
      ensures var (s, labels) := HandleRead(cfg, old(State()), CapacityError, closing);
              State() == s && log == old(log) + labels
    {
      hide GuestPump.Deliver, ReaderCloses, GuestPump.Finalize;
      ghost var logged := log;
      overflowed := true;
      log := log + [LatchOverflow];
      ghost var later := ReaderCloses(cfg, State(), closing, true).1;
      ReaderBeginsClose(closing, true);
      assert (logged + [LatchOverflow]) + later == logged + ([LatchOverflow] + later);
    }

    /** One step of draining the core. */
    method OnRead(step: CoreRead, closing: Encoded)
      modifies this
      ensures var (s, labels) := HandleRead(cfg, old(State()), step, closing); State() == s && log == old(log) + labels
    {
      hide GuestPump.Deliver, ReaderCloses, EndOfInput, HandlePeerClose;
      match step
      case Data(m) => OnData(m, closing);
      case PeerClose(frame, reply) => OnPeerClose(frame, reply);
      case Control(reply) =>
        CoreWrite(reply);
        readerPc := ReaderFlush(WaitLock, false);
      case RawFrame =>
      case WouldBlock => readerPc := Selecting;
      case CapacityError => OnCapacityError(closing);
      case ReadEnd => EndInput();
    }

    /** A close frame that came with the end of the stream: it only registers. */
    method LastClose(frame: Option<CloseInfo>, reply: seq<Byte>)
      modifies this
      ensures var t := old(State()).(cells := PeerInfo(old(cells), frame), wire := CoreWrites(old(AsWire()), reply));
              var (s, labels) := Append([PeerFrame(CloseInfoFrom(frame))], GuestPump.Finalize(t));
              State() == s && log == old(log) + labels
    {
      hide GuestPump.Finalize, CoreWrites, PeerInfo;
      ghost var seen, l := log, PeerFrame(CloseInfoFrom(frame));
      RecordPeerFrame(frame);
      CoreWrite(reply);
      log := log + [l];
      ghost var later := GuestPump.Finalize(State()).1;
      Finalize();
      assert (seen + [l]) + later == seen + ([l] + later);
    }

    /** One read of the final drain: it stops at a close frame or the first error. */
    method DrainOne(read: CoreRead, ghost rest: seq<CoreRead>) returns (stop: bool)
      requires rest != [] && rest[0] == read
      modifies this
      ensures var out := LastDrain(cfg, old(State()), rest);
              if stop then State() == out.0 && log == old(log) + out.1
              else var next := LastDrain(cfg, State(), rest[1..]); next.0 == out.0 && log + next.1 == old(log) + out.1
    {
      hide LastDrain, GuestPump.Deliver, GuestPump.Finalize, EndOfInput, CoreWrites, PeerInfo;
      ghost var seen := log;
      DrainStep(cfg, State(), rest);
      match read
      case Data(m) =>
        ghost var l := GuestPump.Deliver(cfg, wireClosing, AsInbound(), m).1;
        Deliver(m);
        ghost var later := LastDrain(cfg, State(), rest[1..]).1;
        assert (seen + [l]) + later == seen + ([l] + later);
        return false;
      case PeerClose(frame, reply) =>
        LastClose(frame, reply);
        return true;
      case Control(reply) =>
        CoreWrite(reply);
        return false;
      case RawFrame => return false;
      case _ =>
        EndInput();
        return true;
    }

    /** The final drain after the stream ended. */
    method DrainRest(rest: seq<CoreRead>)
      modifies this
      ensures var (s, labels) := LastDrain(cfg, old(State()), rest); State() == s && log == old(log) + labels
    {
      hide LastDrain, EndOfInput;
      var i := 0;
      ghost var goal, logged := LastDrain(cfg, State(), rest), log;
      assert rest[0..] == rest;
      while i < |rest|
        invariant i <= |rest|
        invariant LastDrain(cfg, State(), rest[i..]).0 == goal.0
        invariant log + LastDrain(cfg, State(), rest[i..]).1 == logged + goal.1
        decreases |rest| - i
      {
        assert rest[i..][1..] == rest[i + 1..];
        var stop := DrainOne(rest[i], rest[i..]);
        if stop {
          return;
        }
        i := i + 1;
      }
      assert rest[i..] == [];
      DrainNothing(cfg, State());
      EndInput();
    }

    // ----- what follows a flush --------------------------------------------------------------------------

    method ResumeCommand(out: FlushOut)
      requires cmdPc.CmdSends? || cmdPc.CmdCloses?
      modifies this
      ensures var (s, labels) := ResumeCmd(old(State()), out); State() == s && log == old(log) + labels
    {
      match out
      case Still(f) => cmdPc := if cmdPc.CmdSends? then cmdPc.(flush := f) else CmdCloses(f);
      case Returned(result) =>
        if cmdPc.CmdSends? {
          var sending := cmdPc.sending;
          cmdPc := CmdIdle;
          Answer(sending, result);
        } else {
          cmdPc := CmdIdle;
        }
    }

    method ResumeReading(out: FlushOut)
      requires readerPc.ReaderFlush?
      modifies this
      ensures var (s, labels) := ResumeReader(old(State()), out); State() == s && log == old(log) + labels
    {
      match out
      case Still(f) => readerPc := readerPc.(flush := f);
      case Returned(_) =>
        if readerPc.thenBreak {
          Finalize();
        } else {
          readerPc := Draining;
        }
    }

    lemma NoDeathAtStart(w: Wire, who: Who)
      ensures DeathLabels(w, FlushNext(cfg, now, w, who, WaitLock, TakeLock).0) == []
    {
    }

    method OnFlush(who: Who, e: FlushEvent)
      requires FlushOf(State(), who).Some?
      requires FlushEnabled(now, cells.localClosed, AsWire(), FlushOf(State(), who).value, e)
      modifies this
      ensures var (s, labels) := HandleFlush(cfg, old(State()), who, e); State() == s && log == old(log) + labels
    {
      hide FlushNext, ResumeCmd, ResumeReader, DeathLabels;
      var out: FlushOut;
      ghost var seen, before := log, AsWire();
      if e.TakeLock? {
        NoDeathAtStart(before, who);
        out := StartFlush(who);
      } else {
        var flush := if who.ReaderTask? then readerPc.flush else cmdPc.flush;
        out := WriteTurn(who, flush.left, flush.bound, e);
      }
      ghost var died := DeathLabels(before, AsWire());
      assert log == seen + died;
      ghost var later := (if who.CmdTask? then ResumeCmd(State(), out) else ResumeReader(State(), out)).1;
      if who.CmdTask? {
        ResumeCommand(out);
      } else {
        ResumeReading(out);
      }
      assert (seen + died) + later == seen + (died + later);
    }

    // ----- the resource's methods ------------------------------------------------------------------------

    method Send(m: Message)
      modifies this`calls, this`log
      ensures var (s, labels) := SendStep(old(State()), m); State() == s && log == old(log) + labels
    {
      var id := calls.made;
      calls := calls.(made := id + 1);
      if cells.localClosed {
        log := log + [SendRefused(id)];
        return;
      }
      calls := calls.(cmds := calls.cmds + [SendCmd(id, m)], issued := calls.issued + [id]);
      log := log + [SendCalled(id)];
    }

    method Close(code: Option<nat>, reason: seq<Byte>) returns (ok: bool)
      modifies this`cells, this`calls, this`log
      ensures ok == CloseArgsOk(code, reason)
      ensures var (s, labels) := CloseStep(old(State()), code, reason); State() == s && log == old(log) + labels
    {
      if !CloseArgsOk(code, reason) {
        return false;
      }
      if cells.localClosed {
        return true;
      }
      var closing := cells.lifecycle.AdvanceByRank(IsClosing);
      cells := cells.(lifecycle := closing, localClosed := true, closedAt := Some(now));
      calls := calls.(cmds := calls.cmds + [CloseCmd(FrameFor(code, reason))]);
      log := log + [CloseCalled];
      return true;
    }

    /** Taking the head of the queue and releasing its budget. */
    method TakeMessage() returns (m: Message)
      requires queue != []
      modifies this`queue, this`budgetUsed
      ensures m == old(queue[0]) && AsInbound() == TakeHead(old(AsInbound()))
    {
      m := queue[0];
      queue := queue[1..];
      budgetUsed := if m.Size() <= budgetUsed then budgetUsed - m.Size() else 0;
    }

    /** A poll of a pending `receive`: the signals first, then the queue. */
    method PollReceive()
      requires calls.pendingReceives > 0
      modifies this
      ensures var (s, labels) := ReceiveStep(old(State())); State() == s && log == old(log) + labels
    {
      if !cells.claimed && !cells.localClosed && queue == [] && !ended {
        return;
      }
      calls := calls.(pendingReceives := calls.pendingReceives - 1);
      if cells.claimed {
        log := log + [ReceiveFailed(ReceivingViaStream)];
      } else if cells.localClosed {
        log := log + [ReceiveFailed(Closed)];
      } else if queue != [] {
        var m := TakeMessage();
        log := log + [Received(m)];
      } else {
        log := log + [ReceiveFailed(if overflowed then ReceiveBufferOverflow else Closed)];
      }
    }

    /** A turn of the feeder's loop. */
    method PollFeeder()
      modifies this
      ensures var (s, labels) := FeederStep(old(State())); State() == s && log == old(log) + labels
    {
      if cells.localClosed {
        cells := cells.(feeder := false);
        log := log + [StreamEnd];
      } else if queue != [] {
        var m := TakeMessage();
        log := log + [StreamItem(m)];
      } else if ended {
        cells := cells.(feeder := false);
        log := log + [StreamEnd];
      }
    }

    method Claim()
      modifies this`cells, this`calls, this`log
      ensures var (s, labels) := ClaimStep(old(State())); State() == s && log == old(log) + labels
    {
      if cells.localClosed {
        log := log + [ClaimFailed(Closed)];
        return;
      }
      var claimed := cells.claimed;
      cells := cells.(claimed := true);
      if claimed {
        log := log + [ClaimFailed(ReceivingViaStream)];
        return;
      }
      calls := calls.(cmds := calls.cmds + [ClaimCmd]);
      log := log + [ClaimOk];
    }

    // ----- the schedule ----------------------------------------------------------------------------------

    predicate IsCall(e: Event) {
      e.SendCall? || e.CloseCall? || e.ReceiveCall? || e.ReceivePoll? || e.ClaimCall? || e.FeederPoll? || e.AwaitClosed?
      || e.ReadState? || e.Tick?
    }

    method Turn(e: Event)
      requires Enabled(State(), e) && !IsCall(e)
      modifies this
      ensures var (s, labels) := StepOf(cfg, old(State()), e); State() == s && log == old(log) + labels
    {
      hide HandleCmd, HandleRead, HandleFlush, LastDrain, GuestPump.Finalize, HandleLateCmd;
      if e.TakeCmd? {
        OnCommand(e.encoded);
      } else if e.SeePumpDone? {
        cmdPc := CmdLate;
      } else if e.TakeLateCmd? {
        OnLateCommand();
      } else if e.Read? {
        OnRead(e.step, e.closing);
      } else if e.DeadlineExpires? {
        Finalize();
      } else if e.FeedChunk? {
        readerPc := Draining;
      } else if e.FeedEnd? {
        DrainRest(e.rest);
      } else {
        OnFlush(e.who, e.flush);
      }
    }

    method Call(e: Event)
      requires Enabled(State(), e) && IsCall(e)
      modifies this
      ensures var (s, labels) := StepOf(cfg, old(State()), e); State() == s && log == old(log) + labels
    {
      hide SendStep, CloseStep, ReceiveStep, FeederStep, ClaimStep;
      if e.SendCall? {
        Send(e.message);
      } else if e.CloseCall? {
        var ok := Close(e.code, e.reason);
      } else if e.ReceivePoll? {
        PollReceive();
      } else if e.ClaimCall? {
        Claim();
      } else if e.FeederPoll? {
        PollFeeder();
      } else {
        Report(e);
      }
    }

    /** Calls that only report or register, and time. */
    method Report(e: Event)
      requires e.ReceiveCall? || e.AwaitClosed? || e.ReadState? || e.Tick?
      requires Enabled(State(), e)
      modifies this`calls, this`now, this`log
      ensures var (s, labels) := StepOf(cfg, old(State()), e); State() == s && log == old(log) + labels
    {
      match e
      case ReceiveCall =>
        if cells.localClosed {
          log := log + [ReceiveFailed(Closed)];
        } else if cells.claimed {
          log := log + [ReceiveFailed(ReceivingViaStream)];
        } else {
          calls := calls.(pendingReceives := calls.pendingReceives + 1);
        }
      case AwaitClosed =>
        if cells.closeInfo.Some? {
          log := log + [WaitClosed(cells.closeInfo.value)];
        }
      case ReadState => log := log + [StateSeen(cells.lifecycle)];
      case Tick => now := now + 1;
    }

    /** For every interleaving of the two tasks, the feeder and the guest, the object is where the machine is, and
        has shown what the machine shows. From the start, what it has shown is a run of the contract that delivers
        what the core decoded. */
    method Run(schedule: seq<Event>)
      requires CanRun(cfg, State(), schedule)
      modifies this
      ensures State() == GuestPump.Run(cfg, old(State()), schedule)
      ensures log == old(log) + Trace(cfg, old(State()), schedule)
      ensures old(State()) == Start && old(log) == [] ==> Delivers(cfg.limit, log, SentBy(schedule))
    {
      hide StepOf, Enabled;
      var i := 0;
      ghost var start, seen := State(), log;
      while i < |schedule|
        invariant i <= |schedule| && CanRun(cfg, State(), schedule[i..])
        invariant GuestPump.Run(cfg, State(), schedule[i..]) == GuestPump.Run(cfg, start, schedule)
        invariant log + Trace(cfg, State(), schedule[i..]) == seen + Trace(cfg, start, schedule)
      {
        var e := schedule[i];
        assert schedule[i..][0] == e && schedule[i..][1..] == schedule[i + 1..];
        ghost var before, shown := State(), log;
        if IsCall(e) {
          Call(e);
        } else {
          Turn(e);
        }
        ghost var labels := StepOf(cfg, before, e).1;
        ghost var later := Trace(cfg, State(), schedule[i + 1..]);
        assert shown + (labels + later) == (shown + labels) + later;
        i := i + 1;
      }
      assert schedule[i..] == [];
      assert log + [] == log;
      if start == Start && seen == [] {
        DeliversWhatTheCoreRead(cfg, schedule);
        assert log == Trace(cfg, Start, schedule);
      }
      hide Delivers, SentBy;
    }
  }
}
