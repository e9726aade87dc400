/** The reference pump in its own form: the `Pump` object of rust/wasmtime/src/websocket.rs with its flags, its
    helper methods and its run loop, each shown to be the step machine's, so that everything proved of the
    machine's runs holds of the object's. An await is a return to the schedule, at the program counter `pc`. */
module ReferenceTask {
  import opened Types
  import opened Contract
  import opened PeerInput
  import opened ReferencePump
  import opened ReferenceDelivery

  /** What the pump shares with the guest, the readers and the peer. */
  class Connection {
    var now: nat
    var channel: Channel
    var inbox: seq<Read>
    var inbound: Inbound
    var guest: Guest

    constructor ()
      ensures now == 0 && channel == Start.channel && inbox == [] && inbound == Start.inbound && guest == Start.guest
    {
      now, channel, inbox, inbound, guest := 0, Start.channel, [], Start.inbound, Start.guest;
    }
  }

  class Pump {
    const cfg: Config
    const conn: Connection
    var wireClosing: bool
    var writeDead: bool
    var peerFrame: Option<CloseInfo>
    var deadline: Option<nat>
    var cmdsDone: bool
    var pc: Pc
    var wire: seq<Frame>
    var acks: seq<Ack>
    var lifecycle: WsState
    var closeInfo: Option<Option<CloseInfo>>
    ghost var log: seq<Label>

    ghost function AsTask(): Task
      reads this
    {
      Task(pc, wireClosing, writeDead, peerFrame, deadline, cmdsDone, wire, acks, lifecycle, closeInfo)
    }

    ghost function State(): ReferencePump.Pump
      reads this, conn
    {
      ReferencePump.Pump(conn.now, AsTask(), conn.channel, conn.inbox, conn.inbound, conn.guest)
    }

    constructor (cfg: Config)
      ensures fresh(conn) && this.cfg == cfg && State() == Start && log == []
    {
      this.cfg := cfg;
      var shared := new Connection();
      conn := shared;
      wireClosing, writeDead, peerFrame, deadline, cmdsDone := false, false, None, None, false;
      pc, wire, acks, lifecycle, closeInfo := AtSelect, [], [], IsOpen, None;
      log := [];
    }

    /** Arm the closing deadline (idempotent). */
    method ArmDeadline()
      modifies this`deadline
      ensures AsTask() == Arm(cfg, conn.now, old(AsTask()))
    {
      if deadline.None? {
        deadline := Some(conn.now + cfg.closeTimeout);
      }
    }

    /** What follows a write. */
    method Resume(job: Job, result: SendResult)
      modifies this`pc, this`acks, this`log
      ensures AsTask() == AfterWrite(old(AsTask()), job, result).0
      ensures log == old(log) + AfterWrite(old(AsTask()), job, result).1
    {
      match job
      case DataJob(id) =>
        acks := acks + [Ack(id, result)];
        log := log + [SendDone(id, result)];
        pc := AtSelect;
      case CloseJob(thenBreak) => pc := if thenBreak then Finalizing(0) else AtSelect;
      case FlushJob => pc := AtSelect;
    }

    /** The start of a bounded write; its end is `EndBoundedWrite`. */
    method StartBoundedWrite(job: Job, frames: seq<Frame>)
      modifies this`pc, this`acks, this`wire, this`log
      ensures AsTask() == BoundedWrite(old(AsTask()), job, frames).0
      ensures log == old(log) + BoundedWrite(old(AsTask()), job, frames).1
    {
      if writeDead {
        Resume(job, Failed(Closed));
        return;
      }
      wire := wire + frames;
      pc := Writing(job, deadline);
    }

    method EndBoundedWrite(result: SendResult)
      requires pc.Writing?
      modifies this`pc, this`acks, this`writeDead, this`deadline, this`log
      ensures AsTask() == EndWrite(cfg, conn.now, old(AsTask()), result).0
      ensures log == old(log) + EndWrite(cfg, conn.now, old(AsTask()), result).1
    {
      if result.Failed? {
        writeDead := true;
        log := log + [WriteDied];
        ArmDeadline();
      }
      Resume(pc.job, result);
    }

    method BeginClose(frame: Option<CloseInfo>, thenBreak: bool)
      modifies this
      ensures AsTask() == ReferencePump.BeginClose(cfg, conn.now, old(AsTask()), frame, thenBreak).0
      ensures log == old(log) + ReferencePump.BeginClose(cfg, conn.now, old(AsTask()), frame, thenBreak).1
    {
      if wireClosing {
        Resume(CloseJob(thenBreak), Sent);
        return;
      }
      wireClosing := true;
      lifecycle := lifecycle.Advance(IsClosing);
      log := log + [Stop, Progress(IsClosing)];
      ArmDeadline();
      StartBoundedWrite(CloseJob(thenBreak), [CloseFrame(frame)]);
    }

    /** Queue one inbound data message, enforcing the budget. */
    method Deliver(m: Message)
      modifies this, conn`inbound
      ensures var (s, labels) := ReferencePump.Deliver(cfg, old(State()), m); State() == s && log == old(log) + labels
    {
      hide ReferencePump.BeginClose;
      if wireClosing {
        log := log + [Drop(m)];
        return;
      }
      var q := conn.inbound;
      if !q.overflowed && q.buffered + m.Size() <= cfg.limit {
        conn.inbound := q.(buffered := q.buffered + m.Size(), queue := q.queue + [m]);
        log := log + [Accept(m)];
        return;
      }
      conn.inbound := q.(overflowed := true);
      log := log + [Overflow(m)];
      BeginClose(None, false);
    }

    /** The command arm of the select. */
    method OnCommand()
      requires pc.AtSelect? && CmdReady(State())
      modifies this, conn`channel
      ensures var (s, labels) := HandleCmd(cfg, old(State())); State() == s && log == old(log) + labels
    {
      hide ReferencePump.BeginClose;
      if conn.channel.cmds == [] {
        cmdsDone := true;
        BeginClose(None, false);
        return;
      }
      var cmd := conn.channel.cmds[0];
      conn.channel := conn.channel.(cmds := conn.channel.cmds[1..]);
      match cmd
      case SendCmd(id, m) =>
        if wireClosing || writeDead {
          Resume(DataJob(id), Failed(Closed));
        } else {
          StartBoundedWrite(DataJob(id), [DataFrame(id, m)]);
        }
      case CloseCmd(frame) => BeginClose(frame, false);
    }

    /** The peer's close frame. */
    method OnPeerClose(frame: Option<CloseInfo>)
      modifies this
      ensures AsTask() == PeerCloses(cfg, conn.now, old(AsTask()), frame).0
      ensures log == old(log) + PeerCloses(cfg, conn.now, old(AsTask()), frame).1
    {
      if peerFrame.None? {
        peerFrame := Some(CloseInfoFrom(frame));
      }
      lifecycle := lifecycle.Advance(IsClosing);
      log := log + [PeerFrame(CloseInfoFrom(frame)), Progress(IsClosing)];
      ArmDeadline();
      if !wireClosing {
        wireClosing := true;
        // The transport queued the reply by itself; the flush writes it.
        StartBoundedWrite(FlushJob, [CloseFrame(frame)]);
      }
    }

    /** The read arm of the select. */
    method OnRead()
      requires pc.AtSelect? && conn.inbox != []
      modifies this, conn`inbox, conn`inbound
      ensures var (s, labels) := HandleRead(cfg, old(State())); State() == s && log == old(log) + labels
    {
      hide ReferencePump.BeginClose, PeerCloses, ReferencePump.Deliver;
      var read := conn.inbox[0];
      conn.inbox := conn.inbox[1..];
      match read
      case Data(m) => Deliver(m);
      case PeerClose(frame) => OnPeerClose(frame);
      case Ping => StartBoundedWrite(FlushJob, []);
      case OtherFrame =>
      case CapacityError =>
        conn.inbound := conn.inbound.(overflowed := true);
        log := log + [LatchOverflow];
        BeginClose(None, true);
      case ReadEnd =>
        log := log + [InputEnds];
        pc := Finalizing(0);
    }

    /** The statements after the loop, one a call; the drain of queued commands, one command a call. */
    method FinalizeTurn()
      requires pc.Finalizing?
      modifies this, conn`channel, conn`inbound
      ensures var (s, labels) := Finalize(old(State())); State() == s && log == old(log) + labels
    {
      var stage := pc.stage;
      if stage == 3 && conn.channel.cmds != [] {
        var cmd := conn.channel.cmds[0];
        conn.channel := conn.channel.(cmds := conn.channel.cmds[1..]);
        if cmd.SendCmd? {
          acks := acks + [Ack(cmd.id, Failed(Closed))];
          log := log + [SendDone(cmd.id, Failed(Closed))];
        }
        return;
      }
      if stage == 1 {
        conn.inbound := conn.inbound.(ended := true);
      } else if stage == 2 {
        conn.channel := conn.channel.(closed := true);
      }
      FinalizeCells(stage);
    }

    method FinalizeCells(stage: nat)
      modifies this`pc, this`closeInfo, this`lifecycle, this`log
      ensures AsTask() == FinalizeTask(old(AsTask()), stage).0
      ensures log == old(log) + FinalizeTask(old(AsTask()), stage).1
    {
      pc := if stage < 6 then Finalizing(stage + 1) else Done;
      if stage == 0 {
        closeInfo := Some(peerFrame);
        log := log + [Settle];
      } else if stage == 1 {
        log := log + [End];
      } else if stage == 4 {
        lifecycle := lifecycle.Advance(IsClosing);
        log := log + [Progress(IsClosing)];
      } else if stage == 5 {
        lifecycle := lifecycle.Advance(IsClosed);
        log := log + [Progress(IsClosed)];
      }
    }

    /** One turn of the task: the arm of the select, the end of a write, or a finalizing statement. */
    method Turn(e: Event)
      requires IsPump(e) && Enabled(State(), e)
      modifies this, conn
      ensures var (s, labels) := StepOf(cfg, old(State()), e); State() == s && log == old(log) + labels
    {
      hide HandleCmd, HandleRead, EndWrite, Finalize;
      match e
      case TakeCmd => OnCommand();
      case ReadSocket => OnRead();
      case DeadlineFires => pc := Finalizing(0);
      case ArmMidWrite =>
        ArmDeadline();
        pc := Writing(pc.job, deadline);
      case WriteEnds(outcome) => EndBoundedWrite(outcome);
      case WriteTimesOut => EndBoundedWrite(Failed(Closed));
      case FinalizeStep => FinalizeTurn();
    }

    // ----- the resource's methods and the readers --------------------------------------------------------

    method Send(m: Message)
      modifies conn`guest, conn`channel, this`log
      ensures var (s, labels) := SendStep(old(State()), m); State() == s && log == old(log) + labels
    {
      var id := conn.guest.calls;
      conn.guest := conn.guest.(calls := id + 1);
      if conn.guest.localClosed || conn.channel.closed {
        log := log + [SendRefused(id)];
        return;
      }
      conn.guest := conn.guest.(issued := conn.guest.issued + [id]);
      conn.channel := conn.channel.(cmds := conn.channel.cmds + [SendCmd(id, m)]);
      log := log + [SendCalled(id)];
    }

    /** `close`, up to the enqueue of its command. */
    method Close(code: Option<nat>, reason: seq<Byte>) returns (ok: bool)
      modifies conn`guest, conn`channel, this`lifecycle, this`log
      ensures ok == CloseArgsOk(code, reason)
      ensures var (s, labels) := CloseStep(old(State()), code, reason); State() == s && log == old(log) + labels
    {
      if !CloseArgsOk(code, reason) {
        return false;
      }
      if conn.guest.localClosed {
        return true;
      }
      lifecycle := lifecycle.Advance(IsClosing);
      conn.guest := conn.guest.(localClosed := true, closedAt := Some(conn.now));
      conn.channel := conn.channel.(toPost := Some(CloseCmd(FrameFor(code, reason))));
      log := log + [CloseCalled];
      return true;
    }

    /** A `receive` call: the two checks, then the wait. */
    method Receive()
      modifies conn`guest, this`log
      ensures var (s, labels) := OutsideStep(old(State()), ReceiveCall); State() == s && log == old(log) + labels
    {
      if conn.guest.localClosed {
        log := log + [ReceiveFailed(Closed)];
      } else if conn.guest.claimed {
        log := log + [ReceiveFailed(ReceivingViaStream)];
      } else {
        conn.guest := conn.guest.(pendingReceives := conn.guest.pendingReceives + 1);
      }
    }

    /** A poll of a pending `receive`: the signals first, then the queue. */
    method PollReceive()
      requires conn.guest.pendingReceives > 0
      modifies conn`guest, conn`inbound, this`log
      ensures var (s, labels) := ReceiveStep(old(State())); State() == s && log == old(log) + labels
    {
      var waiting := conn.guest;
      conn.guest := conn.guest.(pendingReceives := conn.guest.pendingReceives - 1);
      if conn.guest.claimed {
        log := log + [ReceiveFailed(ReceivingViaStream)];
      } else if conn.guest.localClosed {
        log := log + [ReceiveFailed(Closed)];
      } else if conn.inbound.queue != [] {
        log := log + [Received(conn.inbound.queue[0])];
        conn.inbound := TakeHead(conn.inbound);
      } else if conn.inbound.ended {
        log := log + [ReceiveFailed(if conn.inbound.overflowed then ReceiveBufferOverflow else Closed)];
      } else {
        conn.guest := waiting;
      }
    }

    /** `receive-via-stream`: only the first claim takes the sender. */
    method Claim()
      modifies conn`guest, this`log
      ensures var (s, labels) := OutsideStep(old(State()), ClaimCall); State() == s && log == old(log) + labels
    {
      if conn.guest.localClosed {
        log := log + [ClaimFailed(Closed)];
      } else if conn.guest.claimed {
        log := log + [ClaimFailed(ReceivingViaStream)];
      } else {
        conn.guest := conn.guest.(claimed := true);
        log := log + [ClaimOk];
      }
    }

    /** A poll of the claimed stream. */
    method PollStream()
      modifies conn`inbound, this`log
      ensures var (s, labels) := StreamStep(old(State())); State() == s && log == old(log) + labels
    {
      if conn.guest.localClosed {
        log := log + [StreamEnd];
      } else if conn.inbound.queue != [] {
        log := log + [StreamItem(conn.inbound.queue[0])];
        conn.inbound := TakeHead(conn.inbound);
      } else if conn.inbound.ended {
        log := log + [StreamEnd];
      }
    }

    /** The reader that took a message gives its bytes back. */
    method Release()
      requires conn.inbound.unreleased.Some?
      modifies conn`inbound
      ensures var (s, labels) := OutsideStep(old(State()), ReleaseBytes); State() == s && labels == []
    {
      var n := conn.inbound.unreleased.value;
      var q := conn.inbound;
      conn.inbound := q.(unreleased := None, buffered := if n <= q.buffered then q.buffered - n else 0);
    }

    /** What the guest, the readers and the peer do between two turns. */
    method Outside(e: Event)
      requires !IsPump(e) && Enabled(State(), e)
      modifies conn, this`lifecycle, this`log
      ensures var (s, labels) := StepOf(cfg, old(State()), e); State() == s && log == old(log) + labels
    {
      hide SendStep, CloseStep, ReceiveStep, StreamStep;
      if e.SendCall? {
        Send(e.message);
      } else if e.CloseCall? {
        var ok := Close(e.code, e.reason);
      } else if e.ReceiveCall? {
        Receive();
      } else if e.ReceivePoll? {
        PollReceive();
      } else if e.ClaimCall? {
        Claim();
      } else if e.StreamPoll? {
        PollStream();
      } else if e.ReleaseBytes? {
        Release();
      } else {
        World(e);
      }
    }

    /** The rest: the enqueue that ends `close`, drops, reports, arrivals, and time. */
    method World(e: Event)
      requires e.PostClose? || e.DropSenders? || e.AwaitClosed? || e.ReadState? || e.Arrive? || e.Tick?
      requires Enabled(State(), e)
      modifies conn`channel, conn`inbox, conn`now, this`log
      ensures var (s, labels) := OutsideStep(old(State()), e); State() == s && log == old(log) + labels
    {
      match e
      case PostClose =>
        var cmd := conn.channel.toPost.value;
        conn.channel := conn.channel.(toPost := None);
        if !conn.channel.closed {
          conn.channel := conn.channel.(cmds := conn.channel.cmds + [cmd]);
        }
      case DropSenders => conn.channel := conn.channel.(sendersGone := true);
      case AwaitClosed =>
        if closeInfo.Some? {
          log := log + [WaitClosed(closeInfo.value)];
        }
      case ReadState => log := log + [StateSeen(lifecycle)];
      case Arrive(read) => conn.inbox := conn.inbox + [read];
      case Tick => conn.now := conn.now + 1;
    }

    /** The run loop over a schedule: for every interleaving of the pump's turns with the outside, the object is
        where the machine is, and has shown what the machine shows. From the start, what it has shown is a run of
        the contract that delivers what the peer sent. */
    method Run(schedule: seq<Event>)
      requires CanRun(cfg, State(), schedule)
      modifies this, conn
      ensures State() == ReferencePump.Run(cfg, old(State()), schedule)
      ensures log == old(log) + Trace(cfg, old(State()), schedule)
      ensures old(State()) == Start && old(log) == [] ==> Delivers(cfg.limit, log, InputsIn(SentBy(schedule)))
    {
      hide StepOf, Enabled;
      var i := 0;
      ghost var start, seen := State(), log;
      while i < |schedule|
        invariant i <= |schedule| && CanRun(cfg, State(), schedule[i..])
        invariant ReferencePump.Run(cfg, State(), schedule[i..]) == ReferencePump.Run(cfg, start, schedule)
        invariant log + Trace(cfg, State(), schedule[i..]) == seen + Trace(cfg, start, schedule)
      {
        var e := schedule[i];
        assert schedule[i..][0] == e && schedule[i..][1..] == schedule[i + 1..];
        ghost var before, shown := State(), log;
        if IsPump(e) {
          Turn(e);
        } else {
          Outside(e);
        }
        ghost var labels := StepOf(cfg, before, e).1;
        ghost var later := Trace(cfg, State(), schedule[i + 1..]);
        assert shown + (labels + later) == (shown + labels) + later;
        i := i + 1;
      }
      assert schedule[i..] == [];
      assert log + [] == log;
      if start == Start && seen == [] {
        DeliversWhatThePeerSent(cfg, schedule);
        assert log == Trace(cfg, Start, schedule);
      }
      hide Delivers, SentBy, InputsIn;
    }
  }
}
