/** The `Websocket` class of js/polyengine/websocket.ts as an object over its queue object: every method is
    the event machine's step, so what is proved of the machine's runs holds of the object's. */
module JsWebsocket {
  import opened Types
  import opened Contract
  import opened PeerInput
  import opened JsQueue
  import opened JsHost
  import opened JsDelivery

  class Websocket {
    const closeTimeout: nat
    const incoming: IncomingQueue
    var now: nat
    var readyState: Ready
    var localClosed: bool
    var streamClaimed: bool
    var closeSettled: bool
    var closeInfo: Option<CloseInfo>
    var closeWaiters: nat
    var closeDeadline: Option<nat>
    var replacedDeadlines: seq<nat>
    var receives: nat
    var sends: nat
    var polling: set<nat>
    var given: seq<Message>
    /** What the platform socket was told. */
    var closes: seq<(Option<nat>, seq<Byte>)>
    var sent: seq<Passed>
    ghost var began: Option<nat>
    ghost var log: seq<Label>

    ghost function Cfg(): Config { Config(incoming.limit, closeTimeout) }

    ghost function Model(): Host
      reads this, incoming
    {
      Host(now, readyState, incoming.Contents(),
           Flags(localClosed, streamClaimed, closeSettled, closeInfo),
           Timers(closeDeadline, replacedDeadlines, began),
           Calls(receives, sends, polling, closeWaiters, given),
           Socket(closes, sent))
    }

    ghost predicate Valid()
      reads this, incoming
    {
      incoming.Valid()
    }

    constructor (limit: nat, closeTimeout: nat)
      ensures fresh(incoming) && Cfg() == Config(limit, closeTimeout)
      ensures Model() == Start && log == [] && Valid()
    {
      this.closeTimeout := closeTimeout;
      var queue := new IncomingQueue(limit);
      incoming := queue;
      now, readyState := 0, OPEN;
      localClosed, streamClaimed, closeSettled, closeInfo := false, false, false, None;
      closeWaiters, closeDeadline, replacedDeadlines := 0, None, [];
      receives, sends, polling, given := 0, 0, {}, [];
      closes, sent := [], [];
      began, log := None, [];
    }

    /** Run a queue operation's settled promises past the log. */
    ghost method Record(before: seq<Answer>)
      requires before <= incoming.answers
      modifies this`log
      ensures log == old(log) + LabelsOf(incoming.answers[|before|..])
    {
      log := log + LabelsOf(incoming.answers[|before|..]);
    }

    /** The `message` listener, with the overflow's close. */
    method OnMessageEvent(m: Message)
      requires Valid()
      modifies this, incoming
      ensures Valid()
      ensures var (h, labels) := JsHost.OnMessageEvent(Cfg(), old(Model()), m); Model() == h && log == old(log) + labels
    {
      ghost var before := incoming.answers;
      ghost var discarded := incoming.overflowed;
      var overflow := incoming.HandleMessage(m);
      if overflow {
        CloseSocket(None, []);
        TransportClosing();
        log := log + [Overflow(m), Progress(IsClosing)];
      } else if discarded {
        log := log + [Drop(m)];
      } else {
        log := log + [Accept(m)];
        Record(before);
      }
      hide OnMessage, LabelsOf;
    }

    /** `ws.close(code, reason)`. */
    method CloseSocket(code: Option<nat>, reason: seq<Byte>)
      modifies this`readyState, this`closes
      ensures readyState == JsHost.CloseSocket(old(readyState)) && closes == old(closes) + [(code, reason)]
    {
      closes := closes + [(code, reason)];
      if readyState.OPEN? {
        readyState := CLOSING;
      }
    }

    method TransportClosing()
      modifies this`closeDeadline, this`began
      ensures Model() == JsHost.TransportClosing(Cfg(), old(Model()))
    {
      if !closeSettled && closeDeadline.None? {
        closeDeadline := Some(now + closeTimeout);
      }
      began := if began.None? then Some(now) else began;
    }

    method Receive()
      requires Valid()
      modifies this, incoming
      ensures Valid()
      ensures var (h, labels) := OnReceive(old(Model())); Model() == h && log == old(log) + labels
    {
      if localClosed {
        log := log + [ReceiveFailed(Closed)];
        return;
      }
      if streamClaimed {
        log := log + [ReceiveFailed(ReceivingViaStream)];
        return;
      }
      ghost var before := incoming.answers;
      incoming.Next(RecvWaiter(receives));
      receives := receives + 1;
      Record(before);
      hide NextMessage, LabelsOf;
    }

    method ReceiveViaStream()
      requires Valid()
      modifies this, incoming
      ensures Valid()
      ensures var (h, labels) := OnClaim(old(Model())); Model() == h && log == old(log) + labels
    {
      if localClosed {
        log := log + [ClaimFailed(Closed)];
        return;
      }
      if streamClaimed {
        log := log + [ClaimFailed(ReceivingViaStream)];
        return;
      }
      streamClaimed := true;
      ghost var before := incoming.answers;
      incoming.RejectPending(ReceivingViaStream);
      log := log + [ClaimOk];
      Record(before);
      hide RejectAll, LabelsOf;
    }

    /** The claimed stream's `pull`. */
    method Pull()
      requires Valid() && streamClaimed
      modifies this, incoming
      ensures Valid()
      ensures var (h, labels) := OnPull(old(Model())); Model() == h && log == old(log) + labels
    {
      ghost var before := incoming.answers;
      incoming.Next(PullWaiter);
      Record(before);
      hide NextMessage, LabelsOf;
    }

    /** The queue discards its backlog, its rejections past the log. */
    method DiscardIncoming()
      requires Valid()
      modifies incoming, this`log
      ensures Valid()
      ensures incoming.Contents() == Discard(old(incoming.Contents())).0
      ensures log == old(log) + LabelsOf(Discard(old(incoming.Contents())).1)
    {
      ghost var before := incoming.answers;
      incoming.DiscardBacklog();
      Record(before);
      hide LabelsOf, Discard;
    }

    /** The queue ends, its rejections past the log. */
    method EndIncoming()
      requires Valid()
      modifies incoming, this`log
      ensures Valid()
      ensures incoming.Contents() == JsQueue.End(old(incoming.Contents())).0
      ensures log == old(log) + LabelsOf(JsQueue.End(old(incoming.Contents())).1)
    {
      ghost var before := incoming.answers;
      incoming.Finish();
      Record(before);
      hide LabelsOf, JsQueue.End;
    }

    /** The new close timer: one the overflow armed keeps running, the field forgets it without clearing it. */
    method ArmDeadline()
      modifies this`closeDeadline, this`replacedDeadlines, this`began
      ensures Timers(closeDeadline, replacedDeadlines, began) == ArmForClose(Cfg(), old(Model()))
    {
      replacedDeadlines := if closeDeadline.Some? then replacedDeadlines + [closeDeadline.value] else replacedDeadlines;
      closeDeadline := Some(now + closeTimeout);
      began := if began.None? then Some(now) else began;
    }

    method Close(code: Option<nat>, reason: seq<Byte>) returns (ok: bool)
      requires Valid()
      modifies this, incoming
      ensures Valid()
      ensures ok == CloseArgsOk(code, reason)
      ensures var (h, labels) := OnClose(Cfg(), old(Model()), code, reason); Model() == h && log == old(log) + labels
    {
      hide QueueInv, Discard, LabelsOf;
      ok := CloseArgsOk(code, reason);
      if ok && !localClosed {
        CloseLocally(code, reason);
      }
    }

    method CloseLocally(code: Option<nat>, reason: seq<Byte>)
      requires Valid()
      modifies incoming, this`localClosed, this`closeDeadline, this`replacedDeadlines, this`began, this`readyState
      modifies this`closes, this`log
      ensures Valid()
      ensures localClosed && incoming.Contents() == Discard(old(incoming.Contents())).0
      ensures Timers(closeDeadline, replacedDeadlines, began) == ArmForClose(Cfg(), old(Model()))
      ensures readyState == JsHost.CloseSocket(old(readyState)) && closes == old(closes) + [(code, reason)]
      ensures log == old(log) + ([CloseCalled] + LabelsOf(Discard(old(incoming.Contents())).1) + [Stop])
    {
      hide QueueInv, Discard, LabelsOf;
      localClosed := true;
      log := log + [CloseCalled];
      DiscardIncoming();
      ArmDeadline();
      CloseSocket(code, reason);
      log := log + [Stop];
    }

    method SettleClosed(frame: Option<CloseInfo>)
      requires Valid()
      modifies this, incoming
      ensures Valid()
      ensures Model() == JsHost.SettleClosed(old(Model()), frame).0
      ensures log == old(log) + JsHost.SettleClosed(old(Model()), frame).1
    {
      hide QueueInv, JsQueue.End, LabelsOf, Repeat;
      if closeSettled {
        return;
      }
      SettleQueue();
      SettleWaiters(frame);
    }

    method SettleQueue()
      requires Valid()
      modifies this`closeSettled, this`closeDeadline, this`log, incoming
      ensures Valid()
      ensures closeSettled && closeDeadline == None && incoming.Contents() == JsQueue.End(old(incoming.Contents())).0
      ensures log == old(log) + ([End] + LabelsOf(JsQueue.End(old(incoming.Contents())).1))
    {
      hide QueueInv, JsQueue.End, LabelsOf;
      closeSettled := true;
      closeDeadline := None;
      log := log + [End];
      EndIncoming();
    }

    /** The outcome reaches everybody who waits for it. */
    method SettleWaiters(frame: Option<CloseInfo>)
      modifies this`closeInfo, this`closeWaiters, this`log
      ensures closeInfo == frame && closeWaiters == 0
      ensures log == old(log) + (if frame.Some? then [PeerFrame(frame.value)] else [])
                              + [Settle, Progress(IsClosed)] + Repeat(old(closeWaiters), WaitClosed(frame))
    {
      hide Repeat;
      closeInfo := frame;
      log := log + if frame.Some? then [PeerFrame(frame.value)] else [];
      log := log + [Settle, Progress(IsClosed)];
      log := log + Repeat(closeWaiters, WaitClosed(frame));
      closeWaiters := 0;
    }

    /** The `close` event. */
    method OnCloseEvent(status: nat, reason: seq<Byte>)
      requires Valid() && !readyState.CLOSED?
      modifies this, incoming
      ensures Valid()
      ensures var (h, labels) := StepOf(Cfg(), old(Model()), CloseEvent(status, reason));
              Model() == h && log == old(log) + labels
    {
      hide JsHost.SettleClosed;
      readyState := CLOSED;
      if closeSettled {
        return;
      }
      ghost var seen := log;
      log := log + [InputEnds];
      ghost var later := JsHost.SettleClosed(Model(), FrameOf(status, reason)).1;
      SettleClosed(FrameOf(status, reason));
      assert (seen + [InputEnds]) + later == seen + ([InputEnds] + later);
    }

    /** The field's timer fires. */
    method OnDeadline()
      requires Valid() && closeDeadline.Some? && closeDeadline.value <= now
      modifies this, incoming
      ensures Valid()
      ensures var (h, labels) := StepOf(Cfg(), old(Model()), SlotFires); Model() == h && log == old(log) + labels
    {
      closeDeadline := None;
      SettleClosed(None);
      hide JsHost.SettleClosed;
    }

    /** The timer of an overflow that a later `close` replaced fires. */
    method OnReplacedDeadline(i: nat)
      requires Valid() && i < |replacedDeadlines| && replacedDeadlines[i] <= now
      modifies this, incoming
      ensures Valid()
      ensures var (h, labels) := StepOf(Cfg(), old(Model()), StrayFires(i)); Model() == h && log == old(log) + labels
    {
      replacedDeadlines := Without(replacedDeadlines, i);
      SettleClosed(None);
      hide JsHost.SettleClosed;
    }

    method WaitForClose() returns (settled: bool)
      modifies this
      ensures var (h, labels) := StepOf(Cfg(), old(Model()), AwaitClosed);
              Model() == h && log == old(log) + labels && settled == closeSettled
    {
      if closeSettled {
        log := log + [WaitClosed(closeInfo)];
        return true;
      }
      closeWaiters := closeWaiters + 1;
      return false;
    }

    method State() returns (state: WsState)
      ensures state == CurrentState(Model())
    {
      if closeSettled {
        return IsClosed;
      }
      if localClosed {
        return IsClosing;
      }
      match readyState
      case CLOSING => return IsClosing;
      case CLOSED => return IsClosed;
      case OPEN => return IsOpen;
    }

    /** The first turn of `send`'s loop. */
    method Send(m: Message, drained: bool, throws: bool)
      modifies this`sends, this`given, this`polling, this`sent, this`log
      ensures var (h, labels) := OnSend(old(Model()), m, drained, throws); Model() == h && log == old(log) + labels
    {
      var id := sends;
      sends := sends + 1;
      given := given + [m];
      if localClosed || !readyState.OPEN? {
        log := log + [SendRefused(id)];
      } else if drained {
        HandOver(id, m, throws);
        log := log + [SendCalled(id), SendDone(id, if throws then Failed(Other) else Sent)];
      } else {
        polling := polling + {id};
        log := log + [SendCalled(id)];
      }
    }

    /** `ws.send(message)`. */
    method HandOver(id: nat, m: Message, throws: bool)
      modifies this`sent
      ensures Socket(closes, sent) == SendCall(old(Socket(closes, sent)), id, m, throws)
    {
      if !throws {
        sent := sent + [Passed(id, m)];
      }
    }

    /** A later turn, after the wait for the platform buffer. */
    method SendAgain(id: nat, drained: bool, throws: bool)
      requires id in polling && id < |given|
      modifies this`polling, this`sent, this`log
      ensures var (h, labels) := OnSendPoll(old(Model()), id, drained, throws); Model() == h && log == old(log) + labels
    {
      if localClosed || !readyState.OPEN? {
        polling := polling - {id};
        log := log + [SendDone(id, Failed(Closed))];
      } else if drained {
        polling := polling - {id};
        HandOver(id, given[id], throws);
        log := log + [SendDone(id, if throws then Failed(Other) else Sent)];
      }
    }

    // ----- the schedule ----------------------------------------------------------------------------------

    /** One event of the platform or call of the guest. */
    method Turn(e: Event)
      requires Valid() && Enabled(Model(), e)
      modifies this, incoming
      ensures Valid()
      ensures var (h, labels) := StepOf(Cfg(), old(Model()), e); Model() == h && log == old(log) + labels
    {
      hide JsHost.OnMessageEvent, JsHost.OnCloseEvent, JsHost.SettleClosed, OnReceive, OnClaim, OnPull, OnClose;
      hide OnSend, OnSendPoll;
      match e
      case MessageEvent(m) => OnMessageEvent(m);
      case PeerClosing =>
        readyState := CLOSING;
        log := log + [PeerBegan, Progress(IsClosing)];
      case CloseEvent(status, reason) => OnCloseEvent(status, reason);
      case SlotFires => OnDeadline();
      case StrayFires(i) => OnReplacedDeadline(i);
      case Tick => now := now + 1;
      case Receive => Receive();
      case Claim => ReceiveViaStream();
      case Pull => Pull();
      case Close(code, reason) => var ok := Close(code, reason);
      case AwaitClosed => var settled := WaitForClose();
      case ReadState =>
        var state := State();
        log := log + [StateSeen(state)];
      case Send(m, drained, throws) => Send(m, drained, throws);
      case SendPoll(id, drained, throws) => SendAgain(id, drained, throws);
    }

    /** For every sequence of events and calls, the object is where the machine is, and has shown what the machine
        shows. From the start, what it has shown is a run of the contract that delivers the platform's messages. */
    method Run(schedule: seq<Event>)
      requires Valid() && CanRun(Cfg(), Model(), schedule)
      modifies this, incoming
      ensures Valid()
      ensures Model() == JsHost.Run(Cfg(), old(Model()), schedule)
      ensures log == old(log) + Trace(Cfg(), old(Model()), schedule)
      ensures old(Model()) == Start && old(log) == [] ==> Delivers(Cfg().limit, log, SentBy(schedule))
    {
      hide StepOf, Enabled, Delivers, SentBy, QueueInv;
      var i := 0;
      ghost var start, seen := Model(), log;
      while i < |schedule|
        invariant i <= |schedule| && Valid() && CanRun(Cfg(), Model(), schedule[i..])
        invariant JsHost.Run(Cfg(), Model(), schedule[i..]) == JsHost.Run(Cfg(), start, schedule)
        invariant log + Trace(Cfg(), Model(), schedule[i..]) == seen + Trace(Cfg(), start, schedule)
      {
        var e := schedule[i];
        assert schedule[i..][0] == e && schedule[i..][1..] == schedule[i + 1..];
        ghost var before, shown := Model(), log;
        Turn(e);
        ghost var labels := StepOf(Cfg(), before, e).1;
        ghost var later := Trace(Cfg(), Model(), schedule[i + 1..]);
        assert shown + (labels + later) == (shown + labels) + later;
        i := i + 1;
      }
      assert schedule[i..] == [];
      assert log + [] == log;
      if start == Start && seen == [] {
        DeliversWhatThePlatformSent(Cfg(), schedule);
        assert log == Trace(Cfg(), Start, schedule);
      }
    }
  }
}
