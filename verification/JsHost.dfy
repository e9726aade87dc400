/** The JavaScript host (js/polyengine/websocket.ts) as an event machine over a platform `WebSocket`:
    message and close events, promises, timers, and the guest's calls, with a discrete clock. */
module JsHost {
  import opened Types
  import opened Contract
  import opened JsQueue

  /** The platform's `readyState`. */
  datatype Ready = OPEN | CLOSING | CLOSED

  /** The pending close timers: the one the deadline field holds, and one that a later `close` replaced
      in the field without clearing it. */
  datatype Timers = Timers(slot: Option<nat>, strays: seq<nat>, began: Option<nat>)

  datatype Flags = Flags(localClosed: bool, claimed: bool, settled: bool, closeInfo: Option<CloseInfo>)

  /** Promises: `polling` are sends waiting for the platform buffer to drain, `waiting` close waiters; `given` are
      the messages of the sends so far, by their number. */
  datatype Calls = Calls(receives: nat, sends: nat, polling: set<nat>, waiting: nat, given: seq<Message>)

  datatype Passed = Passed(id: nat, message: Message)

  /** What was passed to the platform socket's `close` and, without an exception, to its `send`. */
  datatype Socket = Socket(closes: seq<(Option<nat>, seq<Byte>)>, sent: seq<Passed>)

  datatype Host = Host(
    now: nat, ready: Ready, queue: Queue, flags: Flags, timers: Timers, calls: Calls, socket: Socket)

  datatype Config = Config(limit: nat, closeTimeout: nat)

  const Start: Host :=
    Host(0, OPEN, JsQueue.Empty, Flags(false, false, false, None), Timers(None, [], None), Calls(0, 0, {}, 0, []),
         Socket([], []))

  datatype Event =
    // the platform
    | MessageEvent(message: Message)
    | PeerClosing                                    // the closing handshake began from the peer's side
    | CloseEvent(status: nat, reason: seq<Byte>)
    | SlotFires
    | StrayFires(index: nat)
    | Tick
    // the guest
    | Receive
    | Claim
    | Pull
    | Close(code: Option<nat>, reason: seq<Byte>)
    | AwaitClosed
    | ReadState
    | Send(message: Message, drained: bool, throws: bool)
    | SendPoll(id: nat, drained: bool, throws: bool)

  type Outcome = (Host, seq<Label>)

  // ----- what the promises settled show the guest --------------------------------------------------------

  function LabelOf(a: Answer): Label {
    match a
    case Resolved(RecvWaiter(_), m) => Received(m)
    case Resolved(PullWaiter, m) => StreamItem(m)
    case Rejected(RecvWaiter(_), e) => ReceiveFailed(e)
    case Rejected(PullWaiter, _) => StreamEnd
  }

  function LabelsOf(answers: seq<Answer>): seq<Label> {
    seq(|answers|, i requires 0 <= i < |answers| => LabelOf(answers[i]))
  }

  function Repeat(n: nat, l: Label): seq<Label> { seq(n, _ => l) }

  /** Close codes the platform makes up: no frame carried them. */
  predicate Synthesized(code: nat) { code == 0 || code == 1006 || code == 1015 }

  function FrameOf(code: nat, reason: seq<Byte>): Option<CloseInfo> {
    if Synthesized(code) then None else Some(CloseInfo(code, reason))
  }

  // ----- the platform's events ---------------------------------------------------------------------------

  predicate Due(h: Host) {
    || (h.timers.slot.Some? && h.timers.slot.value <= h.now)
    || exists i :: 0 <= i < |h.timers.strays| && h.timers.strays[i] <= h.now
  }

  /** No message event arrives once the socket left OPEN, and timers fire when due. */
  predicate Enabled(h: Host, e: Event) {
    match e
    case MessageEvent(_) => h.ready.OPEN?
    case PeerClosing => h.ready.OPEN?
    case CloseEvent(_, _) => !h.ready.CLOSED?
    case SlotFires => h.timers.slot.Some? && h.timers.slot.value <= h.now
    case StrayFires(i) => i < |h.timers.strays| && h.timers.strays[i] <= h.now
    case Tick => !Due(h)
    case Pull => h.flags.claimed
    case SendPoll(id, _, _) => id in h.calls.polling && id < |h.calls.given|
    case _ => true
  }

  /** `ws.close(code, reason)`: what it does to the socket, and its record. */
  function CloseSocket(ready: Ready): Ready { if ready.OPEN? then CLOSING else ready }

  function CloseCall(socket: Socket, code: Option<nat>, reason: seq<Byte>): Socket {
    socket.(closes := socket.closes + [(code, reason)])
  }

  function Began(h: Host): Option<nat> { if h.timers.began.None? then Some(h.now) else h.timers.began }

  /** The overflow's close: bound the teardown, unless a timer already does. */
  function TransportClosing(cfg: Config, h: Host): Host {
    h.(timers := h.timers.(began := Began(h),
                           slot := if !h.flags.settled && h.timers.slot.None? then Some(h.now + cfg.closeTimeout)
                                   else h.timers.slot))
  }

  function OnMessageEvent(cfg: Config, h: Host, m: Message): Outcome {
    var (q, answers, overflow) := OnMessage(cfg.limit, h.queue, m);
    var t := h.(queue := q);
    if overflow then
      (TransportClosing(cfg, t.(ready := CloseSocket(h.ready), socket := CloseCall(h.socket, None, []))),
       [Overflow(m), Progress(IsClosing)])
    else if h.queue.overflowed then (t, [Drop(m)])
    else (t, [Accept(m)] + LabelsOf(answers))
  }

  /** `#settleClosed`: the first of the close event and the timers wins. */
  function SettleClosed(h: Host, frame: Option<CloseInfo>): Outcome {
    if h.flags.settled then (h, [])
    else
      var (q, answers) := JsQueue.End(h.queue);
      (h.(queue := q, flags := h.flags.(settled := true, closeInfo := frame),
          timers := h.timers.(slot := None), calls := h.calls.(waiting := 0)),
       [End] + LabelsOf(answers) + (if frame.Some? then [PeerFrame(frame.value)] else [])
       + [Settle, Progress(IsClosed)] + Repeat(h.calls.waiting, WaitClosed(frame)))
  }

  /** The `close` event: the platform's connection is gone. */
  function OnCloseEvent(h: Host, frame: Option<CloseInfo>): Outcome {
    var t := h.(ready := CLOSED);
    if h.flags.settled then (t, []) else (SettleClosed(t, frame).0, [InputEnds] + SettleClosed(t, frame).1)
  }

  function Without(xs: seq<nat>, i: nat): seq<nat> { if i < |xs| then xs[..i] + xs[i + 1..] else xs }

  // ----- the guest's calls -------------------------------------------------------------------------------

  function OnReceive(h: Host): Outcome {
    if h.flags.localClosed then (h, [ReceiveFailed(Closed)])
    else if h.flags.claimed then (h, [ReceiveFailed(ReceivingViaStream)])
    else
      var (q, answers) := NextMessage(h.queue, RecvWaiter(h.calls.receives));
      (h.(queue := q, calls := h.calls.(receives := h.calls.receives + 1)), LabelsOf(answers))
  }

  function OnClaim(h: Host): Outcome {
    if h.flags.localClosed then (h, [ClaimFailed(Closed)])
    else if h.flags.claimed then (h, [ClaimFailed(ReceivingViaStream)])
    else
      var (q, answers) := RejectWaiters(h.queue, ReceivingViaStream);
      (h.(queue := q, flags := h.flags.(claimed := true)), [ClaimOk] + LabelsOf(answers))
  }

  function OnPull(h: Host): Outcome {
    var (q, answers) := NextMessage(h.queue, PullWaiter);
    (h.(queue := q), LabelsOf(answers))
  }

  /** The new timer takes the field over; one that was there keeps running. */
  function ArmForClose(cfg: Config, h: Host): Timers {
    var t := h.timers;
    Timers(Some(h.now + cfg.closeTimeout), if t.slot.Some? then t.strays + [t.slot.value] else t.strays, Began(h))
  }

  function OnClose(cfg: Config, h: Host, code: Option<nat>, reason: seq<Byte>): Outcome {
    if !CloseArgsOk(code, reason) || h.flags.localClosed then (h, [])
    else
      var (q, answers) := Discard(h.queue);
      (h.(queue := q, flags := h.flags.(localClosed := true), timers := ArmForClose(cfg, h),
          ready := CloseSocket(h.ready), socket := CloseCall(h.socket, code, reason)),
       [CloseCalled] + LabelsOf(answers) + [Stop])
  }

  function CurrentState(h: Host): WsState {
    if h.flags.settled then IsClosed
    else if h.flags.localClosed then IsClosing
    else match h.ready
      case OPEN => IsOpen
      case CLOSING => IsClosing
      case CLOSED => IsClosed
  }

  predicate Refuses(h: Host) { h.flags.localClosed || !h.ready.OPEN? }

  /** `ws.send(message)`, which may throw. */
  function SendCall(socket: Socket, id: nat, m: Message, throws: bool): Socket {
    if throws then socket else socket.(sent := socket.sent + [Passed(id, m)])
  }

  function OnSend(h: Host, m: Message, drained: bool, throws: bool): Outcome {
    var id := h.calls.sends;
    var c := h.calls.(sends := id + 1, given := h.calls.given + [m]);
    if Refuses(h) then (h.(calls := c), [SendRefused(id)])
    else if !drained then (h.(calls := c.(polling := c.polling + {id})), [SendCalled(id)])
    else
      (h.(calls := c, socket := SendCall(h.socket, id, m, throws)),
       [SendCalled(id), SendDone(id, if throws then Failed(Other) else Sent)])
  }

  function OnSendPoll(h: Host, id: nat, drained: bool, throws: bool): Outcome {
    var c := h.calls.(polling := h.calls.polling - {id});
    if Refuses(h) then (h.(calls := c), [SendDone(id, Failed(Closed))])
    else if !drained || id >= |h.calls.given| then (h, [])
    else
      (h.(calls := c, socket := SendCall(h.socket, id, h.calls.given[id], throws)),
       [SendDone(id, if throws then Failed(Other) else Sent)])
  }

  function StepOf(cfg: Config, h: Host, e: Event): Outcome {
    match e
    case MessageEvent(m) => OnMessageEvent(cfg, h, m)
    case PeerClosing => (h.(ready := CLOSING), [PeerBegan, Progress(IsClosing)])
    case CloseEvent(status, reason) => OnCloseEvent(h, FrameOf(status, reason))
    case SlotFires => SettleClosed(h.(timers := h.timers.(slot := None)), None)
    case StrayFires(i) => SettleClosed(h.(timers := h.timers.(strays := Without(h.timers.strays, i))), None)
    case Tick => (h.(now := h.now + 1), [])
    case Receive => OnReceive(h)
    case Claim => OnClaim(h)
    case Pull => OnPull(h)
    case Close(code, reason) => OnClose(cfg, h, code, reason)
    case AwaitClosed =>
      if h.flags.settled then (h, [WaitClosed(h.flags.closeInfo)])
      else (h.(calls := h.calls.(waiting := h.calls.waiting + 1)), [])
    case ReadState => (h, [StateSeen(CurrentState(h))])
    case Send(m, drained, throws) => OnSend(h, m, drained, throws)
    case SendPoll(id, drained, throws) => OnSendPoll(h, id, drained, throws)
  }

  predicate CanRun(cfg: Config, h: Host, events: seq<Event>)
    decreases |events|
  {
    events == [] || (Enabled(h, events[0]) && CanRun(cfg, StepOf(cfg, h, events[0]).0, events[1..]))
  }

  function Run(cfg: Config, h: Host, events: seq<Event>): Host
    decreases |events|
  {
    if events == [] then h else Run(cfg, StepOf(cfg, h, events[0]).0, events[1..])
  }

  function Trace(cfg: Config, h: Host, events: seq<Event>): seq<Label>
    decreases |events|
  {
    if events == [] then []
    else var (t, ls) := StepOf(cfg, h, events[0]); ls + Trace(cfg, t, events[1..])
  }

  // ----- what every step keeps ---------------------------------------------------------------------------

  /** One kind of waiter at a time: the claim rejected every `receive`. */
  ghost predicate WaitersInv(h: Host) {
    forall w <- h.queue.waiters :: w.PullWaiter? == h.flags.claimed
  }

  ghost predicate FlagsInv(h: Host) {
    && (h.queue.closed <==> h.flags.settled || h.flags.localClosed)
    && (h.queue.overflowed || h.flags.localClosed || h.flags.settled ==> !h.ready.OPEN?)
    && (h.flags.localClosed ==> h.queue.messages == [])
    && (h.ready.CLOSED? ==> h.flags.settled)
    && (forall id <- h.calls.polling :: id < h.calls.sends)
    && |h.calls.given| == h.calls.sends
    && (h.flags.settled ==> h.calls.waiting == 0)
  }

  ghost predicate HasTimer(t: Timers, due: nat) { t.slot == Some(due) || due in t.strays }

  /** No pending timer is overdue, and a closing connection has one that settles it in time. */
  ghost predicate TimeInv(cfg: Config, h: Host) {
    && (h.timers.slot.Some? ==> h.now <= h.timers.slot.value && !h.ready.OPEN?)
    && (forall d <- h.timers.strays :: h.now <= d)
    && (h.timers.strays != [] ==> !h.ready.OPEN?)
    && (h.flags.localClosed || h.queue.overflowed ==> h.timers.began.Some?)
    && (h.timers.began.Some? ==> h.timers.began.value <= h.now && !h.ready.OPEN?)
    && (h.timers.slot.Some? && !h.flags.settled ==> h.timers.began.Some?)
    && (h.timers.began.Some? && !h.flags.settled ==> HasTimer(h.timers, h.timers.began.value + cfg.closeTimeout))
  }

  ghost predicate Inv(cfg: Config, h: Host) {
    QueueInv(cfg.limit, h.queue) && WaitersInv(h) && FlagsInv(h) && TimeInv(cfg, h)
  }

  lemma QueueKept(cfg: Config, h: Host, e: Event)
    requires Enabled(h, e) && QueueInv(cfg.limit, h.queue)
    ensures QueueInv(cfg.limit, StepOf(cfg, h, e).0.queue)
  {
    hide QueueInv, OnMessage, NextMessage, RejectWaiters, JsQueue.End, Discard;
    EndingKeeps(cfg.limit, h.queue, ReceivingViaStream);
    match e
    case MessageEvent(m) => OnMessageKeeps(cfg.limit, h.queue, m);
    case Receive => NextMessageKeeps(cfg.limit, h.queue, RecvWaiter(h.calls.receives));
    case Pull => NextMessageKeeps(cfg.limit, h.queue, PullWaiter);
    case _ =>
  }

  lemma WaitersKept(cfg: Config, h: Host, e: Event)
    requires Enabled(h, e) && WaitersInv(h)
    ensures WaitersInv(StepOf(cfg, h, e).0)
  {
    hide LabelsOf, RejectAll;
  }

  lemma FlagsKept(cfg: Config, h: Host, e: Event)
    requires Enabled(h, e) && QueueInv(cfg.limit, h.queue) && FlagsInv(h) && TimeInv(cfg, h)
    ensures FlagsInv(StepOf(cfg, h, e).0)
  {
    hide LabelsOf, RejectAll;
  }

  lemma TimeKept(cfg: Config, h: Host, e: Event)
    requires Enabled(h, e) && FlagsInv(h) && TimeInv(cfg, h)
    ensures TimeInv(cfg, StepOf(cfg, h, e).0)
  {
    hide LabelsOf, RejectAll;
    match e
    case StrayFires(i) =>
      var left := Without(h.timers.strays, i);
      assert forall d :: d in left ==> d in h.timers.strays;
    case Close(_, _) =>
      if h.timers.slot.Some? {
        assert h.timers.slot.value in h.timers.strays + [h.timers.slot.value];
      }
    case Tick =>
      assert forall i :: 0 <= i < |h.timers.strays| ==> h.now < h.timers.strays[i];
    case _ =>
  }

  lemma InvKept(cfg: Config, h: Host, e: Event)
    requires Enabled(h, e) && Inv(cfg, h)
    ensures Inv(cfg, StepOf(cfg, h, e).0) && QueueInv(cfg.limit, h.queue)
  {
    hide StepOf;
    QueueKept(cfg, h, e);
    WaitersKept(cfg, h, e);
    FlagsKept(cfg, h, e);
    TimeKept(cfg, h, e);
    hide QueueInv, WaitersInv, FlagsInv, TimeInv;
  }
}
