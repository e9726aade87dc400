/** The in-guest pump (rust/guest-provider/src/pump.rs) as a step machine: a command task and a reader
    task that interleave at awaits, the protocol core's byte buffers between them, the write lock they
    share, the stream feeder, the guest's calls, and a discrete clock. */
module GuestPump {
  import opened Types
  import opened Contract

  datatype Who = CmdTask | ReaderTask

  /** What a write in progress races: a local close, when no deadline was armed at its start, or the
      deadline. */
  datatype Bound = AwaitClose | Until(deadline: nat)

  /** Inside `flush_outbound`: waiting for the write lock, or writing what was drained under it. */
  datatype Flush = WaitLock | Writing(left: seq<Byte>, bound: Bound)

  /** A data message the core encoded: its bytes start at `start` of everything the core wrote. */
  datatype Sending = Sending(id: nat, start: nat, bytes: seq<Byte>) {
    function End(): nat { start + |bytes| }
  }

  datatype CmdPc =
    | CmdIdle
    | CmdSends(sending: Sending, flush: Flush)
    | CmdCloses(flush: Flush)
    | CmdLate                                   // after the pump finalized

  datatype ReaderPc =
    | Draining                                  // about to call the core's `read`
    | ReaderFlush(flush: Flush, thenBreak: bool)
    | Selecting                                 // racing the deadline against the inbound stream
    | ReaderDone

  datatype Cmd = SendCmd(id: nat, message: Message) | CloseCmd(frame: Option<CloseInfo>) | ClaimCmd

  /** The core's answer to `send` or `close`. */
  datatype Encoded = Encodes(bytes: seq<Byte>) | Refuses(error: Error)

  /** The core's answer to `read`; a ping or close frame queues its reply in the same call. */
  datatype CoreRead =
    | Data(message: Message)
    | PeerClose(frame: Option<CloseInfo>, reply: seq<Byte>)
    | Control(reply: seq<Byte>)
    | RawFrame
    | WouldBlock
    | CapacityError
    | ReadEnd

  /** What the pump handed the core to encode, and the core took. */
  datatype ToCore = MessageToCore(id: nat, message: Message) | CloseToCore(frame: Option<CloseInfo>)

  /** The byte path and the flags the two tasks share. */
  datatype Wire = Wire(
    written: seq<Byte>,                         // everything the core ever wrote
    outbound: seq<Byte>,                        // the part not drained yet
    accepted: seq<Byte>,                        // everything the stream writer accepted
    lock: Option<Who>, writeDead: bool, wireClosing: bool, deadline: Option<nat>,
    handed: seq<ToCore>)

  datatype Cells = Cells(
    lifecycle: WsState, peerFrame: Option<CloseInfo>, closeInfo: Option<Option<CloseInfo>>,
    localClosed: bool, closedAt: Option<nat>, claimed: bool, feeder: bool)

  datatype Inbound = Inbound(queue: seq<Message>, ended: bool, used: nat, overflowed: bool)

  datatype Ack = Ack(sending: Sending, result: SendResult)

  datatype Calls = Calls(
    cmds: seq<Cmd>, made: nat, issued: seq<nat>, answered: seq<nat>, pendingReceives: nat, acks: seq<Ack>)

  datatype Provider = Provider(
    now: nat, wire: Wire, cmd: CmdPc, reader: ReaderPc, cells: Cells, inbound: Inbound, calls: Calls)

  datatype Config = Config(limit: nat, closeTimeout: nat)

  const Start: Provider :=
    Provider(0, Wire([], [], [], None, false, false, None, []), CmdIdle, Draining,
             Cells(IsOpen, None, None, false, None, false, false), Inbound([], false, 0, false),
             Calls([], 0, [], [], 0, []))

  datatype FlushEvent =
    | TakeLock
    | WriterAccepts(count: nat)
    | WriterGone
    | SeeLocalClose
    | BoundExpires

  datatype Event =
    // the guest
    | SendCall(message: Message)
    | CloseCall(code: Option<nat>, reason: seq<Byte>)
    | ReceiveCall
    | ReceivePoll
    | ClaimCall
    | FeederPoll
    | AwaitClosed
    | ReadState
    // the world
    | Tick
    // the command task
    | TakeCmd(encoded: Encoded)
    | SeePumpDone
    | TakeLateCmd
    // the reader task
    | Read(step: CoreRead, closing: Encoded)    // `closing` answers the `close` an overflow causes
    | DeadlineExpires
    | FeedChunk
    | FeedEnd(rest: seq<CoreRead>)              // the stream ended: one final drain
    // either
    | FlushStep(who: Who, flush: FlushEvent)

  // ----- flushing ----------------------------------------------------------------------------------------

  function Arm(cfg: Config, now: nat, w: Wire): Wire {
    if w.deadline.None? then w.(deadline := Some(now + cfg.closeTimeout)) else w
  }

  datatype FlushOut = Still(flush: Flush) | Returned(result: SendResult)

  predicate FlushEnabled(now: nat, localClosed: bool, w: Wire, f: Flush, e: FlushEvent) {
    match e
    case TakeLock => f.WaitLock? && w.lock.None?
    case WriterAccepts(n) => f.Writing? && 0 < n <= |f.left|
    case WriterGone => f.Writing?
    case SeeLocalClose => f.Writing? && f.bound.AwaitClose? && localClosed
    case BoundExpires => f.Writing? && f.bound.Until? && f.bound.deadline <= now
  }

  /** The write failed or stalled: the write half is dead, the deadline armed, the lock free. */
  function WriteDies(cfg: Config, now: nat, w: Wire): Wire {
    Arm(cfg, now, w.(writeDead := true, lock := None))
  }

  /** Everything the core wrote since the last drain is taken, whoever wrote it. */
  function StartFlush(w: Wire, who: Who): (Wire, FlushOut) {
    var drained := w.(outbound := []);
    if w.outbound == [] then (w, Returned(if w.writeDead then Failed(Closed) else Sent))
    else if w.writeDead then (drained, Returned(Failed(Closed)))
    else (drained.(lock := Some(who)),
          Still(Writing(w.outbound, if w.deadline.None? then AwaitClose else Until(w.deadline.value))))
  }

  /** What a write of `left` may meet. */
  function WriteNext(cfg: Config, now: nat, w: Wire, left: seq<Byte>, bound: Bound, e: FlushEvent): (Wire, FlushOut) {
    match e
    case WriterAccepts(count) =>
      var n := if count <= |left| then count else |left|;
      var moved := w.(accepted := w.accepted + left[..n]);
      if n == |left| then (moved.(lock := None), Returned(Sent))
      else (moved, Still(Writing(left[n..], bound)))
    case SeeLocalClose =>
      var armed := Arm(cfg, now, w);
      (armed, Still(Writing(left, Until(armed.deadline.value))))
    case _ => (WriteDies(cfg, now, w), Returned(Failed(Closed)))
  }

  function FlushNext(cfg: Config, now: nat, w: Wire, who: Who, f: Flush, e: FlushEvent): (Wire, FlushOut) {
    match f
    case WaitLock => StartFlush(w, who)
    case Writing(left, bound) => WriteNext(cfg, now, w, left, bound, e)
  }

  function FlushOf(s: Provider, who: Who): Option<Flush> {
    match who
    case CmdTask =>
      (match s.cmd
       case CmdSends(_, f) => Some(f)
       case CmdCloses(f) => Some(f)
       case _ => None)
    case ReaderTask => if s.reader.ReaderFlush? then Some(s.reader.flush) else None
  }

  // ----- shared helpers ----------------------------------------------------------------------------------

  type Outcome = (Provider, seq<Label>)

  function CoreWrites(w: Wire, bytes: seq<Byte>): Wire {
    w.(written := w.written + bytes, outbound := w.outbound + bytes)
  }

  /** The core takes a message and writes its frame. */
  function CoreTakes(w: Wire, id: nat, m: Message, bytes: seq<Byte>): Wire {
    CoreWrites(w.(handed := w.handed + [MessageToCore(id, m)]), bytes)
  }

  /** `begin_close` up to its flush: whether there is one to run, and the wire. */
  function BeginClose(cfg: Config, now: nat, w: Wire, frame: Option<CloseInfo>, closing: Encoded): (Wire, bool) {
    if w.wireClosing then (w, false)
    else
      var armed := Arm(cfg, now, w.(wireClosing := true, handed := w.handed + [CloseToCore(frame)]));
      if closing.Encodes? then (CoreWrites(armed, closing.bytes), true) else (armed, false)
  }

  function StopLabels(w: Wire): seq<Label> { if w.wireClosing then [] else [Stop] }

  /** Queue one data message under the budget; on overflow only the latch is set. */
  function Deliver(cfg: Config, wireClosing: bool, q: Inbound, m: Message): (Inbound, Label) {
    if wireClosing || q.overflowed then (q, Drop(m))
    else if q.used + m.Size() > cfg.limit then (q.(overflowed := true), Overflow(m))
    else (q.(used := q.used + m.Size(), queue := q.queue + [m]), Accept(m))
  }

  /** Finalization, in one go: no other task runs between its statements. */
  function Finalize(s: Provider): Outcome {
    (s.(reader := ReaderDone,
        cells := s.cells.(closeInfo := Some(s.cells.peerFrame), lifecycle := s.cells.lifecycle.AdvanceByRank(IsClosed)),
        inbound := s.inbound.(ended := true)),
     [Settle, Progress(IsClosed), End])
  }

  function Append(before: seq<Label>, out: Outcome): Outcome { (out.0, before + out.1) }

  /** The core or the stream reported the end, or an error. */
  function EndOfInput(s: Provider): Outcome { Append([InputEnds], Finalize(s)) }

  // ----- the command task --------------------------------------------------------------------------------

  function Answer(s: Provider, sending: Sending, result: SendResult): Outcome {
    (s.(calls := s.calls.(acks := s.calls.acks + [Ack(sending, result)],
                          answered := s.calls.answered + [sending.id])),
     [SendDone(sending.id, result)])
  }

  function PopCmd(s: Provider): Provider {
    s.(calls := s.calls.(cmds := if s.calls.cmds == [] then [] else s.calls.cmds[1..]))
  }

  function HandleSend(s: Provider, id: nat, m: Message, encoded: Encoded): Outcome {
    var start := |s.wire.written|;
    if s.wire.wireClosing || s.wire.writeDead then Answer(s, Sending(id, start, []), Failed(Closed))
    else
      match encoded
      case Refuses(e) => Answer(s, Sending(id, start, []), Failed(e))
      case Encodes(bytes) =>
        (s.(wire := CoreTakes(s.wire, id, m, bytes), cmd := CmdSends(Sending(id, start, bytes), WaitLock)), [])
  }

  function HandleCmd(cfg: Config, s: Provider, encoded: Encoded): Outcome {
    var t := PopCmd(s);
    match if s.calls.cmds == [] then ClaimCmd else s.calls.cmds[0]
    case SendCmd(id, m) => HandleSend(t, id, m, encoded)
    case CloseCmd(frame) =>
      var (w, flush) := BeginClose(cfg, s.now, s.wire, frame, encoded);
      (t.(wire := w, cmd := if flush then CmdCloses(WaitLock) else CmdIdle), StopLabels(s.wire))
    case ClaimCmd => (t.(cells := s.cells.(feeder := true)), [])
  }

  function HandleLateCmd(s: Provider): Outcome {
    var t := PopCmd(s);
    match if s.calls.cmds == [] then ClaimCmd else s.calls.cmds[0]
    case SendCmd(id, _) => Answer(t, Sending(id, |s.wire.written|, []), Failed(Closed))
    case CloseCmd(_) => (t, [])
    case ClaimCmd => (t.(cells := s.cells.(feeder := true)), [])
  }

  // ----- the reader task ---------------------------------------------------------------------------------

  function PeerInfo(cells: Cells, frame: Option<CloseInfo>): Cells {
    cells.(peerFrame := if cells.peerFrame.None? then Some(CloseInfoFrom(frame)) else cells.peerFrame)
  }

  /** The reader's `begin_close`, then its flush, then on or out. */
  function ReaderCloses(cfg: Config, s: Provider, closing: Encoded, thenBreak: bool): Outcome {
    var (w, flush) := BeginClose(cfg, s.now, s.wire, None, closing);
    var t := s.(wire := w);
    Append(StopLabels(s.wire),
           if flush then (t.(reader := ReaderFlush(WaitLock, thenBreak)), [])
           else if thenBreak then Finalize(t)
           else (t.(reader := Draining), []))
  }

  /** The core queued its reply in the same read. */
  function HandlePeerClose(cfg: Config, s: Provider, frame: Option<CloseInfo>, reply: seq<Byte>): Outcome {
    var w := CoreWrites(Arm(cfg, s.now, s.wire), reply);
    (s.(cells := PeerInfo(s.cells, frame).(lifecycle := s.cells.lifecycle.AdvanceByRank(IsClosing)),
        wire := w.(wireClosing := true), reader := ReaderFlush(WaitLock, false)),
     [PeerFrame(CloseInfoFrom(frame)), Progress(IsClosing)])
  }

  function HandleRead(cfg: Config, s: Provider, step: CoreRead, closing: Encoded): Outcome {
    match step
    case Data(m) =>
      var (q, l) := Deliver(cfg, s.wire.wireClosing, s.inbound, m);
      var t := s.(inbound := q);
      if q.overflowed && !s.wire.wireClosing then Append([l], ReaderCloses(cfg, t, closing, false)) else (t, [l])
    case PeerClose(frame, reply) => HandlePeerClose(cfg, s, frame, reply)
    case Control(reply) =>
      (s.(wire := CoreWrites(s.wire, reply), reader := ReaderFlush(WaitLock, false)), [])
    case RawFrame => (s, [])
    case WouldBlock => (s.(reader := Selecting), [])
    case CapacityError =>
      Append([LatchOverflow], ReaderCloses(cfg, s.(inbound := s.inbound.(overflowed := true)), closing, true))
    case ReadEnd => EndOfInput(s)
  }

  /** The final drain after the stream ended: it stops at a close frame or the first error. */
  function LastDrain(cfg: Config, s: Provider, rest: seq<CoreRead>): Outcome
    decreases |rest|
  {
    if rest == [] then EndOfInput(s)
    else
      match rest[0]
      case Data(m) =>
        var (q, l) := Deliver(cfg, s.wire.wireClosing, s.inbound, m);
        Append([l], LastDrain(cfg, s.(inbound := q), rest[1..]))
      case PeerClose(frame, reply) =>
        Append([PeerFrame(CloseInfoFrom(frame))],
               Finalize(s.(cells := PeerInfo(s.cells, frame), wire := CoreWrites(s.wire, reply))))
      case Control(reply) => LastDrain(cfg, s.(wire := CoreWrites(s.wire, reply)), rest[1..])
      case RawFrame => LastDrain(cfg, s, rest[1..])
      case _ => EndOfInput(s)
  }

  /** The final drain, one read at a time. */
  lemma DrainStep(cfg: Config, s: Provider, rest: seq<CoreRead>)
    requires rest != []
    ensures rest[0].Data? ==>
              var d := Deliver(cfg, s.wire.wireClosing, s.inbound, rest[0].message);
              LastDrain(cfg, s, rest) == Append([d.1], LastDrain(cfg, s.(inbound := d.0), rest[1..]))
    ensures rest[0].PeerClose? ==>
              var t := s.(cells := PeerInfo(s.cells, rest[0].frame), wire := CoreWrites(s.wire, rest[0].reply));
              LastDrain(cfg, s, rest) == Append([PeerFrame(CloseInfoFrom(rest[0].frame))], Finalize(t))
    ensures rest[0].Control? ==>
              LastDrain(cfg, s, rest) == LastDrain(cfg, s.(wire := CoreWrites(s.wire, rest[0].reply)), rest[1..])
    ensures rest[0].RawFrame? ==> LastDrain(cfg, s, rest) == LastDrain(cfg, s, rest[1..])
    ensures rest[0].WouldBlock? || rest[0].CapacityError? || rest[0].ReadEnd? ==>
              LastDrain(cfg, s, rest) == EndOfInput(s)
  {
    hide Finalize, EndOfInput, Append, Deliver, CoreWrites, PeerInfo;
  }

  lemma DrainNothing(cfg: Config, s: Provider)
    ensures LastDrain(cfg, s, []) == EndOfInput(s)
  {
  }

  // ----- what follows a flush ----------------------------------------------------------------------------

  function ResumeCmd(s: Provider, out: FlushOut): Outcome {
    match out
    case Still(f) =>
      (s.(cmd := if s.cmd.CmdSends? then s.cmd.(flush := f) else CmdCloses(f)), [])
    case Returned(result) =>
      if s.cmd.CmdSends? then Answer(s.(cmd := CmdIdle), s.cmd.sending, result) else (s.(cmd := CmdIdle), [])
  }

  function ResumeReader(s: Provider, out: FlushOut): Outcome {
    var thenBreak := s.reader.ReaderFlush? && s.reader.thenBreak;
    match out
    case Still(f) => (s.(reader := ReaderFlush(f, thenBreak)), [])
    case Returned(_) => if thenBreak then Finalize(s) else (s.(reader := Draining), [])
  }

  function DeathLabels(before: Wire, after: Wire): seq<Label> {
    if after.writeDead && !before.writeDead then [WriteDied] else []
  }

  function HandleFlush(cfg: Config, s: Provider, who: Who, e: FlushEvent): Outcome {
    var f := FlushOf(s, who);
    var (w, out) := FlushNext(cfg, s.now, s.wire, who, if f.Some? then f.value else WaitLock, e);
    var t := s.(wire := w);
    Append(DeathLabels(s.wire, w), if who.CmdTask? then ResumeCmd(t, out) else ResumeReader(t, out))
  }

  // ----- the guest's side --------------------------------------------------------------------------------

  function SendStep(s: Provider, m: Message): Outcome {
    var id := s.calls.made;
    var c := s.calls.(made := id + 1);
    if s.cells.localClosed then (s.(calls := c), [SendRefused(id)])
    else (s.(calls := c.(cmds := c.cmds + [SendCmd(id, m)], issued := c.issued + [id])), [SendCalled(id)])
  }

  function CloseStep(s: Provider, code: Option<nat>, reason: seq<Byte>): Outcome {
    if !CloseArgsOk(code, reason) || s.cells.localClosed then (s, [])
    else
      (s.(cells := s.cells.(localClosed := true, closedAt := Some(s.now),
                            lifecycle := s.cells.lifecycle.AdvanceByRank(IsClosing)),
          calls := s.calls.(cmds := s.calls.cmds + [CloseCmd(FrameFor(code, reason))])), [CloseCalled])
  }

  /** Taking the head of the queue releases its bytes in the same step. */
  function TakeHead(q: Inbound): Inbound {
    if q.queue == [] then q
    else
      var n := q.queue[0].Size();
      q.(queue := q.queue[1..], used := if n <= q.used then q.used - n else 0)
  }

  function ReceiveStep(s: Provider): Outcome {
    var n := s.calls.pendingReceives;
    var t := s.(calls := s.calls.(pendingReceives := if n > 0 then n - 1 else 0));
    if s.cells.claimed then (t, [ReceiveFailed(ReceivingViaStream)])
    else if s.cells.localClosed then (t, [ReceiveFailed(Closed)])
    else if s.inbound.queue != [] then (t.(inbound := TakeHead(s.inbound)), [Received(s.inbound.queue[0])])
    else if s.inbound.ended then
      (t, [ReceiveFailed(if s.inbound.overflowed then ReceiveBufferOverflow else Closed)])
    else (s, [])
  }

  function FeederStep(s: Provider): Outcome {
    if s.cells.localClosed then (s.(cells := s.cells.(feeder := false)), [StreamEnd])
    else if s.inbound.queue != [] then (s.(inbound := TakeHead(s.inbound)), [StreamItem(s.inbound.queue[0])])
    else if s.inbound.ended then (s.(cells := s.cells.(feeder := false)), [StreamEnd])
    else (s, [])
  }

  function ClaimStep(s: Provider): Outcome {
    if s.cells.localClosed then (s, [ClaimFailed(Closed)])
    else if s.cells.claimed then (s, [ClaimFailed(ReceivingViaStream)])
    else
      (s.(cells := s.cells.(claimed := true), calls := s.calls.(cmds := s.calls.cmds + [ClaimCmd])), [ClaimOk])
  }

  // ----- the machine -------------------------------------------------------------------------------------

  predicate Expired(s: Provider) { s.wire.deadline.Some? && s.wire.deadline.value <= s.now }

  predicate FlushReady(s: Provider, who: Who) {
    var f := FlushOf(s, who);
    f.Some? && (if f.value.WaitLock? then s.wire.lock.None?
                else if f.value.bound.AwaitClose? then s.cells.localClosed
                else f.value.bound.deadline <= s.now)
  }

  /** Whether some task has something to do without the help of the peer. */
  predicate TaskReady(s: Provider) {
    || FlushReady(s, CmdTask) || FlushReady(s, ReaderTask)
    || (s.cmd.CmdIdle? && (s.reader.ReaderDone? || s.calls.cmds != []))
    || (s.cmd.CmdLate? && s.calls.cmds != [])
    || s.reader.Draining?
    || (s.reader.Selecting? && Expired(s))
  }

  /** The biased selects are guards: the command task sees the pump's end first, the reader an expired
      deadline before any bytes. Time passes only when no task is ready. */
  predicate Enabled(s: Provider, e: Event) {
    match e
    case ReceivePoll => s.calls.pendingReceives > 0
    case FeederPoll => s.cells.feeder
    case AwaitClosed => s.reader.ReaderDone?
    case Tick => !TaskReady(s)
    case TakeCmd(_) => s.cmd.CmdIdle? && !s.reader.ReaderDone? && s.calls.cmds != []
    case SeePumpDone => s.cmd.CmdIdle? && s.reader.ReaderDone?
    case TakeLateCmd => s.cmd.CmdLate? && s.calls.cmds != []
    case Read(_, _) => s.reader.Draining?
    case DeadlineExpires => s.reader.Selecting? && Expired(s)
    case FeedChunk => s.reader.Selecting? && !Expired(s)
    case FeedEnd(_) => s.reader.Selecting? && !Expired(s)
    case FlushStep(who, step) =>
      var f := FlushOf(s, who);
      f.Some? && FlushEnabled(s.now, s.cells.localClosed, s.wire, f.value, step)
    case _ => true
  }

  function StepOf(cfg: Config, s: Provider, e: Event): Outcome {
    match e
    case SendCall(m) => SendStep(s, m)
    case CloseCall(code, reason) => CloseStep(s, code, reason)
    case ReceiveCall =>
      if s.cells.localClosed then (s, [ReceiveFailed(Closed)])
      else if s.cells.claimed then (s, [ReceiveFailed(ReceivingViaStream)])
      else (s.(calls := s.calls.(pendingReceives := s.calls.pendingReceives + 1)), [])
    case ReceivePoll => ReceiveStep(s)
    case ClaimCall => ClaimStep(s)
    case FeederPoll => FeederStep(s)
    case AwaitClosed => (s, if s.cells.closeInfo.Some? then [WaitClosed(s.cells.closeInfo.value)] else [])
    case ReadState => (s, [StateSeen(s.cells.lifecycle)])
    case Tick => (s.(now := s.now + 1), [])
    case TakeCmd(encoded) => HandleCmd(cfg, s, encoded)
    case SeePumpDone => (s.(cmd := CmdLate), [])
    case TakeLateCmd => HandleLateCmd(s)
    case Read(step, closing) => HandleRead(cfg, s, step, closing)
    case DeadlineExpires => Finalize(s)
    case FeedChunk => (s.(reader := Draining), [])
    case FeedEnd(rest) => LastDrain(cfg, s, rest)
    case FlushStep(who, step) => HandleFlush(cfg, s, who, step)
  }

  predicate CanRun(cfg: Config, s: Provider, events: seq<Event>)
    decreases |events|
  {
    events == [] || (Enabled(s, events[0]) && CanRun(cfg, StepOf(cfg, s, events[0]).0, events[1..]))
  }

  function Run(cfg: Config, s: Provider, events: seq<Event>): Provider
    decreases |events|
  {
    if events == [] then s else Run(cfg, StepOf(cfg, s, events[0]).0, events[1..])
  }

  function Trace(cfg: Config, s: Provider, events: seq<Event>): seq<Label>
    decreases |events|
  {
    if events == [] then []
    else var (t, ls) := StepOf(cfg, s, events[0]); ls + Trace(cfg, t, events[1..])
  }
}
