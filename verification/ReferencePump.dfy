/** The reference pump (rust/wasmtime/src/websocket.rs) as a step machine: one task that owns the
    socket, interleaved at every await with the guest's calls, with readers that take messages and
    release their bytes in separate steps, and with a discrete clock. */
module ReferencePump {
  import opened Types
  import opened Contract

  datatype Cmd = SendCmd(id: nat, message: Message) | CloseCmd(frame: Option<CloseInfo>)

  /** What reading the socket yields. */
  datatype Read =
    | Data(message: Message)
    | PeerClose(frame: Option<CloseInfo>)
    | Ping
    | OtherFrame
    | CapacityError
    | ReadEnd                       // a read error or end of file

  /** A frame the pump asked the transport to write. */
  datatype Frame = DataFrame(id: nat, message: Message) | CloseFrame(frame: Option<CloseInfo>)

  /** The write being driven, and so what follows it. */
  datatype Job = DataJob(id: nat) | CloseJob(thenBreak: bool) | FlushJob

  datatype Pc =
    | AtSelect
    | Writing(job: Job, bound: Option<nat>)   // `bound` is the deadline the write races, once armed
    | Finalizing(stage: nat)
    | Done

  datatype Ack = Ack(id: nat, result: SendResult)

  datatype Config = Config(limit: nat, closeTimeout: nat)

  /** What the pump task alone writes (the lifecycle cell excepted, which `close` also advances). */
  datatype Task = Task(
    pc: Pc, wireClosing: bool, writeDead: bool, peerFrame: Option<CloseInfo>, deadline: Option<nat>,
    cmdsDone: bool, wire: seq<Frame>, acks: seq<Ack>, lifecycle: WsState, closeInfo: Option<Option<CloseInfo>>)

  /** The command channel; `toPost` is a `close` between firing the latch and enqueueing. */
  datatype Channel = Channel(cmds: seq<Cmd>, closed: bool, sendersGone: bool, toPost: Option<Cmd>)

  /** The inbound queue and its accounting; `unreleased` is a message taken whose bytes are still charged. */
  datatype Inbound = Inbound(queue: seq<Message>, ended: bool, buffered: nat, unreleased: Option<nat>, overflowed: bool)

  datatype Guest = Guest(
    localClosed: bool, closedAt: Option<nat>, claimed: bool, pendingReceives: nat, calls: nat, issued: seq<nat>)

  datatype Pump = Pump(now: nat, task: Task, channel: Channel, inbox: seq<Read>, inbound: Inbound, guest: Guest)

  const Start: Pump :=
    Pump(0, Task(AtSelect, false, false, None, None, false, [], [], IsOpen, None),
         Channel([], false, false, None), [], Inbound([], false, 0, None, false),
         Guest(false, None, false, 0, 0, []))

  datatype Event =
    // the guest
    | SendCall(message: Message)
    | CloseCall(code: Option<nat>, reason: seq<Byte>)
    | PostClose                     // the enqueue that ends `close`
    | DropSenders                   // the resource and every sending handle are gone
    | ReceiveCall
    | ReceivePoll                   // some pending `receive` is polled
    | ClaimCall
    | StreamPoll
    | ReleaseBytes                  // the reader that took a message releases its bytes
    | AwaitClosed
    | ReadState
    // the world
    | Arrive(read: Read)
    | Tick
    // the pump
    | TakeCmd
    | ReadSocket
    | DeadlineFires
    | ArmMidWrite                   // the local-close signal is seen during an unbounded write
    | WriteEnds(outcome: SendResult)
    | WriteTimesOut
    | FinalizeStep

  // ----- enabledness -------------------------------------------------------------------------------------

  predicate CmdReady(s: Pump) { s.channel.cmds != [] || (s.channel.sendersGone && !s.task.cmdsDone) }

  predicate Expired(s: Pump) { s.task.deadline.Some? && s.task.deadline.value <= s.now }

  /** Whether the pump has something to do without the help of the world. */
  predicate PumpReady(s: Pump) {
    match s.task.pc
    case AtSelect => CmdReady(s) || s.inbox != [] || Expired(s)
    case Writing(_, bound) => if bound.Some? then bound.value <= s.now else s.guest.localClosed
    case Finalizing(_) => true
    case Done => false
  }

  predicate IsPump(e: Event) {
    || e.TakeCmd? || e.ReadSocket? || e.DeadlineFires? || e.ArmMidWrite?
    || e.WriteEnds? || e.WriteTimesOut? || e.FinalizeStep?
  }

  predicate PumpEnabled(s: Pump, e: Event) {
    match e
    case TakeCmd => s.task.pc.AtSelect? && CmdReady(s)
    case ReadSocket => s.task.pc.AtSelect? && !CmdReady(s) && s.inbox != []
    case DeadlineFires => s.task.pc.AtSelect? && !CmdReady(s) && s.inbox == [] && Expired(s)
    case ArmMidWrite => s.task.pc.Writing? && s.task.pc.bound.None? && s.guest.localClosed
    case WriteEnds(outcome) =>
      s.task.pc.Writing? && (outcome.Sent? || outcome.error.Closed? || outcome.error.Other?)
    case WriteTimesOut => s.task.pc.Writing? && s.task.pc.bound.Some? && s.task.pc.bound.value <= s.now
    case FinalizeStep => s.task.pc.Finalizing?
    case _ => false
  }

  predicate OutsideEnabled(s: Pump, e: Event) {
    match e
    case PostClose => s.channel.toPost.Some?
    case DropSenders => s.guest.localClosed && s.channel.toPost.None?
    case SendCall(_) => !s.channel.sendersGone
    case CloseCall(_, _) => !s.channel.sendersGone && s.channel.toPost.None?
    case ReceivePoll => s.guest.pendingReceives > 0 && s.inbound.unreleased.None?
    case StreamPoll => s.guest.claimed && s.inbound.unreleased.None?
    case ReleaseBytes => s.inbound.unreleased.Some?
    case AwaitClosed => s.task.pc.Done?
    case Tick => !PumpReady(s) && s.channel.toPost.None?
    case _ => true
  }

  /** The biased select is the guards of the three loop arms: a socket read only when no command is
      ready, the deadline only when neither is. Time passes only when nobody has work to do. */
  predicate Enabled(s: Pump, e: Event) {
    if IsPump(e) then PumpEnabled(s, e) else OutsideEnabled(s, e)
  }

  // ----- the pump's helpers ------------------------------------------------------------------------------

  function Arm(cfg: Config, now: nat, t: Task): Task {
    if t.deadline.None? then t.(deadline := Some(now + cfg.closeTimeout)) else t
  }

  type TaskOut = (Task, seq<Label>)

  /** What follows a write: the ack, the next loop iteration, or the way out of the loop. */
  function AfterWrite(t: Task, job: Job, result: SendResult): TaskOut {
    match job
    case DataJob(id) => (t.(pc := AtSelect, acks := t.acks + [Ack(id, result)]), [SendDone(id, result)])
    case CloseJob(thenBreak) => (t.(pc := if thenBreak then Finalizing(0) else AtSelect), [])
    case FlushJob => (t.(pc := AtSelect), [])
  }

  /** Start a write. A dead write half fails it without touching the transport. */
  function BoundedWrite(t: Task, job: Job, frames: seq<Frame>): TaskOut {
    if t.writeDead then AfterWrite(t, job, Failed(Closed))
    else (t.(pc := Writing(job, t.deadline), wire := t.wire + frames), [])
  }

  /** End a write: a failure or stall kills the write half and arms the deadline. */
  function EndWrite(cfg: Config, now: nat, t: Task, result: SendResult): TaskOut {
    if !t.pc.Writing? then (t, [])
    else if result.Sent? then AfterWrite(t, t.pc.job, result)
    else
      var (u, ls) := AfterWrite(Arm(cfg, now, t.(writeDead := true)), t.pc.job, result);
      (u, [WriteDied] + ls)
  }

  function BeginClose(cfg: Config, now: nat, t: Task, frame: Option<CloseInfo>, thenBreak: bool): TaskOut {
    if t.wireClosing then AfterWrite(t, CloseJob(thenBreak), Sent)
    else
      var u := Arm(cfg, now, t.(wireClosing := true, lifecycle := t.lifecycle.Advance(IsClosing)));
      var (v, ls) := BoundedWrite(u, CloseJob(thenBreak), [CloseFrame(frame)]);
      (v, [Stop, Progress(IsClosing)] + ls)
  }

  /** Reading the peer's close frame; the transport queued the reply, the flush writes it. */
  function PeerCloses(cfg: Config, now: nat, t: Task, frame: Option<CloseInfo>): TaskOut {
    var info := CloseInfoFrom(frame);
    var u := Arm(cfg, now, t.(peerFrame := if t.peerFrame.None? then Some(info) else t.peerFrame,
                              lifecycle := t.lifecycle.Advance(IsClosing)));
    var seen := [PeerFrame(info), Progress(IsClosing)];
    if u.wireClosing then (u, seen)
    else
      var (v, ls) := BoundedWrite(u.(wireClosing := true), FlushJob, [CloseFrame(frame)]);
      (v, seen + ls)
  }

  type Outcome = (Pump, seq<Label>)

  function WithTask(s: Pump, before: seq<Label>, out: TaskOut): Outcome {
    (s.(task := out.0), before + out.1)
  }

  function Deliver(cfg: Config, s: Pump, m: Message): Outcome {
    var q := s.inbound;
    if s.task.wireClosing then (s, [Drop(m)])
    else if !q.overflowed && q.buffered + m.Size() <= cfg.limit then
      (s.(inbound := q.(buffered := q.buffered + m.Size(), queue := q.queue + [m])), [Accept(m)])
    else
      WithTask(s.(inbound := q.(overflowed := true)), [Overflow(m)], BeginClose(cfg, s.now, s.task, None, false))
  }

  function HandleCmd(cfg: Config, s: Pump): Outcome {
    if s.channel.cmds == [] then
      WithTask(s, [], BeginClose(cfg, s.now, s.task.(cmdsDone := true), None, false))
    else
      var rest := s.(channel := s.channel.(cmds := s.channel.cmds[1..]));
      match s.channel.cmds[0]
      case SendCmd(id, m) =>
        WithTask(rest, [], if s.task.wireClosing || s.task.writeDead
                           then AfterWrite(s.task, DataJob(id), Failed(Closed))
                           else BoundedWrite(s.task, DataJob(id), [DataFrame(id, m)]))
      case CloseCmd(frame) => WithTask(rest, [], BeginClose(cfg, s.now, s.task, frame, false))
  }

  function HandleRead(cfg: Config, s: Pump): Outcome {
    if s.inbox == [] then (s, [])
    else
      var rest := s.(inbox := s.inbox[1..]);
      match s.inbox[0]
      case Data(m) => Deliver(cfg, rest, m)
      case PeerClose(frame) => WithTask(rest, [], PeerCloses(cfg, s.now, s.task, frame))
      case Ping => WithTask(rest, [], BoundedWrite(s.task, FlushJob, []))
      case OtherFrame => (rest, [])
      case CapacityError =>
        WithTask(rest.(inbound := s.inbound.(overflowed := true)), [LatchOverflow],
                 BeginClose(cfg, s.now, s.task, None, true))
      case ReadEnd => (rest.(task := s.task.(pc := Finalizing(0))), [InputEnds])
  }

  /** Failing one queued command after the loop. */
  function DrainOne(s: Pump): Outcome {
    if s.channel.cmds == [] then (s, [])
    else
      var rest := s.(channel := s.channel.(cmds := s.channel.cmds[1..]));
      match s.channel.cmds[0]
      case SendCmd(id, _) =>
        (rest.(task := s.task.(acks := s.task.acks + [Ack(id, Failed(Closed))])), [SendDone(id, Failed(Closed))])
      case CloseCmd(_) => (rest, [])
  }

  /** The finalizing statements that touch the task's own data. */
  function FinalizeTask(t: Task, stage: nat): (r: TaskOut)
    ensures r.0.acks == t.acks && r.0.wire == t.wire && (r.0.pc.Finalizing? || r.0.pc.Done?)
  {
    var next := t.(pc := Finalizing(stage + 1));
    match stage
    case 0 => (next.(closeInfo := Some(t.peerFrame)), [Settle])
    case 1 => (next, [End])
    case 4 => (next.(lifecycle := t.lifecycle.Advance(IsClosing)), [Progress(IsClosing)])
    case 5 => (next.(lifecycle := t.lifecycle.Advance(IsClosed)), [Progress(IsClosed)])
    case _ => (if stage < 6 then next else t.(pc := Done), [])
  }

  /** The statements after the loop, one at a time: readers and senders on other threads see each. */
  function Finalize(s: Pump): Outcome {
    var stage := if s.task.pc.Finalizing? then s.task.pc.stage else 0;
    if stage == 3 && s.channel.cmds != [] then DrainOne(s)
    else
      WithTask(s.(inbound := s.inbound.(ended := s.inbound.ended || stage == 1),
                  channel := s.channel.(closed := s.channel.closed || stage == 2)),
               [], FinalizeTask(s.task, stage))
  }

  function PumpStep(cfg: Config, s: Pump, e: Event): Outcome {
    match e
    case TakeCmd => HandleCmd(cfg, s)
    case ReadSocket => HandleRead(cfg, s)
    case DeadlineFires => (s.(task := s.task.(pc := Finalizing(0))), [])
    case ArmMidWrite => (s.(task := Rebind(Arm(cfg, s.now, s.task))), [])
    case WriteEnds(outcome) => WithTask(s, [], EndWrite(cfg, s.now, s.task, outcome))
    case WriteTimesOut => WithTask(s, [], EndWrite(cfg, s.now, s.task, Failed(Closed)))
    case _ => Finalize(s)
  }

  /** A write in progress goes on against the deadline. */
  function Rebind(t: Task): Task { if t.pc.Writing? then t.(pc := Writing(t.pc.job, t.deadline)) else t }

  // ----- the guest's side --------------------------------------------------------------------------------

  function QueueEndError(q: Inbound): Error { if q.overflowed then ReceiveBufferOverflow else Closed }

  /** Taking the head of the queue; its bytes stay charged until the release. */
  function TakeHead(q: Inbound): Inbound {
    if q.queue == [] then q else q.(queue := q.queue[1..], unreleased := Some(q.queue[0].Size()))
  }

  function SendStep(s: Pump, m: Message): Outcome {
    var id := s.guest.calls;
    var g := s.guest.(calls := id + 1);
    if g.localClosed || s.channel.closed then (s.(guest := g), [SendRefused(id)])
    else
      (s.(guest := g.(issued := g.issued + [id]), channel := s.channel.(cmds := s.channel.cmds + [SendCmd(id, m)])),
       [SendCalled(id)])
  }

  function CloseStep(s: Pump, code: Option<nat>, reason: seq<Byte>): Outcome {
    if !CloseArgsOk(code, reason) || s.guest.localClosed then (s, [])
    else
      (s.(guest := s.guest.(localClosed := true, closedAt := Some(s.now)),
          task := s.task.(lifecycle := s.task.lifecycle.Advance(IsClosing)),
          channel := s.channel.(toPost := Some(CloseCmd(FrameFor(code, reason))))), [CloseCalled])
  }

  function ReceiveStep(s: Pump): Outcome {
    var n := s.guest.pendingReceives;
    var g := s.guest.(pendingReceives := if n > 0 then n - 1 else 0);
    // The two signals are polled before the queue.
    if g.claimed then (s.(guest := g), [ReceiveFailed(ReceivingViaStream)])
    else if g.localClosed then (s.(guest := g), [ReceiveFailed(Closed)])
    else if s.inbound.queue != [] then
      (s.(guest := g, inbound := TakeHead(s.inbound)), [Received(s.inbound.queue[0])])
    else if s.inbound.ended then (s.(guest := g), [ReceiveFailed(QueueEndError(s.inbound))])
    else (s, [])
  }

  function StreamStep(s: Pump): Outcome {
    if s.guest.localClosed then (s, [StreamEnd])
    else if s.inbound.queue != [] then (s.(inbound := TakeHead(s.inbound)), [StreamItem(s.inbound.queue[0])])
    else if s.inbound.ended then (s, [StreamEnd])
    else (s, [])
  }

  function OutsideStep(s: Pump, e: Event): Outcome {
    match e
    case SendCall(m) => SendStep(s, m)
    case CloseCall(code, reason) => CloseStep(s, code, reason)
    case PostClose =>
      var c := s.channel;
      var cmds := if c.closed || c.toPost.None? then c.cmds else c.cmds + [c.toPost.value];
      (s.(channel := c.(toPost := None, cmds := cmds)), [])
    case DropSenders => (s.(channel := s.channel.(sendersGone := true)), [])
    case ReceiveCall =>
      if s.guest.localClosed then (s, [ReceiveFailed(Closed)])
      else if s.guest.claimed then (s, [ReceiveFailed(ReceivingViaStream)])
      else (s.(guest := s.guest.(pendingReceives := s.guest.pendingReceives + 1)), [])
    case ReceivePoll => ReceiveStep(s)
    case ClaimCall =>
      if s.guest.localClosed then (s, [ClaimFailed(Closed)])
      else if s.guest.claimed then (s, [ClaimFailed(ReceivingViaStream)])
      else (s.(guest := s.guest.(claimed := true)), [ClaimOk])
    case StreamPoll => StreamStep(s)
    case ReleaseBytes =>
      var q := s.inbound;
      var n := if q.unreleased.Some? then q.unreleased.value else 0;
      (s.(inbound := q.(unreleased := None, buffered := if n <= q.buffered then q.buffered - n else 0)), [])
    case AwaitClosed => (s, if s.task.closeInfo.Some? then [WaitClosed(s.task.closeInfo.value)] else [])
    case ReadState => (s, [StateSeen(s.task.lifecycle)])
    case Arrive(read) => (s.(inbox := s.inbox + [read]), [])
    case _ => (s.(now := s.now + 1), [])
  }

  function StepOf(cfg: Config, s: Pump, e: Event): Outcome {
    if IsPump(e) then PumpStep(cfg, s, e) else OutsideStep(s, e)
  }

  // ----- runs --------------------------------------------------------------------------------------------

  predicate CanRun(cfg: Config, s: Pump, events: seq<Event>)
    decreases |events|
  {
    events == [] || (Enabled(s, events[0]) && CanRun(cfg, StepOf(cfg, s, events[0]).0, events[1..]))
  }

  function Run(cfg: Config, s: Pump, events: seq<Event>): Pump
    decreases |events|
  {
    if events == [] then s else Run(cfg, StepOf(cfg, s, events[0]).0, events[1..])
  }

  /** Everything a run emits. */
  function Trace(cfg: Config, s: Pump, events: seq<Event>): seq<Label>
    decreases |events|
  {
    if events == [] then []
    else var (t, ls) := StepOf(cfg, s, events[0]); ls + Trace(cfg, t, events[1..])
  }
}
