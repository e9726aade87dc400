/** The reference pump end to end: from what the peer sent to what the guest was handed. */
module ReferenceDelivery {
  import opened Types
  import opened Contract
  import opened PeerInput
  import opened ReferencePump
  import opened ReferenceRefinement

  function InputOf(read: Read): seq<Input> {
    match read
    case Data(m) => [Msg(m)]
    case PeerClose(None) => [Frame(CloseInfo(1005, []))]
    case PeerClose(Some(body)) => [Frame(CloseInfo(body.code, body.reason))]
    case CapacityError => [Oversized]
    case ReadEnd => [Ended]
    case _ => []
  }

  function InputsIn(arrived: seq<Read>): seq<Input> {
    if arrived == [] then [] else InputOf(arrived[0]) + InputsIn(arrived[1..])
  }

  /** What reached the socket in a run. */
  function SentBy(events: seq<Event>): seq<Read> {
    if events == [] then []
    else (if events[0].Arrive? then [events[0].read] else []) + SentBy(events[1..])
  }

  lemma {:induction false} InputsInConcat(a: seq<Read>, b: seq<Read>)
    ensures InputsIn(a + b) == InputsIn(a) + InputsIn(b)
  {
    if a == [] {
      assert a + b == b;
    } else {
      assert (a + b)[0] == a[0] && (a + b)[1..] == a[1..] + b;
      InputsInConcat(a[1..], b);
    }
  }

  lemma HelperInputs(cfg: Config, now: nat, t: Task, frame: Option<CloseInfo>, thenBreak: bool)
    requires t.pc.AtSelect?
    ensures forall l <- BeginClose(cfg, now, t, frame, thenBreak).1 :: InputBy(l) == []
    ensures Inputs(PeerCloses(cfg, now, t, frame).1) == [Frame(CloseInfoFrom(frame))]
  {
    hide BeginClose, PeerCloses;
    BeginCloseLabels(cfg, now, t, frame, thenBreak);
    PeerClosesLabels(cfg, now, t, frame);
    var seen := PeerCloses(cfg, now, t, frame).1;
    assert seen[1..] == [Progress(IsClosing)];
    NoInputs(seen[1..]);
  }

  /** A step reads exactly the input it says it reads. */
  lemma StepInputs(cfg: Config, s: Pump, e: Event)
    requires Enabled(s, e)
    ensures Inputs(StepOf(cfg, s, e).1) == if e.ReadSocket? then InputOf(s.inbox[0]) else []
  {
    hide HandleCmd, HandleRead, OutsideStep, Inputs, InputOf;
    match e
    case ReadSocket => ReadInputs(cfg, s);
    case TakeCmd => CmdInputs(cfg, s);
    case _ =>
      QuietLabels(cfg, s, e);
      hide StepOf;
      NoInputs(StepOf(cfg, s, e).1);
  }

  lemma QuietLabels(cfg: Config, s: Pump, e: Event)
    requires Enabled(s, e) && !e.ReadSocket? && !e.TakeCmd?
    ensures forall l <- StepOf(cfg, s, e).1 :: InputBy(l) == []
  {
    hide EndWrite, AfterWrite;
    match e
    case WriteEnds(outcome) => WriteInputs(cfg, s.now, s.task, outcome);
    case WriteTimesOut => WriteInputs(cfg, s.now, s.task, Failed(Closed));
    case _ =>
  }

  lemma WriteInputs(cfg: Config, now: nat, t: Task, result: SendResult)
    requires t.pc.Writing?
    ensures forall l <- EndWrite(cfg, now, t, result).1 :: InputBy(l) == []
  {
  }

  lemma StartInputs(t: Task, job: Job, frames: seq<Frame>)
    ensures forall l <- BoundedWrite(t, job, frames).1 :: InputBy(l) == []
  {
  }

  lemma CmdInputs(cfg: Config, s: Pump)
    requires Enabled(s, TakeCmd)
    ensures Inputs(HandleCmd(cfg, s).1) == []
  {
    hide BeginClose, BoundedWrite, Inputs;
    if s.channel.cmds == [] {
      HelperInputs(cfg, s.now, s.task.(cmdsDone := true), None, false);
    } else {
      match s.channel.cmds[0]
      case CloseCmd(frame) => HelperInputs(cfg, s.now, s.task, frame, false);
      case SendCmd(id, m) => StartInputs(s.task, DataJob(id), [DataFrame(id, m)]);
    }
    NoInputs(HandleCmd(cfg, s).1);
  }

  lemma ReadInputs(cfg: Config, s: Pump)
    requires Enabled(s, ReadSocket)
    ensures Inputs(HandleRead(cfg, s).1) == InputOf(s.inbox[0])
  {
    hide BeginClose, PeerCloses, BoundedWrite, Inputs;
    var ls := HandleRead(cfg, s).1;
    match s.inbox[0]
    case Data(m) =>
      HelperInputs(cfg, s.now, s.task, None, false);
      assert ls == [ls[0]] + ls[1..];
      NoInputs(ls[1..]);
      InputsOne(ls[0]);
      InputsConcat([ls[0]], ls[1..]);
    case PeerClose(frame) =>
      HelperInputs(cfg, s.now, s.task, frame, false);
      assert ls == PeerCloses(cfg, s.now, s.task, frame).1;
    case CapacityError =>
      HelperInputs(cfg, s.now, s.task, None, true);
      assert ls == [LatchOverflow] + ls[1..];
      NoInputs(ls[1..]);
      InputsOne(LatchOverflow);
      InputsConcat([LatchOverflow], ls[1..]);
    case Ping =>
      StartInputs(s.task, FlushJob, []);
      NoInputs(ls);
    case ReadEnd => InputsOne(InputEnds);
    case _ => NoInputs(ls);
  }

  lemma StepInbox(cfg: Config, s: Pump, e: Event)
    requires Enabled(s, e)
    ensures StepOf(cfg, s, e).0.inbox
         == if e.ReadSocket? then s.inbox[1..] else if e.Arrive? then s.inbox + [e.read] else s.inbox
  {
    hide BeginClose, PeerCloses, BoundedWrite, EndWrite, AfterWrite;
  }

  /** A step moves input from the socket to the trace, or from the peer to the socket. */
  lemma Regroup(now: seq<Input>, later: seq<Input>, left: seq<Input>, inbox: seq<Input>, inbox': seq<Input>,
                came: seq<Input>, coming: seq<Input>)
    requires later + left == inbox' + coming
    requires now + inbox' == inbox + came
    ensures (now + later) + left == inbox + (came + coming)
  {
    assert (now + later) + left == now + (later + left);
    assert now + (inbox' + coming) == (now + inbox') + coming;
    assert (inbox + came) + coming == inbox + (came + coming);
  }

  lemma StepMovesInput(cfg: Config, s: Pump, e: Event, now: seq<Read>)
    requires Enabled(s, e) && now == if e.Arrive? then [e.read] else []
    ensures var (t, ls) := StepOf(cfg, s, e); Inputs(ls) + InputsIn(t.inbox) == InputsIn(s.inbox) + InputsIn(now)
  {
    hide StepOf, Inputs, InputOf;
    StepInputs(cfg, s, e);
    StepInbox(cfg, s, e);
    InputsInConcat(s.inbox, now);
    var (t, ls) := StepOf(cfg, s, e);
    assert !e.ReadSocket? ==> t.inbox == s.inbox + now && [] + InputsIn(t.inbox) == InputsIn(t.inbox);
    assert e.ReadSocket? ==> InputsIn(s.inbox) + [] == InputsIn(s.inbox);
  }

  /** Over a run: what was read, and what still waits at the socket, is exactly what the peer sent. */
  lemma {:induction false} RunInputs(cfg: Config, s: Pump, events: seq<Event>)
    requires CanRun(cfg, s, events)
    ensures Inputs(Trace(cfg, s, events)) + InputsIn(Run(cfg, s, events).inbox)
         == InputsIn(s.inbox) + InputsIn(SentBy(events))
    decreases |events|
  {
    hide StepOf, Inputs, InputOf;
    if events == [] {
      NoInputs([]);
      assert [] + InputsIn(s.inbox) == InputsIn(s.inbox) == InputsIn(s.inbox) + [];
    } else {
      var e := events[0];
      var (t, ls) := StepOf(cfg, s, e);
      var now := if e.Arrive? then [e.read] else [];
      StepMovesInput(cfg, s, e, now);
      hide Enabled, InputsIn;
      RunInputs(cfg, t, events[1..]);
      InputsConcat(ls, Trace(cfg, t, events[1..]));
      InputsInConcat(now, SentBy(events[1..]));
      assert SentBy(events) == now + SentBy(events[1..]);
      Regroup(Inputs(ls), Inputs(Trace(cfg, t, events[1..])), InputsIn(Run(cfg, s, events).inbox),
              InputsIn(s.inbox), InputsIn(t.inbox), InputsIn(now), InputsIn(SentBy(events[1..])));
    }
  }

  /** For every run: what the guest is handed is a prefix, in order and each once, of the data messages the
      peer sent before acceptance ended; all of them once a read or the stream found the end with no local close;
      and `wait-closed` reports the peer's first close frame or none. */
  lemma {:induction false} DeliversWhatThePeerSent(cfg: Config, events: seq<Event>)
    requires CanRun(cfg, Start, events)
    ensures Delivers(cfg.limit, Trace(cfg, Start, events), InputsIn(SentBy(events)))
  {
    RunInputs(cfg, Start, events);
    hide Inputs, Run, Trace, CanRun, SentBy;
    var read, left := Inputs(Trace(cfg, Start, events)), InputsIn(Run(cfg, Start, events).inbox);
    assert InputsIn(Start.inbox) == [];
    assert read + left == InputsIn(SentBy(events));
    ImplementsContract(cfg, events);
    AllowedDelivers(cfg.limit, Trace(cfg, Start, events), InputsIn(SentBy(events)));
  }
}
