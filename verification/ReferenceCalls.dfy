/** Every call on the reference connection gets the answer its trace owes it, and what is written is what was given. */
module ReferenceCalls {
  import opened Types
  import opened CallIds
  import opened Contract
  import opened Answers
  import opened ReferencePump
  import opened ReferenceInvariants
  import opened ReferenceSends
  import opened ReferenceTermination
  import opened ReferenceRefinement
  import opened PeerInput
  import opened ReferenceDelivery
  import opened ReferenceEnd

  // ----- a run, its last event cut off -------------------------------------------------------------------

  lemma {:induction false} Last(cfg: Config, events: seq<Event>) returns (init: seq<Event>, e: Event)
    requires CanRun(cfg, Start, events) && events != []
    ensures init == events[..|events| - 1] && e == events[|events| - 1] && CanRun(cfg, Start, init)
    ensures var s := Run(cfg, Start, init);
            && Inv(cfg, s) && Enabled(s, e) && Run(cfg, Start, events) == StepOf(cfg, s, e).0
            && Trace(cfg, Start, events) == Trace(cfg, Start, init) + StepOf(cfg, s, e).1
  {
    hide Enabled, StepOf, Inv;
    var k := |events| - 1;
    init, e := events[..k], events[k];
    assert events[..k + 1] == events && events[k + 1..] == [];
    Cut(cfg, events, k);
    StartInv(cfg);
    RunInv(cfg, Start, init);
  }

  /** What the trace says of the state a run reaches. */
  lemma {:induction false} StateSays(cfg: Config, events: seq<Event>)
    requires CanRun(cfg, Start, events)
    ensures var s, ls := Run(cfg, Start, events), Trace(cfg, Start, events);
            && Inv(cfg, s)
            && s.inbound.queue == Waiting(ls)
            && (s.inbound.overflowed <==> Overflowed(ls)) && (s.inbound.ended <==> Label.End in ls)
            && (s.guest.localClosed <==> CloseCalled in ls) && (s.guest.claimed <==> ClaimOk in ls)
            && (s.task.wireClosing || LeftLoop(s.task.pc) <== FirstClose(ls) < |ls|)
            && (s.task.wireClosing ==> FirstClose(ls) < |ls|)
            && s.task.closeInfo == (if Settle in ls then Some(FirstFrame(ls)) else None)
  {
    StartInv(cfg);
    StartMatches();
    hide Inv, Rel, Run, Trace, Step, Exec;
    RunInv(cfg, Start, events);
    RunMatches(cfg, Start, Contract.Init, events);
    var s, ls := Run(cfg, Start, events), Trace(cfg, Start, events);
    var c := Exec(cfg.limit, Contract.Init, ls).value;
    StateIsLabels(cfg.limit, ls, c);
    RelOf(s, c);
  }

  lemma RelOf(s: Pump, c: State)
    requires Rel(s, c)
    ensures c.Backlog() == s.inbound.queue && c.overflowed == s.inbound.overflowed && c.ended == s.inbound.ended
    ensures c.localClosed == s.guest.localClosed && c.claimed == s.guest.claimed && c.outcome == s.task.closeInfo
    ensures (s.task.wireClosing ==> c.stopped) && (c.stopped ==> s.task.wireClosing || LeftLoop(s.task.pc))
  {
  }

  // ----- reads, claims and waits are answered ------------------------------------------------------------

  /** In every reachable state a `receive` that is pending can be polled, unless another reader is about to release its
      bytes, and the poll gives it the answer the trace owes and takes it off the pending ones; owed nothing, it leaves
      all as it is. */
  lemma {:induction false} PollAnswers(cfg: Config, events: seq<Event>)
    requires CanRun(cfg, Start, events) && Run(cfg, Start, events).guest.pendingReceives > 0
    requires Run(cfg, Start, events).inbound.unreleased.None?
    ensures Enabled(Run(cfg, Start, events), ReceivePoll)
    ensures var s, ls := Run(cfg, Start, events), Trace(cfg, Start, events);
            var (t, shown) := StepOf(cfg, s, ReceivePoll);
            match ReceiveAnswer(ls)
            case Some(answer) => shown == [answer] && t.guest.pendingReceives + 1 == s.guest.pendingReceives
            case None => shown == [] && t == s
  {
    StateSays(cfg, events);
    PollStep(cfg, Run(cfg, Start, events), Trace(cfg, Start, events));
    hide Run, Trace, Inv, StepOf, Enabled, ReceiveAnswer, Waiting, Overflowed, FirstClose, CanRun;
  }

  lemma PollStep(cfg: Config, s: Pump, ls: seq<Label>)
    requires s.guest.pendingReceives > 0
    requires s.inbound.queue == Waiting(ls) && (s.inbound.overflowed <==> Overflowed(ls))
    requires (s.inbound.ended <==> Label.End in ls)
    requires (s.guest.localClosed <==> CloseCalled in ls) && (s.guest.claimed <==> ClaimOk in ls)
    ensures s.inbound.unreleased.None? ==> Enabled(s, ReceivePoll)
    ensures var (t, shown) := StepOf(cfg, s, ReceivePoll);
            match ReceiveAnswer(ls)
            case Some(answer) => shown == [answer] && t.guest.pendingReceives + 1 == s.guest.pendingReceives
            case None => shown == [] && t == s
  {
    hide Waiting, Overflowed;
  }

  /** A new `receive` is refused at once after a local close or a claim, else it is pending. */
  lemma {:induction false} ReceiveIsPending(cfg: Config, events: seq<Event>)
    requires CanRun(cfg, Start, events)
    ensures Enabled(Run(cfg, Start, events), ReceiveCall)
    ensures var s, ls := Run(cfg, Start, events), Trace(cfg, Start, events);
            var (t, shown) := StepOf(cfg, s, ReceiveCall);
            match ReceiveRefusal(ls)
            case Some(refusal) => shown == [refusal] && t == s
            case None => shown == [] && t.guest.pendingReceives == s.guest.pendingReceives + 1
  {
    StateSays(cfg, events);
    ReceiveStarts(cfg, Run(cfg, Start, events), Trace(cfg, Start, events));
    hide Run, Trace, Inv, StepOf, Enabled, ReceiveRefusal, Waiting, Overflowed, FirstClose, CanRun;
  }

  lemma ReceiveStarts(cfg: Config, s: Pump, ls: seq<Label>)
    requires (s.guest.localClosed <==> CloseCalled in ls) && (s.guest.claimed <==> ClaimOk in ls)
    ensures Enabled(s, ReceiveCall)
    ensures var (t, shown) := StepOf(cfg, s, ReceiveCall);
            match ReceiveRefusal(ls)
            case Some(refusal) => shown == [refusal] && t == s
            case None => shown == [] && t.guest.pendingReceives == s.guest.pendingReceives + 1
  {
  }

  /** The claimed stream is given what the trace owes it. */
  lemma {:induction false} StreamAnswers(cfg: Config, events: seq<Event>)
    requires CanRun(cfg, Start, events) && ClaimOk in Trace(cfg, Start, events)
    requires Run(cfg, Start, events).inbound.unreleased.None?
    ensures Enabled(Run(cfg, Start, events), StreamPoll)
    ensures var s, ls := Run(cfg, Start, events), Trace(cfg, Start, events);
            var (t, shown) := StepOf(cfg, s, StreamPoll);
            match StreamAnswer(ls)
            case Some(answer) => shown == [answer]
            case None => shown == [] && t == s
  {
    StateSays(cfg, events);
    StreamTurn(cfg, Run(cfg, Start, events), Trace(cfg, Start, events));
    hide Run, Trace, Inv, StepOf, Enabled, StreamAnswer, Waiting, Overflowed, FirstClose, CanRun;
  }

  lemma StreamTurn(cfg: Config, s: Pump, ls: seq<Label>)
    requires s.inbound.queue == Waiting(ls) && (s.inbound.overflowed <==> Overflowed(ls))
    requires (s.inbound.ended <==> Label.End in ls)
    requires (s.guest.localClosed <==> CloseCalled in ls) && (s.guest.claimed <==> ClaimOk in ls)
    ensures ClaimOk in ls && s.inbound.unreleased.None? ==> Enabled(s, StreamPoll)
    ensures var (t, shown) := StepOf(cfg, s, StreamPoll);
            match StreamAnswer(ls)
            case Some(answer) => shown == [answer]
            case None => shown == [] && t == s
  {
    hide Waiting, Overflowed;
  }

  /** A claim is answered at once, and `wait-closed` once the pump is done, with the outcome of the trace. */
  lemma {:induction false} ClaimsAndWaits(cfg: Config, events: seq<Event>)
    requires CanRun(cfg, Start, events)
    ensures var s, ls := Run(cfg, Start, events), Trace(cfg, Start, events);
            && StepOf(cfg, s, ClaimCall).1 == [ClaimAnswer(ls)]
            && StepOf(cfg, s, ReadState).1 == [StateSeen(s.task.lifecycle)]
            && (s.task.pc.Done? ==>
                  Enabled(s, AwaitClosed) && StepOf(cfg, s, AwaitClosed).1 == [WaitClosed(FirstFrame(ls))])
  {
    StateSays(cfg, events);
    DoneHasSettled(cfg, Run(cfg, Start, events));
    ClaimAndWaitSteps(cfg, Run(cfg, Start, events));
    hide Run, Trace, StepOf, Inv, Waiting, Overflowed, CanRun;
  }

  lemma ClaimAndWaitSteps(cfg: Config, s: Pump)
    ensures StepOf(cfg, s, ReadState).1 == [StateSeen(s.task.lifecycle)]
    ensures StepOf(cfg, s, ClaimCall).1
         == [if s.guest.localClosed then ClaimFailed(Closed)
             else if s.guest.claimed then ClaimFailed(ReceivingViaStream) else ClaimOk]
    ensures s.task.pc.Done? ==> Enabled(s, AwaitClosed)
    ensures s.task.closeInfo.Some? ==> StepOf(cfg, s, AwaitClosed).1 == [WaitClosed(s.task.closeInfo.value)]
  {
  }

  lemma DoneHasSettled(cfg: Config, s: Pump)
    requires Inv(cfg, s)
    ensures s.task.pc.Done? ==> s.task.closeInfo.Some?
  {
    InvParts(cfg, s);
    hide Inv;
  }

  /** The reported state, exactly: closed once finalized, closing once anything closes, open before. */
  ghost predicate LifecycleInv(s: Pump) {
    s.task.lifecycle == (if Stage(s.task.pc) > 5 then IsClosed
                         else if s.task.wireClosing || s.guest.localClosed || Stage(s.task.pc) > 4 then IsClosing
                         else IsOpen)
  }

  lemma LifecycleHelpers(cfg: Config, now: nat, t: Task, frame: Option<CloseInfo>, thenBreak: bool)
    requires t.pc.AtSelect?
    ensures var u := BeginClose(cfg, now, t, frame, thenBreak).0;
            && u.wireClosing && Stage(u.pc) == 0
            && u.lifecycle == if t.wireClosing then t.lifecycle else t.lifecycle.Advance(IsClosing)
    ensures var u := PeerCloses(cfg, now, t, frame).0;
            u.wireClosing && Stage(u.pc) == 0 && u.lifecycle == t.lifecycle.Advance(IsClosing)
  {
  }

  lemma LifecycleWrites(cfg: Config, now: nat, t: Task, job: Job, frames: seq<Frame>, result: SendResult)
    ensures t.pc.AtSelect? && !job.CloseJob? ==>
              var u := BoundedWrite(t, job, frames).0;
              u.wireClosing == t.wireClosing && Stage(u.pc) == 0 && u.lifecycle == t.lifecycle
    ensures t.pc.Writing? ==>
              var u := EndWrite(cfg, now, t, result).0;
              u.wireClosing == t.wireClosing && Stage(u.pc) == 0 && u.lifecycle == t.lifecycle
  {
  }

  lemma LifecycleKept(cfg: Config, s: Pump, e: Event)
    requires Enabled(s, e) && ControlInv(s) && LifecycleInv(s)
    ensures LifecycleInv(StepOf(cfg, s, e).0)
  {
    assert Stage(s.task.pc) <= 7;
    hide HandleCmd, HandleRead, Finalize, EndWrite, OutsideStep, ControlInv, LifecycleInv;
    match e
    case TakeCmd => CmdLifecycle(cfg, s);
    case ReadSocket => ReadLifecycle(cfg, s);
    case FinalizeStep => FinalizeLifecycle(s);
    case _ => OtherLifecycle(cfg, s, e);
  }

  lemma CmdLifecycle(cfg: Config, s: Pump)
    requires Enabled(s, TakeCmd) && LifecycleInv(s)
    ensures LifecycleInv(HandleCmd(cfg, s).0)
  {
    hide BeginClose, BoundedWrite;
    if s.channel.cmds == [] {
      LifecycleHelpers(cfg, s.now, s.task.(cmdsDone := true), None, false);
    } else if s.channel.cmds[0].CloseCmd? {
      LifecycleHelpers(cfg, s.now, s.task, s.channel.cmds[0].frame, false);
    } else {
      var cmd := s.channel.cmds[0];
      LifecycleWrites(cfg, s.now, s.task, DataJob(cmd.id), [DataFrame(cmd.id, cmd.message)], Sent);
    }
  }

  lemma FinalizeLifecycle(s: Pump)
    requires Enabled(s, FinalizeStep) && s.task.pc.stage <= 7 && LifecycleInv(s)
    ensures LifecycleInv(Finalize(s).0)
  {
    StatementShows(s.task, s.task.pc.stage);
    StatementStage(s.task);
    hide FinalizeTask;
  }

  lemma StatementStage(t: Task)
    requires t.pc.Finalizing?
    ensures var u := FinalizeTask(t, t.pc.stage).0;
            Stage(u.pc) == if t.pc.stage < 6 then t.pc.stage + 1 else 7
  {
  }

  lemma OtherLifecycle(cfg: Config, s: Pump, e: Event)
    requires Enabled(s, e) && !e.TakeCmd? && !e.ReadSocket? && !e.FinalizeStep? && LifecycleInv(s)
    ensures LifecycleInv(StepOf(cfg, s, e).0)
  {
    hide EndWrite;
    match e
    case WriteEnds(outcome) => LifecycleWrites(cfg, s.now, s.task, FlushJob, [], outcome);
    case WriteTimesOut => LifecycleWrites(cfg, s.now, s.task, FlushJob, [], Failed(Closed));
    case _ =>
  }

  lemma ReadLifecycle(cfg: Config, s: Pump)
    requires Enabled(s, ReadSocket) && LifecycleInv(s)
    ensures LifecycleInv(HandleRead(cfg, s).0)
  {
    hide BeginClose, PeerCloses, BoundedWrite;
    match s.inbox[0]
    case Data(_) => LifecycleHelpers(cfg, s.now, s.task, None, false);
    case CapacityError => LifecycleHelpers(cfg, s.now, s.task, None, true);
    case PeerClose(frame) => LifecycleHelpers(cfg, s.now, s.task, frame, false);
    case Ping => LifecycleWrites(cfg, s.now, s.task, FlushJob, [], Sent);
    case _ =>
  }

  lemma {:induction false} StateIsExact(cfg: Config, events: seq<Event>)
    requires CanRun(cfg, Start, events)
    ensures LifecycleInv(Run(cfg, Start, events))
    decreases |events|
  {
    if events != [] {
      var init, e := Last(cfg, events);
      hide Run, Trace, StepOf, Enabled, CanRun, Inv, LifecycleInv;
      StateIsExact(cfg, init);
      InvParts(cfg, Run(cfg, Start, init));
      LifecycleKept(cfg, Run(cfg, Start, init), e);
    }
  }

  // ----- no call is lost ---------------------------------------------------------------------------------

  function ReceiveCalls(events: seq<Event>): nat {
    if events == [] then 0
    else ReceiveCalls(events[..|events| - 1]) + (if events[|events| - 1].ReceiveCall? then 1 else 0)
  }

  /** The messages given to `send`, by call. */
  function Given(events: seq<Event>): seq<Message> {
    if events == [] then []
    else
      var e := events[|events| - 1];
      Given(events[..|events| - 1]) + (if e.SendCall? then [e.message] else [])
  }

  function AcksAsAnswers(acks: seq<Ack>): seq<SendAnswer> {
    seq(|acks|, i requires 0 <= i < |acks| => SendAnswer(acks[i].id, acks[i].result))
  }

  /** What a step shows of the calls it answers. */
  lemma StepCounts(cfg: Config, s: Pump, e: Event)
    requires Enabled(s, e)
    ensures var (t, ls) := StepOf(cfg, s, e);
            && t.guest.pendingReceives + ReceiveAnswers(ls)
               == s.guest.pendingReceives + (if e.ReceiveCall? then 1 else 0)
            && SendCallsShown(ls) == (if e.SendCall? then 1 else 0)
            && AcksAsAnswers(t.task.acks) == AcksAsAnswers(s.task.acks) + SendAnswers(ls)
  {
    hide BeginClose, PeerCloses, BoundedWrite, EndWrite, AfterWrite, HandleRead, HandleCmd, Finalize, OutsideStep;
    hide ReceiveAnswers, SendCallsShown, SendAnswers, AcksAsAnswers;
    match e
    case TakeCmd => CmdCounts(cfg, s);
    case ReadSocket => ReadCounts(cfg, s);
    case WriteEnds(outcome) =>
      WriteCounts(cfg, s.now, s.task, outcome);
      Prepend([], EndWrite(cfg, s.now, s.task, outcome).1);
    case WriteTimesOut =>
      WriteCounts(cfg, s.now, s.task, Failed(Closed));
      Prepend([], EndWrite(cfg, s.now, s.task, Failed(Closed)).1);
    case FinalizeStep => FinalizeCounts(s);
    case DeadlineFires => CountsNone([]); AckNone(s.task.acks);
    case ArmMidWrite => CountsNone([]); AckNone(s.task.acks);
    case _ => OutsideCounts(s, e);
  }

  lemma Prepend(a: seq<Label>, b: seq<Label>)
    requires a == []
    ensures a + b == b
  {
  }

  lemma AckNone(acks: seq<Ack>)
    ensures AcksAsAnswers(acks) == AcksAsAnswers(acks) + []
  {
  }

  lemma AckOne(acks: seq<Ack>, ack: Ack)
    ensures AcksAsAnswers(acks + [ack]) == AcksAsAnswers(acks) + [SendAnswer(ack.id, ack.result)]
  {
  }

  /** The pump's helpers answer no read and no call, and each ack is shown. */
  ghost predicate Acked(t: Task, out: TaskOut) {
    && ReceiveAnswers(out.1) == 0 && SendCallsShown(out.1) == 0
    && AcksAsAnswers(out.0.acks) == AcksAsAnswers(t.acks) + SendAnswers(out.1)
  }

  lemma AfterWriteCounts(t: Task, job: Job, result: SendResult)
    ensures Acked(t, AfterWrite(t, job, result))
  {
    hide ReceiveAnswers, SendCallsShown, SendAnswers, AcksAsAnswers;
    CountsNone([]);
    AckNone(t.acks);
    if job.DataJob? {
      AckOne(t.acks, Ack(job.id, result));
      CountsOne(SendDone(job.id, result));
    }
  }

  lemma WriteCounts(cfg: Config, now: nat, t: Task, result: SendResult)
    requires t.pc.Writing?
    ensures Acked(t, EndWrite(cfg, now, t, result))
  {
    hide ReceiveAnswers, SendCallsShown, SendAnswers, AcksAsAnswers, AfterWrite;
    if result.Sent? {
      AfterWriteCounts(t, t.pc.job, result);
    } else {
      var dead := Arm(cfg, now, t.(writeDead := true));
      AfterWriteCounts(dead, t.pc.job, result);
      CountsNone([WriteDied]);
      CountsConcat([WriteDied], AfterWrite(dead, t.pc.job, result).1);
      SendAnswersConcat([WriteDied], AfterWrite(dead, t.pc.job, result).1);
      Prepend([], AfterWrite(dead, t.pc.job, result).1);
    }
  }

  lemma StartCounts(t: Task, job: Job, frames: seq<Frame>)
    ensures Acked(t, BoundedWrite(t, job, frames))
  {
    hide ReceiveAnswers, SendCallsShown, SendAnswers, AcksAsAnswers, AfterWrite;
    AfterWriteCounts(t, job, Failed(Closed));
    CountsNone([]);
    AckNone(t.acks);
  }

  lemma AckedAfter(t: Task, u: Task, before: seq<Label>, out: TaskOut)
    requires u.acks == t.acks && Acked(u, out) && ReceiveAnswers(before) == 0 && SendCallsShown(before) == 0
    requires SendAnswers(before) == []
    ensures Acked(t, (out.0, before + out.1))
  {
    CountsConcat(before, out.1);
    SendAnswersConcat(before, out.1);
    hide ReceiveAnswers, SendCallsShown, SendAnswers, AcksAsAnswers;
    assert [] + SendAnswers(out.1) == SendAnswers(out.1);
  }

  lemma CloseCounts(cfg: Config, now: nat, t: Task, frame: Option<CloseInfo>, thenBreak: bool)
    ensures Acked(t, BeginClose(cfg, now, t, frame, thenBreak))
    ensures Acked(t, PeerCloses(cfg, now, t, frame))
  {
    hide ReceiveAnswers, SendCallsShown, SendAnswers, AcksAsAnswers, AfterWrite, BoundedWrite, Acked;
    AfterWriteCounts(t, CloseJob(thenBreak), Sent);
    var u := Arm(cfg, now, t.(wireClosing := true, lifecycle := t.lifecycle.Advance(IsClosing)));
    StartCounts(u, CloseJob(thenBreak), [CloseFrame(frame)]);
    CountsNone([Stop, Progress(IsClosing)]);
    AckedAfter(t, u, [Stop, Progress(IsClosing)], BoundedWrite(u, CloseJob(thenBreak), [CloseFrame(frame)]));
    var info := CloseInfoFrom(frame);
    var v := Arm(cfg, now, t.(peerFrame := if t.peerFrame.None? then Some(info) else t.peerFrame,
                              lifecycle := t.lifecycle.Advance(IsClosing)));
    var seen := [PeerFrame(info), Progress(IsClosing)];
    var w := v.(wireClosing := true);
    StartCounts(w, FlushJob, [CloseFrame(frame)]);
    CountsNone(seen);
    AckedAfter(t, w, seen, BoundedWrite(w, FlushJob, [CloseFrame(frame)]));
    NoneAcked(t, v, seen);
  }

  lemma NoneAcked(t: Task, u: Task, ls: seq<Label>)
    requires u.acks == t.acks && ReceiveAnswers(ls) == 0 && SendCallsShown(ls) == 0 && SendAnswers(ls) == []
    ensures Acked(t, (u, ls))
  {
    AckNone(t.acks);
  }

  lemma CmdCounts(cfg: Config, s: Pump)
    requires Enabled(s, TakeCmd)
    ensures var (t, ls) := HandleCmd(cfg, s); Acked(s.task, (t.task, ls)) && t.guest == s.guest
  {
    hide BeginClose, BoundedWrite, AfterWrite, Acked;
    if s.channel.cmds == [] {
      CloseCounts(cfg, s.now, s.task.(cmdsDone := true), None, false);
      SameAcked(s.task, s.task.(cmdsDone := true), BeginClose(cfg, s.now, s.task.(cmdsDone := true), None, false));
    } else {
      match s.channel.cmds[0]
      case CloseCmd(frame) =>
        CloseCounts(cfg, s.now, s.task, frame, false);
        SameAcked(s.task, s.task, BeginClose(cfg, s.now, s.task, frame, false));
      case SendCmd(id, m) =>
        AfterWriteCounts(s.task, DataJob(id), Failed(Closed));
        StartCounts(s.task, DataJob(id), [DataFrame(id, m)]);
        SameAcked(s.task, s.task, AfterWrite(s.task, DataJob(id), Failed(Closed)));
        SameAcked(s.task, s.task, BoundedWrite(s.task, DataJob(id), [DataFrame(id, m)]));
    }
  }

  lemma SameAcked(t: Task, u: Task, out: TaskOut)
    requires u.acks == t.acks && Acked(u, out)
    ensures Acked(t, (out.0, [] + out.1)) && Acked(t, out)
  {
    assert [] + out.1 == out.1;
  }

  lemma ReadCounts(cfg: Config, s: Pump)
    requires Enabled(s, ReadSocket)
    ensures var (t, ls) := HandleRead(cfg, s); Acked(s.task, (t.task, ls)) && t.guest == s.guest
  {
    hide BeginClose, PeerCloses, BoundedWrite, Acked;
    hide ReceiveAnswers, SendCallsShown, SendAnswers;
    CountsNone([]);
    NoneAcked(s.task, s.task, []);
    match s.inbox[0]
    case Data(m) =>
      CloseCounts(cfg, s.now, s.task, None, false);
      CountsNone([Drop(m)]);
      CountsNone([Accept(m)]);
      CountsNone([Overflow(m)]);
      NoneAcked(s.task, s.task, [Drop(m)]);
      NoneAcked(s.task, s.task, [Accept(m)]);
      AckedAfter(s.task, s.task, [Overflow(m)], BeginClose(cfg, s.now, s.task, None, false));
    case CapacityError =>
      CloseCounts(cfg, s.now, s.task, None, true);
      CountsNone([LatchOverflow]);
      AckedAfter(s.task, s.task, [LatchOverflow], BeginClose(cfg, s.now, s.task, None, true));
    case PeerClose(frame) =>
      CloseCounts(cfg, s.now, s.task, frame, false);
      SameAcked(s.task, s.task, PeerCloses(cfg, s.now, s.task, frame));
    case Ping =>
      StartCounts(s.task, FlushJob, []);
      SameAcked(s.task, s.task, BoundedWrite(s.task, FlushJob, []));
    case OtherFrame =>
    case ReadEnd =>
      CountsNone([InputEnds]);
      NoneAcked(s.task, s.task.(pc := Finalizing(0)), [InputEnds]);
  }

  lemma FinalizeCounts(s: Pump)
    ensures var (t, ls) := Finalize(s); Acked(s.task, (t.task, ls)) && t.guest == s.guest
  {
    var stage := if s.task.pc.Finalizing? then s.task.pc.stage else 0;
    if stage == 3 && s.channel.cmds != [] {
      hide ReceiveAnswers, SendCallsShown, SendAnswers, AcksAsAnswers;
      CountsNone([]);
      AckNone(s.task.acks);
      if s.channel.cmds[0].SendCmd? {
        var id := s.channel.cmds[0].id;
        AckOne(s.task.acks, Ack(id, Failed(Closed)));
        CountsOne(SendDone(id, Failed(Closed)));
      }
    } else {
      hide ReceiveAnswers, SendCallsShown, SendAnswers, AcksAsAnswers;
      StatementShows(s.task, stage);
      CountsNone(StatementLabels(stage));
      hide FinalizeTask;
      assert [] + FinalizeTask(s.task, stage).1 == FinalizeTask(s.task, stage).1;
      AckNone(s.task.acks);
    }
  }

  lemma OutsideCounts(s: Pump, e: Event)
    requires !IsPump(e) && Enabled(s, e)
    ensures var (t, ls) := OutsideStep(s, e);
            && t.guest.pendingReceives + ReceiveAnswers(ls)
               == s.guest.pendingReceives + (if e.ReceiveCall? then 1 else 0)
            && SendCallsShown(ls) == (if e.SendCall? then 1 else 0)
            && AcksAsAnswers(t.task.acks) == AcksAsAnswers(s.task.acks) + SendAnswers(ls)
  {
    var ls := OutsideStep(s, e).1;
    assert ls == [] || ls == [ls[0]];
    AckNone(s.task.acks);
    if ls != [] {
      CountsOne(ls[0]);
    }
    hide ReceiveAnswers, SendCallsShown, SendAnswers, AcksAsAnswers;
    CountsNone([]);
  }

  /** In every run: each `receive` call was answered once or is pending, each `send` call was taken or refused at the
      call, and the answers of the sends taken are the acks, in order. */
  lemma {:induction false} NoCallIsLost(cfg: Config, events: seq<Event>)
    requires CanRun(cfg, Start, events)
    ensures var s, ls := Run(cfg, Start, events), Trace(cfg, Start, events);
            && ReceiveCalls(events) == ReceiveAnswers(ls) + s.guest.pendingReceives
            && |Given(events)| == SendCallsShown(ls)
            && AcksAsAnswers(s.task.acks) == SendAnswers(ls)
    decreases |events|
  {
    if events != [] {
      var init, e := Last(cfg, events);
      NoCallIsLost(cfg, init);
      var s := Run(cfg, Start, init);
      StepCounts(cfg, s, e);
      hide Run, Trace, StepOf, Enabled, CanRun, Inv, ReceiveAnswers, SendCallsShown, SendAnswers, AcksAsAnswers;
      CountsConcat(Trace(cfg, Start, init), StepOf(cfg, s, e).1);
      SendAnswersConcat(Trace(cfg, Start, init), StepOf(cfg, s, e).1);
    }
  }

  // ----- the outcome -------------------------------------------------------------------------------------

  lemma StepSettlesLast(cfg: Config, s: Pump, e: Event)
    requires Enabled(s, e)
    ensures var (t, ls) := StepOf(cfg, s, e);
            && (Settle in ls ==> e.FinalizeStep?)
            && (t.task.closeInfo.Some? <==> s.task.closeInfo.Some? || Settle in ls)
  {
    hide BeginClose, PeerCloses, BoundedWrite, EndWrite, AfterWrite, FinalizeTask;
    match e
    case TakeCmd => CmdSettles(cfg, s);
    case ReadSocket => ReadSettles(cfg, s);
    case WriteEnds(outcome) => WritesSettle(cfg, s.now, s.task, FlushJob, [], outcome);
    case WriteTimesOut => WritesSettle(cfg, s.now, s.task, FlushJob, [], Failed(Closed));
    case FinalizeStep => StatementShows(s.task, s.task.pc.stage);
    case _ =>
  }

  ghost predicate Unsettling(t: Task, out: TaskOut) {
    Settle !in out.1 && out.0.closeInfo == t.closeInfo
  }

  lemma WritesSettle(cfg: Config, now: nat, t: Task, job: Job, frames: seq<Frame>, result: SendResult)
    ensures Unsettling(t, BoundedWrite(t, job, frames)) && Unsettling(t, EndWrite(cfg, now, t, result))
    ensures Unsettling(t, AfterWrite(t, job, result))
  {
  }

  lemma ClosesSettle(cfg: Config, now: nat, t: Task, frame: Option<CloseInfo>, thenBreak: bool)
    ensures Unsettling(t, BeginClose(cfg, now, t, frame, thenBreak)) && Unsettling(t, PeerCloses(cfg, now, t, frame))
  {
  }

  lemma CmdSettles(cfg: Config, s: Pump)
    requires Enabled(s, TakeCmd)
    ensures Settle !in HandleCmd(cfg, s).1 && HandleCmd(cfg, s).0.task.closeInfo == s.task.closeInfo
  {
    hide BeginClose, BoundedWrite, AfterWrite;
    if s.channel.cmds == [] {
      ClosesSettle(cfg, s.now, s.task.(cmdsDone := true), None, false);
    } else {
      match s.channel.cmds[0]
      case CloseCmd(frame) => ClosesSettle(cfg, s.now, s.task, frame, false);
      case SendCmd(id, m) => WritesSettle(cfg, s.now, s.task, DataJob(id), [DataFrame(id, m)], Failed(Closed));
    }
  }

  lemma ReadSettles(cfg: Config, s: Pump)
    requires Enabled(s, ReadSocket)
    ensures Settle !in HandleRead(cfg, s).1 && HandleRead(cfg, s).0.task.closeInfo == s.task.closeInfo
  {
    hide BeginClose, PeerCloses, BoundedWrite;
    match s.inbox[0]
    case Data(_) => ClosesSettle(cfg, s.now, s.task, None, false);
    case CapacityError => ClosesSettle(cfg, s.now, s.task, None, true);
    case PeerClose(frame) => ClosesSettle(cfg, s.now, s.task, frame, false);
    case Ping => WritesSettle(cfg, s.now, s.task, FlushJob, [], Sent);
    case _ =>
  }

  /** Nothing is read once the outcome settled. */
  lemma {:induction false} AllReadBeforeSettle(cfg: Config, events: seq<Event>)
    requires CanRun(cfg, Start, events)
    ensures var s, ls := Run(cfg, Start, events), Trace(cfg, Start, events);
            ReadBeforeSettle(ls) == Inputs(ls) && (Settle in ls <==> s.task.closeInfo.Some?)
    decreases |events|
  {
    NoSettle([]);
    if events != [] {
      var init, e := Last(cfg, events);
      var s := Run(cfg, Start, init);
      AllReadBeforeSettle(cfg, init);
      StepSettlesLast(cfg, s, e);
      StepInputs(cfg, s, e);
      InvParts(cfg, s);
      SettledIsPastLoop(s);
      hide Run, Trace, StepOf, CanRun, Inv, Inputs, ReadBeforeSettle, ControlInv, TimeInv, CauseInv;
      NoSettle(StepOf(cfg, s, e).1);
      SettleReadsNoMore(Trace(cfg, Start, init), StepOf(cfg, s, e).1);
    }
  }

  lemma SettledIsPastLoop(s: Pump)
    requires ControlInv(s)
    ensures s.task.closeInfo.Some? ==> LeftLoop(s.task.pc)
  {
  }

  /** In every run each `wait-closed` reports the first close frame read; and what was read, with what still waits at
      the socket, is what the peer sent. */
  lemma {:induction false} WaitClosedIsFirstRead(cfg: Config, events: seq<Event>, i: nat)
    requires CanRun(cfg, Start, events) && i < |Trace(cfg, Start, events)| && Trace(cfg, Start, events)[i].WaitClosed?
    ensures var ls := Trace(cfg, Start, events);
            && ls[i].outcome == FirstOf(Inputs(ls))
            && Inputs(ls) + InputsIn(Run(cfg, Start, events).inbox) == InputsIn(SentBy(events))
  {
    hide Run, Trace, Inputs, Delivers, CanRun, ReadBeforeSettle, FirstOf, SentBy;
    DeliversWhatThePeerSent(cfg, events);
    AllReadBeforeSettle(cfg, events);
    OutcomeSays(cfg.limit, Trace(cfg, Start, events), InputsIn(SentBy(events)), i);
    RunInputs(cfg, Start, events);
    assert InputsIn(Start.inbox) == [];
    hide InputsIn;
    assert [] + InputsIn(SentBy(events)) == InputsIn(SentBy(events));
  }

  lemma OutcomeSays(limit: nat, ls: seq<Label>, sent: seq<Input>, i: nat)
    requires Delivers(limit, ls, sent) && i < |ls| && ls[i].WaitClosed?
    ensures ls[i].outcome == FirstOf(ReadBeforeSettle(ls))
  {
  }

  /** The frame the peer's first close frame read is reported as: its code and reason, 1005 and no reason without a
      body. */
  lemma {:induction false} WaitClosedReports(cfg: Config, events: seq<Event>, k: nat, i: nat)
    requires CanRun(cfg, Start, events) && i < |Trace(cfg, Start, events)| && Trace(cfg, Start, events)[i].WaitClosed?
    requires k < |SentBy(events)| && SentBy(events)[k].PeerClose?
    requires forall j :: 0 <= j < k ==> !SentBy(events)[j].PeerClose?
    requires |InputsIn(SentBy(events)[..k + 1])| <= |Inputs(Trace(cfg, Start, events))|   // it was read
    ensures Trace(cfg, Start, events)[i].outcome
         == Some(match SentBy(events)[k].frame
                 case None => CloseInfo(1005, [])
                 case Some(body) => CloseInfo(body.code, body.reason))
  {
    WaitClosedIsFirstRead(cfg, events, i);
    hide Run, Trace, Inputs, SentBy, CanRun, InputOf, InputsIn, FirstOf;
    FirstFrameReported(SentBy(events), k, Inputs(Trace(cfg, Start, events)), InputsIn(Run(cfg, Start, events).inbox));
  }

  lemma FirstFrameReported(sent: seq<Read>, k: nat, read: seq<Input>, left: seq<Input>)
    requires k < |sent| && sent[k].PeerClose? && forall j :: 0 <= j < k ==> !sent[j].PeerClose?
    requires read + left == InputsIn(sent) && |InputsIn(sent[..k + 1])| <= |read|
    ensures FirstOf(read) == Some(match sent[k].frame
                                  case None => CloseInfo(1005, [])
                                  case Some(body) => CloseInfo(body.code, body.reason))
  {
    var before, upTo := sent[..k], InputsIn(sent[..k + 1]);
    NoFramesIn(before);
    FirstOfOne(InputOf(sent[k]));
    assert sent == sent[..k + 1] + sent[k + 1..] && sent[..k + 1] == before + [sent[k]];
    InputsInConcat(sent[..k + 1], sent[k + 1..]);
    InputsInConcat(before, [sent[k]]);
    assert InputsIn([sent[k]]) == InputOf(sent[k]) by { assert [sent[k]][1..] == []; }
    hide InputsIn, FirstOf;
    FirstConcat(InputsIn(before), InputOf(sent[k]));
    assert upTo == (read + left)[..|upTo|] == read[..|upTo|];
    FirstConcat(upTo, read[|upTo|..]);
    assert read == upTo + read[|upTo|..];
  }

  lemma FirstOfOne(input: seq<Input>)
    requires |input| == 1 && input[0].Frame?
    ensures FirstOf(input) == Some(input[0].info)
  {
  }

  lemma {:induction false} NoFramesIn(came: seq<Read>)
    requires forall j :: 0 <= j < |came| ==> !came[j].PeerClose?
    ensures FirstOf(InputsIn(came)) == None
  {
    if came != [] {
      NoFramesIn(came[1..]);
      FirstConcat(InputOf(came[0]), InputsIn(came[1..]));
      assert InputOf(came[0]) != [] ==> InputOf(came[0])[1..] == [];
    }
  }
}
