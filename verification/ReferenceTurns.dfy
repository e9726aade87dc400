/** What the reference pump does at its turns: commands first, pings flushed, no send failed without a cause. */
module ReferenceTurns {
  import opened Types
  import opened Contract
  import opened Answers
  import opened PeerInput
  import opened ReferencePump
  import opened ReferenceInvariants
  import opened ReferenceTermination
  import opened ReferenceRefinement
  import opened ReferenceDelivery
  import opened ReferenceSends
  import opened ReferenceCalls
  import opened ReferenceWritten

  // ----- the loop's three arms ---------------------------------------------------------------------------

  /** The select is biased: while a command waits, it alone is taken, and a message is never accepted ahead of it; bytes
      come before an expired deadline. Time stands still while there is a turn to take. */
  lemma {:induction false} CommandsGoFirst(cfg: Config, events: seq<Event>, e: Event)
    requires CanRun(cfg, Start, events)
    ensures var s := Run(cfg, Start, events);
            && (s.task.pc.AtSelect? && s.channel.cmds != [] ==>
                  && Enabled(s, TakeCmd) && !Enabled(s, Tick)
                  && (IsPump(e) && Enabled(s, e) ==> e.TakeCmd?)
                  && (Enabled(s, e) ==> Inputs(StepOf(cfg, s, e).1) == []))
            && (s.task.pc.AtSelect? && s.inbox != [] ==> !Enabled(s, DeadlineFires) && !Enabled(s, Tick))
  {
    var s := Run(cfg, Start, events);
    hide Run, StepOf, Inputs;
    if Enabled(s, e) {
      StepInputs(cfg, s, e);
    }
  }

  /** A ping's reply is flushed in a write that races the armed deadline; a dead write half reads on. Any other control
      frame is passed over. */
  lemma {:induction false} PingIsFlushed(cfg: Config, events: seq<Event>)
    requires CanRun(cfg, Start, events) && Enabled(Run(cfg, Start, events), ReadSocket)
    requires Run(cfg, Start, events).inbox[0].Ping? || Run(cfg, Start, events).inbox[0].OtherFrame?
    ensures var s := Run(cfg, Start, events);
            var (t, shown) := StepOf(cfg, s, ReadSocket);
            var flushes := s.inbox[0].Ping? && !s.task.writeDead;
            && shown == [] && t.task.wire == s.task.wire && t.inbox == s.inbox[1..]
            && t.task.pc == (if flushes then Writing(FlushJob, s.task.deadline) else AtSelect)
  {
    var s := Run(cfg, Start, events);
    assert s.task.wire + [] == s.task.wire;
    hide Run;
  }

  /** Once every handle is gone nothing more is called, and the loop sees the channel's end after its last command. */
  lemma HandlesGone(cfg: Config, s: Pump, m: Message, code: Option<nat>, reason: seq<Byte>)
    requires Enabled(s, DropSenders)
    ensures var (t, shown) := StepOf(cfg, s, DropSenders);
            && shown == [] && t.channel.cmds == s.channel.cmds
            && !Enabled(t, SendCall(m)) && !Enabled(t, CloseCall(code, reason))
            && (t.task.pc.AtSelect? && !t.task.cmdsDone ==>
                  Enabled(t, TakeCmd) && (t.channel.cmds == [] ==> StepOf(cfg, t, TakeCmd).0.task.cmdsDone))
  {
  }

  // ----- sends -------------------------------------------------------------------------------------------

  /** Until a local close, `send` and `close` can be called. A send is taken as long as neither the guest nor the end of
      the queue closed the connection, and refused after a local close and once the pump is done. */
  lemma {:induction false} SendIsTaken(cfg: Config, events: seq<Event>, m: Message)
    requires CanRun(cfg, Start, events)
    ensures var s, ls := Run(cfg, Start, events), Trace(cfg, Start, events);
            var (t, shown) := StepOf(cfg, s, SendCall(m));
            && (CloseCalled !in ls ==>
                  Enabled(s, SendCall(m)) && forall code, reason :: Enabled(s, CloseCall(code, reason)))
            && (CloseCalled !in ls && Label.End !in ls ==>
                  && shown == [SendCalled(s.guest.calls)]
                  && t.channel.cmds == s.channel.cmds + [SendCmd(s.guest.calls, m)])
            && (CloseCalled in ls || s.task.pc.Done? ==> shown == [SendRefused(s.guest.calls)])
  {
    StateSays(cfg, events);
    ChannelSays(cfg, Run(cfg, Start, events));
    SendSteps(cfg, Run(cfg, Start, events), m);
    hide Run, Trace, Inv, StepOf, Enabled, CanRun, Waiting, Overflowed;
    CallsAreOpen(Run(cfg, Start, events), m);
  }

  lemma CallsAreOpen(s: Pump, m: Message)
    requires s.channel.sendersGone || s.channel.toPost.Some? ==> s.guest.localClosed
    ensures !s.guest.localClosed ==>
              Enabled(s, SendCall(m)) && forall code, reason :: Enabled(s, CloseCall(code, reason))
  {
  }

  lemma ChannelSays(cfg: Config, s: Pump)
    requires Inv(cfg, s)
    ensures s.channel.closed ==> s.inbound.ended
    ensures s.task.pc.Done? ==> s.channel.closed
    ensures s.channel.sendersGone || s.channel.toPost.Some? ==> s.guest.localClosed
  {
    InvParts(cfg, s);
    hide Inv;
  }

  lemma SendSteps(cfg: Config, s: Pump, m: Message)
    ensures var (t, shown) := StepOf(cfg, s, SendCall(m));
            if s.guest.localClosed || s.channel.closed then shown == [SendRefused(s.guest.calls)]
            else
              && shown == [SendCalled(s.guest.calls)]
              && t.channel.cmds == s.channel.cmds + [SendCmd(s.guest.calls, m)]
  {
  }

  /** A send is answered as its write ended, and `closed` when it stalled past the deadline; either failure is the end
      of the write half. */
  lemma WriteAnswers(cfg: Config, s: Pump, outcome: SendResult)
    requires s.task.pc.Writing? && s.task.pc.job.DataJob?
    ensures var id, died := s.task.pc.job.id, if outcome.Sent? then [] else [WriteDied];
            && StepOf(cfg, s, WriteEnds(outcome)).1 == died + [SendDone(id, outcome)]
            && StepOf(cfg, s, WriteTimesOut).1 == [WriteDied, SendDone(id, Failed(Closed))]
            && StepOf(cfg, s, WriteTimesOut).0.task.writeDead
            && (StepOf(cfg, s, WriteEnds(outcome)).0.task.writeDead <==> s.task.writeDead || outcome.Failed?)
  {
  }

  /** A send whose failure has no cause yet: the pump neither closes nor lost its write half, and its queue is open. */
  predicate Healthy(s: Pump) { !s.task.wireClosing && !s.task.writeDead && !s.inbound.ended }

  lemma StepFails(cfg: Config, s: Pump, e: Event)
    requires Enabled(s, e) && ControlInv(s) && Healthy(s)
    ensures FailsExcused(StepOf(cfg, s, e).1, {})
  {
    hide HandleCmd, HandleRead, EndWrite, Finalize, OutsideStep;
    match e
    case TakeCmd => CmdFails(cfg, s);
    case ReadSocket => ReadingFails(cfg, s);
    case WriteEnds(outcome) => WriteFails(cfg, s.now, s.task, outcome);
    case WriteTimesOut => WriteFails(cfg, s.now, s.task, Failed(Closed));
    case FinalizeStep => FinalizeFails(s);
    case DeadlineFires =>
    case ArmMidWrite =>
    case _ => OutsideFails(s, e);
  }

  lemma CmdFails(cfg: Config, s: Pump)
    requires Enabled(s, TakeCmd) && Healthy(s)
    ensures FailsExcused(HandleCmd(cfg, s).1, {})
  {
  }

  lemma ReadingFails(cfg: Config, s: Pump)
    requires Enabled(s, ReadSocket)
    ensures FailsExcused(HandleRead(cfg, s).1, {})
  {
    hide Excused;
  }

  lemma WriteFails(cfg: Config, now: nat, t: Task, result: SendResult)
    requires t.pc.Writing?
    ensures FailsExcused([] + EndWrite(cfg, now, t, result).1, {})
  {
    var ls := [] + EndWrite(cfg, now, t, result).1;
    if !result.Sent? {
      assert ls[..1] == [WriteDied] && WriteDied in ls[..1];
    }
  }

  lemma FinalizeFails(s: Pump)
    requires Enabled(s, FinalizeStep) && ControlInv(s) && !s.inbound.ended
    ensures FailsExcused(Finalize(s).1, {})
  {
    assert s.task.pc.stage <= 1;
    StatementShows(s.task, s.task.pc.stage);
    hide FinalizeTask;
  }

  lemma OutsideFails(s: Pump, e: Event)
    requires !IsPump(e) && Enabled(s, e)
    ensures FailsExcused(OutsideStep(s, e).1, {})
  {
    hide Excused;
  }

  /** In every run a send fails only after something ended acceptance or a write died: on a healthy connection every
      send is written, and answered `Ok`. */
  lemma {:induction false} FailuresInEveryRun(cfg: Config, events: seq<Event>)
    requires CanRun(cfg, Start, events)
    ensures FailsExcused(Trace(cfg, Start, events), {})
    ensures Run(cfg, Start, events).task.writeDead ==> WriteDied in Trace(cfg, Start, events)
    decreases |events|
  {
    if events != [] {
      var init, e := Last(cfg, events);
      var s := Run(cfg, Start, init);
      FailuresInEveryRun(cfg, init);
      StateSays(cfg, init);
      InvParts(cfg, s);
      hide Run, Trace, StepOf, CanRun, Inv, Enabled, FailsExcused, Excused, Waiting, Overflowed, FirstClose;
      if Healthy(s) {
        StepFails(cfg, s, e);
      } else {
        Unhealthy(s, Trace(cfg, Start, init));
      }
      FailsConcat(Trace(cfg, Start, init), StepOf(cfg, s, e).1, {}, {});
      StepDies(cfg, s, e);
    }
  }

  lemma Unhealthy(s: Pump, ls: seq<Label>)
    requires !Healthy(s) && (s.task.wireClosing ==> FirstClose(ls) < |ls|)
    requires (s.task.writeDead ==> WriteDied in ls) && (s.inbound.ended ==> Label.End in ls)
    ensures Excused(ls)
  {
    hide FirstClose;
    if !s.task.writeDead {
      CauseExcuses(ls);
    }
  }

  lemma StepDies(cfg: Config, s: Pump, e: Event)
    requires Enabled(s, e)
    ensures StepOf(cfg, s, e).0.task.writeDead ==> s.task.writeDead || WriteDied in StepOf(cfg, s, e).1
  {
    hide FinalizeTask;
    if e.FinalizeStep? {
      StatementDies(s.task, s.task.pc.stage);
    }
  }

  lemma StatementDies(t: Task, stage: nat)
    ensures FinalizeTask(t, stage).0.writeDead == t.writeDead
  {
  }

  // ----- the end of reading ------------------------------------------------------------------------------

  /** The loop was left, or will be once the close that a message past the cap caused is written. */
  predicate Leaving(pc: Pc) { LeftLoop(pc) || (pc.Writing? && pc.job == CloseJob(true)) }

  lemma StepLeaves(cfg: Config, s: Pump, e: Event)
    requires Enabled(s, e)
    ensures Leaving(s.task.pc) ==> Leaving(StepOf(cfg, s, e).0.task.pc)
    ensures e.ReadSocket? && (s.inbox[0].CapacityError? || s.inbox[0].ReadEnd?) ==>
              Leaving(StepOf(cfg, s, e).0.task.pc)
  {
    hide FinalizeTask;
    if e.FinalizeStep? {
      StatementLeaves(s.task, s.task.pc.stage);
    }
  }

  lemma StatementLeaves(t: Task, stage: nat)
    ensures LeftLoop(FinalizeTask(t, stage).0.pc)
  {
  }

  /** In every run nothing is read after a message past the cap, or after the transport's end: the pump leaves its loop
      then, whatever it was doing. */
  lemma {:induction false} EndIsReadLast(cfg: Config, events: seq<Event>)
    requires CanRun(cfg, Start, events)
    ensures EndIsLast(Inputs(Trace(cfg, Start, events)))
    ensures ReadEnds(Inputs(Trace(cfg, Start, events))) ==> Leaving(Run(cfg, Start, events).task.pc)
    decreases |events|
  {
    if events == [] {
      NoInputs([]);
    } else {
      var init, e := Last(cfg, events);
      var s, ls := Run(cfg, Start, init), Trace(cfg, Start, init);
      EndIsReadLast(cfg, init);
      StepInputs(cfg, s, e);
      StepLeaves(cfg, s, e);
      hide Run, Trace, StepOf, CanRun, Inv, Inputs, EndIsLast, ReadEnds;
      OneInput(s, e);
      EndIsLastConcat(Inputs(ls), Inputs(StepOf(cfg, s, e).1));
      InputsConcat(ls, StepOf(cfg, s, e).1);
      EndsEither(Inputs(ls), Inputs(StepOf(cfg, s, e).1));
    }
  }

  lemma OneInput(s: Pump, e: Event)
    requires Enabled(s, e)
    ensures var read := if e.ReadSocket? then InputOf(s.inbox[0]) else [];
            && EndIsLast(read) && (Leaving(s.task.pc) ==> read == [])
            && (ReadEnds(read) ==> e.ReadSocket? && (s.inbox[0].CapacityError? || s.inbox[0].ReadEnd?))
  {
  }

  lemma EndsEither(a: seq<Input>, b: seq<Input>)
    ensures ReadEnds(a + b) ==> ReadEnds(a) || ReadEnds(b)
  {
  }
}
