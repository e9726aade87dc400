/** What a local close does to the sends the reference pump was given before it. */
module ReferenceClose {
  import opened Types
  import opened Contract
  import opened ReferencePump
  import opened ReferenceInvariants
  import opened ReferenceSends
  import opened ReferenceTermination
  import opened ReferenceRefinement

  /** No send is pending, or the pump will write no more data. */
  predicate NothingToFlush(s: Pump) { Pending(s) == [] || Over(s.task) }

  // ----- nothing to flush: every later answer is `closed` ------------------------------------------------

  lemma {:induction false} NoIdsNoSends(cmds: seq<Cmd>)
    requires CmdIds(cmds) == []
    ensures forall i :: 0 <= i < |cmds| ==> cmds[i].CloseCmd?
  {
    if cmds != [] {
      NoIdsNoSends(cmds[1..]);
      assert forall i :: 1 <= i < |cmds| ==> cmds[i] == cmds[1..][i - 1];
    }
  }

  /** A pump that writes no more data stays so, and drives no data write. */
  lemma OverHelpers(cfg: Config, now: nat, t: Task, frame: Option<CloseInfo>, thenBreak: bool)
    requires t.pc.AtSelect?
    ensures var (u, ls) := BeginClose(cfg, now, t, frame, thenBreak); u.wireClosing && AnswersClosed(ls)
    ensures var (u, ls) := PeerCloses(cfg, now, t, frame); u.wireClosing && AnswersClosed(ls)
    ensures InFlight(BeginClose(cfg, now, t, frame, thenBreak).0.pc) == []
    ensures InFlight(PeerCloses(cfg, now, t, frame).0.pc) == []
  {
  }

  lemma StepStaysClosed(cfg: Config, s: Pump, e: Event)
    requires Enabled(s, e) && ControlInv(s) && s.guest.localClosed && NothingToFlush(s)
    ensures var (t, ls) := StepOf(cfg, s, e); AnswersClosed(ls) && NothingToFlush(t) && t.guest.localClosed
  {
    hide BeginClose, PeerCloses, Finalize, OutsideStep;
    match e
    case TakeCmd => CmdStaysClosed(cfg, s);
    case ReadSocket => ReadStaysClosed(cfg, s);
    case FinalizeStep => FinalizeStaysClosed(s);
    case WriteEnds(_) => assert InFlight(s.task.pc) == [];
    case WriteTimesOut => assert InFlight(s.task.pc) == [];
    case DeadlineFires =>
    case ArmMidWrite =>
    case _ => OutsideStaysClosed(s, e);
  }

  lemma CmdStaysClosed(cfg: Config, s: Pump)
    requires Enabled(s, TakeCmd) && NothingToFlush(s)
    ensures var (t, ls) := HandleCmd(cfg, s); AnswersClosed(ls) && NothingToFlush(t) && t.guest == s.guest
  {
    hide BeginClose;
    if s.channel.cmds == [] {
      OverHelpers(cfg, s.now, s.task.(cmdsDone := true), None, false);
    } else {
      match s.channel.cmds[0]
      case CloseCmd(frame) => OverHelpers(cfg, s.now, s.task, frame, false);
      case SendCmd(_, _) => assert Pending(s) != [];
    }
  }

  lemma ReadStaysClosed(cfg: Config, s: Pump)
    requires Enabled(s, ReadSocket) && NothingToFlush(s)
    ensures var (t, ls) := HandleRead(cfg, s); AnswersClosed(ls) && NothingToFlush(t) && t.guest == s.guest
  {
    hide BeginClose, PeerCloses;
    match s.inbox[0]
    case Data(_) => OverHelpers(cfg, s.now, s.task, None, false);
    case CapacityError => OverHelpers(cfg, s.now, s.task, None, true);
    case PeerClose(frame) => OverHelpers(cfg, s.now, s.task, frame, false);
    case _ =>
  }

  lemma FinalizeStaysClosed(s: Pump)
    requires Enabled(s, FinalizeStep)
    ensures var (t, ls) := Finalize(s); AnswersClosed(ls) && NothingToFlush(t) && t.guest == s.guest
  {
  }

  lemma OutsideStaysClosed(s: Pump, e: Event)
    requires !IsPump(e) && Enabled(s, e) && ControlInv(s) && s.guest.localClosed && NothingToFlush(s)
    ensures var (t, ls) := OutsideStep(s, e); AnswersClosed(ls) && NothingToFlush(t) && t.guest.localClosed
  {
    hide TaskInv;
    if e.PostClose? {
      CmdIdsConcat(s.channel.cmds, [s.channel.toPost.value]);
      assert CmdIds([s.channel.toPost.value]) == [];
    }
  }

  lemma {:induction false} RunStaysClosed(cfg: Config, s: Pump, events: seq<Event>)
    requires CanRun(cfg, s, events) && Inv(cfg, s) && s.guest.localClosed && NothingToFlush(s)
    ensures AnswersClosed(Trace(cfg, s, events))
    decreases |events|
  {
    hide StepOf, Inv, NothingToFlush;
    if events != [] {
      assert ControlInv(s) by { InvParts(cfg, s); }
      StepStaysClosed(cfg, s, events[0]);
      InvKept(cfg, s, events[0]);
      RunStaysClosed(cfg, StepOf(cfg, s, events[0]).0, events[1..]);
    }
  }

  // ----- something to flush: it may be answered `Ok` -----------------------------------------------------

  /** The write in progress ends well. */
  lemma WriteGoesWell(cfg: Config, s: Pump, rest: seq<Event>)
    requires s.task.pc.Writing?
    ensures Enabled(s, WriteEnds(Sent))
    ensures var t := s.(task := AfterWrite(s.task, s.task.pc.job, Sent).0);
            && StepOf(cfg, s, WriteEnds(Sent)).0 == t
            && (CanRun(cfg, t, rest) ==> CanRun(cfg, s, [WriteEnds(Sent)] + rest))
            && Trace(cfg, s, [WriteEnds(Sent)] + rest)
               == AfterWrite(s.task, s.task.pc.job, Sent).1 + Trace(cfg, t, rest)
  {
    assert ([WriteEnds(Sent)] + rest)[1..] == rest;
    assert [] + AfterWrite(s.task, s.task.pc.job, Sent).1 == AfterWrite(s.task, s.task.pc.job, Sent).1;
  }

  lemma DataWriteGoesWell(cfg: Config, s: Pump)
    requires s.task.pc.Writing? && s.task.pc.job.DataJob?
    ensures CanRun(cfg, s, [WriteEnds(Sent)])
    ensures Trace(cfg, s, [WriteEnds(Sent)]) == [SendDone(s.task.pc.job.id, Sent)]
  {
    WriteGoesWell(cfg, s, []);
    assert [WriteEnds(Sent)] + [] == [WriteEnds(Sent)];
  }

  lemma QueuedSendGoesWell(cfg: Config, s: Pump) returns (events: seq<Event>)
    requires Inv(cfg, s) && s.task.pc.AtSelect? && !Over(s.task) && CmdIds(s.channel.cmds) != []
    ensures CanRun(cfg, s, events) && !AnswersClosed(Trace(cfg, s, events))
  {
    HeadIsSend(cfg, s);
    HeadIsWritten(cfg, s);
    hide Inv, StepOf, HandleCmd, Enabled, CmdIds, Over;
    var t := StepOf(cfg, s, TakeCmd).0;
    DataWriteGoesWell(cfg, t);
    events := [TakeCmd] + [WriteEnds(Sent)];
    assert events[1..] == [WriteEnds(Sent)];
    assert [] + [SendDone(t.task.pc.job.id, Sent)] == [SendDone(t.task.pc.job.id, Sent)];
  }

  lemma HeadIsSend(cfg: Config, s: Pump)
    requires Inv(cfg, s) && CmdIds(s.channel.cmds) != []
    ensures s.channel.cmds != [] && s.channel.cmds[0].SendCmd?
  {
    InvParts(cfg, s);
    hide Inv;
    if s.channel.cmds[0].CloseCmd? {
      NoSendBehindClose(s);
    }
  }

  lemma HeadIsWritten(cfg: Config, s: Pump)
    requires s.task.pc.AtSelect? && !Over(s.task) && s.channel.cmds != [] && s.channel.cmds[0].SendCmd?
    ensures var (t, ls) := StepOf(cfg, s, TakeCmd);
            Enabled(s, TakeCmd) && t.task.pc.Writing? && t.task.pc.job.DataJob? && ls == []
  {
  }

  lemma NoSendBehindClose(s: Pump)
    requires CauseInv(s) && s.channel.cmds != [] && s.channel.cmds[0].CloseCmd?
    ensures CmdIds(s.channel.cmds) == []
  {
    OnlyClosesNoIds(s.channel.cmds);
  }

  lemma {:induction false} OnlyClosesNoIds(cmds: seq<Cmd>)
    requires forall i :: 0 <= i < |cmds| ==> cmds[i].CloseCmd?
    ensures CmdIds(cmds) == []
  {
    if cmds != [] {
      OnlyClosesNoIds(cmds[1..]);
    }
  }

  lemma PendingSendGoesWell(cfg: Config, s: Pump) returns (events: seq<Event>)
    requires Inv(cfg, s) && !NothingToFlush(s)
    ensures CanRun(cfg, s, events) && !AnswersClosed(Trace(cfg, s, events))
  {
    assert ControlInv(s) by { InvParts(cfg, s); }
    if s.task.pc.AtSelect? {
      events := QueuedSendGoesWell(cfg, s);
    } else if s.task.pc.job.DataJob? {
      DataWriteGoesWell(cfg, s);
      events := [WriteEnds(Sent)];
      assert SendDone(s.task.pc.job.id, Sent) in Trace(cfg, s, events);
    } else {
      InvKept(cfg, s, WriteEnds(Sent));
      WriteGoesWell(cfg, s, []);
      var t := s.(task := AfterWrite(s.task, s.task.pc.job, Sent).0);
      var rest := QueuedSendGoesWell(cfg, t);
      WriteGoesWell(cfg, s, rest);
      events := [WriteEnds(Sent)] + rest;
    }
  }

  /** In every reachable state after a local close, all later answers are `closed`, whatever comes, if and only if
      no send is pending, or the wire is closing, the write half dead or the loop left. */
  lemma {:induction false} ClosedAnswersExactly(cfg: Config, events: seq<Event>)
    requires CanRun(cfg, Start, events) && Run(cfg, Start, events).guest.localClosed
    ensures var s := Run(cfg, Start, events);
            (forall more :: CanRun(cfg, s, more) ==> AnswersClosed(Trace(cfg, s, more))) <==> NothingToFlush(s)
  {
    hide Inv, NothingToFlush, Run;
    StartInv(cfg);
    RunInv(cfg, Start, events);
    var s := Run(cfg, Start, events);
    if NothingToFlush(s) {
      forall more | CanRun(cfg, s, more)
        ensures AnswersClosed(Trace(cfg, s, more))
      {
        RunStaysClosed(cfg, s, more);
      }
    } else {
      var more := PendingSendGoesWell(cfg, s);
      assert !AnswersClosed(Trace(cfg, s, more));
    }
  }

  lemma TraceOne(cfg: Config, s: Pump, e: Event, rest: seq<Event>)
    requires Enabled(s, e) && CanRun(cfg, StepOf(cfg, s, e).0, rest)
    ensures CanRun(cfg, s, [e] + rest)
    ensures Trace(cfg, s, [e] + rest) == StepOf(cfg, s, e).1 + Trace(cfg, StepOf(cfg, s, e).0, rest)
  {
    hide StepOf, Enabled;
    assert ([e] + rest)[1..] == rest;
  }

  /** The run that shows it: a send whose write is in progress at the close. */
  lemma InFlightSendMayFlush(cfg: Config, m: Message)
    ensures var events := [SendCall(m), TakeCmd, CloseCall(None, []), WriteEnds(Sent)];
            CanRun(cfg, Start, events) && Trace(cfg, Start, events) == [SendCalled(0), CloseCalled, SendDone(0, Sent)]
  {
    var s1, s2, s3 := InFlightAtClose(cfg, m);
    DataWriteGoesWell(cfg, s3);
    hide StepOf, Enabled, CanRun, Trace;
    var events := [SendCall(m), TakeCmd, CloseCall(None, []), WriteEnds(Sent)];
    TraceOne(cfg, s2, CloseCall(None, []), [WriteEnds(Sent)]);
    TraceOne(cfg, s1, TakeCmd, [CloseCall(None, [])] + [WriteEnds(Sent)]);
    TraceOne(cfg, Start, SendCall(m), [TakeCmd] + ([CloseCall(None, [])] + [WriteEnds(Sent)]));
    assert events == [SendCall(m)] + ([TakeCmd] + ([CloseCall(None, [])] + [WriteEnds(Sent)]));
  }

  lemma InFlightAtClose(cfg: Config, m: Message) returns (s1: Pump, s2: Pump, s3: Pump)
    ensures Enabled(Start, SendCall(m)) && StepOf(cfg, Start, SendCall(m)) == (s1, [SendCalled(0)])
    ensures Enabled(s1, TakeCmd) && StepOf(cfg, s1, TakeCmd) == (s2, [])
    ensures Enabled(s2, CloseCall(None, [])) && StepOf(cfg, s2, CloseCall(None, [])) == (s3, [CloseCalled])
    ensures s3.task.pc == Writing(DataJob(0), None)
  {
    s1 := SendStep(Start, m).0;
    assert s1.channel.cmds == [SendCmd(0, m)];
    s2 := HandleCmd(cfg, s1).0;
    assert HandleCmd(cfg, s1).1 == [];
    s3 := CloseStep(s2, None, []).0;
  }
}
