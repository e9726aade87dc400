/** What the reference pump writes, from the events of the run: the messages given to `send`, and one close frame. */
module ReferenceWritten {
  import opened Types
  import opened Contract
  import opened Answers
  import opened ReferencePump
  import opened ReferenceInvariants
  import opened ReferenceSends
  import opened ReferenceTermination
  import opened ReferenceRefinement
  import opened ReferenceCalls

  // ----- data frames -------------------------------------------------------------------------------------

  predicate GivenFrame(given: seq<Message>, f: Frame) { f.DataFrame? ==> IsGiven(given, f.id, f.message) }

  predicate GivenCmd(given: seq<Message>, c: Cmd) { c.SendCmd? ==> IsGiven(given, c.id, c.message) }

  ghost predicate GivenInv(s: Pump, given: seq<Message>) {
    && s.guest.calls == |given|
    && (forall c <- s.channel.cmds :: GivenCmd(given, c))
    && (s.channel.toPost.Some? ==> GivenCmd(given, s.channel.toPost.value))
    && (forall f <- s.task.wire :: GivenFrame(given, f))
  }

  /** The helpers add at most a close frame. */
  lemma ClosesWrite(cfg: Config, now: nat, t: Task, frame: Option<CloseInfo>, thenBreak: bool)
    ensures forall f <- BeginClose(cfg, now, t, frame, thenBreak).0.wire :: f in t.wire || f == CloseFrame(frame)
    ensures forall f <- PeerCloses(cfg, now, t, frame).0.wire :: f in t.wire || f == CloseFrame(frame)
  {
  }

  lemma WritesWrite(cfg: Config, now: nat, t: Task, job: Job, frames: seq<Frame>, result: SendResult)
    ensures forall f <- BoundedWrite(t, job, frames).0.wire :: f in t.wire || f in frames
    ensures EndWrite(cfg, now, t, result).0.wire == t.wire
  {
  }

  lemma GivenKept(cfg: Config, s: Pump, e: Event, given: seq<Message>)
    requires Enabled(s, e) && GivenInv(s, given)
    ensures GivenInv(StepOf(cfg, s, e).0, given + if e.SendCall? then [e.message] else [])
  {
    hide HandleCmd, HandleRead, EndWrite, Finalize, GivenFrame, GivenCmd;
    if e.SendCall? {
      SendGiven(s, e.message, given);
    } else {
      assert given + [] == given;
      match e
      case TakeCmd => CmdGiven(cfg, s, given);
      case ReadSocket => ReadGiven(cfg, s, given);
      case WriteEnds(outcome) => WritesWrite(cfg, s.now, s.task, FlushJob, [], outcome);
      case WriteTimesOut => WritesWrite(cfg, s.now, s.task, FlushJob, [], Failed(Closed));
      case FinalizeStep => FinalizeGiven(s, given);
      case _ => OtherGiven(cfg, s, e, given);
    }
  }

  lemma OtherGiven(cfg: Config, s: Pump, e: Event, given: seq<Message>)
    requires Enabled(s, e) && GivenInv(s, given)
    requires !e.SendCall? && (!IsPump(e) || e.DeadlineFires? || e.ArmMidWrite?)
    ensures GivenInv(StepOf(cfg, s, e).0, given)
  {
    if e.CloseCall? {
      assert GivenCmd(given, CloseCmd(FrameFor(e.code, e.reason)));
    }
    hide GivenFrame, GivenCmd;
  }

  lemma SendGiven(s: Pump, m: Message, given: seq<Message>)
    requires GivenInv(s, given)
    ensures GivenInv(SendStep(s, m).0, given + [m])
  {
    var longer := given + [m];
    assert forall c :: GivenCmd(given, c) ==> GivenCmd(longer, c);
    assert forall f :: GivenFrame(given, f) ==> GivenFrame(longer, f);
    assert GivenCmd(longer, SendCmd(|given|, m));
    hide GivenCmd, GivenFrame;
  }

  lemma CmdGiven(cfg: Config, s: Pump, given: seq<Message>)
    requires Enabled(s, TakeCmd) && GivenInv(s, given)
    ensures GivenInv(HandleCmd(cfg, s).0, given)
  {
    hide BeginClose, BoundedWrite;
    if s.channel.cmds == [] {
      ClosesWrite(cfg, s.now, s.task.(cmdsDone := true), None, false);
    } else {
      assert s.channel.cmds[0] in s.channel.cmds;
      match s.channel.cmds[0]
      case CloseCmd(frame) => ClosesWrite(cfg, s.now, s.task, frame, false);
      case SendCmd(id, m) => WritesWrite(cfg, s.now, s.task, DataJob(id), [DataFrame(id, m)], Sent);
    }
  }

  lemma ReadGiven(cfg: Config, s: Pump, given: seq<Message>)
    requires Enabled(s, ReadSocket) && GivenInv(s, given)
    ensures GivenInv(HandleRead(cfg, s).0, given)
  {
    hide BeginClose, PeerCloses, BoundedWrite;
    match s.inbox[0]
    case Data(_) => ClosesWrite(cfg, s.now, s.task, None, false);
    case CapacityError => ClosesWrite(cfg, s.now, s.task, None, true);
    case PeerClose(frame) => ClosesWrite(cfg, s.now, s.task, frame, false);
    case Ping => WritesWrite(cfg, s.now, s.task, FlushJob, [], Sent);
    case _ =>
  }

  lemma FinalizeGiven(s: Pump, given: seq<Message>)
    requires Enabled(s, FinalizeStep) && GivenInv(s, given)
    ensures GivenInv(Finalize(s).0, given)
  {
    hide FinalizeTask;
  }

  /** In every run each data frame written carries the message given to the call whose identifier it bears. */
  lemma {:induction false} MessagesInEveryRun(cfg: Config, events: seq<Event>)
    requires CanRun(cfg, Start, events)
    ensures GivenInv(Run(cfg, Start, events), Given(events))
    ensures forall f <- Run(cfg, Start, events).task.wire :: f.DataFrame? ==>
              f.id < |Given(events)| && Given(events)[f.id] == f.message
    decreases |events|
  {
    if events != [] {
      var init, e := Last(cfg, events);
      assert Given(events) == Given(init) + if e.SendCall? then [e.message] else [];
      hide Run, Trace, StepOf, Enabled, CanRun, Inv, Given;
      MessagesInEveryRun(cfg, init);
      GivenKept(cfg, Run(cfg, Start, init), e, Given(init));
    }
    FramesAreGiven(Run(cfg, Start, events), Given(events));
  }

  lemma FramesAreGiven(s: Pump, given: seq<Message>)
    requires GivenInv(s, given)
    ensures forall f <- s.task.wire :: f.DataFrame? ==> f.id < |given| && given[f.id] == f.message
  {
    assert forall f <- s.task.wire :: GivenFrame(given, f);
  }

  // ----- the close frame ---------------------------------------------------------------------------------

  /** The arguments of the first valid `close`. */
  function FirstCloseArgs(events: seq<Event>): Option<CloseArgs> {
    if events == [] then None
    else NextCloseArgs(FirstCloseArgs(events[..|events| - 1]), events[|events| - 1])
  }

  function NextCloseArgs(args: Option<CloseArgs>, e: Event): Option<CloseArgs> {
    if args.Some? || !e.CloseCall? || !CloseArgsOk(e.code, e.reason) then args else Some(CloseArgs(e.code, e.reason))
  }

  /** The close frame that follows what ended acceptance: a local close carries its arguments, the peer's frame is
      returned, an overflow's has no body. */
  predicate Follows(frame: Option<CloseInfo>, cause: Option<Label>, args: Option<CloseArgs>) {
    match cause
    case Some(Stop) => Carries(frame, args)
    case Some(PeerFrame(info)) => frame == Some(info) || (frame.None? && info == CloseInfo(1005, []))
    case Some(Overflow(_)) => frame.None?
    case Some(LatchOverflow) => frame.None?
    case _ => false
  }

  ghost predicate CmdCarries(c: Cmd, args: Option<CloseArgs>) { c.CloseCmd? ==> Carries(c.frame, args) }

  /** The frame on the wire, against the label that ended acceptance. */
  ghost predicate CloseWritten(t: Task, cause: Option<Label>, args: Option<CloseArgs>) {
    && (t.wireClosing ==> cause.Some?)
    && (forall f <- t.wire :: f.CloseFrame? ==> Follows(f.frame, cause, args))
    && (t.wireClosing && !t.writeDead ==> exists f <- t.wire :: f.CloseFrame?)
  }

  /** A local close is on its way to the wire, or was acted on. */
  ghost predicate Coming(s: Pump) {
    s.channel.toPost.Some? || s.task.wireClosing || LeftLoop(s.task.pc) || exists c <- s.channel.cmds :: c.CloseCmd?
  }

  ghost predicate CloseInv(s: Pump, cause: Option<Label>, args: Option<CloseArgs>) {
    && s.guest.localClosed == args.Some?
    && (forall c <- s.channel.cmds :: CmdCarries(c, args))
    && (s.channel.toPost.Some? ==> CmdCarries(s.channel.toPost.value, args))
    && (s.guest.localClosed ==> Coming(s))
    && CloseWritten(s.task, cause, args)
    && (cause.Some? ==> s.task.wireClosing || LeftLoop(s.task.pc))
  }

  /** Beginning the close: the frame written, and the label that goes with it. */
  lemma BeginCloseWrites(cfg: Config, now: nat, t: Task, frame: Option<CloseInfo>, thenBreak: bool,
                         before: seq<Label>, cause: Option<Label>, args: Option<CloseArgs>)
    requires t.pc.AtSelect? && CloseWritten(t, cause, args) && (cause.Some? ==> t.wireClosing)
    requires !t.wireClosing ==> Follows(frame, Cause(before + [Stop]), args)
    ensures var (u, ls) := BeginClose(cfg, now, t, frame, thenBreak);
            var next := if cause.Some? then cause else Cause(before + ls);
            CloseWritten(u, next, args) && u.wireClosing
  {
    BeginCloseLabels(cfg, now, t, frame, thenBreak);
    ClosesWrite(cfg, now, t, frame, thenBreak);
    WroteIt(cfg, now, t, frame, thenBreak);
    if !t.wireClosing {
      NoCloseYet(t, args);
      CauseConcat(before, [Stop, Progress(IsClosing)]);
      CauseConcat(before, [Stop]);
      StopIsCause();
    }
    hide BeginClose, Follows;
  }

  lemma NoCloseYet(t: Task, args: Option<CloseArgs>)
    requires CloseWritten(t, None, args)
    ensures forall f <- t.wire :: !f.CloseFrame?
  {
  }

  /** A write half that is not dead got the frame. */
  lemma WroteIt(cfg: Config, now: nat, t: Task, frame: Option<CloseInfo>, thenBreak: bool)
    ensures var u := BeginClose(cfg, now, t, frame, thenBreak).0;
            && t.wire <= u.wire && u.writeDead == t.writeDead
            && (!t.wireClosing && !t.writeDead ==> CloseFrame(frame) in u.wire)
    ensures var u := PeerCloses(cfg, now, t, frame).0;
            && t.wire <= u.wire && u.writeDead == t.writeDead
            && (!t.wireClosing && !t.writeDead ==> CloseFrame(frame) in u.wire)
            && (t.wireClosing ==> u.wire == t.wire)
  {
    var w := t.wire + [CloseFrame(frame)];
    assert w[|t.wire|] == CloseFrame(frame);
  }

  lemma PeerClosesWrites(cfg: Config, now: nat, t: Task, frame: Option<CloseInfo>, cause: Option<Label>,
                         args: Option<CloseArgs>)
    requires t.pc.AtSelect? && CloseWritten(t, cause, args) && (cause.Some? ==> t.wireClosing)
    ensures var (u, ls) := PeerCloses(cfg, now, t, frame);
            var next := if cause.Some? then cause else Cause(ls);
            CloseWritten(u, next, args) && u.wireClosing
  {
    PeerClosesLabels(cfg, now, t, frame);
    ClosesWrite(cfg, now, t, frame, false);
    WroteIt(cfg, now, t, frame, false);
    var info := CloseInfoFrom(frame);
    FrameIsCause(info);
    assert Follows(frame, Some(PeerFrame(info)), args);
    if cause.None? {
      NoCloseYet(t, args);
    }
    hide PeerCloses, Follows, CloseInfoFrom;
  }

  lemma FrameIsCause(info: CloseInfo)
    ensures Cause([PeerFrame(info), Progress(IsClosing)]) == Some(PeerFrame(info))
  {
    assert Closes([PeerFrame(info), Progress(IsClosing)][0]);
  }

  lemma CloseKept(cfg: Config, s: Pump, e: Event, cause: Option<Label>, args: Option<CloseArgs>)
    requires Enabled(s, e) && ControlInv(s) && CauseInv(s) && CloseInv(s, cause, args)
    ensures var (t, ls) := StepOf(cfg, s, e); CloseInv(t, NextCause(cause, ls), NextCloseArgs(args, e))
  {
    hide HandleCmd, HandleRead, EndWrite, Finalize, OutsideStep, CloseInv, ControlInv, CauseInv, NextCause;
    match e
    case TakeCmd => CmdClose(cfg, s, cause, args);
    case ReadSocket => ReadClose(cfg, s, cause, args);
    case WriteEnds(outcome) => WriteClose(cfg, s, outcome, cause, args);
    case WriteTimesOut => WriteClose(cfg, s, Failed(Closed), cause, args);
    case FinalizeStep => FinalizeClose(s, cause, args);
    case DeadlineFires => TurnClose(cfg, s, e, cause, args);
    case ArmMidWrite => TurnClose(cfg, s, e, cause, args);
    case CloseCall(code, reason) => CallClose(s, code, reason, cause, args);
    case _ => OutsideClose(s, e, cause, args);
  }

  lemma TurnClose(cfg: Config, s: Pump, e: Event, cause: Option<Label>, args: Option<CloseArgs>)
    requires (e.DeadlineFires? || e.ArmMidWrite?) && Enabled(s, e) && CloseInv(s, cause, args)
    ensures var (t, ls) := StepOf(cfg, s, e); CloseInv(t, NextCause(cause, ls), args)
  {
    QuietCause([]);
  }

  lemma WriteClose(cfg: Config, s: Pump, result: SendResult, cause: Option<Label>, args: Option<CloseArgs>)
    requires s.task.pc.Writing? && CloseInv(s, cause, args)
    ensures var (t, ls) := WithTask(s, [], EndWrite(cfg, s.now, s.task, result));
            CloseInv(t, NextCause(cause, ls), args)
  {
    var (u, ls) := EndWrite(cfg, s.now, s.task, result);
    assert u.wire == s.task.wire && u.wireClosing == s.task.wireClosing && (s.task.writeDead ==> u.writeDead);
    assert !LeftLoop(s.task.pc);
    QuietCause([] + ls);
  }

  lemma FinalizeClose(s: Pump, cause: Option<Label>, args: Option<CloseArgs>)
    requires Enabled(s, FinalizeStep) && CloseInv(s, cause, args)
    ensures var (t, ls) := Finalize(s); CloseInv(t, NextCause(cause, ls), args)
  {
    var stage := s.task.pc.stage;
    if stage == 3 && s.channel.cmds != [] {
      QuietCause(DrainOne(s).1);
      assert forall c <- s.channel.cmds[1..] :: c in s.channel.cmds;
      hide CloseWritten;
      DrainWritten(s, cause, args);
    } else {
      StatementShows(s.task, stage);
      StatementWritten(s.task, stage, cause, args);
      hide FinalizeTask, CloseWritten, StatementLabels;
      assert [] + FinalizeTask(s.task, stage).1 == FinalizeTask(s.task, stage).1;
    }
  }

  lemma DrainWritten(s: Pump, cause: Option<Label>, args: Option<CloseArgs>)
    requires CloseWritten(s.task, cause, args)
    ensures CloseWritten(DrainOne(s).0.task, cause, args)
  {
  }

  lemma StatementWritten(t: Task, stage: nat, cause: Option<Label>, args: Option<CloseArgs>)
    requires CloseWritten(t, cause, args)
    ensures CloseWritten(FinalizeTask(t, stage).0, NextCause(cause, StatementLabels(stage)), args)
  {
    StatementShows(t, stage);
    StatementWrites(t, stage);
    hide FinalizeTask, Follows;
    if cause.None? {
      NoCloseYet(t, args);
    }
  }

  lemma StatementWrites(t: Task, stage: nat)
    ensures FinalizeTask(t, stage).0.wire == t.wire
  {
  }

  lemma CallClose(s: Pump, code: Option<nat>, reason: seq<Byte>, cause: Option<Label>, args: Option<CloseArgs>)
    requires Enabled(s, CloseCall(code, reason)) && CloseInv(s, cause, args) && CauseInv(s)
    requires s.channel.toPost.Some? ==> s.guest.localClosed
    ensures var (t, ls) := OutsideStep(s, CloseCall(code, reason));
            CloseInv(t, NextCause(cause, ls), NextCloseArgs(args, CloseCall(code, reason)))
  {
    QuietCause([]);
    QuietCause([CloseCalled]);
    if args.None? {
      NothingWrittenFor(s.task.wire, cause);
    }
  }

  /** A frame that follows something other than a local close does so whatever the arguments are. */
  lemma NothingWrittenFor(wire: seq<Frame>, cause: Option<Label>)
    ensures forall f <- wire, args | f.CloseFrame? && Follows(f.frame, cause, None) :: Follows(f.frame, cause, args)
  {
  }

  lemma OutsideClose(s: Pump, e: Event, cause: Option<Label>, args: Option<CloseArgs>)
    requires !IsPump(e) && !e.CloseCall? && Enabled(s, e) && ControlInv(s) && CloseInv(s, cause, args)
    ensures var (t, ls) := OutsideStep(s, e); CloseInv(t, NextCause(cause, ls), args)
  {
    QuietCause(OutsideStep(s, e).1);
    hide CloseWritten, TaskInv;
    if e.PostClose? && !s.channel.closed {
      var posted := s.channel.cmds + [s.channel.toPost.value];
      assert posted[|s.channel.cmds|].CloseCmd?;
    } else if e.SendCall? {
      assert forall c <- s.channel.cmds :: c in s.channel.cmds + [SendCmd(s.guest.calls, e.message)];
    }
  }

  lemma CmdClose(cfg: Config, s: Pump, cause: Option<Label>, args: Option<CloseArgs>)
    requires Enabled(s, TakeCmd) && ControlInv(s) && CloseInv(s, cause, args)
    ensures var (t, ls) := HandleCmd(cfg, s); CloseInv(t, NextCause(cause, ls), args)
  {
    hide BeginClose, BoundedWrite, AfterWrite, TaskInv;
    if s.channel.cmds == [] {
      var t := s.task.(cmdsDone := true);
      assert s.task.wireClosing;
      BeginCloseWrites(cfg, s.now, t, None, false, [], cause, args);
      hide CloseWritten;
    } else {
      var rest := s.channel.cmds[1..];
      assert s.channel.cmds[0] in s.channel.cmds && forall c <- s.channel.cmds :: c == s.channel.cmds[0] || c in rest;
      match s.channel.cmds[0]
      case CloseCmd(frame) =>
        StopIsCause();
        assert [] + [Stop] == [Stop];
        BeginCloseWrites(cfg, s.now, s.task, frame, false, [], cause, args);
        assert [] + BeginClose(cfg, s.now, s.task, frame, false).1 == BeginClose(cfg, s.now, s.task, frame, false).1;
        hide CloseWritten;
      case SendCmd(id, m) =>
        DataWritten(s.task, id, m, cause, args);
        hide CloseWritten;
    }
  }

  /** A send's own step writes no close frame and ends no acceptance. */
  lemma DataWritten(t: Task, id: nat, m: Message, cause: Option<Label>, args: Option<CloseArgs>)
    requires t.pc.AtSelect? && CloseWritten(t, cause, args)
    ensures var (u, ls) := AfterWrite(t, DataJob(id), Failed(Closed));
            CloseWritten(u, cause, args) && u.wireClosing == t.wireClosing && Cause([] + ls) == None
    ensures var (u, ls) := BoundedWrite(t, DataJob(id), [DataFrame(id, m)]);
            CloseWritten(u, cause, args) && u.wireClosing == t.wireClosing && Cause([] + ls) == None
  {
    var wire := t.wire + [DataFrame(id, m)];
    assert forall f <- t.wire :: f in wire;
    assert forall f <- wire :: f in t.wire || f == DataFrame(id, m);
    QuietCause([]);
    QuietCause([] + AfterWrite(t, DataJob(id), Failed(Closed)).1);
  }

  lemma ReadClose(cfg: Config, s: Pump, cause: Option<Label>, args: Option<CloseArgs>)
    requires Enabled(s, ReadSocket) && CloseInv(s, cause, args)
    ensures var (t, ls) := HandleRead(cfg, s); CloseInv(t, NextCause(cause, ls), args)
  {
    hide BeginClose, PeerCloses, BoundedWrite, CloseWritten, Follows;
    match s.inbox[0]
    case Data(m) => DataClose(cfg, s, m, cause, args);
    case CapacityError =>
      OverflowWrites(cfg, s.now, s.task, true, LatchOverflow, cause, args);
    case PeerClose(frame) =>
      PeerClosesWrites(cfg, s.now, s.task, frame, cause, args);
      assert [] + PeerCloses(cfg, s.now, s.task, frame).1 == PeerCloses(cfg, s.now, s.task, frame).1;
    case Ping => PingWritten(s.task, cause, args);
    case OtherFrame => QuietCause([]);
    case ReadEnd => EndWritten(s.task, cause, args);
  }

  lemma EndWritten(t: Task, cause: Option<Label>, args: Option<CloseArgs>)
    requires CloseWritten(t, cause, args) && (cause.Some? ==> t.wireClosing)
    ensures CloseWritten(t.(pc := Finalizing(0)), NextCause(cause, [InputEnds]), args)
  {
    if cause.None? {
      NoCloseYet(t, args);
      hide Follows;
    }
  }

  lemma PingWritten(t: Task, cause: Option<Label>, args: Option<CloseArgs>)
    requires t.pc.AtSelect? && CloseWritten(t, cause, args)
    ensures var (u, ls) := BoundedWrite(t, FlushJob, []);
            && CloseWritten(u, cause, args) && u.wireClosing == t.wireClosing && Cause([] + ls) == None
            && !LeftLoop(u.pc)
  {
    assert t.wire + [] == t.wire;
    QuietCause([] + BoundedWrite(t, FlushJob, []).1);
  }

  /** An overflow's close. */
  lemma OverflowWrites(cfg: Config, now: nat, t: Task, thenBreak: bool, first: Label, cause: Option<Label>,
                       args: Option<CloseArgs>)
    requires t.pc.AtSelect? && CloseWritten(t, cause, args) && (cause.Some? ==> t.wireClosing) && IsOverflow(first)
    ensures var (u, ls) := BeginClose(cfg, now, t, None, thenBreak);
            CloseWritten(u, NextCause(cause, [first] + ls), args) && u.wireClosing
  {
    assert Closes([first][0]);
    CauseConcat([first], [Stop]);
    CauseConcat([first], BeginClose(cfg, now, t, None, thenBreak).1);
    assert Cause([first]) == Some(first);
    assert Follows(None, Some(first), args);
    hide BeginClose, Follows, CloseWritten;
    BeginCloseWrites(cfg, now, t, None, thenBreak, [first], cause, args);
  }

  lemma DataClose(cfg: Config, s: Pump, m: Message, cause: Option<Label>, args: Option<CloseArgs>)
    requires s.task.pc.AtSelect? && CloseInv(s, cause, args)
    ensures forall inbox ::
              var (t, ls) := Deliver(cfg, s.(inbox := inbox), m); CloseInv(t, NextCause(cause, ls), args)
  {
    hide BeginClose, CloseWritten;
    QuietCause([Drop(m)]);
    QuietCause([Accept(m)]);
    OverflowWrites(cfg, s.now, s.task, false, Overflow(m), cause, args);
  }

  /** In every run: the close frames written are what the label that ended acceptance calls for. After a local close
      that is a frame with the code and the reason of the first valid `close`, without a body if it named no code; after
      the peer's close its own frame; after an overflow a frame without a body; and nothing otherwise. A wire that
      closes while writes still go through got its frame. */
  lemma {:induction false} CloseFrameInEveryRun(cfg: Config, events: seq<Event>)
    requires CanRun(cfg, Start, events)
    ensures var s, ls := Run(cfg, Start, events), Trace(cfg, Start, events);
            && CloseInv(s, Cause(ls), FirstCloseArgs(events))
            && (forall f <- s.task.wire :: f.CloseFrame? ==> Follows(f.frame, Cause(ls), FirstCloseArgs(events)))
            && (s.task.wireClosing && !s.task.writeDead ==> exists f <- s.task.wire :: f.CloseFrame?)
    decreases |events|
  {
    if events == [] {
      QuietCause([]);
    } else {
      var init, e := Last(cfg, events);
      assert FirstCloseArgs(events) == NextCloseArgs(FirstCloseArgs(init), e);
      hide Run, Trace, StepOf, Enabled, CanRun, Inv, FirstCloseArgs, CloseInv, Follows, Cause;
      CloseFrameInEveryRun(cfg, init);
      var s := Run(cfg, Start, init);
      InvParts(cfg, s);
      CloseKept(cfg, s, e, Cause(Trace(cfg, Start, init)), FirstCloseArgs(init));
      CauseConcat(Trace(cfg, Start, init), StepOf(cfg, s, e).1);
    }
    WrittenSays(Run(cfg, Start, events), Cause(Trace(cfg, Start, events)), FirstCloseArgs(events));
  }

  lemma WrittenSays(s: Pump, cause: Option<Label>, args: Option<CloseArgs>)
    requires CloseInv(s, cause, args)
    ensures forall f <- s.task.wire :: f.CloseFrame? ==> Follows(f.frame, cause, args)
    ensures s.task.wireClosing && !s.task.writeDead ==> exists f <- s.task.wire :: f.CloseFrame?
  {
  }
}
