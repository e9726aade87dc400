/** The reference pump always reaches its end once closing: a decreasing measure, no stuck state, and
    the end-to-end time bound. */
module ReferenceTermination {
  import opened Types
  import opened CallIds
  import opened ReferencePump
  import opened ReferenceInvariants
  import opened ReferenceSends

  /** Everything the pump keeps. */
  ghost predicate Inv(cfg: Config, s: Pump) {
    && ControlInv(s)
    && CauseInv(s)
    && BudgetInv(cfg, s.inbound)
    && TimeInv(cfg, s)
    && OrderInv(s)
    && WireInv(s.task)
  }

  lemma StartInv(cfg: Config)
    ensures Inv(cfg, Start)
  {
    StartControl(cfg);
    StartSends();
    hide ControlInv, CauseInv, BudgetInv, TimeInv, OrderInv, WireInv;
  }

  lemma StartControl(cfg: Config)
    ensures ControlInv(Start) && CauseInv(Start) && BudgetInv(cfg, Start.inbound) && TimeInv(cfg, Start)
  {
  }

  lemma StartSends()
    ensures OrderInv(Start) && WireInv(Start.task)
  {
    assert Ledger([], [], [], false);
  }

  lemma InvKept(cfg: Config, s: Pump, e: Event)
    requires Enabled(s, e) && Inv(cfg, s)
    ensures Inv(cfg, StepOf(cfg, s, e).0)
  {
    hide ControlInv, CauseInv, BudgetInv, TimeInv, OrderInv, WireInv, StepOf;
    ControlKept(cfg, s, e);
    CauseKept(cfg, s, e);
    BudgetKept(cfg, s, e);
    TimeKept(cfg, s, e);
    OrderKept(cfg, s, e);
    WireKept(cfg, s, e);
  }

  lemma {:induction false} RunInv(cfg: Config, s: Pump, events: seq<Event>)
    requires Inv(cfg, s) && CanRun(cfg, s, events)
    ensures Inv(cfg, Run(cfg, s, events))
    decreases |events|
  {
    hide Inv, StepOf;
    if events != [] {
      InvKept(cfg, s, events[0]);
      RunInv(cfg, StepOf(cfg, s, events[0]).0, events[1..]);
    }
  }

  // ----- sends -------------------------------------------------------------------------------------------

  /** In every run: the acks answer the enqueued sends once each and in command order, the in-flight one
      and the waiting commands following; the results are `Ok`s then errors, all but the first of them
      `closed`; the sends answered `Ok` are, in order, the first data frames handed to the transport,
      which was handed at most one more; at most one close frame was written, and no data frame after it. */
  lemma SendsInEveryRun(cfg: Config, events: seq<Event>)
    requires CanRun(cfg, Start, events)
    ensures var s := Run(cfg, Start, events);
            && s.guest.issued == AckIds(s.task.acks) + InFlight(s.task.pc) + CmdIds(s.channel.cmds)
            && Increasing(s.guest.issued, s.guest.calls)
            && OksThenErrors(s.task.acks)
            && SentIds(s.task.acks) <= DataIds(s.task.wire) <= s.guest.issued
            && |DataIds(s.task.wire)| <= |SentIds(s.task.acks)| + 1
            && DataThenClose(s.task.wire)
            && (s.task.pc.Done? ==> AckIds(s.task.acks) == s.guest.issued)
  {
    hide Ledger;
    StartInv(cfg);
    RunInv(cfg, Start, events);
    LedgerSays(Run(cfg, Start, events));
  }

  lemma LedgerSays(s: Pump)
    requires ControlInv(s) && OrderInv(s) && WireInv(s.task)
    ensures OksThenErrors(s.task.acks) && DataThenClose(s.task.wire)
    ensures SentIds(s.task.acks) <= DataIds(s.task.wire) <= s.guest.issued
    ensures |DataIds(s.task.wire)| <= |SentIds(s.task.acks)| + 1
    ensures s.task.pc.Done? ==> AckIds(s.task.acks) == s.guest.issued
  {
  }

  // ----- time --------------------------------------------------------------------------------------------

  /** The state of a run before its `i`-th event. */
  lemma {:induction false} RunConcat(cfg: Config, s: Pump, a: seq<Event>, b: seq<Event>)
    requires CanRun(cfg, s, a + b)
    ensures CanRun(cfg, s, a) && CanRun(cfg, Run(cfg, s, a), b)
    ensures Run(cfg, s, a + b) == Run(cfg, Run(cfg, s, a), b)
    decreases |a|
  {
    hide StepOf;
    if a == [] {
      assert a + b == b;
    } else {
      assert (a + b)[0] == a[0] && (a + b)[1..] == a[1..] + b;
      RunConcat(cfg, StepOf(cfg, s, a[0]).0, a[1..], b);
    }
  }

  /** Once armed, the deadline stays where it is, and so does the instant of the local close. */
  lemma {:induction false} DeadlineNeverMoves(cfg: Config, s: Pump, events: seq<Event>)
    requires Inv(cfg, s) && CanRun(cfg, s, events)
    ensures var t := Run(cfg, s, events);
            && (s.task.deadline.Some? ==> t.task.deadline == s.task.deadline)
            && (s.guest.closedAt.Some? ==> t.guest.closedAt == s.guest.closedAt)
    decreases |events|
  {
    hide Inv;
    if events != [] {
      var e := events[0];
      InvKept(cfg, s, e);
      if IsPump(e) {
        assert ControlInv(s) by { InvParts(cfg, s); }
        ControlKept(cfg, s, e);
        PumpFrame(cfg, s, e);
        hide PumpStep;
        DeadlineNeverMoves(cfg, PumpStep(cfg, s, e).0, events[1..]);
      } else {
        assert s.guest.closedAt.Some? == s.guest.localClosed by { InvParts(cfg, s); }
        OutsideTimes(s, e);
        hide OutsideStep;
        DeadlineNeverMoves(cfg, OutsideStep(s, e).0, events[1..]);
      }
    }
  }

  lemma InvParts(cfg: Config, s: Pump)
    requires Inv(cfg, s)
    ensures ControlInv(s) && CauseInv(s) && TimeInv(cfg, s)
  {
  }

  lemma OutsideTimes(s: Pump, e: Event)
    requires !IsPump(e) && Enabled(s, e) && s.guest.closedAt.Some? == s.guest.localClosed
    ensures var t := OutsideStep(s, e).0;
            && t.task.deadline == s.task.deadline
            && (s.guest.closedAt.Some? ==> t.guest.closedAt == s.guest.closedAt)
  {
  }

  /** The closing procedure is bounded end to end: after a local close the connection is torn down
      within one close timeout of the call; and whatever armed the deadline, it is armed whenever the
      wire is closing or the write half is dead, and it is met. */
  lemma ClosingIsBounded(cfg: Config, events: seq<Event>)
    requires CanRun(cfg, Start, events)
    ensures var s := Run(cfg, Start, events);
            && (s.guest.closedAt.Some? && s.guest.closedAt.value + cfg.closeTimeout < s.now ==> s.task.pc.Done?)
            && (s.task.wireClosing || s.task.writeDead ==> s.task.deadline.Some?)
            && (s.task.deadline.Some? && s.task.deadline.value < s.now ==> s.task.pc.Done?)
            && (s.task.pc.Writing? ==> s.task.pc.bound == s.task.deadline)
  {
    hide OrderInv, WireInv;
    StartInv(cfg);
    RunInv(cfg, Start, events);
  }

  // ----- termination -------------------------------------------------------------------------------------

  function PcRank(pc: Pc): nat {
    match pc
    case Writing(_, bound) => if bound.None? then 12 else 11
    case AtSelect => 10
    case Finalizing(stage) => if stage < 8 then 8 - stage else 1
    case Done => 0
  }

  /** How many more steps the pump can take on the work it has: three per command or readable item, three
      for the end of the channel, and its way through the current write and the finalization. */
  function Measure(s: Pump): nat {
    3 * |s.channel.cmds| + (if s.channel.toPost.Some? then 3 else 0) + 3 * |s.inbox|
    + (if s.task.cmdsDone then 0 else 3) + PcRank(s.task.pc)
  }

  /** Work the outside can add. */
  function Brings(e: Event): nat { if e.SendCall? || e.CloseCall? || e.Arrive? then 3 else 0 }

  lemma TaskRank(cfg: Config, now: nat, t: Task, frame: Option<CloseInfo>, thenBreak: bool)
    requires t.pc.AtSelect?
    ensures PcRank(BeginClose(cfg, now, t, frame, thenBreak).0.pc) <= 12
    ensures PcRank(PeerCloses(cfg, now, t, frame).0.pc) <= 12
    ensures BeginClose(cfg, now, t, frame, thenBreak).0.cmdsDone == t.cmdsDone
    ensures PeerCloses(cfg, now, t, frame).0.cmdsDone == t.cmdsDone
  {
  }

  lemma {:induction false} PumpStepDecreases(cfg: Config, s: Pump, e: Event)
    requires IsPump(e) && Enabled(s, e) && ControlInv(s)
    ensures Measure(PumpStep(cfg, s, e).0) < Measure(s)
  {
    match e
    case TakeCmd =>
      hide BeginClose, PeerCloses;
      TaskRank(cfg, s.now, s.task.(cmdsDone := true), None, false);
      if s.channel.cmds != [] && s.channel.cmds[0].CloseCmd? {
        TaskRank(cfg, s.now, s.task, s.channel.cmds[0].frame, false);
      }
    case ReadSocket =>
      hide BeginClose, PeerCloses;
      ReadDecreases(cfg, s);
    case FinalizeStep => FinalizeDecreases(s);
    case _ =>
  }

  lemma ReadDecreases(cfg: Config, s: Pump)
    requires Enabled(s, ReadSocket)
    ensures Measure(HandleRead(cfg, s).0) < Measure(s)
  {
    hide BeginClose, PeerCloses;
    match s.inbox[0]
    case PeerClose(frame) => TaskRank(cfg, s.now, s.task, frame, false);
    case Data(_) => TaskRank(cfg, s.now, s.task, None, false);
    case CapacityError => TaskRank(cfg, s.now, s.task, None, true);
    case _ =>
  }

  lemma FinalizeDecreases(s: Pump)
    requires Enabled(s, FinalizeStep) && s.task.pc.stage <= 7
    ensures Measure(Finalize(s).0) < Measure(s)
  {
    FinalizeTaskRank(s.task);
    hide FinalizeTask;
  }

  lemma FinalizeTaskRank(t: Task)
    requires t.pc.Finalizing? && t.pc.stage <= 7
    ensures var u := FinalizeTask(t, t.pc.stage).0;
            PcRank(u.pc) < PcRank(t.pc) && u.cmdsDone == t.cmdsDone
  {
  }

  lemma OutsideStepBrings(s: Pump, e: Event)
    requires !IsPump(e) && Enabled(s, e)
    ensures Measure(OutsideStep(s, e).0) <= Measure(s) + Brings(e)
  {
  }

  function PumpSteps(events: seq<Event>): nat {
    if events == [] then 0 else (if IsPump(events[0]) then 1 else 0) + PumpSteps(events[1..])
  }

  function Brought(events: seq<Event>): nat {
    if events == [] then 0 else Brings(events[0]) + Brought(events[1..])
  }

  /** The pump's steps are paid for: a run with finitely many commands and arrivals has finitely many. */
  lemma {:induction false} PumpStepsArePaid(cfg: Config, s: Pump, events: seq<Event>)
    requires Inv(cfg, s) && CanRun(cfg, s, events)
    ensures PumpSteps(events) + Measure(Run(cfg, s, events)) <= Measure(s) + Brought(events)
    decreases |events|
  {
    hide Inv, Measure, PumpStep, OutsideStep;
    if events != [] {
      var e := events[0];
      InvKept(cfg, s, e);
      if IsPump(e) {
        InvParts(cfg, s);
        PumpStepDecreases(cfg, s, e);
      } else {
        OutsideStepBrings(s, e);
      }
      PumpStepsArePaid(cfg, StepOf(cfg, s, e).0, events[1..]);
    }
  }

  /** The pump step that is due when the deadline has passed. */
  function Due(s: Pump): Event {
    match s.task.pc
    case AtSelect => if CmdReady(s) then TakeCmd else if s.inbox != [] then ReadSocket else DeadlineFires
    case Writing(_, bound) => if bound.Some? then WriteTimesOut else ArmMidWrite
    case _ => FinalizeStep
  }

  /** Past an armed deadline the pump is never stuck short of its end, nor can time pass it by. */
  lemma NeverStuckPastDeadline(cfg: Config, s: Pump)
    requires Inv(cfg, s) && Expired(s) && !s.task.pc.Done?
    ensures Enabled(s, Due(s)) && IsPump(Due(s)) && !Enabled(s, Tick)
  {
  }

  /** Running the due steps reaches the end of the pump. */
  lemma {:induction false} FinalizesPastDeadline(cfg: Config, s: Pump) returns (events: seq<Event>)
    requires Inv(cfg, s) && Expired(s)
    ensures CanRun(cfg, s, events) && Run(cfg, s, events).task.pc.Done? && |events| <= Measure(s)
    ensures forall e <- events :: IsPump(e)
    decreases Measure(s)
  {
    if s.task.pc.Done? {
      return [];
    }
    NeverStuckPastDeadline(cfg, s);
    var e := Due(s);
    InvParts(cfg, s);
    PumpStepDecreases(cfg, s, e);
    ControlKept(cfg, s, e);
    PumpFrame(cfg, s, e);
    InvKept(cfg, s, e);
    hide PumpStep, Inv, Measure;
    var rest := FinalizesPastDeadline(cfg, PumpStep(cfg, s, e).0);
    events := [e] + rest;
    assert events[1..] == rest;
  }

  lemma StepKeepsTime(cfg: Config, s: Pump, e: Event)
    requires Enabled(s, e)
    ensures s.now <= StepOf(cfg, s, e).0.now
  {
    if IsPump(e) {
      PumpFrame(cfg, s, e);
      hide PumpStep;
    }
  }

  lemma {:induction false} TimeGrows(cfg: Config, s: Pump, events: seq<Event>)
    requires CanRun(cfg, s, events)
    ensures s.now <= Run(cfg, s, events).now
    decreases |events|
  {
    hide StepOf;
    if events != [] {
      StepKeepsTime(cfg, s, events[0]);
      TimeGrows(cfg, StepOf(cfg, s, events[0]).0, events[1..]);
    }
  }

  /** Termination in one statement. From a state past its deadline, in every run: the pump takes at most as many
      steps as its work there and what the outside added pay for; it is done as soon as it took that many; and it is
      done whenever it has no step left to take. */
  lemma {:induction false} PastDeadlineItEnds(cfg: Config, s: Pump, events: seq<Event>)
    requires Inv(cfg, s) && Expired(s) && CanRun(cfg, s, events)
    ensures PumpSteps(events) <= Measure(s) + Brought(events)
    ensures var t := Run(cfg, s, events);
            && Expired(t)
            && (PumpSteps(events) == Measure(s) + Brought(events) ==> t.task.pc.Done?)
            && ((forall e :: IsPump(e) ==> !Enabled(t, e)) ==> t.task.pc.Done?)
  {
    var t := Run(cfg, s, events);
    PumpStepsArePaid(cfg, s, events);
    DeadlineNeverMoves(cfg, s, events);
    TimeGrows(cfg, s, events);
    RunInv(cfg, s, events);
    hide Inv, Run, CanRun, PumpSteps, Brought, Enabled;
    if !t.task.pc.Done? {
      NeverStuckPastDeadline(cfg, t);
    }
  }
}
