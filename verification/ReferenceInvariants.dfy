/** What every step of the reference pump keeps.

    Control: the latches, the deadline they imply, the bound of the write in progress, and the order of the
    statements after the loop. Accounting: the counter against the queue and the message being handed over.
    Time: an armed deadline is near and met, and a local close has armed it or is about to. Each family is kept
    helper by helper, then command by command, then by the whole step. */
module ReferenceInvariants {
  import opened Types
  import opened ReferencePump

  // ----- control: latches, the bound of the write in progress, the finalization sequence -----------------

  function Stage(pc: Pc): nat {
    match pc
    case Finalizing(stage) => stage
    case Done => 7
    case _ => 0
  }

  ghost predicate TaskInv(t: Task) {
    && (t.wireClosing || t.writeDead ==> t.deadline.Some?)
    && (t.pc.Writing? ==> !t.writeDead && t.pc.bound == t.deadline)
    && (t.pc.Writing? && t.pc.job.DataJob? ==> !t.wireClosing)
    && (t.pc.Writing? && t.pc.job.CloseJob? ==> t.wireClosing)
    && Stage(t.pc) <= 7
    && t.closeInfo == (if Stage(t.pc) > 0 then Some(t.peerFrame) else None)
    && (Stage(t.pc) > 4 ==> t.lifecycle.Rank() >= 1)
    && (Stage(t.pc) > 5 ==> t.lifecycle.IsClosed?)
  }

  ghost predicate ControlInv(s: Pump) {
    && TaskInv(s.task)
    && (s.inbound.overflowed ==> s.task.wireClosing)
    && s.inbound.ended == (Stage(s.task.pc) > 1)
    && s.channel.closed == (Stage(s.task.pc) > 2)
    && (Stage(s.task.pc) > 3 ==> s.channel.cmds == [])
    && (s.guest.localClosed ==> s.task.lifecycle.Rank() >= 1)
    && (s.channel.toPost.Some? ==> s.guest.localClosed && s.channel.toPost.value.CloseCmd?)
    && (s.channel.sendersGone ==> s.guest.localClosed && s.channel.toPost.None?)
  }

  /** Where a closing comes from: an armed deadline, and a close command, have a cause. No send is enqueued
      behind a close command. */
  ghost predicate CauseInv(s: Pump) {
    && (s.task.deadline.Some? ==> s.task.wireClosing || s.task.writeDead || s.guest.localClosed)
    && (forall i :: 0 <= i < |s.channel.cmds| && s.channel.cmds[i].CloseCmd? ==> s.guest.localClosed)
    && (forall i, j :: 0 <= i < j < |s.channel.cmds| && s.channel.cmds[i].CloseCmd? ==> s.channel.cmds[j].CloseCmd?)
  }

  /** A pump step keeps an armed deadline, or arms it one close timeout from now. */
  ghost predicate DeadlineKept(cfg: Config, now: nat, t: Task, u: Task) {
    if t.deadline.Some? then u.deadline == t.deadline
    else u.deadline.None? || u.deadline == Some(now + cfg.closeTimeout)
  }

  lemma BeginCloseInv(cfg: Config, now: nat, t: Task, frame: Option<CloseInfo>, thenBreak: bool)
    requires TaskInv(t) && t.pc.AtSelect?
    ensures var u := BeginClose(cfg, now, t, frame, thenBreak).0;
            && TaskInv(u) && DeadlineKept(cfg, now, t, u)
            && u.wireClosing && u.lifecycle.Rank() >= t.lifecycle.Rank() && Stage(u.pc) == 0
  {
  }

  lemma PeerClosesInv(cfg: Config, now: nat, t: Task, frame: Option<CloseInfo>)
    requires TaskInv(t) && t.pc.AtSelect?
    ensures var u := PeerCloses(cfg, now, t, frame).0;
            && TaskInv(u) && DeadlineKept(cfg, now, t, u)
            && u.wireClosing && u.lifecycle.Rank() >= t.lifecycle.Rank() && Stage(u.pc) == 0
  {
  }

  ghost predicate SameLatches(t: Task, u: Task) {
    u.wireClosing == t.wireClosing && u.lifecycle == t.lifecycle && Stage(u.pc) == 0
  }

  lemma StartWriteInv(cfg: Config, now: nat, t: Task, job: Job, frames: seq<Frame>)
    requires TaskInv(t) && t.pc.AtSelect? && (job.FlushJob? || (job.DataJob? && !t.wireClosing))
    ensures var u := BoundedWrite(t, job, frames).0;
            TaskInv(u) && DeadlineKept(cfg, now, t, u) && SameLatches(t, u)
  {
  }

  lemma EndWriteInv(cfg: Config, now: nat, t: Task, result: SendResult)
    requires TaskInv(t) && t.pc.Writing?
    ensures var u := EndWrite(cfg, now, t, result).0;
            TaskInv(u) && DeadlineKept(cfg, now, t, u) && SameLatches(t, u)
  {
  }

  lemma {:induction false} ControlKept(cfg: Config, s: Pump, e: Event)
    requires Enabled(s, e) && ControlInv(s)
    ensures ControlInv(StepOf(cfg, s, e).0)
    ensures IsPump(e) ==> DeadlineKept(cfg, s.now, s.task, StepOf(cfg, s, e).0.task)
  {
    hide HandleCmd, HandleRead, EndWrite, Finalize, OutsideStep;
    match e
    case TakeCmd => CmdControlKept(cfg, s);
    case ReadSocket => ReadControlKept(cfg, s);
    case WriteEnds(outcome) => hide TaskInv; EndWriteInv(cfg, s.now, s.task, outcome);
    case WriteTimesOut => hide TaskInv; EndWriteInv(cfg, s.now, s.task, Failed(Closed));
    case FinalizeStep => FinalizeControlKept(cfg, s);
    case DeadlineFires =>
    case ArmMidWrite =>
    case _ => OutsideControlKept(cfg, s, e);
  }

  lemma OutsideControlKept(cfg: Config, s: Pump, e: Event)
    requires !IsPump(e) && Enabled(s, e) && ControlInv(s)
    ensures ControlInv(OutsideStep(s, e).0)
  {
    hide TaskInv;
    assert TaskInv(OutsideStep(s, e).0.task) by {
      LifecycleInv(s.task);
    }
  }

  lemma LifecycleInv(t: Task)
    requires TaskInv(t)
    ensures TaskInv(t.(lifecycle := t.lifecycle.Advance(IsClosing)))
  {
  }

  lemma CmdControlKept(cfg: Config, s: Pump)
    requires Enabled(s, TakeCmd) && ControlInv(s)
    ensures var t := HandleCmd(cfg, s).0; ControlInv(t) && DeadlineKept(cfg, s.now, s.task, t.task)
  {
    hide BeginClose, BoundedWrite;
    if s.channel.cmds == [] {
      BeginCloseInv(cfg, s.now, s.task.(cmdsDone := true), None, false);
    } else if s.channel.cmds[0].CloseCmd? {
      BeginCloseInv(cfg, s.now, s.task, s.channel.cmds[0].frame, false);
    } else if !s.task.wireClosing {
      var job := DataJob(s.channel.cmds[0].id);
      StartWriteInv(cfg, s.now, s.task, job, [DataFrame(job.id, s.channel.cmds[0].message)]);
    }
  }

  lemma ReadControlKept(cfg: Config, s: Pump)
    requires Enabled(s, ReadSocket) && ControlInv(s)
    ensures var t := HandleRead(cfg, s).0; ControlInv(t) && DeadlineKept(cfg, s.now, s.task, t.task)
  {
    hide BeginClose, PeerCloses, BoundedWrite;
    match s.inbox[0]
    case Data(_) => BeginCloseInv(cfg, s.now, s.task, None, false);
    case CapacityError => BeginCloseInv(cfg, s.now, s.task, None, true);
    case PeerClose(frame) => PeerClosesInv(cfg, s.now, s.task, frame);
    case Ping => StartWriteInv(cfg, s.now, s.task, FlushJob, []);
    case _ =>
  }

  lemma FinalizeControlKept(cfg: Config, s: Pump)
    requires Enabled(s, FinalizeStep) && ControlInv(s)
    ensures var t := Finalize(s).0; ControlInv(t) && DeadlineKept(cfg, s.now, s.task, t.task)
  {
    FinalizeTaskInv(s.task);
    hide TaskInv, FinalizeTask;
  }

  lemma FinalizeTaskInv(t: Task)
    requires TaskInv(t) && t.pc.Finalizing?
    ensures var u := FinalizeTask(t, t.pc.stage).0;
            && TaskInv(u) && u.deadline == t.deadline && u.wireClosing == t.wireClosing
            && Stage(u.pc) == (if t.pc.stage < 6 then t.pc.stage + 1 else 7)
            && u.lifecycle.Rank() >= t.lifecycle.Rank()
    ensures forall acks :: TaskInv(t.(acks := acks))
  {
  }

  // ----- causes ------------------------------------------------------------------------------------------

  /** A deadline armed by a helper comes with its latch. */
  ghost predicate ArmedFor(t: Task, u: Task) {
    && (t.wireClosing ==> u.wireClosing) && (t.writeDead ==> u.writeDead)
    && (u.deadline.Some? ==> t.deadline.Some? || u.wireClosing || u.writeDead)
  }

  lemma HelpersArmFor(cfg: Config, now: nat, t: Task, frame: Option<CloseInfo>, thenBreak: bool)
    requires t.pc.AtSelect?
    ensures ArmedFor(t, BeginClose(cfg, now, t, frame, thenBreak).0)
    ensures ArmedFor(t, PeerCloses(cfg, now, t, frame).0)
  {
  }

  lemma WritesArmFor(cfg: Config, now: nat, t: Task, job: Job, frames: seq<Frame>, result: SendResult)
    ensures ArmedFor(t, BoundedWrite(t, job, frames).0) && ArmedFor(t, EndWrite(cfg, now, t, result).0)
  {
  }

  lemma {:induction false} CauseKept(cfg: Config, s: Pump, e: Event)
    requires Enabled(s, e) && ControlInv(s) && CauseInv(s)
    ensures CauseInv(StepOf(cfg, s, e).0)
  {
    hide HandleCmd, HandleRead, EndWrite, Finalize, OutsideStep, ControlInv;
    match e
    case TakeCmd => CmdCauseKept(cfg, s);
    case ReadSocket => ReadCauseKept(cfg, s);
    case WriteEnds(outcome) => WritesArmFor(cfg, s.now, s.task, FlushJob, [], outcome);
    case WriteTimesOut => WritesArmFor(cfg, s.now, s.task, FlushJob, [], Failed(Closed));
    case FinalizeStep => FinalizeCauseKept(s);
    case DeadlineFires =>
    case ArmMidWrite =>
    case _ => OutsideCauseKept(s, e);
  }

  lemma CmdCauseKept(cfg: Config, s: Pump)
    requires Enabled(s, TakeCmd) && CauseInv(s)
    ensures CauseInv(HandleCmd(cfg, s).0)
  {
    hide BeginClose, BoundedWrite;
    if s.channel.cmds == [] {
      HelpersArmFor(cfg, s.now, s.task.(cmdsDone := true), None, false);
    } else {
      match s.channel.cmds[0]
      case CloseCmd(frame) => HelpersArmFor(cfg, s.now, s.task, frame, false);
      case SendCmd(id, m) => WritesArmFor(cfg, s.now, s.task, DataJob(id), [DataFrame(id, m)], Sent);
    }
  }

  lemma ReadCauseKept(cfg: Config, s: Pump)
    requires Enabled(s, ReadSocket) && CauseInv(s)
    ensures CauseInv(HandleRead(cfg, s).0)
  {
    hide BeginClose, PeerCloses, BoundedWrite;
    match s.inbox[0]
    case Data(_) => HelpersArmFor(cfg, s.now, s.task, None, false);
    case CapacityError => HelpersArmFor(cfg, s.now, s.task, None, true);
    case PeerClose(frame) => HelpersArmFor(cfg, s.now, s.task, frame, false);
    case Ping => WritesArmFor(cfg, s.now, s.task, FlushJob, [], Sent);
    case _ =>
  }

  lemma FinalizeCauseKept(s: Pump)
    requires Enabled(s, FinalizeStep) && CauseInv(s)
    ensures CauseInv(Finalize(s).0)
  {
  }

  lemma OutsideCauseKept(s: Pump, e: Event)
    requires !IsPump(e) && Enabled(s, e) && ControlInv(s) && CauseInv(s)
    ensures CauseInv(OutsideStep(s, e).0)
  {
    hide TaskInv;
  }

  // ----- accounting --------------------------------------------------------------------------------------

  function Held(q: Inbound): nat { if q.unreleased.Some? then q.unreleased.value else 0 }

  /** The counter is the queued bytes plus those of the message being handed over. */
  ghost predicate BudgetInv(cfg: Config, q: Inbound) {
    q.buffered == Bytes(q.queue) + Held(q) && q.buffered <= cfg.limit
  }

  lemma BudgetKept(cfg: Config, s: Pump, e: Event)
    requires Enabled(s, e) && BudgetInv(cfg, s.inbound)
    ensures BudgetInv(cfg, StepOf(cfg, s, e).0.inbound)
  {
    hide BeginClose, PeerCloses, BoundedWrite, EndWrite, AfterWrite;
    if e.ReadSocket? && s.inbox[0].Data? {
      BytesSnoc(s.inbound.queue, s.inbox[0].message);
    }
  }

  // ----- time --------------------------------------------------------------------------------------------

  /** The local close is on its way to the pump. */
  ghost predicate CloseComing(s: Pump) {
    || s.channel.toPost.Some?
    || (exists i :: 0 <= i < |s.channel.cmds| && s.channel.cmds[i].CloseCmd?)
    || s.task.pc.Finalizing?
  }

  /** An armed deadline is at most one close timeout away and is never overrun; a local close has armed
      it, or will at the very instant of the call. */
  ghost predicate TimeInv(cfg: Config, s: Pump) {
    && s.guest.closedAt.Some? == s.guest.localClosed
    && (s.task.deadline.Some? ==> s.task.deadline.value <= s.now + cfg.closeTimeout)
    && (s.task.deadline.Some? && !s.task.pc.Done? ==> s.now <= s.task.deadline.value)
    && (s.guest.closedAt.Some? ==> s.guest.closedAt.value <= s.now)
    && (s.guest.closedAt.Some? && !s.task.pc.Done? ==>
          if s.task.deadline.Some? then s.task.deadline.value <= s.guest.closedAt.value + cfg.closeTimeout
          else s.now == s.guest.closedAt.value && CloseComing(s))
  }

  lemma {:induction false} TimeKept(cfg: Config, s: Pump, e: Event)
    requires Enabled(s, e) && ControlInv(s) && TimeInv(cfg, s)
    ensures TimeInv(cfg, StepOf(cfg, s, e).0)
  {
    if IsPump(e) {
      ControlKept(cfg, s, e);
      PumpFrame(cfg, s, e);
      if CloseComing(s) {
        PumpKeepsCloseComing(cfg, s, e);
      }
      hide PumpStep, ControlInv, CloseComing;
    } else {
      OutsideTimeKept(cfg, s, e);
      hide OutsideStep, ControlInv, TimeInv;
    }
  }

  /** What the pump leaves alone. */
  lemma PumpFrame(cfg: Config, s: Pump, e: Event)
    requires IsPump(e) && Enabled(s, e)
    ensures var t := PumpStep(cfg, s, e).0;
            t.now == s.now && t.guest == s.guest && t.channel.toPost == s.channel.toPost && !s.task.pc.Done?
  {
    hide BeginClose, PeerCloses, BoundedWrite, EndWrite, AfterWrite;
  }

  lemma PumpKeepsCloseComing(cfg: Config, s: Pump, e: Event)
    requires IsPump(e) && Enabled(s, e) && ControlInv(s) && CloseComing(s)
    ensures var t := PumpStep(cfg, s, e).0;
            t.task.deadline.Some? || t.task.pc.Done? || CloseComing(t)
  {
    match e
    case TakeCmd =>
      if s.channel.cmds != [] {
        var rest := s.channel.cmds[1..];
        assert forall i :: 1 <= i < |s.channel.cmds| ==> rest[i - 1] == s.channel.cmds[i];
      }
    case ReadSocket =>
      hide BeginClose, PeerCloses, BoundedWrite;
    case _ =>
  }

  lemma OutsideTimeKept(cfg: Config, s: Pump, e: Event)
    requires !IsPump(e) && Enabled(s, e) && ControlInv(s) && TimeInv(cfg, s)
    ensures TimeInv(cfg, OutsideStep(s, e).0)
  {
    var t := OutsideStep(s, e).0;
    assert forall i :: 0 <= i < |s.channel.cmds| ==> t.channel.cmds[i] == s.channel.cmds[i];
    if e.PostClose? && !s.channel.closed {
      assert t.channel.cmds[|s.channel.cmds|].CloseCmd?;
    }
  }
}
