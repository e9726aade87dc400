/** Every run of the reference pump, as the guest observes it, is a run of the contract.

    The relation has three parts, each on the fields it needs: the inbound queue and its signals against the log and
    the latches, the task's own data against the peer's frame, the outcome and the lifecycle, and the pending sends
    against those in flight. Each event's labels are shown to lead the contract from a related state to a related
    one, helper by helper; a run is then the concatenation of its steps. */
module ReferenceRefinement {
  import opened Types
  import opened CallIds
  import opened Contract
  import opened ReferencePump
  import opened ReferenceInvariants
  import opened ReferenceSends
  import opened ReferenceTermination

  /** The sends not answered yet, in the order they will be. */
  function Pending(s: Pump): seq<nat> { InFlight(s.task.pc) + CmdIds(s.channel.cmds) }

  /** The queue and its signals against the contract's log and latches. */
  ghost predicate QueueRel(s: Pump, c: State) {
    var q := s.inbound;
    && c.Backlog() == q.queue
    && (q.unreleased.Some? ==> 0 < c.taken <= |c.accepted| && q.unreleased.value == c.accepted[c.taken - 1].Size())
    && c.overflowed == q.overflowed
    && c.ended == q.ended
    && c.localClosed == s.guest.localClosed
    && c.claimed == s.guest.claimed
  }

  ghost predicate TaskRel(t: Task, c: State) {
    && (t.wireClosing ==> c.stopped)
    && (c.stopped ==> t.wireClosing || LeftLoop(t.pc))
    && (t.writeDead ==> c.broken)
    && (LeftLoop(t.pc) ==> MayEnd(c))
    && c.peer == t.peerFrame
    && c.outcome == t.closeInfo
    && c.lifecycle == t.lifecycle
  }

  ghost predicate SendRel(s: Pump, c: State) {
    (forall id <- c.calls :: id < s.guest.calls) && c.inFlight == IdSet(Pending(s))
  }

  ghost predicate Rel(s: Pump, c: State) {
    c.Valid() && QueueRel(s, c) && TaskRel(s.task, c) && SendRel(s, c)
  }

  /** The labels of a step lead the contract to a related state. */
  ghost predicate Matches(cfg: Config, c: State, out: Outcome) {
    var next := Exec(cfg.limit, c, out.1);
    next.Some? && Rel(out.0, next.value)
  }

  lemma PendingIncreasing(s: Pump)
    requires OrderInv(s)
    ensures Increasing(Pending(s), s.guest.calls)
  {
    var k := |s.task.acks|;
    assert forall i :: 0 <= i < |Pending(s)| ==> Pending(s)[i] == s.guest.issued[k + i];
  }

  // ----- labels of the helpers ---------------------------------------------------------------------------

  lemma BeginCloseLabels(cfg: Config, now: nat, t: Task, frame: Option<CloseInfo>, thenBreak: bool)
    requires t.pc.AtSelect?
    ensures var (u, ls) := BeginClose(cfg, now, t, frame, thenBreak);
            && ls == (if t.wireClosing then [] else [Stop, Progress(IsClosing)])
            && u.wireClosing && u.writeDead == t.writeDead
            && u.peerFrame == t.peerFrame && u.closeInfo == t.closeInfo
            && u.lifecycle == (if t.wireClosing then t.lifecycle else t.lifecycle.Advance(IsClosing))
            && InFlight(u.pc) == []
  {
  }

  lemma PeerClosesLabels(cfg: Config, now: nat, t: Task, frame: Option<CloseInfo>)
    requires t.pc.AtSelect?
    ensures var (u, ls) := PeerCloses(cfg, now, t, frame);
            && ls == [PeerFrame(CloseInfoFrom(frame)), Progress(IsClosing)]
            && u.wireClosing && u.writeDead == t.writeDead && u.closeInfo == t.closeInfo
            && u.peerFrame == (if t.peerFrame.None? then Some(CloseInfoFrom(frame)) else t.peerFrame)
            && u.lifecycle == t.lifecycle.Advance(IsClosing)
            && InFlight(u.pc) == []
  {
  }

  lemma MatchesOne(cfg: Config, c: State, d: State, t: Pump, l: Label)
    requires c.Valid() && Step(cfg.limit, c, l) == Some(d) && Rel(t, d)
    ensures Matches(cfg, c, (t, [l]))
  {
    hide Step, Rel;
    ExecOne(cfg.limit, c, l);
  }

  lemma MatchesNone(cfg: Config, c: State, t: Pump)
    requires Rel(t, c)
    ensures Matches(cfg, c, (t, []))
  {
  }

  // ----- the pump ----------------------------------------------------------------------------------------

  /** Beginning the close, after a state the contract already follows up to the stop itself. */
  lemma BeginCloseMatches(cfg: Config, s: Pump, t: Task, c: State, frame: Option<CloseInfo>, thenBreak: bool)
    requires t.pc.AtSelect? && s.task == t && Rel(s, c) && s.guest.localClosed
    ensures Matches(cfg, c, WithTask(s, [], BeginClose(cfg, s.now, t, frame, thenBreak)))
  {
    hide BeginClose;
    BeginCloseLabels(cfg, s.now, t, frame, thenBreak);
    assert [] + BeginClose(cfg, s.now, t, frame, thenBreak).1 == BeginClose(cfg, s.now, t, frame, thenBreak).1;
    if !t.wireClosing {
      StopAndProgress(cfg.limit, c);
    }
  }

  /** The same after one more label that moved the contract to `mid`. */
  lemma BeginCloseMatchesAfter(cfg: Config, s: Pump, c: State, mid: State, first: Label, thenBreak: bool)
    requires s.task.pc.AtSelect? && c.Valid() && Step(cfg.limit, c, first) == Some(mid)
    requires mid.Valid() && QueueRel(s, mid) && SendRel(s, mid) && mid.stopped
    requires mid.peer == s.task.peerFrame && mid.outcome == s.task.closeInfo && mid.lifecycle == s.task.lifecycle
    requires s.task.writeDead ==> mid.broken
    ensures Matches(cfg, c, WithTask(s, [first], BeginClose(cfg, s.now, s.task, None, thenBreak)))
  {
    hide BeginClose, InputStep, ObservedStep;
    BeginCloseLabels(cfg, s.now, s.task, None, thenBreak);
    ExecMore(cfg.limit, c, first, BeginClose(cfg, s.now, s.task, None, thenBreak).1);
    if !s.task.wireClosing {
      StopAndProgress(cfg.limit, mid);
    }
  }

  lemma StopAndProgress(limit: nat, c: State)
    requires c.Valid() && (c.localClosed || c.stopped)
    ensures Exec(limit, c, [Stop, Progress(IsClosing)])
         == Some(c.(stopped := true, lifecycle := c.lifecycle.Advance(IsClosing)))
  {
    ExecTwo(limit, c, Stop, Progress(IsClosing));
  }

  /** What is charged covers the counter. */
  lemma ChargedCovers(cfg: Config, s: Pump, c: State)
    requires c.Valid() && QueueRel(s, c) && BudgetInv(cfg, s.inbound)
    ensures s.inbound.buffered <= Bytes(c.Charged())
    ensures Bytes(c.Backlog()) <= s.inbound.buffered
  {
    if c.taken > 0 {
      assert c.Charged()[1..] == c.Backlog();
    }
  }

  lemma ReadMatches(cfg: Config, s: Pump, c: State)
    requires Enabled(s, ReadSocket) && Inv(cfg, s) && Rel(s, c)
    ensures Matches(cfg, c, HandleRead(cfg, s))
  {
    hide TimeInv, BudgetInv, OrderInv, WireInv, BeginClose, PeerCloses, Deliver, Rel, Matches;
    var rest := s.(inbox := s.inbox[1..]);
    match s.inbox[0]
    case Data(m) => DeliverMatches(cfg, s, rest, c, m);
    case PeerClose(frame) => PeerClosesMatches(cfg, s, rest, c, frame);
    case CapacityError => CapacityMatches(cfg, s, rest, c);
    case ReadEnd => InputEndMatches(cfg, s, c);
    case _ => QuietReadMatches(cfg, s, c);
  }

  lemma CapacityMatches(cfg: Config, s: Pump, rest: Pump, c: State)
    requires s.task.pc.AtSelect? && ControlInv(s) && Rel(s, c) && rest == s.(inbox := rest.inbox)
    ensures Matches(cfg, c, WithTask(rest.(inbound := s.inbound.(overflowed := true)), [LatchOverflow],
                                     BeginClose(cfg, s.now, s.task, None, true)))
  {
    hide Step, BeginClose;
    var over := rest.(inbound := s.inbound.(overflowed := true));
    var d := c.(stopped := true, overflowed := true);
    PlainSteps(cfg.limit, c, IsClosing);
    assert Pending(over) == Pending(s);
    BeginCloseMatchesAfter(cfg, over, c, d, LatchOverflow, true);
  }

  lemma InputEndMatches(cfg: Config, s: Pump, c: State)
    requires Enabled(s, ReadSocket) && ControlInv(s) && Rel(s, c) && s.inbox[0].ReadEnd?
    ensures Matches(cfg, c, HandleRead(cfg, s))
  {
    hide Step;
    var t, d := HandleRead(cfg, s).0, c.(stopped := true);
    assert Pending(t) == Pending(s);
    assert TaskRel(t.task, d);
    assert s.inbound == s.inbound.(ended := d.ended);
    RelByTask(s, c, t, d);
    PlainSteps(cfg.limit, c, IsClosing);
    hide Rel, TaskRel, Pending;
    MatchesOne(cfg, c, d, t, InputEnds);
  }

  /** Pings and other frames say nothing. */
  lemma QuietReadMatches(cfg: Config, s: Pump, c: State)
    requires Enabled(s, ReadSocket) && ControlInv(s) && Rel(s, c)
    requires s.inbox[0].Ping? || s.inbox[0].OtherFrame?
    ensures Matches(cfg, c, HandleRead(cfg, s))
  {
    var t := HandleRead(cfg, s).0;
    assert Pending(t) == Pending(s);
    assert HandleRead(cfg, s).1 == [];
    assert Rel(t, c) by { hide Pending, IdSet; }
    hide Rel;
    MatchesNone(cfg, c, t);
  }

  lemma PeerClosesMatches(cfg: Config, s: Pump, rest: Pump, c: State, frame: Option<CloseInfo>)
    requires s.task.pc.AtSelect? && ControlInv(s) && Rel(s, c) && rest == s.(inbox := rest.inbox)
    ensures Matches(cfg, c, WithTask(rest, [], PeerCloses(cfg, s.now, s.task, frame)))
  {
    hide PeerCloses;
    PeerClosesLabels(cfg, s.now, s.task, frame);
    var out := WithTask(rest, [], PeerCloses(cfg, s.now, s.task, frame));
    assert out.1 == [PeerFrame(CloseInfoFrom(frame)), Progress(IsClosing)];
    ExecTwo(cfg.limit, c, PeerFrame(CloseInfoFrom(frame)), Progress(IsClosing));
    assert Pending(out.0) == Pending(s);
  }

  lemma DeliverMatches(cfg: Config, before: Pump, s: Pump, c: State, m: Message)
    requires Inv(cfg, before) && before.task.pc.AtSelect? && s == before.(inbox := s.inbox) && Rel(before, c)
    ensures Matches(cfg, c, Deliver(cfg, s, m))
  {
    hide TimeInv, OrderInv, WireInv, BeginClose, Step;
    assert Rel(s, c) by { RelByInbox(before, s, c); }
    ChargedCovers(cfg, before, c);
    ArriveSteps(cfg.limit, c, m);
    assert c.stopped == s.task.wireClosing;
    if s.task.wireClosing {
      hide Rel;
      MatchesOne(cfg, c, c, s, Drop(m));
    } else if s.inbound.buffered + m.Size() <= cfg.limit {
      var d := c.(accepted := c.accepted + [m]);
      assert Rel(Deliver(cfg, s, m).0, d) by { RelByAccept(s, c, m); }
      hide Rel;
      MatchesOne(cfg, c, d, Deliver(cfg, s, m).0, Accept(m));
    } else {
      OverflowStep(cfg.limit, c, m);
      var over := s.(inbound := s.inbound.(overflowed := true));
      assert QueueRel(over, c.(stopped := true, overflowed := true));
      assert Pending(over) == Pending(s);
      BeginCloseMatchesAfter(cfg, over, c, c.(stopped := true, overflowed := true), Overflow(m), false);
    }
  }

  lemma RelByInbox(s: Pump, t: Pump, c: State)
    requires Rel(s, c) && t == s.(inbox := t.inbox)
    ensures Rel(t, c)
  {
    assert Pending(t) == Pending(s);
  }

  lemma RelByAccept(s: Pump, c: State, m: Message)
    requires Rel(s, c)
    ensures var q := s.inbound;
            Rel(s.(inbound := q.(buffered := q.buffered + m.Size(), queue := q.queue + [m])),
                c.(accepted := c.accepted + [m]))
  {
    var q := s.inbound;
    var t := s.(inbound := q.(buffered := q.buffered + m.Size(), queue := q.queue + [m]));
    var d := c.(accepted := c.accepted + [m]);
    assert d.Backlog() == c.Backlog() + [m];
    assert Pending(t) == Pending(s);
  }

  /** Answering the first pending send. */
  lemma AnswerMatches(cfg: Config, s: Pump, t: Pump, c: State, id: nat, result: SendResult)
    requires OrderInv(s) && Rel(s, c) && Pending(s) == [id] + Pending(t)
    requires t.inbound == s.inbound && t.guest == s.guest && TaskRel(t.task, c)
    ensures Matches(cfg, c, (t, [SendDone(id, result)]))
  {
    PendingIncreasing(s);
    IdSetTail(Pending(s), s.guest.calls);
    assert Pending(s)[1..] == Pending(t);
    assert Pending(s)[0] == id;
    ExecOne(cfg.limit, c, SendDone(id, result));
  }

  lemma CmdMatches(cfg: Config, s: Pump, c: State)
    requires Enabled(s, TakeCmd) && Inv(cfg, s) && Rel(s, c)
    ensures Matches(cfg, c, HandleCmd(cfg, s))
  {
    hide TimeInv, BudgetInv, WireInv, BeginClose, Matches;
    assert s.channel.cmds == [] || s.channel.cmds[0].CloseCmd? ==> s.guest.localClosed;
    if s.channel.cmds == [] {
      var t := s.(task := s.task.(cmdsDone := true));
      BeginCloseMatches(cfg, t, t.task, c, None, false);
    } else {
      var rest := s.(channel := s.channel.(cmds := s.channel.cmds[1..]));
      match s.channel.cmds[0]
      case CloseCmd(frame) =>
        assert Pending(rest) == Pending(s);
        BeginCloseMatches(cfg, rest, s.task, c, frame, false);
      case SendCmd(id, m) =>
        if s.task.wireClosing || s.task.writeDead {
          var t := rest.(task := s.task.(acks := s.task.acks + [Ack(id, Failed(Closed))]));
          AnswerMatches(cfg, s, t, c, id, Failed(Closed));
          assert [] + [SendDone(id, Failed(Closed))] == [SendDone(id, Failed(Closed))];
        } else {
          StartSendMatches(cfg, s, rest, c, id, m);
        }
    }
  }

  lemma StartSendMatches(cfg: Config, s: Pump, rest: Pump, c: State, id: nat, m: Message)
    requires s.task.pc.AtSelect? && !s.task.writeDead && Rel(s, c) && s.channel.cmds != []
    requires s.channel.cmds[0].SendCmd? && s.channel.cmds[0].id == id
    requires rest == s.(channel := s.channel.(cmds := s.channel.cmds[1..]))
    ensures Matches(cfg, c, WithTask(rest, [], BoundedWrite(s.task, DataJob(id), [DataFrame(id, m)])))
  {
    var t := WithTask(rest, [], BoundedWrite(s.task, DataJob(id), [DataFrame(id, m)])).0;
    assert Pending(t) == Pending(s);
  }

  lemma EndWriteMatches(cfg: Config, s: Pump, c: State, result: SendResult)
    requires s.task.pc.Writing? && Inv(cfg, s) && Rel(s, c)
    ensures Matches(cfg, c, WithTask(s, [], EndWrite(cfg, s.now, s.task, result)))
  {
    hide TimeInv, BudgetInv, CauseInv, WireInv;
    var out := WithTask(s, [], EndWrite(cfg, s.now, s.task, result));
    var after := AfterWrite(s.task, s.task.pc.job, result).1;
    if result.Sent? {
      assert out.1 == after;
      WrittenMatches(cfg, s, out.0, c, result);
    } else {
      var d := c.(broken := true);
      BrokenRel(s, c);
      WrittenMatches(cfg, s, out.0, d, result);
      assert out.1 == [WriteDied] + after;
      PlainSteps(cfg.limit, c, IsClosing);
      assert c.Valid() by { RelValid(s, c); }
      hide Rel, Step, EndWrite;
      ExecMore(cfg.limit, c, WriteDied, after);
    }
  }

  lemma BrokenRel(s: Pump, c: State)
    requires Rel(s, c)
    ensures Rel(s, c.(broken := true))
  {
  }

  /** What follows the write, once the contract knows whether the write half lives. */
  lemma WrittenMatches(cfg: Config, s: Pump, t: Pump, c: State, result: SendResult)
    requires s.task.pc.Writing? && ControlInv(s) && OrderInv(s) && Rel(s, c) && (result.Failed? ==> c.broken)
    requires t == s.(task := EndWrite(cfg, s.now, s.task, result).0)
    ensures Matches(cfg, c, (t, AfterWrite(s.task, s.task.pc.job, result).1))
  {
    if s.task.pc.job.DataJob? {
      AnswerMatches(cfg, s, t, c, s.task.pc.job.id, result);
    } else {
      assert Pending(t) == Pending(s);
    }
  }

  lemma FinalizeMatches(cfg: Config, s: Pump, c: State)
    requires Enabled(s, FinalizeStep) && Inv(cfg, s) && Rel(s, c)
    ensures Matches(cfg, c, Finalize(s))
  {
    hide TimeInv, BudgetInv, WireInv;
    if s.task.pc.stage == 3 && s.channel.cmds != [] {
      if s.channel.cmds[0].SendCmd? {
        AnswerMatches(cfg, s, DrainOne(s).0, c, s.channel.cmds[0].id, Failed(Closed));
      } else {
        assert Pending(DrainOne(s).0) == Pending(s);
      }
    } else {
      StatementRel(s, c);
      assert c.Valid() by { RelValid(s, c); }
      assert MayEnd(c);
      StatementExec(cfg.limit, c, s.task.pc.stage);
      hide Rel, Finalize, ControlInv;
    }
  }

  /** Where a finalizing statement takes the contract. */
  function AfterStatement(c: State, stage: nat): State {
    match stage
    case 0 => c.(outcome := Some(c.peer))
    case 1 => c.(stopped := true, ended := true)
    case 4 => c.(lifecycle := c.lifecycle.Advance(IsClosing))
    case 5 => c.(lifecycle := c.lifecycle.Advance(IsClosed))
    case _ => c
  }

  function StatementLabels(stage: nat): seq<Label> {
    match stage
    case 0 => [Settle]
    case 1 => [End]
    case 4 => [Progress(IsClosing)]
    case 5 => [Progress(IsClosed)]
    case _ => []
  }

  lemma StatementExec(limit: nat, c: State, stage: nat)
    requires c.Valid() && MayEnd(c) && (stage == 0 ==> c.outcome.None?)
    ensures Exec(limit, c, StatementLabels(stage)) == Some(AfterStatement(c, stage))
  {
    hide Step;
    PlainSteps(limit, c, if stage == 4 then IsClosing else IsClosed);
    if StatementLabels(stage) != [] {
      ExecOne(limit, c, StatementLabels(stage)[0]);
      assert StatementLabels(stage) == [StatementLabels(stage)[0]];
    }
  }

  function LifecycleAfter(state: WsState, stage: nat): WsState {
    if stage == 4 then state.Advance(IsClosing) else if stage == 5 then state.Advance(IsClosed) else state
  }

  /** A statement on the task's own data: what it shows and what it changes. */
  lemma StatementShows(t: Task, stage: nat)
    ensures var (u, ls) := FinalizeTask(t, stage);
            && ls == StatementLabels(stage) && InFlight(u.pc) == []
            && LeftLoop(u.pc) && u.wireClosing == t.wireClosing && u.writeDead == t.writeDead
            && u.peerFrame == t.peerFrame
            && u.closeInfo == (if stage == 0 then Some(t.peerFrame) else t.closeInfo)
            && u.lifecycle == LifecycleAfter(t.lifecycle, stage)
  {
  }

  /** Where it leaves the task. */
  lemma StatementTask(t: Task, c: State, stage: nat)
    requires c.Valid() && TaskRel(t, c) && t.pc.Finalizing?
    ensures TaskRel(FinalizeTask(t, stage).0, AfterStatement(c, stage))
  {
    StatementShows(t, stage);
    StatementState(c, stage);
    hide FinalizeTask, AfterStatement, StatementLabels, LifecycleAfter;
  }

  /** Where it leaves the contract. */
  lemma StatementState(c: State, stage: nat)
    requires c.Valid()
    ensures var d := AfterStatement(c, stage);
            && d.Valid() && d.ended == (c.ended || stage == 1)
            && d == c.(outcome := d.outcome, stopped := d.stopped, ended := d.ended, lifecycle := d.lifecycle)
            && d.stopped == (c.stopped || stage == 1)
            && d.outcome == (if stage == 0 then Some(c.peer) else c.outcome)
            && d.lifecycle == LifecycleAfter(c.lifecycle, stage)
  {
  }

  lemma StatementRel(s: Pump, c: State)
    requires Enabled(s, FinalizeStep) && ControlInv(s) && Rel(s, c)
    requires s.task.pc.stage != 3 || s.channel.cmds == []
    ensures Rel(Finalize(s).0, AfterStatement(c, s.task.pc.stage))
    ensures Finalize(s).1 == StatementLabels(s.task.pc.stage)
    ensures s.task.pc.stage == 0 ==> c.outcome.None?
  {
    StatementShows(s.task, s.task.pc.stage);
    StatementTask(s.task, c, s.task.pc.stage);
    StatementState(c, s.task.pc.stage);
    assert s.task.pc.stage == 0 ==> c.outcome.None?;
    hide FinalizeTask, AfterStatement, StatementLabels, TaskRel;
    var t := Finalize(s).0;
    assert Finalize(s).1 == [] + FinalizeTask(s.task, s.task.pc.stage).1;
    assert Pending(t) == Pending(s);
    RelByTask(s, c, t, AfterStatement(c, s.task.pc.stage));
  }

  /** A step that leaves the queue, the guest and the pending sends alone, up to the queue's end. */
  lemma RelByTask(s: Pump, c: State, t: Pump, d: State)
    requires Rel(s, c) && d.Valid() && TaskRel(t.task, d)
    requires t.inbound == s.inbound.(ended := d.ended) && t.guest == s.guest && Pending(t) == Pending(s)
    requires d == c.(outcome := d.outcome, stopped := d.stopped, ended := d.ended, lifecycle := d.lifecycle)
    ensures Rel(t, d)
  {
  }

  // ----- the outside -------------------------------------------------------------------------------------

  lemma PostCloseMatches(cfg: Config, s: Pump, c: State)
    requires Enabled(s, PostClose) && ControlInv(s) && Rel(s, c)
    ensures Matches(cfg, c, OutsideStep(s, PostClose))
  {
    CmdIdsConcat(s.channel.cmds, [s.channel.toPost.value]);
    assert CmdIds([s.channel.toPost.value]) == [];
    assert Pending(OutsideStep(s, PostClose).0) == Pending(s);
  }

  lemma SendCallMatches(cfg: Config, s: Pump, c: State, m: Message)
    requires ControlInv(s) && Rel(s, c)
    ensures Matches(cfg, c, SendStep(s, m))
  {
    hide Step;
    var id := s.guest.calls;
    SendSteps(cfg.limit, c, id, Sent);
    var t := SendStep(s, m).0;
    if s.guest.localClosed || s.channel.closed {
      var d := c.(calls := c.calls + {id});
      assert Pending(t) == Pending(s);
      assert Rel(t, d) by { hide Pending, IdSet; }
      hide Rel;
      MatchesOne(cfg, c, d, t, SendRefused(id));
    } else {
      var d := c.(calls := c.calls + {id}, inFlight := c.inFlight + {id});
      CmdIdsConcat(s.channel.cmds, [SendCmd(id, m)]);
      assert CmdIds([SendCmd(id, m)]) == [id];
      assert Pending(t) == Pending(s) + [id];
      IdSetSnoc(Pending(s), id);
      assert Rel(t, d) by { hide Pending, IdSet, CmdIds; }
      hide Rel;
      MatchesOne(cfg, c, d, t, SendCalled(id));
    }
  }

  lemma CloseMatches(cfg: Config, s: Pump, c: State, code: Option<nat>, reason: seq<Byte>)
    requires Rel(s, c)
    ensures Matches(cfg, c, CloseStep(s, code, reason))
  {
    if CloseArgsOk(code, reason) && !s.guest.localClosed {
      var t, d := CloseStep(s, code, reason).0, c.(localClosed := true, lifecycle := c.lifecycle.Advance(IsClosing));
      assert Pending(t) == Pending(s);
      assert Rel(t, d) by { hide Pending, IdSet; }
      ReportSteps(cfg.limit, c, Closed);
      assert !c.localClosed;
      hide Rel, Step;
      MatchesOne(cfg, c, d, t, CloseCalled);
    }
  }

  lemma CallMatches(cfg: Config, s: Pump, c: State, e: Event)
    requires (e.ReceiveCall? || e.ClaimCall?) && Rel(s, c)
    ensures Matches(cfg, c, OutsideStep(s, e))
  {
    var t := OutsideStep(s, e).0;
    var d := if e.ClaimCall? then c.(claimed := c.claimed || !s.guest.localClosed) else c;
    assert Pending(t) == Pending(s);
    assert Rel(t, d) by { hide Pending, IdSet; }
    assert c.localClosed == s.guest.localClosed && c.claimed == s.guest.claimed;
    var refusal := if s.guest.localClosed then Closed else ReceivingViaStream;
    ReportSteps(cfg.limit, c, refusal);
    hide Rel, Step;
    if s.guest.localClosed || s.guest.claimed {
      MatchesOne(cfg, c, d, t, if e.ClaimCall? then ClaimFailed(refusal) else ReceiveFailed(refusal));
    } else if e.ClaimCall? {
      MatchesOne(cfg, c, d, t, ClaimOk);
    }
  }

  lemma QuietMatches(cfg: Config, s: Pump, c: State, e: Event)
    requires e.DropSenders? || e.ReleaseBytes? || e.AwaitClosed? || e.ReadState? || e.Arrive? || e.Tick?
    requires Enabled(s, e) && ControlInv(s) && Rel(s, c)
    ensures Matches(cfg, c, OutsideStep(s, e))
  {
    var t := OutsideStep(s, e).0;
    assert Pending(t) == Pending(s);
    assert Rel(t, c) by { hide Pending, IdSet; }
    assert c.lifecycle == s.task.lifecycle && c.outcome == s.task.closeInfo;
    assert s.task.pc.Done? ==> s.task.closeInfo == Some(s.task.peerFrame);
    hide Rel, Step, ControlInv;
    ReportSteps(cfg.limit, c, Closed);
    if e.AwaitClosed? {
      MatchesOne(cfg, c, c, t, WaitClosed(s.task.peerFrame));
    } else if e.ReadState? {
      MatchesOne(cfg, c, c, t, StateSeen(s.task.lifecycle));
    } else {
      MatchesNone(cfg, c, t);
    }
  }

  /** The head of the queue is the contract's next message. */
  lemma HeadIsNext(s: Pump, c: State)
    requires c.Valid() && QueueRel(s, c) && s.inbound.queue != []
    ensures Next(c, s.inbound.queue[0]) && !c.Drained()
  {
    assert c.Backlog()[0] == c.accepted[c.taken];
  }

  /** A step that changes only the count of pending receives. */
  lemma RelByReceive(s: Pump, c: State, n: nat)
    requires Rel(s, c)
    ensures Rel(s.(guest := s.guest.(pendingReceives := n)), c)
  {
    assert Pending(s.(guest := s.guest.(pendingReceives := n))) == Pending(s);
  }

  lemma RelByTake(s: Pump, c: State)
    requires Rel(s, c) && s.inbound.queue != []
    ensures Next(c, s.inbound.queue[0]) && Rel(s.(inbound := TakeHead(s.inbound)), c.(taken := c.taken + 1))
  {
    HeadIsNext(s, c);
    var t := s.(inbound := TakeHead(s.inbound));
    assert Pending(t) == Pending(s);
    assert c.accepted[c.taken + 1..] == c.Backlog()[1..];
  }

  lemma ReceiveMatches(cfg: Config, s: Pump, c: State)
    requires Enabled(s, ReceivePoll) && Rel(s, c)
    ensures Matches(cfg, c, ReceiveStep(s))
  {
    var one := s.(guest := s.guest.(pendingReceives := s.guest.pendingReceives - 1));
    RelByReceive(s, c, s.guest.pendingReceives - 1);
    assert c.localClosed == one.guest.localClosed && c.claimed == one.guest.claimed;
    if !s.guest.claimed && !s.guest.localClosed && s.inbound.queue != [] {
      hide Step;
      RelByTake(one, c);
      TakeSteps(cfg.limit, c, s.inbound.queue[0]);
      hide Rel;
      MatchesOne(cfg, c, c.(taken := c.taken + 1), ReceiveStep(s).0, Received(s.inbound.queue[0]));
    } else if s.guest.claimed || s.guest.localClosed || s.inbound.ended {
      var e := if s.guest.claimed then ReceivingViaStream
               else if s.guest.localClosed then Closed
               else QueueEndError(s.inbound);
      assert ReadFails(c, e);
      hide Step, Rel;
      ReportSteps(cfg.limit, c, e);
      MatchesOne(cfg, c, c, one, ReceiveFailed(e));
    }
  }

  lemma StreamMatches(cfg: Config, s: Pump, c: State)
    requires Enabled(s, StreamPoll) && Rel(s, c)
    ensures Matches(cfg, c, StreamStep(s))
  {
    if !s.guest.localClosed && s.inbound.queue != [] {
      hide Step;
      RelByTake(s, c);
      TakeSteps(cfg.limit, c, s.inbound.queue[0]);
      hide Rel;
      MatchesOne(cfg, c, c.(taken := c.taken + 1), StreamStep(s).0, StreamItem(s.inbound.queue[0]));
    } else if s.guest.localClosed || s.inbound.ended {
      assert c.claimed && (c.localClosed || (c.Drained() && c.ended));
      hide Step, Rel;
      ReportSteps(cfg.limit, c, Closed);
      MatchesOne(cfg, c, c, s, StreamEnd);
    }
  }

  // ----- runs --------------------------------------------------------------------------------------------

  lemma StepMatches(cfg: Config, s: Pump, c: State, e: Event)
    requires Enabled(s, e) && Inv(cfg, s) && Rel(s, c)
    ensures Matches(cfg, c, StepOf(cfg, s, e))
  {
    assert ControlInv(s) && CauseInv(s) by { InvParts(cfg, s); }
    hide Inv, ControlInv, CauseInv, Rel, Matches, HandleCmd, HandleRead, EndWrite, Finalize;
    hide SendStep, CloseStep, ReceiveStep, StreamStep;
    match e
    case TakeCmd => CmdMatches(cfg, s, c);
    case ReadSocket => ReadMatches(cfg, s, c);
    case WriteEnds(outcome) => EndWriteMatches(cfg, s, c, outcome);
    case WriteTimesOut => EndWriteMatches(cfg, s, c, Failed(Closed));
    case FinalizeStep => FinalizeMatches(cfg, s, c);
    case DeadlineFires => TurnMatches(cfg, s, c, e);
    case ArmMidWrite => TurnMatches(cfg, s, c, e);
    case SendCall(m) => SendCallMatches(cfg, s, c, m);
    case PostClose => PostCloseMatches(cfg, s, c);
    case ReceivePoll => ReceiveMatches(cfg, s, c);
    case StreamPoll => StreamMatches(cfg, s, c);
    case CloseCall(code, reason) => CloseMatches(cfg, s, c, code, reason);
    case ReceiveCall => CallMatches(cfg, s, c, e);
    case ClaimCall => CallMatches(cfg, s, c, e);
    case _ => QuietMatches(cfg, s, c, e);
  }

  lemma TurnMatches(cfg: Config, s: Pump, c: State, e: Event)
    requires (e.DeadlineFires? || e.ArmMidWrite?) && Enabled(s, e) && CauseInv(s) && Rel(s, c)
    ensures Matches(cfg, c, PumpStep(cfg, s, e))
  {
  }

  lemma {:induction false} RunMatches(cfg: Config, s: Pump, c: State, events: seq<Event>)
    requires Inv(cfg, s) && Rel(s, c) && CanRun(cfg, s, events)
    ensures Matches(cfg, c, (Run(cfg, s, events), Trace(cfg, s, events)))
    decreases |events|
  {
    hide Inv, StepOf, Step, Rel;
    if events != [] {
      StepMatches(cfg, s, c, events[0]);
      InvKept(cfg, s, events[0]);
      assert c.Valid() by { RelValid(s, c); }
      var (t, ls) := StepOf(cfg, s, events[0]);
      var mid := Exec(cfg.limit, c, ls).value;
      RunMatches(cfg, t, mid, events[1..]);
      ExecConcat(cfg.limit, c, ls, Trace(cfg, t, events[1..]));
    }
  }

  lemma RelValid(s: Pump, c: State)
    requires Rel(s, c)
    ensures c.Valid()
  {
  }

  /** The trace of every run of the reference implementation is a run of the contract, so everything
      proved of the contract's runs holds of it. */
  lemma ImplementsContract(cfg: Config, events: seq<Event>)
    requires CanRun(cfg, Start, events)
    ensures Allowed(cfg.limit, Trace(cfg, Start, events))
  {
    StartInv(cfg);
    StartMatches();
    hide Inv, Rel;
    RunMatches(cfg, Start, Init, events);
  }

  lemma StartMatches()
    ensures Rel(Start, Init)
  {
    assert IdSet(Pending(Start)) == {};
  }
}
