/** Every run of the JavaScript host, as the guest observes it, is a run of the contract; and a connection that began
    closing from this side settles within the close timeout.

    The relation compares the queue, the settled outcome with the derived state, and the sends that poll. Promises
    that a step settles are shown in its labels, so a rejection of many waiters is a run of labels that each leave the
    contract as it is. */
module JsRefinement {
  import opened Types
  import opened Contract
  import opened JsQueue
  import opened JsHost

  ghost predicate QueueRel(h: Host, c: State) {
    && (h.flags.localClosed || c.Backlog() == h.queue.messages)
    && c.overflowed == h.queue.overflowed
    && c.localClosed == h.flags.localClosed
    && c.claimed == h.flags.claimed
    && c.ended == h.flags.settled
    && c.stopped == !h.ready.OPEN?
  }

  ghost predicate CellsRel(h: Host, c: State) {
    && c.outcome == (if h.flags.settled then Some(h.flags.closeInfo) else None)
    && c.peer == (if h.flags.settled then h.flags.closeInfo else None)
    && c.lifecycle == CurrentState(h)
  }

  ghost predicate SendRel(h: Host, c: State) {
    (forall id <- c.calls :: id < h.calls.sends) && c.inFlight == h.calls.polling
  }

  ghost predicate Rel(h: Host, c: State) { c.Valid() && QueueRel(h, c) && CellsRel(h, c) && SendRel(h, c) }

  ghost predicate Matches(cfg: Config, c: State, out: Outcome) {
    var next := Exec(cfg.limit, c, out.1);
    next.Some? && Rel(out.0, next.value)
  }

  lemma MatchesNone(cfg: Config, c: State, t: Host)
    requires c.Valid() && Rel(t, c)
    ensures Matches(cfg, c, (t, []))
  {
    hide Rel;
  }

  lemma MatchesOne(cfg: Config, c: State, d: State, t: Host, l: Label)
    requires c.Valid() && Step(cfg.limit, c, l) == Some(d) && Rel(t, d)
    ensures Matches(cfg, c, (t, [l]))
  {
    hide Step, Rel;
    ExecOne(cfg.limit, c, l);
  }

  lemma MatchesTwo(cfg: Config, c: State, b: State, d: State, t: Host, l: Label, m: Label)
    requires c.Valid() && b.Valid()
    requires Step(cfg.limit, c, l) == Some(b) && Step(cfg.limit, b, m) == Some(d) && Rel(t, d)
    ensures Matches(cfg, c, (t, [l, m]))
  {
    hide Step, Rel;
    ExecTwo(cfg.limit, c, l, m);
  }

  // ----- rejections --------------------------------------------------------------------------------------

  /** Labels that each leave the state as it is. */
  lemma {:induction false} QuietExec(limit: nat, c: State, ls: seq<Label>)
    requires c.Valid() && forall l <- ls :: Step(limit, c, l) == Some(c)
    ensures Exec(limit, c, ls) == Some(c)
    decreases |ls|
  {
    hide Step;
    if ls != [] {
      QuietExec(limit, c, ls[1..]);
    }
  }

  /** Rejecting every pending waiter, when the contract lets a read of that kind fail. */
  lemma RejectionsExec(limit: nat, h: Host, c: State, e: Error)
    requires c.Valid() && WaitersInv(h)
    requires h.queue.waiters != [] ==>
               Step(limit, c, if h.flags.claimed then StreamEnd else ReceiveFailed(e)) == Some(c)
    ensures Exec(limit, c, LabelsOf(RejectAll(h.queue.waiters, e))) == Some(c)
  {
    hide Step;
    var ls := LabelsOf(RejectAll(h.queue.waiters, e));
    assert forall i :: 0 <= i < |ls| ==>
             ls[i] == if h.queue.waiters[i].PullWaiter? then StreamEnd else ReceiveFailed(e);
    QuietExec(limit, c, ls);
  }

  // ----- reads -------------------------------------------------------------------------------------------

  /** The one label of an answered read. */
  lemma OneAnswer(a: Answer)
    ensures LabelsOf([a]) == [LabelOf(a)] && LabelsOf([]) == []
  {
  }

  lemma TakeMatches(cfg: Config, h: Host, c: State, w: Waiter, t: Host)
    requires Rel(h, c) && !h.flags.localClosed && h.queue.messages != [] && w.PullWaiter? == h.flags.claimed
    requires t == h.(queue := NextMessage(h.queue, w).0, calls := t.calls)
    requires t.calls.sends == h.calls.sends && t.calls.polling == h.calls.polling
    ensures Matches(cfg, c, (t, LabelsOf(NextMessage(h.queue, w).1)))
  {
    var m := h.queue.messages[0];
    OneAnswer(Resolved(w, m));
    assert c.Backlog()[0] == m;
    assert Next(c, m);
    TakeSteps(cfg.limit, c, m);
    hide Step;
    assert Rel(t, c.(taken := c.taken + 1));
    MatchesOne(cfg, c, c.(taken := c.taken + 1), t, LabelOf(Resolved(w, m)));
  }

  /** A read that finds nothing fails as the contract allows, or waits. */
  lemma EmptyReadMatches(cfg: Config, h: Host, c: State, w: Waiter)
    requires Rel(h, c) && FlagsInv(h) && h.queue.messages == [] && w.PullWaiter? == h.flags.claimed
    requires w.RecvWaiter? ==> !h.flags.localClosed
    ensures var (q, answers) := NextMessage(h.queue, w);
            Exec(cfg.limit, c, LabelsOf(answers)) == Some(c)
  {
    hide Step;
    var e := EndError(h.queue);
    OneAnswer(Rejected(w, e));
    if h.queue.overflowed || h.queue.closed {
      assert c.localClosed || c.taken == |c.accepted|;
      ReportSteps(cfg.limit, c, e);
      ExecOne(cfg.limit, c, LabelOf(Rejected(w, e)));
    }
  }

  lemma ReadMatches(cfg: Config, h: Host, c: State, e: Event)
    requires (e.Receive? || e.Pull?) && Enabled(h, e) && Inv(cfg, h) && Rel(h, c)
    ensures Matches(cfg, c, StepOf(cfg, h, e))
  {
    var w := if e.Pull? then PullWaiter else RecvWaiter(h.calls.receives);
    if e.Receive? && (h.flags.localClosed || h.flags.claimed) {
      var refusal := if h.flags.localClosed then Closed else ReceivingViaStream;
      ReportSteps(cfg.limit, c, refusal);
      hide Step;
      MatchesOne(cfg, c, c, h, ReceiveFailed(refusal));
    } else if h.queue.messages != [] {
      hide Step;
      TakeMatches(cfg, h, c, w, StepOf(cfg, h, e).0);
    } else {
      hide Step;
      EmptyReadMatches(cfg, h, c, w);
      assert Rel(StepOf(cfg, h, e).0, c) by { hide LabelsOf; }
    }
  }

  // ----- the platform's events ---------------------------------------------------------------------------

  lemma MessageMatches(cfg: Config, h: Host, c: State, m: Message)
    requires Enabled(h, MessageEvent(m)) && Inv(cfg, h) && Rel(h, c)
    ensures Matches(cfg, c, OnMessageEvent(cfg, h, m))
  {
    ArriveSteps(cfg.limit, c, m);
    assert c.Backlog() == h.queue.messages && !c.stopped && !h.queue.overflowed;
    if h.queue.buffered + m.Size() > cfg.limit {
      OverflowMatches(cfg, h, c, m);
    } else if h.queue.waiters != [] {
      HandOffMatches(cfg, h, c, m);
    } else {
      var d := c.(accepted := c.accepted + [m]);
      var out := OnMessageEvent(cfg, h, m);
      assert Rel(out.0, d);
      assert LabelsOf([]) == [] && out.1 == [Accept(m)];
      hide Step;
      MatchesOne(cfg, c, d, out.0, Accept(m));
    }
  }

  lemma OverflowMatches(cfg: Config, h: Host, c: State, m: Message)
    requires Enabled(h, MessageEvent(m)) && Rel(h, c) && FlagsInv(h) && !h.queue.overflowed
    requires h.queue.buffered + m.Size() > cfg.limit
    requires Step(cfg.limit, c, Overflow(m)) == Some(c.(stopped := true, overflowed := true))
    ensures Matches(cfg, c, OnMessageEvent(cfg, h, m))
  {
    var b := c.(stopped := true, overflowed := true);
    var d := b.(lifecycle := b.lifecycle.Advance(IsClosing));
    PlainSteps(cfg.limit, b, IsClosing);
    hide Step;
    assert Rel(OnMessageEvent(cfg, h, m).0, d);
    MatchesTwo(cfg, c, b, d, OnMessageEvent(cfg, h, m).0, Overflow(m), Progress(IsClosing));
  }

  /** Direct hand-off: the message is accepted and taken at once, the backlog being empty. */
  lemma HandOffMatches(cfg: Config, h: Host, c: State, m: Message)
    requires Enabled(h, MessageEvent(m)) && Rel(h, c) && Inv(cfg, h) && !h.queue.overflowed
    requires h.queue.buffered + m.Size() <= cfg.limit && h.queue.waiters != []
    ensures Matches(cfg, c, OnMessageEvent(cfg, h, m))
  {
    hide Step;
    var b := c.(accepted := c.accepted + [m]);
    var w := h.queue.waiters[0];
    assert w in h.queue.waiters && w.PullWaiter? == b.claimed && c.Backlog() == [];
    ArriveSteps(cfg.limit, c, m);
    TakeSteps(cfg.limit, b, m);
    OneAnswer(Resolved(w, m));
    HandOffRel(cfg, h, c, m);
    hide Rel, LabelsOf;
    MatchesTwo(cfg, c, b, b.(taken := b.taken + 1), OnMessageEvent(cfg, h, m).0, Accept(m), LabelOf(Resolved(w, m)));
    assert [Accept(m)] + [LabelOf(Resolved(w, m))] == [Accept(m), LabelOf(Resolved(w, m))];
  }

  lemma HandOffRel(cfg: Config, h: Host, c: State, m: Message)
    requires Rel(h, c) && Inv(cfg, h) && !h.queue.overflowed && h.queue.waiters != []
    requires h.queue.buffered + m.Size() <= cfg.limit
    ensures Rel(OnMessageEvent(cfg, h, m).0, c.(accepted := c.accepted + [m], taken := c.taken + 1))
  {
    hide LabelsOf;
    var d := c.(accepted := c.accepted + [m], taken := c.taken + 1);
    assert !h.flags.localClosed && c.Backlog() == [];
    assert d.Backlog() == [];
  }

  function WithPeer(c: State, frame: Option<CloseInfo>): State {
    if frame.Some? then c.(stopped := true, peer := frame) else c
  }

  lemma PeerFrameExec(limit: nat, c: State, frame: Option<CloseInfo>)
    requires c.Valid() && c.outcome.None? && c.peer.None?
    ensures Exec(limit, c, if frame.Some? then [PeerFrame(frame.value)] else []) == Some(WithPeer(c, frame))
  {
    if frame.Some? {
      PeerFrameStep(limit, c, frame.value);
      hide Step;
      ExecOne(limit, c, PeerFrame(frame.value));
    }
  }

  /** Everybody who waits for the outcome is told. */
  lemma SettledReports(limit: nat, c: State, waiting: nat)
    requires c.Valid() && c.outcome == Some(c.peer)
    ensures Exec(limit, c, Repeat(waiting, WaitClosed(c.peer))) == Some(c)
  {
    ReportSteps(limit, c, Closed);
    hide Step;
    QuietExec(limit, c, Repeat(waiting, WaitClosed(c.peer)));
  }

  lemma SettleExec(limit: nat, c: State, waiting: nat)
    requires c.Valid() && c.outcome.None?
    ensures Exec(limit, c, [Settle, Progress(IsClosed)] + Repeat(waiting, WaitClosed(c.peer)))
         == Some(c.(outcome := Some(c.peer), lifecycle := IsClosed))
  {
    hide Step, Exec;
    var b := c.(outcome := Some(c.peer));
    var d := b.(lifecycle := IsClosed);
    assert b.lifecycle.Advance(IsClosed) == IsClosed;
    SettledReports(limit, d, waiting);
    PlainSteps(limit, c, IsClosed);
    PlainSteps(limit, b, IsClosed);
    hide WsState.Advance, Repeat;
    ExecTwo(limit, c, Settle, Progress(IsClosed));
    ExecConcat(limit, c, [Settle, Progress(IsClosed)], Repeat(waiting, WaitClosed(c.peer)));
  }

  /** What holds of an unsettled host about to settle. */
  ghost predicate ReadyToSettle(cfg: Config, h: Host, c: State) {
    && c.Valid() && c.stopped && WaitersInv(h) && QueueInv(cfg.limit, h.queue) && !h.flags.settled && !h.ready.OPEN?
    && (h.queue.closed <==> h.flags.localClosed)
    && (h.flags.localClosed || c.Backlog() == h.queue.messages)
    && c.overflowed == h.queue.overflowed && c.localClosed == h.flags.localClosed && c.claimed == h.flags.claimed
    && c.outcome.None? && c.peer.None? && SendRel(h, c)
  }

  /** The state the contract reaches when the host settles. */
  function Settled(c: State, frame: Option<CloseInfo>): State {
    c.(stopped := true, ended := true, peer := frame, outcome := Some(frame), lifecycle := IsClosed)
  }

  lemma SettledRel(cfg: Config, h: Host, c: State, frame: Option<CloseInfo>)
    requires ReadyToSettle(cfg, h, c)
    ensures Settled(c, frame).Valid() && Rel(SettleClosed(h, frame).0, Settled(c, frame))
  {
    hide LabelsOf, RejectAll;
  }

  lemma EndExec(cfg: Config, h: Host, c: State)
    requires ReadyToSettle(cfg, h, c)
    ensures var d := c.(stopped := true, ended := true);
            d.Valid() && Exec(cfg.limit, c, [End] + LabelsOf(JsQueue.End(h.queue).1)) == Some(d)
  {
    hide Step;
    var d := c.(stopped := true, ended := true);
    PlainSteps(cfg.limit, c, IsClosed);
    var e := EndError(h.queue);
    if h.queue.waiters != [] {
      assert c.Backlog() == [] && d.Drained();
      ReportSteps(cfg.limit, d, e);
    }
    RejectionsExec(cfg.limit, h, d, e);
    ExecMore(cfg.limit, c, Label.End, LabelsOf(RejectAll(h.queue.waiters, e)));
    if h.queue.closed {
      assert h.queue.waiters == [];
      assert JsQueue.End(h.queue).1 == RejectAll(h.queue.waiters, e);
    }
  }

  lemma SettleMatches(cfg: Config, h: Host, c: State, frame: Option<CloseInfo>)
    requires ReadyToSettle(cfg, h, c)
    ensures Matches(cfg, c, SettleClosed(h, frame))
  {
    EndExec(cfg, h, c);
    SettledRel(cfg, h, c, frame);
    var b := c.(stopped := true, ended := true);
    var d := WithPeer(b, frame);
    PeerFrameExec(cfg.limit, b, frame);
    SettleExec(cfg.limit, d, h.calls.waiting);
    assert d.peer == frame && d.(outcome := Some(d.peer), lifecycle := IsClosed) == Settled(c, frame);
    var ends := [Label.End] + LabelsOf(JsQueue.End(h.queue).1);
    var frames := if frame.Some? then [PeerFrame(frame.value)] else [];
    var settles := [Settle, Progress(IsClosed)] + Repeat(h.calls.waiting, WaitClosed(frame));
    hide Exec, Rel, Settled, LabelsOf;
    ExecConcat(cfg.limit, c, ends, frames);
    ExecConcat(cfg.limit, c, ends + frames, settles);
    assert SettleClosed(h, frame).1 == ends + frames + settles;
  }

  lemma SettlingMatches(cfg: Config, h: Host, c: State, e: Event)
    requires (e.CloseEvent? || e.SlotFires? || e.StrayFires?) && Enabled(h, e) && Inv(cfg, h) && Rel(h, c)
    ensures Matches(cfg, c, StepOf(cfg, h, e))
  {
    var t, frame := BeforeSettling(h, e);
    var d := if e.CloseEvent? then c.(stopped := true) else c;
    if h.flags.settled {
      hide SettleClosed;
      assert Rel(t, c);
      assert SettleClosed(t, frame) == (t, []) by { AlreadySettled(t, frame); }
      MatchesNone(cfg, c, t);
    } else {
      assert ReadyToSettle(cfg, t, d) by {
        hide LabelsOf;
        assert e.StrayFires? ==> h.timers.strays != [];
      }
      hide Matches, SettleClosed, ReadyToSettle, Rel;
      SettleMatches(cfg, t, d, frame);
    }
    assert c.Valid() && d.Valid() by { RelValid(h, c); }
    hide Rel, Step, SettleClosed;
    if e.CloseEvent? && !h.flags.settled {
      PlainSteps(cfg.limit, c, IsClosed);
      ExecMore(cfg.limit, c, InputEnds, SettleClosed(t, frame).1);
    }
  }

  lemma AlreadySettled(h: Host, frame: Option<CloseInfo>)
    requires h.flags.settled
    ensures SettleClosed(h, frame) == (h, [])
  {
  }

  /** The host as `#settleClosed` finds it, and the frame the event carries. */
  lemma BeforeSettling(h: Host, e: Event) returns (t: Host, frame: Option<CloseInfo>)
    requires (e.CloseEvent? || e.SlotFires? || e.StrayFires?) && Enabled(h, e)
    ensures var (u, ls) := SettleClosed(t, frame);
            forall cfg ::
              StepOf(cfg, h, e) == if e.CloseEvent? && !h.flags.settled then (u, [InputEnds] + ls) else (u, ls)
    ensures t == h.(ready := t.ready, timers := t.timers)
    ensures t.ready == if e.CloseEvent? then CLOSED else h.ready
  {
    match e
    case CloseEvent(status, reason) => t, frame := h.(ready := CLOSED), FrameOf(status, reason);
    case SlotFires => t, frame := h.(timers := h.timers.(slot := None)), None;
    case StrayFires(i) => t, frame := h.(timers := h.timers.(strays := Without(h.timers.strays, i))), None;
  }

  // ----- the guest's calls -------------------------------------------------------------------------------

  lemma ClaimMatches(cfg: Config, h: Host, c: State)
    requires Inv(cfg, h) && Rel(h, c)
    ensures Matches(cfg, c, OnClaim(h))
  {
    hide Step;
    var refusal := if h.flags.localClosed then Closed else ReceivingViaStream;
    ReportSteps(cfg.limit, c, refusal);
    if h.flags.localClosed || h.flags.claimed {
      MatchesOne(cfg, c, c, h, ClaimFailed(refusal));
    } else {
      var d := c.(claimed := true);
      assert Rel(OnClaim(h).0, d) by { hide LabelsOf, RejectAll; }
      ReportSteps(cfg.limit, d, ReceivingViaStream);
      hide Rel, Exec;
      RejectionsExec(cfg.limit, h, d, ReceivingViaStream);
      ExecMore(cfg.limit, c, ClaimOk, LabelsOf(RejectAll(h.queue.waiters, ReceivingViaStream)));
    }
  }

  lemma CloseMatches(cfg: Config, h: Host, c: State, code: Option<nat>, reason: seq<Byte>)
    requires Inv(cfg, h) && Rel(h, c)
    ensures Matches(cfg, c, OnClose(cfg, h, code, reason))
  {
    hide Step;
    if CloseArgsOk(code, reason) && !h.flags.localClosed {
      var b := c.(localClosed := true, lifecycle := c.lifecycle.Advance(IsClosing));
      var d := b.(stopped := true);
      assert Rel(OnClose(cfg, h, code, reason).0, d) by { hide LabelsOf, RejectAll; }
      ReportSteps(cfg.limit, c, Closed);
      ClosedExec(cfg, h, b);
      hide Rel, Exec, RejectAll, LabelsOf;
      var rejected := LabelsOf(RejectAll(h.queue.waiters, Closed));
      ExecMore(cfg.limit, c, CloseCalled, rejected + [Stop]);
      assert [CloseCalled] + rejected + [Stop] == [CloseCalled] + (rejected + [Stop]);
    }
  }

  /** Once locally closed, every pending read may fail, whoever waits for it. */
  lemma ClosedExec(cfg: Config, h: Host, c: State)
    requires WaitersInv(h) && c.Valid() && c.localClosed && c.claimed == h.flags.claimed
    ensures Exec(cfg.limit, c, LabelsOf(RejectAll(h.queue.waiters, Closed)) + [Stop]) == Some(c.(stopped := true))
  {
    hide Step;
    ReportSteps(cfg.limit, c, Closed);
    PlainSteps(cfg.limit, c, IsClosed);
    RejectionsExec(cfg.limit, h, c, Closed);
    hide Exec, LabelsOf;
    ExecOne(cfg.limit, c, Stop);
    ExecConcat(cfg.limit, c, LabelsOf(RejectAll(h.queue.waiters, Closed)), [Stop]);
  }

  lemma SendMatches(cfg: Config, h: Host, c: State, m: Message, drained: bool, throws: bool)
    requires Inv(cfg, h) && Rel(h, c)
    ensures Matches(cfg, c, OnSend(h, m, drained, throws))
  {
    var id := h.calls.sends;
    var result := if throws then Failed(Other) else Sent;
    SendSteps(cfg.limit, c, id, result);
    var t := OnSend(h, m, drained, throws).0;
    assert id !in c.calls;
    if Refuses(h) {
      hide Step;
      MatchesOne(cfg, c, c.(calls := c.calls + {id}), t, SendRefused(id));
    } else {
      var d := c.(calls := c.calls + {id}, inFlight := c.inFlight + {id});
      if drained {
        SendSteps(cfg.limit, d, id, result);
        hide Step;
        var e := d.(inFlight := d.inFlight - {id});
        assert e.inFlight == c.inFlight;
        MatchesTwo(cfg, c, d, e, t, SendCalled(id), SendDone(id, result));
      } else {
        hide Step;
        MatchesOne(cfg, c, d, t, SendCalled(id));
      }
    }
  }

  lemma SendPollMatches(cfg: Config, h: Host, c: State, id: nat, drained: bool, throws: bool)
    requires Enabled(h, SendPoll(id, drained, throws)) && Rel(h, c)
    ensures Matches(cfg, c, OnSendPoll(h, id, drained, throws))
  {
    if Refuses(h) || drained {
      var result := if Refuses(h) then Failed(Closed) else if throws then Failed(Other) else Sent;
      SendSteps(cfg.limit, c, id, result);
      hide Step;
      MatchesOne(cfg, c, c.(inFlight := c.inFlight - {id}), OnSendPoll(h, id, drained, throws).0, SendDone(id, result));
    }
  }

  lemma QuietMatches(cfg: Config, h: Host, c: State, e: Event)
    requires (e.AwaitClosed? || e.ReadState? || e.Tick? || e.PeerClosing?) && Enabled(h, e) && Inv(cfg, h) && Rel(h, c)
    ensures Matches(cfg, c, StepOf(cfg, h, e))
  {
    hide Step;
    ReportSteps(cfg.limit, c, Closed);
    var t := StepOf(cfg, h, e).0;
    if e.PeerClosing? {
      var b := c.(stopped := true);
      var d := b.(lifecycle := b.lifecycle.Advance(IsClosing));
      PlainSteps(cfg.limit, c, IsClosing);
      PlainSteps(cfg.limit, b, IsClosing);
      MatchesTwo(cfg, c, b, d, t, PeerBegan, Progress(IsClosing));
    } else {
      assert Rel(t, c);
      if e.AwaitClosed? && h.flags.settled {
        MatchesOne(cfg, c, c, t, WaitClosed(h.flags.closeInfo));
      } else if e.ReadState? {
        MatchesOne(cfg, c, c, t, StateSeen(CurrentState(h)));
      }
    }
  }

  // ----- runs --------------------------------------------------------------------------------------------

  lemma StepMatches(cfg: Config, h: Host, c: State, e: Event)
    requires Enabled(h, e) && Inv(cfg, h) && Rel(h, c)
    ensures Matches(cfg, c, StepOf(cfg, h, e))
  {
    hide Inv, Rel, Matches, Enabled, OnMessageEvent, SettleClosed, OnReceive, OnClaim, OnPull, OnClose;
    hide OnSend, OnSendPoll;
    match e
    case MessageEvent(m) => MessageMatches(cfg, h, c, m);
    case Receive => ReadMatches(cfg, h, c, e);
    case Pull => ReadMatches(cfg, h, c, e);
    case Claim => ClaimMatches(cfg, h, c);
    case Close(code, reason) => CloseMatches(cfg, h, c, code, reason);
    case Send(m, drained, throws) => SendMatches(cfg, h, c, m, drained, throws);
    case SendPoll(id, drained, throws) => SendPollMatches(cfg, h, c, id, drained, throws);
    case CloseEvent(_, _) => SettlingMatches(cfg, h, c, e);
    case SlotFires => SettlingMatches(cfg, h, c, e);
    case StrayFires(_) => SettlingMatches(cfg, h, c, e);
    case _ => QuietMatches(cfg, h, c, e);
  }

  lemma RelValid(h: Host, c: State)
    requires Rel(h, c)
    ensures c.Valid()
  {
  }

  lemma {:induction false} RunMatches(cfg: Config, h: Host, c: State, events: seq<Event>)
    requires Inv(cfg, h) && Rel(h, c) && CanRun(cfg, h, events)
    ensures Matches(cfg, c, (Run(cfg, h, events), Trace(cfg, h, events)))
    ensures Inv(cfg, Run(cfg, h, events))
    decreases |events|
  {
    hide Inv, StepOf, Step, Rel;
    assert c.Valid() by { RelValid(h, c); }
    if events != [] {
      StepMatches(cfg, h, c, events[0]);
      InvKept(cfg, h, events[0]);
      var (t, ls) := StepOf(cfg, h, events[0]);
      var mid := Exec(cfg.limit, c, ls).value;
      RunMatches(cfg, t, mid, events[1..]);
      ExecConcat(cfg.limit, c, ls, Trace(cfg, t, events[1..]));
    }
  }

  /** The trace of every run of the JavaScript host is a run of the contract. */
  lemma ImplementsContract(cfg: Config, events: seq<Event>)
    requires CanRun(cfg, Start, events)
    ensures Allowed(cfg.limit, Trace(cfg, Start, events))
  {
    StartMatches(cfg);
    hide Inv, Rel;
    RunMatches(cfg, Start, Init, events);
  }

  lemma StartMatches(cfg: Config)
    ensures Inv(cfg, Start) && Rel(Start, Init)
  {
  }

  // ----- time --------------------------------------------------------------------------------------------

  /** In every run: a waiter never waits while the backlog holds a message, the counter is the backlog's bytes
      within the bound, and a connection that closed locally or overflowed has settled once one close timeout
      has passed since. */
  lemma ClosingIsBounded(cfg: Config, events: seq<Event>)
    requires CanRun(cfg, Start, events)
    ensures var h := Run(cfg, Start, events);
            && (h.queue.waiters != [] ==> h.queue.messages == [] && h.queue.buffered == 0)
            && h.queue.buffered == Bytes(h.queue.messages) && h.queue.buffered <= cfg.limit
            && (h.flags.localClosed || h.queue.overflowed ==>
                  h.timers.began.Some? && (h.timers.began.value + cfg.closeTimeout < h.now ==> h.flags.settled))
  {
    StartMatches(cfg);
    hide Inv, Rel, Run;
    RunMatches(cfg, Start, Init, events);
    StateIsBounded(cfg, Run(cfg, Start, events));
  }

  lemma StateIsBounded(cfg: Config, h: Host)
    requires Inv(cfg, h)
    ensures h.queue.waiters != [] ==> h.queue.messages == [] && h.queue.buffered == 0
    ensures h.queue.buffered == Bytes(h.queue.messages) && h.queue.buffered <= cfg.limit
    ensures h.flags.localClosed || h.queue.overflowed ==>
              h.timers.began.Some? && (h.timers.began.value + cfg.closeTimeout < h.now ==> h.flags.settled)
  {
  }

  /** The instant the bound expires, a timer is there to fire and firing it settles. */
  lemma TimerSettles(cfg: Config, h: Host) returns (e: Event)
    requires Inv(cfg, h) && !h.flags.settled && h.timers.began.Some?
    requires h.now == h.timers.began.value + cfg.closeTimeout
    ensures Enabled(h, e) && (e.SlotFires? || e.StrayFires?) && StepOf(cfg, h, e).0.flags.settled
  {
    var due := h.timers.began.value + cfg.closeTimeout;
    if h.timers.slot == Some(due) {
      e := SlotFires;
    } else {
      var i :| 0 <= i < |h.timers.strays| && h.timers.strays[i] == due;
      e := StrayFires(i);
    }
  }
}
