/** Every call on the JavaScript host gets the answer its trace owes it, and the outcome is the platform's. */
module JsCalls {
  import opened Types
  import opened Contract
  import opened PeerInput
  import opened Answers
  import opened JsQueue
  import opened JsHost
  import opened JsRefinement

  // ----- a run, its last event cut off -------------------------------------------------------------------

  lemma {:induction false} RunConcat(cfg: Config, h: Host, a: seq<Event>, b: seq<Event>)
    requires CanRun(cfg, h, a + b)
    ensures CanRun(cfg, h, a) && CanRun(cfg, Run(cfg, h, a), b)
    ensures Run(cfg, h, a + b) == Run(cfg, Run(cfg, h, a), b)
    ensures Trace(cfg, h, a + b) == Trace(cfg, h, a) + Trace(cfg, Run(cfg, h, a), b)
    decreases |a|
  {
    hide StepOf, Enabled;
    if a == [] {
      assert a + b == b;
    } else {
      assert (a + b)[0] == a[0] && (a + b)[1..] == a[1..] + b;
      RunConcat(cfg, StepOf(cfg, h, a[0]).0, a[1..], b);
    }
  }

  lemma {:induction false} Last(cfg: Config, events: seq<Event>) returns (init: seq<Event>, e: Event)
    requires CanRun(cfg, Start, events) && events != []
    ensures init == events[..|events| - 1] && e == events[|events| - 1] && CanRun(cfg, Start, init)
    ensures var h := Run(cfg, Start, init);
            && Inv(cfg, h) && Enabled(h, e) && Run(cfg, Start, events) == StepOf(cfg, h, e).0
            && Trace(cfg, Start, events) == Trace(cfg, Start, init) + StepOf(cfg, h, e).1
  {
    StartMatches(cfg);
    hide Enabled, StepOf, Inv, Rel;
    var k := |events| - 1;
    init, e := events[..k], events[k];
    assert events == init + [e] && [e][1..] == [];
    RunConcat(cfg, Start, init, [e]);
    RunMatches(cfg, Start, Contract.Init, init);
    var shown := StepOf(cfg, Run(cfg, Start, init), e).1;
    assert shown + [] == shown;
  }

  /** What the trace says of the state a run reaches. */
  ghost predicate Says(h: Host, ls: seq<Label>) {
    && (h.queue.overflowed <==> Overflowed(ls))
    && (h.flags.localClosed <==> CloseCalled in ls) && (h.flags.claimed <==> ClaimOk in ls)
    && (h.flags.settled <==> Label.End in ls) && (h.flags.settled <==> Settle in ls)
    && (h.flags.settled ==> h.flags.closeInfo == FirstFrame(ls))
    && (h.ready.OPEN? <==> FirstClose(ls) == |ls|)
    && (!h.flags.localClosed ==> h.queue.messages == Waiting(ls))
  }

  lemma {:induction false} StateSays(cfg: Config, events: seq<Event>)
    requires CanRun(cfg, Start, events)
    ensures Inv(cfg, Run(cfg, Start, events)) && Says(Run(cfg, Start, events), Trace(cfg, Start, events))
  {
    StartMatches(cfg);
    hide Inv, Rel, Run, Trace, Step, Exec, Says;
    RunMatches(cfg, Start, Contract.Init, events);
    var h, ls := Run(cfg, Start, events), Trace(cfg, Start, events);
    var c := Exec(cfg.limit, Contract.Init, ls).value;
    StateIsLabels(cfg.limit, ls, c);
    RelSays(h, c, ls);
  }

  lemma RelSays(h: Host, c: State, ls: seq<Label>)
    requires Rel(h, c) && c.Backlog() == Waiting(ls)
    requires (c.overflowed <==> Overflowed(ls)) && (c.localClosed <==> CloseCalled in ls)
    requires (c.ended <==> Label.End in ls) && (c.claimed <==> ClaimOk in ls) && (c.stopped <==> FirstClose(ls) < |ls|)
    requires c.outcome == if Settle in ls then Some(FirstFrame(ls)) else None
    ensures Says(h, ls)
  {
    hide Waiting, Overflowed, FirstFrame;
  }

  // ----- sends -------------------------------------------------------------------------------------------

  /** Once anything ended acceptance - a local close, the peer's, an overflow, the platform's end - every send is
      refused at the call and every polling one answered `closed` at its next poll, however drained the platform's
      buffer is; before that a send is taken, and answered once the buffer has drained. */
  lemma {:induction false} SendsAnswered(cfg: Config, events: seq<Event>, id: nat, m: Message, drained: bool,
                                         throws: bool)
    requires CanRun(cfg, Start, events)
    ensures var h, ls := Run(cfg, Start, events), Trace(cfg, Start, events);
            var next := h.calls.sends;
            var sent := if throws then Failed(Other) else Sent;
            StepOf(cfg, h, Send(m, drained, throws)).1
            == if FirstClose(ls) < |ls| then [SendRefused(next)]
               else if drained then [SendCalled(next), SendDone(next, sent)]
               else [SendCalled(next)]
    ensures var h, ls := Run(cfg, Start, events), Trace(cfg, Start, events);
            var sent := if throws then Failed(Other) else Sent;
            id in h.calls.polling ==>
              Enabled(h, SendPoll(id, drained, throws)) &&
              var (t, shown) := StepOf(cfg, h, SendPoll(id, drained, throws));
              if FirstClose(ls) < |ls| then shown == [SendDone(id, Failed(Closed))] && id !in t.calls.polling
              else if drained then shown == [SendDone(id, sent)] && id !in t.calls.polling
              else shown == [] && t == h
  {
    StateSays(cfg, events);
    var h, ls := Run(cfg, Start, events), Trace(cfg, Start, events);
    SendSays(h, ls);
    assert FlagsInv(h);
    hide Run, Trace, Says, Inv, FirstClose, CanRun, StepOf, Enabled, FlagsInv;
    SendShows(cfg, h, m, drained, throws, FirstClose(ls) < |ls|);
    PollShows(cfg, h, id, drained, throws, FirstClose(ls) < |ls|);
  }

  lemma SendShows(cfg: Config, h: Host, m: Message, drained: bool, throws: bool, closed: bool)
    requires closed <==> h.flags.localClosed || !h.ready.OPEN?
    ensures var next := h.calls.sends;
            StepOf(cfg, h, Send(m, drained, throws)).1
            == if closed then [SendRefused(next)]
               else if drained then [SendCalled(next), SendDone(next, if throws then Failed(Other) else Sent)]
               else [SendCalled(next)]
  {
  }

  lemma PollShows(cfg: Config, h: Host, id: nat, drained: bool, throws: bool, closed: bool)
    requires FlagsInv(h) && (closed <==> h.flags.localClosed || !h.ready.OPEN?)
    ensures id in h.calls.polling ==>
              Enabled(h, SendPoll(id, drained, throws)) &&
              var (t, shown) := StepOf(cfg, h, SendPoll(id, drained, throws));
              if closed then shown == [SendDone(id, Failed(Closed))] && id !in t.calls.polling
              else if drained then
                shown == [SendDone(id, if throws then Failed(Other) else Sent)] && id !in t.calls.polling
              else shown == [] && t == h
  {
  }

  lemma SendSays(h: Host, ls: seq<Label>)
    requires Says(h, ls) && FlagsInv(h)
    ensures FirstClose(ls) < |ls| <==> h.flags.localClosed || !h.ready.OPEN?
  {
  }

  /** A step that answers a send `Ok` is taken on an open socket, and ends nothing. */
  lemma SentStep(cfg: Config, h: Host, e: Event, id: nat)
    requires Enabled(h, e) && SendDone(id, Sent) in StepOf(cfg, h, e).1
    ensures h.ready.OPEN? && forall l <- StepOf(cfg, h, e).1 :: !Closes(l)
  {
    hide RejectAll;
    SentIsSend(cfg, h, e, id);
  }

  lemma SentIsSend(cfg: Config, h: Host, e: Event, id: nat)
    requires SendDone(id, Sent) in StepOf(cfg, h, e).1
    ensures e.Send? || e.SendPoll?
  {
    hide RejectAll;
  }

  /** Every send answered `Ok` was answered before anything ended acceptance. */
  ghost predicate SentInTime(ls: seq<Label>) {
    forall j :: 0 <= j < |ls| && ls[j].SendDone? && ls[j].result.Sent? ==> j < FirstClose(ls)
  }

  /** Such labels, and more that answer none `Ok`, or that follow no end of acceptance and are none. */
  lemma SentConcat(a: seq<Label>, b: seq<Label>)
    requires SentInTime(a)
    requires (forall l <- b :: !l.SendDone? || !l.result.Sent?)
          || (FirstClose(a) == |a| && forall l <- b :: !Closes(l))
    ensures SentInTime(a + b)
  {
    FirstCloseConcat(a, b);
    var ab := a + b;
    forall j | 0 <= j < |ab| && ab[j].SendDone? && ab[j].result.Sent?
      ensures j < FirstClose(ab)
    {
      if j < |a| {
        assert ab[j] == a[j];
      } else {
        assert ab[j] == b[j - |a|] && b[j - |a|] in b;
      }
    }
  }

  lemma StepInTime(cfg: Config, h: Host, e: Event, before: seq<Label>)
    requires Enabled(h, e) && Says(h, before) && SentInTime(before)
    ensures SentInTime(before + StepOf(cfg, h, e).1)
  {
    hide StepOf, FirstClose, Enabled, Says, SentInTime;
    var ls := StepOf(cfg, h, e).1;
    if l :| l in ls && l.SendDone? && l.result.Sent? {
      SentStep(cfg, h, e, l.id);
      OpenSays(h, before);
    }
    SentConcat(before, ls);
  }

  lemma {:induction false} AllSentInTime(cfg: Config, events: seq<Event>)
    requires CanRun(cfg, Start, events)
    ensures SentInTime(Trace(cfg, Start, events))
    decreases |events|
  {
    if events != [] {
      hide Run, Trace, StepOf, Inv, Enabled, CanRun, Says, SentInTime;
      var init, e := Last(cfg, events);
      AllSentInTime(cfg, init);
      StateSays(cfg, init);
      StepInTime(cfg, Run(cfg, Start, init), e, Trace(cfg, Start, init));
    }
  }

  /** In every run a send answered `Ok` was answered before anything ended acceptance: none is answered `Ok` on a socket
      that left OPEN. */
  lemma {:induction false} SentBeforeAnyClose(cfg: Config, events: seq<Event>, id: nat, j: nat)
    requires CanRun(cfg, Start, events) && j < |Trace(cfg, Start, events)|
    requires Trace(cfg, Start, events)[j] == SendDone(id, Sent)
    ensures j < FirstClose(Trace(cfg, Start, events))
  {
    AllSentInTime(cfg, events);
    hide Trace, CanRun, FirstClose;
  }

  lemma OpenSays(h: Host, ls: seq<Label>)
    requires Says(h, ls) && h.ready.OPEN?
    ensures FirstClose(ls) == |ls|
  {
  }

  // ----- reads -------------------------------------------------------------------------------------------

  /** The answer of a read at the call, off the labels: the queue in order, then the overflow, then the end; none while
      it waits. */
  function ReadAnswer(ls: seq<Label>): Option<Answered> {
    if CloseCalled !in ls && Waiting(ls) != [] then Some(Got(Waiting(ls)[0]))
    else if Overflowed(ls) then Some(Over(ReceiveBufferOverflow))
    else if CloseCalled in ls || Label.End in ls then Some(Over(Closed))
    else None
  }

  datatype Answered = Got(message: Message) | Over(error: Error)

  /** The number of `receive` calls still waiting: the claim rejected them all. */
  function PendingReceives(h: Host): nat { if h.flags.claimed then 0 else |h.queue.waiters| }

  function PendingPulls(h: Host): nat { if h.flags.claimed then |h.queue.waiters| else 0 }

  /** A `receive` is refused after a local close or a claim; else it gets the answer the trace owes it, or waits. */
  lemma {:induction false} ReceiveAnswered(cfg: Config, events: seq<Event>)
    requires CanRun(cfg, Start, events)
    ensures var h, ls := Run(cfg, Start, events), Trace(cfg, Start, events);
            var (t, shown) := StepOf(cfg, h, Receive);
            if CloseCalled in ls then shown == [ReceiveFailed(Closed)]
            else if ClaimOk in ls then shown == [ReceiveFailed(ReceivingViaStream)]
            else match ReadAnswer(ls)
              case Some(Got(m)) => shown == [Received(m)]
              case Some(Over(error)) => shown == [ReceiveFailed(error)]
              case None => shown == [] && PendingReceives(t) == PendingReceives(h) + 1
  {
    StateSays(cfg, events);
    var h := Run(cfg, Start, events);
    ReadSays(cfg, h, Trace(cfg, Start, events), RecvWaiter(h.calls.receives));
    hide Run, Trace, Says, Inv, CanRun, NextMessage;
  }

  /** So does a pull of the claimed stream, whose every end is `StreamEnd`. */
  lemma {:induction false} PullAnswered(cfg: Config, events: seq<Event>)
    requires CanRun(cfg, Start, events) && ClaimOk in Trace(cfg, Start, events)
    ensures Enabled(Run(cfg, Start, events), Pull)
    ensures var h, ls := Run(cfg, Start, events), Trace(cfg, Start, events);
            var (t, shown) := StepOf(cfg, h, Pull);
            match ReadAnswer(ls)
            case Some(Got(m)) => shown == [StreamItem(m)]
            case Some(Over(_)) => shown == [StreamEnd]
            case None => shown == [] && PendingPulls(t) == PendingPulls(h) + 1
  {
    StateSays(cfg, events);
    ReadSays(cfg, Run(cfg, Start, events), Trace(cfg, Start, events), PullWaiter);
    hide Run, Trace, Says, Inv, CanRun, NextMessage;
  }

  lemma ReadSays(cfg: Config, h: Host, ls: seq<Label>, w: Waiter)
    requires Inv(cfg, h) && Says(h, ls)
    ensures (h.flags.localClosed <==> CloseCalled in ls) && (h.flags.claimed <==> ClaimOk in ls)
    ensures var (q, answers) := NextMessage(h.queue, w);
              match ReadAnswer(ls)
              case Some(Got(m)) => answers == [Resolved(w, m)]
              case Some(Over(error)) => answers == [Rejected(w, error)]
              case None => answers == [] && |q.waiters| == |h.queue.waiters| + 1
  {
    hide Waiting, Overflowed;
  }

  /** A message goes to the read that has waited longest; if it overflows, or while closing, it reaches no one. */
  lemma {:induction false} MessageAnswers(cfg: Config, events: seq<Event>, m: Message)
    requires CanRun(cfg, Start, events) && Enabled(Run(cfg, Start, events), MessageEvent(m))
    ensures var h, ls := Run(cfg, Start, events), Trace(cfg, Start, events);
            var (t, shown) := StepOf(cfg, h, MessageEvent(m));
            if Bytes(Waiting(ls)) + m.Size() > cfg.limit then shown == [Overflow(m), Progress(IsClosing)]
            else if PendingPulls(h) > 0 then
              shown == [Accept(m), StreamItem(m)] && PendingPulls(t) == PendingPulls(h) - 1
            else if PendingReceives(h) > 0 then
              shown == [Accept(m), Received(m)] && PendingReceives(t) == PendingReceives(h) - 1
            else shown == [Accept(m)]
  {
    StateSays(cfg, events);
    MessageSays(cfg, Run(cfg, Start, events), Trace(cfg, Start, events), m);
    hide Run, Trace, Says, Inv, CanRun;
  }

  lemma MessageSays(cfg: Config, h: Host, ls: seq<Label>, m: Message)
    requires Inv(cfg, h) && Says(h, ls) && h.ready.OPEN?
    ensures var (t, shown) := OnMessageEvent(cfg, h, m);
            if Bytes(Waiting(ls)) + m.Size() > cfg.limit then shown == [Overflow(m), Progress(IsClosing)]
            else if PendingPulls(h) > 0 then
              shown == [Accept(m), StreamItem(m)] && PendingPulls(t) == PendingPulls(h) - 1
            else if PendingReceives(h) > 0 then
              shown == [Accept(m), Received(m)] && PendingReceives(t) == PendingReceives(h) - 1
            else shown == [Accept(m)]
  {
    hide Waiting, Overflowed, FirstFrame, TimeInv;
    if h.queue.waiters != [] {
      assert h.queue.waiters[0] in h.queue.waiters;
      assert LabelsOf([Resolved(h.queue.waiters[0], m)]) == [LabelOf(Resolved(h.queue.waiters[0], m))];
    }
  }

  // ----- claims, waits, states, closes -------------------------------------------------------------------

  /** A claim gets the answer the trace owes it, and rejects every pending `receive`; `wait-closed` reports the outcome
      once it settled and waits before; the state is closed once settled, closing once anything ended acceptance, and
      open before; the first valid `close` fails every pending read. */
  lemma {:induction false} ClaimsAndWaits(cfg: Config, events: seq<Event>, code: Option<nat>, reason: seq<Byte>)
    requires CanRun(cfg, Start, events)
    ensures var h, ls := Run(cfg, Start, events), Trace(cfg, Start, events);
            && StepOf(cfg, h, Claim).1
               == [ClaimAnswer(ls)] + (if ClaimAnswer(ls).ClaimOk?
                                       then Repeat(PendingReceives(h), ReceiveFailed(ReceivingViaStream)) else [])
            && StepOf(cfg, h, AwaitClosed).1 == (if Settle in ls then [WaitClosed(FirstFrame(ls))] else [])
            && StepOf(cfg, h, ReadState).1
               == [StateSeen(if Settle in ls then IsClosed else if FirstClose(ls) < |ls| then IsClosing else IsOpen)]
            && StepOf(cfg, h, Close(code, reason)).1
               == if CloseArgsOk(code, reason) && CloseCalled !in ls then
                    [CloseCalled] + Repeat(PendingReceives(h), ReceiveFailed(Closed))
                    + Repeat(PendingPulls(h), StreamEnd) + [Stop]
                  else []
  {
    StateSays(cfg, events);
    var h, ls := Run(cfg, Start, events), Trace(cfg, Start, events);
    CallsSay(cfg, h, ls);
    assert WaitersInv(h);
    hide Run, Trace, Says, Inv, CanRun, CurrentState, Waiting, Overflowed, WaitersInv;
    hide OnClaim, OnClose, StepOf;
    CallSteps(cfg, h, code, reason);
    ClaimShows(h);
    CloseShows(cfg, h, code, reason);
  }

  lemma CallSteps(cfg: Config, h: Host, code: Option<nat>, reason: seq<Byte>)
    ensures StepOf(cfg, h, Claim) == OnClaim(h) && StepOf(cfg, h, Close(code, reason)) == OnClose(cfg, h, code, reason)
    ensures StepOf(cfg, h, AwaitClosed).1 == if h.flags.settled then [WaitClosed(h.flags.closeInfo)] else []
    ensures StepOf(cfg, h, ReadState).1 == [StateSeen(CurrentState(h))]
  {
    hide OnClaim, OnClose, CurrentState;
  }

  lemma ClaimShows(h: Host)
    requires WaitersInv(h)
    ensures OnClaim(h).1 == if h.flags.localClosed then [ClaimFailed(Closed)]
                            else if h.flags.claimed then [ClaimFailed(ReceivingViaStream)]
                            else [ClaimOk] + Repeat(PendingReceives(h), ReceiveFailed(ReceivingViaStream))
  {
    RejectionsShow(h);
    hide LabelsOf, RejectAll, Repeat;
  }

  lemma CloseShows(cfg: Config, h: Host, code: Option<nat>, reason: seq<Byte>)
    requires WaitersInv(h)
    ensures OnClose(cfg, h, code, reason).1
         == if CloseArgsOk(code, reason) && !h.flags.localClosed then
              [CloseCalled] + Repeat(PendingReceives(h), ReceiveFailed(Closed))
              + Repeat(PendingPulls(h), StreamEnd) + [Stop]
            else []
  {
    RejectionsShow(h);
    RepeatNone(StreamEnd);
    RepeatNone(ReceiveFailed(Closed));
    hide LabelsOf, RejectAll, Repeat;
    var failed := [CloseCalled] + Repeat(PendingReceives(h), ReceiveFailed(Closed));
    assert failed + [] == failed && [CloseCalled] + [] == [CloseCalled];
  }

  lemma RepeatNone(l: Label)
    ensures Repeat(0, l) == []
  {
  }

  lemma RejectionsShow(h: Host)
    requires WaitersInv(h)
    ensures forall error :: LabelsOf(RejectAll(h.queue.waiters, error))
                         == if h.flags.claimed then Repeat(|h.queue.waiters|, StreamEnd)
                            else Repeat(|h.queue.waiters|, ReceiveFailed(error))
  {
    forall error
      ensures LabelsOf(RejectAll(h.queue.waiters, error))
           == if h.flags.claimed then Repeat(|h.queue.waiters|, StreamEnd)
              else Repeat(|h.queue.waiters|, ReceiveFailed(error))
    {
      assert forall i :: 0 <= i < |h.queue.waiters| ==> h.queue.waiters[i] in h.queue.waiters;
    }
  }

  lemma CallsSay(cfg: Config, h: Host, ls: seq<Label>)
    requires Inv(cfg, h) && Says(h, ls)
    ensures (h.flags.localClosed <==> CloseCalled in ls) && (h.flags.claimed <==> ClaimOk in ls)
    ensures (h.flags.settled <==> Settle in ls) && (h.flags.settled ==> h.flags.closeInfo == FirstFrame(ls))
    ensures CurrentState(h) == if Settle in ls then IsClosed else if FirstClose(ls) < |ls| then IsClosing else IsOpen
  {
    hide Waiting, Overflowed, FirstFrame;
  }

  // ----- no call is lost ---------------------------------------------------------------------------------

  /** The calls that wait for something. */
  datatype Kind = Receives | Pulls | Waits

  predicate Asks(e: Event, kind: Kind) {
    match kind
    case Receives => e.Receive?
    case Pulls => e.Pull?
    case Waits => e.AwaitClosed?
  }

  predicate Gives(l: Label, kind: Kind) {
    match kind
    case Receives => l.Received? || l.ReceiveFailed?
    case Pulls => l.StreamItem? || l.StreamEnd?
    case Waits => l.WaitClosed?
  }

  function Pending(h: Host, kind: Kind): nat {
    match kind
    case Receives => PendingReceives(h)
    case Pulls => PendingPulls(h)
    case Waits => h.calls.waiting
  }

  function Asked(events: seq<Event>, kind: Kind): nat {
    if events == [] then 0
    else Asked(events[..|events| - 1], kind) + (if Asks(events[|events| - 1], kind) then 1 else 0)
  }

  function Given(ls: seq<Label>, kind: Kind): nat {
    if ls == [] then 0 else (if Gives(ls[0], kind) then 1 else 0) + Given(ls[1..], kind)
  }

  lemma {:induction false} GivenConcat(a: seq<Label>, b: seq<Label>, kind: Kind)
    ensures Given(a + b, kind) == Given(a, kind) + Given(b, kind)
    decreases |a|
  {
    if a == [] {
      assert a + b == b;
    } else {
      assert (a + b)[0] == a[0] && (a + b)[1..] == a[1..] + b;
      GivenConcat(a[1..], b, kind);
    }
  }

  lemma {:induction false} GivenRepeat(n: nat, l: Label, kind: Kind)
    ensures Given(Repeat(n, l), kind) == if Gives(l, kind) then n else 0
  {
    if n > 0 {
      assert Repeat(n, l)[1..] == Repeat(n - 1, l);
      GivenRepeat(n - 1, l, kind);
    }
  }

  lemma GivenFew(a: Label, b: Label, kind: Kind)
    ensures Given([], kind) == 0 && Given([a], kind) == (if Gives(a, kind) then 1 else 0)
    ensures Given([a, b], kind) == (if Gives(a, kind) then 1 else 0) + (if Gives(b, kind) then 1 else 0)
  {
    assert [a, b][1..] == [b] && [b][1..] == [] && [a][1..] == [];
  }

  ghost predicate Balanced(h: Host, out: Outcome, kind: Kind, asked: nat) {
    Pending(out.0, kind) + Given(out.1, kind) == Pending(h, kind) + asked
  }

  lemma StepBalanced(cfg: Config, h: Host, e: Event, kind: Kind)
    requires Enabled(h, e) && Inv(cfg, h)
    ensures Balanced(h, StepOf(cfg, h, e), kind, if Asks(e, kind) then 1 else 0)
  {
    hide Inv, Given, SettleClosed, OnMessageEvent, OnClaim, OnClose;
    match e
    case MessageEvent(m) => MessageBalanced(cfg, h, m, kind);
    case CloseEvent(status, reason) =>
      var t, frame := h.(ready := CLOSED), FrameOf(status, reason);
      SettleBalanced(cfg, h, t, frame, kind);
      GivenFew(InputEnds, InputEnds, kind);
      GivenConcat([InputEnds], SettleClosed(t, frame).1, kind);
    case SlotFires => SettleBalanced(cfg, h, h.(timers := h.timers.(slot := None)), None, kind);
    case StrayFires(i) =>
      SettleBalanced(cfg, h, h.(timers := h.timers.(strays := Without(h.timers.strays, i))), None, kind);
    case Claim => ClaimBalanced(cfg, h, kind);
    case Close(code, reason) => CloseBalanced(cfg, h, code, reason, kind);
    case Receive => ReadBalanced(cfg, h, e, kind);
    case Pull => ReadBalanced(cfg, h, e, kind);
    case _ => CallBalanced(cfg, h, e, kind);
  }

  lemma MessageBalanced(cfg: Config, h: Host, m: Message, kind: Kind)
    requires h.ready.OPEN? && Inv(cfg, h)
    ensures Balanced(h, OnMessageEvent(cfg, h, m), kind, 0)
  {
    hide Given;
    GivenFew(Overflow(m), Progress(IsClosing), kind);
    if h.queue.waiters != [] {
      var w := h.queue.waiters[0];
      assert w in h.queue.waiters && LabelsOf([Resolved(w, m)]) == [LabelOf(Resolved(w, m))];
      GivenFew(Accept(m), LabelOf(Resolved(w, m)), kind);
      assert [Accept(m)] + [LabelOf(Resolved(w, m))] == [Accept(m), LabelOf(Resolved(w, m))];
    } else {
      GivenFew(Accept(m), Accept(m), kind);
      assert [Accept(m)] + LabelsOf([]) == [Accept(m)];
    }
  }

  lemma SettleBalanced(cfg: Config, h: Host, t: Host, frame: Option<CloseInfo>, kind: Kind)
    requires Inv(cfg, h) && t == h.(ready := t.ready, timers := t.timers)
    ensures Balanced(h, SettleClosed(t, frame), kind, 0)
  {
    GivenFew(Settle, Settle, kind);
    if !h.flags.settled {
      var (q, answers) := JsQueue.End(h.queue);
      RejectionsGiven(h, EndError(h.queue), kind);
      NoLabels();
      SettleShows(LabelsOf(answers), frame, h.calls.waiting, kind);
    }
    hide Given, LabelsOf, RejectAll, Repeat;
  }

  lemma RejectionsGiven(h: Host, error: Error, kind: Kind)
    requires WaitersInv(h)
    ensures Given(LabelsOf(RejectAll(h.queue.waiters, error)), kind)
         == (if kind.Waits? then 0 else Pending(h, kind))
  {
    RejectionsShow(h);
    hide Given, LabelsOf, RejectAll, Repeat;
    GivenRepeat(|h.queue.waiters|, StreamEnd, kind);
    GivenRepeat(|h.queue.waiters|, ReceiveFailed(error), kind);
  }

  /** The labels of a settlement. */
  lemma SettleShows(rejected: seq<Label>, frame: Option<CloseInfo>, waiting: nat, kind: Kind)
    ensures Given([Label.End] + rejected + (if frame.Some? then [PeerFrame(frame.value)] else [])
                  + [Settle, Progress(IsClosed)] + Repeat(waiting, WaitClosed(frame)), kind)
         == Given(rejected, kind) + (if kind.Waits? then waiting else 0)
  {
    hide Given, Repeat;
    var frames := if frame.Some? then [PeerFrame(frame.value)] else [];
    var settles := [Settle, Progress(IsClosed)];
    GivenFew(Label.End, Label.End, kind);
    GivenConcat([Label.End], rejected, kind);
    if frame.Some? {
      GivenFew(PeerFrame(frame.value), Settle, kind);
    } else {
      GivenFew(Settle, Settle, kind);
    }
    GivenConcat([Label.End] + rejected, frames, kind);
    GivenFew(Settle, Progress(IsClosed), kind);
    GivenConcat([Label.End] + rejected + frames, settles, kind);
    GivenRepeat(waiting, WaitClosed(frame), kind);
    GivenConcat([Label.End] + rejected + frames + settles, Repeat(waiting, WaitClosed(frame)), kind);
  }

  lemma NoLabels()
    ensures LabelsOf([]) == []
  {
  }

  lemma ClaimBalanced(cfg: Config, h: Host, kind: Kind)
    requires Inv(cfg, h)
    ensures Balanced(h, OnClaim(h), kind, 0)
  {
    GivenFew(ClaimOk, ClaimFailed(ReceivingViaStream), kind);
    GivenFew(ClaimFailed(Closed), ClaimFailed(ReceivingViaStream), kind);
    GivenFew(ClaimFailed(ReceivingViaStream), ClaimOk, kind);
    RejectionsGiven(h, ReceivingViaStream, kind);
    hide Given, LabelsOf, RejectAll;
    GivenConcat([ClaimOk], LabelsOf(RejectAll(h.queue.waiters, ReceivingViaStream)), kind);
  }

  lemma CloseBalanced(cfg: Config, h: Host, code: Option<nat>, reason: seq<Byte>, kind: Kind)
    requires Inv(cfg, h)
    ensures Balanced(h, OnClose(cfg, h, code, reason), kind, 0)
  {
    var rejected := LabelsOf(RejectAll(h.queue.waiters, Closed));
    GivenFew(CloseCalled, Stop, kind);
    GivenFew(Stop, Stop, kind);
    RejectionsGiven(h, Closed, kind);
    hide Given, LabelsOf, RejectAll;
    GivenConcat([CloseCalled], rejected, kind);
    GivenConcat([CloseCalled] + rejected, [Stop], kind);
  }

  lemma ReadBalanced(cfg: Config, h: Host, e: Event, kind: Kind)
    requires (e.Receive? || e.Pull?) && Enabled(h, e)
    ensures Balanced(h, StepOf(cfg, h, e), kind, if Asks(e, kind) then 1 else 0)
  {
    var ls := StepOf(cfg, h, e).1;
    FewGiven(ls, kind);
    hide Given;
  }

  /** What at most two labels give. */
  lemma FewGiven(ls: seq<Label>, kind: Kind)
    requires |ls| <= 2
    ensures Given(ls, kind) == (if |ls| > 0 && Gives(ls[0], kind) then 1 else 0)
                               + (if |ls| > 1 && Gives(ls[1], kind) then 1 else 0)
  {
    if |ls| == 2 {
      assert ls == [ls[0], ls[1]];
      GivenFew(ls[0], ls[1], kind);
    } else if |ls| == 1 {
      assert ls == [ls[0]];
      GivenFew(ls[0], ls[0], kind);
    } else {
      GivenFew(Stop, Stop, kind);
    }
  }

  lemma CallBalanced(cfg: Config, h: Host, e: Event, kind: Kind)
    requires Enabled(h, e) && !e.Claim? && !e.Close? && !e.Receive? && !e.Pull?
    requires !e.MessageEvent? && !e.CloseEvent? && !e.SlotFires? && !e.StrayFires?
    ensures Balanced(h, StepOf(cfg, h, e), kind, if Asks(e, kind) then 1 else 0)
  {
    FewGiven(StepOf(cfg, h, e).1, kind);
    hide Given, CurrentState;
  }

  /** In every run: each `receive`, each pull and each `wait-closed` was answered once or is pending; and none is
      pending once the connection settled. */
  lemma {:induction false} NoCallIsLost(cfg: Config, events: seq<Event>, kind: Kind)
    requires CanRun(cfg, Start, events)
    ensures var h, ls := Run(cfg, Start, events), Trace(cfg, Start, events);
            && Asked(events, kind) == Given(ls, kind) + Pending(h, kind)
            && (Settle in ls ==> Asked(events, kind) == Given(ls, kind))
    decreases |events|
  {
    StateSays(cfg, events);
    if Settle in Trace(cfg, Start, events) {
      SettledWaitsNoMore(cfg, Run(cfg, Start, events), Trace(cfg, Start, events), kind);
    }
    if events != [] {
      var init, e := Last(cfg, events);
      NoCallIsLost(cfg, init, kind);
      StepBalanced(cfg, Run(cfg, Start, init), e, kind);
      hide StepOf, Inv, Given, Trace, Run, CanRun;
      GivenConcat(Trace(cfg, Start, init), StepOf(cfg, Run(cfg, Start, init), e).1, kind);
    }
  }

  lemma SettledWaitsNoMore(cfg: Config, h: Host, ls: seq<Label>, kind: Kind)
    requires Inv(cfg, h) && Says(h, ls) && Settle in ls
    ensures Pending(h, kind) == 0
  {
    hide Waiting, Overflowed, FirstFrame;
  }
}
