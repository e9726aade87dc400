/** Every call on the in-guest connection gets the answer its trace owes it, and the outcome is the first frame. */
module GuestCalls {
  import opened Types
  import opened Contract
  import opened PeerInput
  import opened Answers
  import opened GuestPump
  import opened GuestSends
  import opened GuestTime
  import opened GuestRefinement
  import opened GuestDelivery
  import opened GuestEnd

  // ----- a run, its last event cut off -------------------------------------------------------------------

  lemma {:induction false} Last(cfg: Config, events: seq<Event>) returns (init: seq<Event>, e: Event)
    requires CanRun(cfg, Start, events) && events != []
    ensures init == events[..|events| - 1] && e == events[|events| - 1] && CanRun(cfg, Start, init)
    ensures var s := Run(cfg, Start, init);
            && Inv(cfg, s) && Enabled(s, e) && Run(cfg, Start, events) == StepOf(cfg, s, e).0
            && Trace(cfg, Start, events) == Trace(cfg, Start, init) + StepOf(cfg, s, e).1
  {
    hide Enabled, StepOf, Inv;
    var k := |events| - 1;
    init, e := events[..k], events[k];
    assert events == init + [e] && [e][1..] == [];
    RunConcat(cfg, Start, init, [e]);
    Reached(cfg, init);
    var shown := StepOf(cfg, Run(cfg, Start, init), e).1;
    assert shown + [] == shown;
  }

  /** What the trace says of the state a run reaches. */
  lemma {:induction false} StateSays(cfg: Config, events: seq<Event>)
    requires CanRun(cfg, Start, events)
    ensures var s, ls := Run(cfg, Start, events), Trace(cfg, Start, events);
            && Inv(cfg, s)
            && s.inbound.queue == Waiting(ls)
            && (s.inbound.overflowed <==> Overflowed(ls)) && (s.inbound.ended <==> Label.End in ls)
            && (s.cells.localClosed <==> CloseCalled in ls) && (s.cells.claimed <==> ClaimOk in ls)
            && s.cells.closeInfo == (if Settle in ls then Some(FirstFrame(ls)) else None)
  {
    StartInv(cfg);
    StartMatches();
    hide Inv, Rel, Run, Trace, Step, Exec;
    RunInv(cfg, Start, events);
    RunMatches(cfg, Start, Contract.Init, events);
    var s, ls := Run(cfg, Start, events), Trace(cfg, Start, events);
    var c := Exec(cfg.limit, Contract.Init, ls).value;
    StateIsLabels(cfg.limit, ls, c);
    RelOf(s, c);
  }

  lemma RelOf(s: Provider, c: State)
    requires Rel(s, c)
    ensures c.Backlog() == s.inbound.queue && c.overflowed == s.inbound.overflowed && c.ended == s.inbound.ended
    ensures c.localClosed == s.cells.localClosed && c.claimed == s.cells.claimed && c.outcome == s.cells.closeInfo
  {
  }

  // ----- reads, claims and waits are answered ------------------------------------------------------------

  /** In every reachable state a `receive` that is pending can be polled and the poll
      gives it the answer the trace owes and takes it off the pending ones; owed nothing, it leaves all as it is. */
  lemma {:induction false} PollAnswers(cfg: Config, events: seq<Event>)
    requires CanRun(cfg, Start, events) && Run(cfg, Start, events).calls.pendingReceives > 0
    ensures Enabled(Run(cfg, Start, events), ReceivePoll)
    ensures var s, ls := Run(cfg, Start, events), Trace(cfg, Start, events);
            var (t, shown) := StepOf(cfg, s, ReceivePoll);
            match ReceiveAnswer(ls)
            case Some(answer) => shown == [answer] && t.calls.pendingReceives + 1 == s.calls.pendingReceives
            case None => shown == [] && t == s
  {
    StateSays(cfg, events);
    PollStep(cfg, Run(cfg, Start, events), Trace(cfg, Start, events));
    hide Run, Trace, Inv, StepOf, Enabled, ReceiveAnswer, Waiting, Overflowed, FirstClose, CanRun;
  }

  lemma PollStep(cfg: Config, s: Provider, ls: seq<Label>)
    requires s.calls.pendingReceives > 0
    requires s.inbound.queue == Waiting(ls) && (s.inbound.overflowed <==> Overflowed(ls))
    requires (s.inbound.ended <==> Label.End in ls)
    requires (s.cells.localClosed <==> CloseCalled in ls) && (s.cells.claimed <==> ClaimOk in ls)
    ensures Enabled(s, ReceivePoll)
    ensures var (t, shown) := StepOf(cfg, s, ReceivePoll);
            match ReceiveAnswer(ls)
            case Some(answer) => shown == [answer] && t.calls.pendingReceives + 1 == s.calls.pendingReceives
            case None => shown == [] && t == s
  {
    hide Waiting, Overflowed;
  }

  /** A new `receive` is refused at once after a local close or a claim, else it is pending. */
  lemma {:induction false} ReceiveIsPending(cfg: Config, events: seq<Event>)
    requires CanRun(cfg, Start, events)
    ensures Enabled(Run(cfg, Start, events), ReceiveCall)
    ensures var s, ls := Run(cfg, Start, events), Trace(cfg, Start, events);
            var (t, shown) := StepOf(cfg, s, ReceiveCall);
            match ReceiveRefusal(ls)
            case Some(refusal) => shown == [refusal] && t == s
            case None => shown == [] && t.calls.pendingReceives == s.calls.pendingReceives + 1
  {
    StateSays(cfg, events);
    ReceiveStarts(cfg, Run(cfg, Start, events), Trace(cfg, Start, events));
    hide Run, Trace, Inv, StepOf, Enabled, ReceiveRefusal, Waiting, Overflowed, FirstClose, CanRun;
  }

  lemma ReceiveStarts(cfg: Config, s: Provider, ls: seq<Label>)
    requires (s.cells.localClosed <==> CloseCalled in ls) && (s.cells.claimed <==> ClaimOk in ls)
    ensures Enabled(s, ReceiveCall)
    ensures var (t, shown) := StepOf(cfg, s, ReceiveCall);
            match ReceiveRefusal(ls)
            case Some(refusal) => shown == [refusal] && t == s
            case None => shown == [] && t.calls.pendingReceives == s.calls.pendingReceives + 1
  {
  }

  /** The feeder's turn gives the stream what the trace owes it; it ends with the stream and only then. */
  lemma {:induction false} FeederAnswers(cfg: Config, events: seq<Event>)
    requires CanRun(cfg, Start, events) && Run(cfg, Start, events).cells.feeder
    ensures Enabled(Run(cfg, Start, events), FeederPoll)
    ensures var s, ls := Run(cfg, Start, events), Trace(cfg, Start, events);
            var (t, shown) := StepOf(cfg, s, FeederPoll);
            match StreamAnswer(ls)
            case Some(answer) => shown == [answer] && t.cells.feeder == !answer.StreamEnd?
            case None => shown == [] && t == s
  {
    StateSays(cfg, events);
    StreamTurn(cfg, Run(cfg, Start, events), Trace(cfg, Start, events));
    hide Run, Trace, Inv, StepOf, Enabled, StreamAnswer, Waiting, Overflowed, FirstClose, CanRun;
  }

  lemma StreamTurn(cfg: Config, s: Provider, ls: seq<Label>)
    requires s.inbound.queue == Waiting(ls) && (s.inbound.overflowed <==> Overflowed(ls))
    requires (s.inbound.ended <==> Label.End in ls)
    requires (s.cells.localClosed <==> CloseCalled in ls) && (s.cells.claimed <==> ClaimOk in ls)
    requires s.cells.feeder
    ensures Enabled(s, FeederPoll)
    ensures var (t, shown) := StepOf(cfg, s, FeederPoll);
            match StreamAnswer(ls)
            case Some(answer) => shown == [answer] && t.cells.feeder == !answer.StreamEnd?
            case None => shown == [] && t == s
  {
    hide Waiting, Overflowed;
  }

  lemma {:induction false} ClaimsAndWaits(cfg: Config, events: seq<Event>)
    requires CanRun(cfg, Start, events)
    ensures var s, ls := Run(cfg, Start, events), Trace(cfg, Start, events);
            && StepOf(cfg, s, ClaimCall).1 == [ClaimAnswer(ls)]
            && StepOf(cfg, s, ReadState).1 == [StateSeen(s.cells.lifecycle)]
            && (s.reader.ReaderDone? ==>
                  Enabled(s, AwaitClosed) && StepOf(cfg, s, AwaitClosed).1 == [WaitClosed(FirstFrame(ls))])
  {
    StateSays(cfg, events);
    DoneHasSettled(cfg, Run(cfg, Start, events));
    ClaimAndWaitSteps(cfg, Run(cfg, Start, events));
    hide Run, Trace, StepOf, Inv, Waiting, Overflowed, CanRun;
  }

  lemma ClaimAndWaitSteps(cfg: Config, s: Provider)
    ensures StepOf(cfg, s, ReadState).1 == [StateSeen(s.cells.lifecycle)]
    ensures StepOf(cfg, s, ClaimCall).1
         == [if s.cells.localClosed then ClaimFailed(Closed)
             else if s.cells.claimed then ClaimFailed(ReceivingViaStream) else ClaimOk]
    ensures s.reader.ReaderDone? ==> Enabled(s, AwaitClosed)
    ensures s.cells.closeInfo.Some? ==> StepOf(cfg, s, AwaitClosed).1 == [WaitClosed(s.cells.closeInfo.value)]
  {
  }

  lemma DoneHasSettled(cfg: Config, s: Provider)
    requires Inv(cfg, s)
    ensures s.cells.closeInfo.Some? <==> s.reader.ReaderDone?
  {
    PartsOf(cfg, s);
    hide Inv;
  }

  // ----- the reported state, and the claimed stream's feeder ---------------------------------------------

  /** Closed once finalized, closing once the guest or the peer closed, open before. */
  predicate LifecycleInv(s: Provider) {
    s.cells.lifecycle == (if s.reader.ReaderDone? then IsClosed
                          else if s.cells.localClosed || s.cells.peerFrame.Some? then IsClosing
                          else IsOpen)
  }

  /** A claimed stream has its feeder, or is about to get it, or ended. */
  ghost predicate FeederInv(s: Provider, ended: bool) {
    s.cells.claimed ==> s.cells.feeder || ended || exists c <- s.calls.cmds :: c.ClaimCmd?
  }

  /** A step outside the reader's end, the peer's close and the guest's. */
  lemma CellsKept(cfg: Config, s: Provider, e: Event, ended: bool)
    requires Enabled(s, e) && LifecycleInv(s) && FeederInv(s, ended)
    ensures var (t, ls) := StepOf(cfg, s, e); LifecycleInv(t) && FeederInv(t, ended || StreamEnd in ls)
  {
    hide HandleCmd, HandleLateCmd, HandleRead, LastDrain, HandleFlush, FeederInv, LifecycleInv;
    match e
    case TakeCmd(encoded) => CmdCells(cfg, s, encoded, ended);
    case TakeLateCmd => LateCells(s, ended);
    case Read(step, closing) => ReadCells(cfg, s, step, closing, ended);
    case FeedEnd(rest) => LastDrainCells(cfg, s, rest, ended);
    case FlushStep(who, step) => FlushCells(cfg, s, who, step, ended);
    case _ => OtherCells(cfg, s, e, ended);
  }

  lemma CmdCells(cfg: Config, s: Provider, encoded: Encoded, ended: bool)
    requires Enabled(s, TakeCmd(encoded)) && LifecycleInv(s) && FeederInv(s, ended)
    ensures var (t, ls) := HandleCmd(cfg, s, encoded); LifecycleInv(t) && FeederInv(t, ended || StreamEnd in ls)
  {
    hide BeginClose;
    assert forall c <- s.calls.cmds :: c == s.calls.cmds[0] || c in s.calls.cmds[1..];
  }

  lemma LateCells(s: Provider, ended: bool)
    requires Enabled(s, TakeLateCmd) && LifecycleInv(s) && FeederInv(s, ended)
    ensures var (t, ls) := HandleLateCmd(s); LifecycleInv(t) && FeederInv(t, ended || StreamEnd in ls)
  {
    assert forall c <- s.calls.cmds :: c == s.calls.cmds[0] || c in s.calls.cmds[1..];
  }

  lemma ReadCells(cfg: Config, s: Provider, step: CoreRead, closing: Encoded, ended: bool)
    requires s.reader.Draining? && LifecycleInv(s) && FeederInv(s, ended)
    ensures var (t, ls) := HandleRead(cfg, s, step, closing); LifecycleInv(t) && FeederInv(t, ended || StreamEnd in ls)
  {
    hide BeginClose, Deliver;
  }

  lemma {:induction false} LastDrainCells(cfg: Config, s: Provider, rest: seq<CoreRead>, ended: bool)
    requires !s.reader.ReaderDone? && s.cells.lifecycle.Rank() <= 2 && FeederInv(s, ended)
    ensures var (t, ls) := LastDrain(cfg, s, rest); LifecycleInv(t) && FeederInv(t, ended || StreamEnd in ls)
    decreases |rest|
  {
    hide Deliver, FeederInv;
    if rest != [] {
      match rest[0]
      case Data(m) =>
        var t := s.(inbound := Deliver(cfg, s.wire.wireClosing, s.inbound, m).0);
        SameFeeder(s, t, ended, ended);
        LastDrainCells(cfg, t, rest[1..], ended);
        var (u, ls) := LastDrain(cfg, t, rest[1..]);
        MoreShown(u, ended || StreamEnd in ls, ended || StreamEnd in LastDrain(cfg, s, rest).1);
      case Control(reply) =>
        var t := s.(wire := CoreWrites(s.wire, reply));
        SameFeeder(s, t, ended, ended);
        LastDrainCells(cfg, t, rest[1..], ended);
      case RawFrame => LastDrainCells(cfg, s, rest[1..], ended);
      case _ => SameFeeder(s, LastDrain(cfg, s, rest).0, ended, ended || StreamEnd in LastDrain(cfg, s, rest).1);
    } else {
      SameFeeder(s, LastDrain(cfg, s, rest).0, ended, ended || StreamEnd in LastDrain(cfg, s, rest).1);
    }
  }

  lemma SameFeeder(s: Provider, t: Provider, ended: bool, later: bool)
    requires FeederInv(s, ended) && (ended ==> later) && t.calls == s.calls
    requires t.cells.claimed == s.cells.claimed && t.cells.feeder == s.cells.feeder
    ensures FeederInv(t, later)
  {
  }

  lemma MoreShown(s: Provider, ended: bool, later: bool)
    requires FeederInv(s, ended) && (ended ==> later)
    ensures FeederInv(s, later)
  {
  }

  lemma FlushCells(cfg: Config, s: Provider, who: Who, e: FlushEvent, ended: bool)
    requires Enabled(s, FlushStep(who, e)) && LifecycleInv(s) && FeederInv(s, ended)
    ensures var (t, ls) := HandleFlush(cfg, s, who, e); LifecycleInv(t) && FeederInv(t, ended || StreamEnd in ls)
  {
    hide FlushNext;
  }

  lemma OtherCells(cfg: Config, s: Provider, e: Event, ended: bool)
    requires Enabled(s, e) && LifecycleInv(s) && FeederInv(s, ended)
    requires !e.TakeCmd? && !e.TakeLateCmd? && !e.Read? && !e.FeedEnd? && !e.FlushStep?
    ensures var (t, ls) := StepOf(cfg, s, e); LifecycleInv(t) && FeederInv(t, ended || StreamEnd in ls)
  {
    var t := StepOf(cfg, s, e).0;
    assert forall c <- s.calls.cmds :: c in t.calls.cmds;
    if e.ClaimCall? && t.calls.cmds != s.calls.cmds {
      assert t.calls.cmds[|s.calls.cmds|] == ClaimCmd;
    }
  }

  /** In every run: the reported state is closed once the pump finalized, closing once the guest or the peer closed,
      and open before; a claimed stream has a feeder, or its claim waits for the command task, or it ended. */
  lemma {:induction false} StateIsExact(cfg: Config, events: seq<Event>)
    requires CanRun(cfg, Start, events)
    ensures LifecycleInv(Run(cfg, Start, events))
    ensures FeederInv(Run(cfg, Start, events), StreamEnd in Trace(cfg, Start, events))
    decreases |events|
  {
    if events != [] {
      var init, e := Last(cfg, events);
      hide Run, Trace, StepOf, Enabled, CanRun, Inv, LifecycleInv, FeederInv;
      StateIsExact(cfg, init);
      CellsKept(cfg, Run(cfg, Start, init), e, StreamEnd in Trace(cfg, Start, init));
    }
  }

  // ----- no call is lost ---------------------------------------------------------------------------------

  function ReceiveCalls(events: seq<Event>): nat {
    if events == [] then 0
    else ReceiveCalls(events[..|events| - 1]) + (if events[|events| - 1].ReceiveCall? then 1 else 0)
  }

  /** The messages given to `send`, by call. */
  function Given(events: seq<Event>): seq<Message> {
    if events == [] then []
    else
      var e := events[|events| - 1];
      Given(events[..|events| - 1]) + (if e.SendCall? then [e.message] else [])
  }

  function AcksAsAnswers(acks: seq<Ack>): seq<SendAnswer> {
    seq(|acks|, i requires 0 <= i < |acks| => SendAnswer(acks[i].sending.id, acks[i].result))
  }

  lemma AckNone(acks: seq<Ack>)
    ensures AcksAsAnswers(acks) == AcksAsAnswers(acks) + []
  {
  }

  lemma AckOne(acks: seq<Ack>, ack: Ack)
    ensures AcksAsAnswers(acks + [ack]) == AcksAsAnswers(acks) + [SendAnswer(ack.sending.id, ack.result)]
  {
  }

  /** A step outside the guest's calls shows exactly the acks it gives. */
  ghost predicate Acked(s: Provider, out: Outcome) {
    && ReceiveAnswers(out.1) == 0 && SendCallsShown(out.1) == 0
    && AcksAsAnswers(out.0.calls.acks) == AcksAsAnswers(s.calls.acks) + SendAnswers(out.1)
    && out.0.calls.pendingReceives == s.calls.pendingReceives
  }

  lemma NoneAcked(s: Provider, t: Provider, ls: seq<Label>)
    requires t.calls.acks == s.calls.acks && t.calls.pendingReceives == s.calls.pendingReceives
    requires forall l <- ls :: !AnswersReceive(l) && !ShowsSendCall(l) && !l.SendDone?
    ensures Acked(s, (t, ls))
  {
    AckNone(s.calls.acks);
    CountsNone(ls);
  }

  lemma AnswerAcked(s: Provider, t: Provider, sending: Sending, result: SendResult)
    requires t.calls.acks == s.calls.acks && t.calls.pendingReceives == s.calls.pendingReceives
    ensures Acked(s, Answer(t, sending, result))
  {
    AckOne(s.calls.acks, Ack(sending, result));
    CountsOne(SendDone(sending.id, result));
    hide ReceiveAnswers, SendCallsShown, SendAnswers, AcksAsAnswers;
  }

  lemma CmdAcked(cfg: Config, s: Provider, encoded: Encoded)
    requires Enabled(s, TakeCmd(encoded))
    ensures Acked(s, HandleCmd(cfg, s, encoded))
  {
    hide Acked, Answer, BeginClose;
    var t := PopCmd(s);
    match s.calls.cmds[0]
    case SendCmd(id, m) =>
      var start := |s.wire.written|;
      AnswerAcked(s, t, Sending(id, start, []), Failed(Closed));
      if encoded.Refuses? {
        AnswerAcked(s, t, Sending(id, start, []), Failed(encoded.error));
      } else {
        NoneAcked(s, t.(wire := CoreTakes(s.wire, id, m, encoded.bytes),
                        cmd := CmdSends(Sending(id, start, encoded.bytes), WaitLock)), []);
      }
    case CloseCmd(_) => NoneAcked(s, HandleCmd(cfg, s, encoded).0, StopLabels(s.wire));
    case ClaimCmd => NoneAcked(s, HandleCmd(cfg, s, encoded).0, []);
  }

  lemma LateAcked(s: Provider)
    requires Enabled(s, TakeLateCmd)
    ensures Acked(s, HandleLateCmd(s))
  {
    hide Acked, Answer;
    match s.calls.cmds[0]
    case SendCmd(id, _) => AnswerAcked(s, PopCmd(s), Sending(id, |s.wire.written|, []), Failed(Closed));
    case CloseCmd(_) => NoneAcked(s, HandleLateCmd(s).0, []);
    case ClaimCmd => NoneAcked(s, HandleLateCmd(s).0, []);
  }

  lemma ReadAcked(cfg: Config, s: Provider, step: CoreRead, closing: Encoded)
    ensures Acked(s, HandleRead(cfg, s, step, closing))
  {
    ReadFrame(cfg, s, step, closing);
    ReadShows(cfg, s, step, closing);
    hide HandleRead, Acked;
    NoneAcked(s, HandleRead(cfg, s, step, closing).0, HandleRead(cfg, s, step, closing).1);
  }

  predicate NoAnswer(l: Label) { !AnswersReceive(l) && !ShowsSendCall(l) && !l.SendDone? }

  lemma ReadShows(cfg: Config, s: Provider, step: CoreRead, closing: Encoded)
    ensures forall l <- HandleRead(cfg, s, step, closing).1 :: NoAnswer(l)
  {
    hide BeginClose;
  }

  lemma {:induction false} LastDrainAcked(cfg: Config, s: Provider, rest: seq<CoreRead>)
    ensures Acked(s, LastDrain(cfg, s, rest))
  {
    LastDrainFrame(cfg, s, rest);
    LastDrainShows(cfg, s, rest);
    hide LastDrain, Acked;
    NoneAcked(s, LastDrain(cfg, s, rest).0, LastDrain(cfg, s, rest).1);
  }

  lemma {:induction false} LastDrainShows(cfg: Config, s: Provider, rest: seq<CoreRead>)
    ensures forall l <- LastDrain(cfg, s, rest).1 :: NoAnswer(l)
    decreases |rest|
  {
    if rest != [] {
      match rest[0]
      case Data(m) => LastDrainShows(cfg, s.(inbound := Deliver(cfg, s.wire.wireClosing, s.inbound, m).0), rest[1..]);
      case Control(reply) => LastDrainShows(cfg, s.(wire := CoreWrites(s.wire, reply)), rest[1..]);
      case RawFrame => LastDrainShows(cfg, s, rest[1..]);
      case _ =>
    }
  }

  lemma FlushAcked(cfg: Config, s: Provider, who: Who, e: FlushEvent)
    requires FlushOf(s, who).Some?
    ensures Acked(s, HandleFlush(cfg, s, who, e))
  {
    hide FlushNext, Answer, ReceiveAnswers, SendCallsShown, SendAnswers, AcksAsAnswers;
    var (w, out) := FlushNext(cfg, s.now, s.wire, who, FlushOf(s, who).value, e);
    var t := s.(wire := w);
    var died := DeathLabels(s.wire, w);
    CountsNone(died);
    var next := if who.CmdTask? then ResumeCmd(t, out) else ResumeReader(t, out);
    CountsConcat(died, next.1);
    SendAnswersConcat(died, next.1);
    assert [] + SendAnswers(next.1) == SendAnswers(next.1);
    if who.CmdTask? && out.Returned? && s.cmd.CmdSends? {
      AnswerAcked(s, t.(cmd := CmdIdle), s.cmd.sending, out.result);
    } else {
      NoneAcked(s, next.0, next.1);
    }
  }

  lemma StepCounts(cfg: Config, s: Provider, e: Event)
    requires Enabled(s, e)
    ensures var (t, ls) := StepOf(cfg, s, e);
            && t.calls.pendingReceives + ReceiveAnswers(ls)
               == s.calls.pendingReceives + (if e.ReceiveCall? then 1 else 0)
            && SendCallsShown(ls) == (if e.SendCall? then 1 else 0)
            && AcksAsAnswers(t.calls.acks) == AcksAsAnswers(s.calls.acks) + SendAnswers(ls)
  {
    hide HandleCmd, HandleLateCmd, HandleRead, LastDrain, HandleFlush;
    hide ReceiveAnswers, SendCallsShown, SendAnswers, AcksAsAnswers;
    match e
    case TakeCmd(encoded) => CmdAcked(cfg, s, encoded);
    case TakeLateCmd => LateAcked(s);
    case Read(step, closing) => ReadAcked(cfg, s, step, closing);
    case FeedEnd(rest) => LastDrainAcked(cfg, s, rest);
    case FlushStep(who, step) => FlushAcked(cfg, s, who, step);
    case DeadlineExpires => NoneAcked(s, Finalize(s).0, Finalize(s).1);
    case _ => CallCounts(cfg, s, e);
  }

  lemma CallCounts(cfg: Config, s: Provider, e: Event)
    requires Enabled(s, e) && !e.DeadlineExpires?
    requires !e.TakeCmd? && !e.TakeLateCmd? && !e.Read? && !e.FeedEnd? && !e.FlushStep?
    ensures var (t, ls) := StepOf(cfg, s, e);
            && t.calls.pendingReceives + ReceiveAnswers(ls)
               == s.calls.pendingReceives + (if e.ReceiveCall? then 1 else 0)
            && SendCallsShown(ls) == (if e.SendCall? then 1 else 0)
            && AcksAsAnswers(t.calls.acks) == AcksAsAnswers(s.calls.acks) + SendAnswers(ls)
  {
    var ls := StepOf(cfg, s, e).1;
    assert ls == [] || ls == [ls[0]];
    AckNone(s.calls.acks);
    if ls != [] {
      CountsOne(ls[0]);
    }
    hide ReceiveAnswers, SendCallsShown, SendAnswers, AcksAsAnswers;
    CountsNone([]);
  }

  /** In every run: each `receive` call was answered once or is pending, each `send` call was taken or refused at the
      call, and the answers of the sends taken are the acks, in order. */
  lemma {:induction false} NoCallIsLost(cfg: Config, events: seq<Event>)
    requires CanRun(cfg, Start, events)
    ensures var s, ls := Run(cfg, Start, events), Trace(cfg, Start, events);
            && ReceiveCalls(events) == ReceiveAnswers(ls) + s.calls.pendingReceives
            && |Given(events)| == SendCallsShown(ls)
            && AcksAsAnswers(s.calls.acks) == SendAnswers(ls)
    decreases |events|
  {
    if events != [] {
      var init, e := Last(cfg, events);
      NoCallIsLost(cfg, init);
      var s := Run(cfg, Start, init);
      StepCounts(cfg, s, e);
      hide Run, Trace, StepOf, Enabled, CanRun, Inv, ReceiveAnswers, SendCallsShown, SendAnswers, AcksAsAnswers;
      CountsConcat(Trace(cfg, Start, init), StepOf(cfg, s, e).1);
      SendAnswersConcat(Trace(cfg, Start, init), StepOf(cfg, s, e).1);
    }
  }

  // ----- the outcome -------------------------------------------------------------------------------------

  /** A step settles at its end: what it reads comes before. */
  lemma StepSettlesLast(cfg: Config, s: Provider, e: Event)
    requires Enabled(s, e)
    ensures ReadBeforeSettle(StepOf(cfg, s, e).1) == Inputs(StepOf(cfg, s, e).1)
    ensures Settle in StepOf(cfg, s, e).1 ==> StepOf(cfg, s, e).0.reader.ReaderDone?
  {
    hide HandleRead, LastDrain, Inputs, ReadBeforeSettle;
    StepInputs(cfg, s, e);
    match e
    case Read(step, closing) => ReadSettlesLast(cfg, s, step, closing);
    case FeedEnd(rest) => LastDrainSettlesLast(cfg, s, rest);
    case _ =>
      OtherSettles(cfg, s, e);
      hide StepOf;
      NoSettle(StepOf(cfg, s, e).1);
  }

  lemma OtherSettles(cfg: Config, s: Provider, e: Event)
    requires Enabled(s, e) && !e.Read? && !e.FeedEnd?
    ensures SentOf(e) == [] && (Settle in StepOf(cfg, s, e).1 ==> StepOf(cfg, s, e).0.reader.ReaderDone?)
  {
    hide FlushNext, BeginClose;
  }

  /** Some labels, then a finalization: nothing is read after the settlement. */
  lemma FinalizeLast(s: Provider, before: seq<Label>)
    requires Settle !in before
    ensures ReadBeforeSettle(before + Finalize(s).1) == Inputs(before + Finalize(s).1)
  {
    FinalizeInputs(s);
    hide Inputs, ReadBeforeSettle, Finalize;
    NoSettle(before);
    NoSettle(Finalize(s).1);
    SettleReadsNoMore(before, Finalize(s).1);
  }

  lemma ReadSettlesLast(cfg: Config, s: Provider, step: CoreRead, closing: Encoded)
    requires s.reader.Draining?
    ensures var (t, ls) := HandleRead(cfg, s, step, closing);
            ReadBeforeSettle(ls) == Inputs(ls) && (Settle in ls ==> t.reader.ReaderDone?)
  {
    hide Inputs, ReadBeforeSettle, BeginClose;
    var ls := HandleRead(cfg, s, step, closing).1;
    if Settle in ls {
      match step
      case ReadEnd => FinalizeLast(s, [InputEnds]);
      case CapacityError =>
        var t := s.(inbound := s.inbound.(overflowed := true));
        var u := t.(wire := BeginClose(cfg, t.now, t.wire, None, closing).0);
        FinalizeLast(u, [LatchOverflow] + StopLabels(t.wire));
        assert ls == [LatchOverflow] + StopLabels(t.wire) + Finalize(u).1;
    } else {
      NoSettle(ls);
    }
  }

  lemma {:induction false} LastDrainSettlesLast(cfg: Config, s: Provider, rest: seq<CoreRead>)
    ensures var (t, ls) := LastDrain(cfg, s, rest); ReadBeforeSettle(ls) == Inputs(ls) && t.reader.ReaderDone?
    decreases |rest|
  {
    hide LastDrain, Inputs, ReadBeforeSettle, Deliver, Finalize, Append, CoreWrites, PeerInfo;
    FinalizeInputs(s);
    FinalizeLast(s, [InputEnds]);
    EndOfInputShows(s);
    if rest == [] {
      DrainNothing(cfg, s);
    } else {
      DrainStep(cfg, s, rest);
      match rest[0]
      case Data(m) =>
        var (q, l) := Deliver(cfg, s.wire.wireClosing, s.inbound, m);
        LastDrainSettlesLast(cfg, s.(inbound := q), rest[1..]);
        DeliverNoSettle(cfg, s.wire.wireClosing, s.inbound, m);
        NoSettle([l]);
        SettleReadsNoMore([l], LastDrain(cfg, s.(inbound := q), rest[1..]).1);
        AppendShows([l], LastDrain(cfg, s.(inbound := q), rest[1..]));
      case PeerClose(frame, reply) =>
        var t := s.(cells := PeerInfo(s.cells, frame), wire := CoreWrites(s.wire, reply));
        FinalizeInputs(t);
        FinalizeLast(t, [PeerFrame(CloseInfoFrom(frame))]);
        AppendShows([PeerFrame(CloseInfoFrom(frame))], Finalize(t));
      case Control(reply) => LastDrainSettlesLast(cfg, s.(wire := CoreWrites(s.wire, reply)), rest[1..]);
      case RawFrame => LastDrainSettlesLast(cfg, s, rest[1..]);
      case _ =>
    }
  }

  lemma AppendShows(before: seq<Label>, out: Outcome)
    ensures Append(before, out) == (out.0, before + out.1)
  {
  }

  lemma EndOfInputShows(s: Provider)
    ensures EndOfInput(s) == (Finalize(s).0, [InputEnds] + Finalize(s).1)
  {
  }

  lemma DeliverNoSettle(cfg: Config, closing: bool, q: Inbound, m: Message)
    ensures Deliver(cfg, closing, q, m).1 != Settle
  {
  }

  lemma {:induction false} AllReadBeforeSettle(cfg: Config, events: seq<Event>)
    requires CanRun(cfg, Start, events)
    ensures var s, ls := Run(cfg, Start, events), Trace(cfg, Start, events);
            ReadBeforeSettle(ls) == Inputs(ls) && (Settle in ls ==> s.reader.ReaderDone?)
    decreases |events|
  {
    NoSettle([]);
    if events != [] {
      var init, e := Last(cfg, events);
      var s := Run(cfg, Start, init);
      AllReadBeforeSettle(cfg, init);
      StepSettlesLast(cfg, s, e);
      StepInputs(cfg, s, e);
      hide Run, Trace, StepOf, CanRun, Inv, Inputs, ReadBeforeSettle;
      SettleReadsNoMore(Trace(cfg, Start, init), StepOf(cfg, s, e).1);
    }
  }

  /** In every run each `wait-closed` reports the first close frame the core decoded, none if it decoded none. */
  lemma {:induction false} WaitClosedIsFirstRead(cfg: Config, events: seq<Event>, i: nat)
    requires CanRun(cfg, Start, events) && i < |Trace(cfg, Start, events)| && Trace(cfg, Start, events)[i].WaitClosed?
    ensures Trace(cfg, Start, events)[i].outcome == FirstOf(SentBy(events))
  {
    var ls := Trace(cfg, Start, events);
    DeliversWhatTheCoreRead(cfg, events);
    AllReadBeforeSettle(cfg, events);
    RunInputs(cfg, Start, events);
    OutcomeSays(cfg.limit, ls, SentBy(events), i);
    hide Run, Trace, Inputs, Delivers;
  }

  /** The frame of the first close frame decoded in a read is reported as: its code and reason, 1005 and no reason
      without a body. */
  lemma {:induction false} WaitClosedReports(cfg: Config, events: seq<Event>, k: nat, i: nat)
    requires CanRun(cfg, Start, events) && i < |Trace(cfg, Start, events)| && Trace(cfg, Start, events)[i].WaitClosed?
    requires k < |events| && events[k].Read? && events[k].step.PeerClose? && FirstOf(SentBy(events[..k])).None?
    ensures Trace(cfg, Start, events)[i].outcome
         == Some(match events[k].step.frame
                 case None => CloseInfo(1005, [])
                 case Some(body) => CloseInfo(body.code, body.reason))
  {
    WaitClosedIsFirstRead(cfg, events, i);
    hide Run, Trace, CanRun;
    assert events == events[..k] + events[k..] && events[k..] == [events[k]] + events[k + 1..];
    SentByConcat(events[..k], events[k..]);
    FirstConcat(SentBy(events[..k]), SentBy(events[k..]));
    hide FirstOf;
    FirstOfOne(SentOf(events[k]), SentBy(events[k + 1..]));
  }

  lemma FirstOfOne(input: seq<Input>, more: seq<Input>)
    requires |input| == 1 && input[0].Frame?
    ensures FirstOf(input + more) == Some(input[0].info)
  {
  }

  lemma {:induction false} SentByConcat(a: seq<Event>, b: seq<Event>)
    ensures SentBy(a + b) == SentBy(a) + SentBy(b)
    decreases |a|
  {
    if a == [] {
      assert a + b == b;
    } else {
      assert (a + b)[0] == a[0] && (a + b)[1..] == a[1..] + b;
      SentByConcat(a[1..], b);
    }
  }

  lemma OutcomeSays(limit: nat, ls: seq<Label>, sent: seq<Input>, i: nat)
    requires Delivers(limit, ls, sent) && i < |ls| && ls[i].WaitClosed?
    ensures ls[i].outcome == FirstOf(ReadBeforeSettle(ls))
  {
  }
}
