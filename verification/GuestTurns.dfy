/** What the in-guest pump does at its turns: nothing is left unflushed, and no send fails without a cause. */
module GuestTurns {
  import opened Types
  import opened Contract
  import opened Answers
  import opened PeerInput
  import opened GuestPump
  import opened GuestSends
  import opened GuestTime
  import opened GuestRefinement
  import opened GuestDelivery
  import opened GuestCalls
  import opened GuestWritten

  // ----- the tasks' turns --------------------------------------------------------------------------------

  /** A waiting command is taken as long as the command task is idle, before the pump's end as after it, where it first
      sees the end; a reader that drains reads. Time stands still until they did. */
  lemma TurnsAreTaken(cfg: Config, s: Provider, encoded: Encoded, step: CoreRead)
    ensures s.cmd.CmdIdle? && !s.reader.ReaderDone? && s.calls.cmds != [] ==>
              Enabled(s, TakeCmd(encoded)) && !Enabled(s, Tick)
    ensures s.cmd.CmdIdle? && s.reader.ReaderDone? ==>
              && Enabled(s, SeePumpDone) && !Enabled(s, TakeCmd(encoded)) && !Enabled(s, Tick)
              && StepOf(cfg, s, SeePumpDone) == (s.(cmd := CmdLate), [])
    ensures s.cmd.CmdLate? && s.calls.cmds != [] ==> Enabled(s, TakeLateCmd) && !Enabled(s, Tick)
    ensures s.reader.Draining? ==> Enabled(s, Read(step, encoded)) && !Enabled(s, Tick)
  {
  }

  /** Bytes that came are decoded before the reader waits again: a chunk makes it drain, and it goes back to waiting
      only when the core has nothing more; a raw frame changes nothing. */
  lemma ReaderTurns(cfg: Config, s: Provider, rest: seq<CoreRead>, encoded: Encoded)
    ensures s.reader.Selecting? && !Expired(s) ==>
              && Enabled(s, FeedChunk) && Enabled(s, FeedEnd(rest))
              && StepOf(cfg, s, FeedChunk) == (s.(reader := Draining), [])
    ensures s.reader.Draining? ==>
              && StepOf(cfg, s, Read(WouldBlock, encoded)) == (s.(reader := Selecting), [])
              && StepOf(cfg, s, Read(RawFrame, encoded)) == (s, [])
  {
  }

  /** A send is taken unless the guest closed, and refused after that. */
  lemma {:induction false} SendIsTaken(cfg: Config, events: seq<Event>, m: Message)
    requires CanRun(cfg, Start, events)
    ensures var s, ls := Run(cfg, Start, events), Trace(cfg, Start, events);
            var (t, shown) := StepOf(cfg, s, SendCall(m));
            if CloseCalled in ls then shown == [SendRefused(s.calls.made)]
            else shown == [SendCalled(s.calls.made)] && t.calls.cmds == s.calls.cmds + [SendCmd(s.calls.made, m)]
  {
    StateSays(cfg, events);
    SendTurn(cfg, Run(cfg, Start, events), m);
    hide Run, Trace, Inv, StepOf, CanRun, Waiting, Overflowed;
  }

  lemma SendTurn(cfg: Config, s: Provider, m: Message)
    ensures var (t, shown) := StepOf(cfg, s, SendCall(m));
            if s.cells.localClosed then shown == [SendRefused(s.calls.made)]
            else shown == [SendCalled(s.calls.made)] && t.calls.cmds == s.calls.cmds + [SendCmd(s.calls.made, m)]
  {
  }

  // ----- flushing ----------------------------------------------------------------------------------------

  predicate Waits(f: Option<Flush>) { f == Some(WaitLock) }

  /** Bytes the core wrote and no flush has drained are waited for by a flush, unless the write half is dead or the pump
      is done. */
  predicate Flushing(s: Provider) {
    || s.wire.outbound == [] || s.wire.writeDead || s.reader.ReaderDone?
    || Waits(FlushOf(s, CmdTask)) || Waits(FlushOf(s, ReaderTask))
  }

  lemma FlushingKept(cfg: Config, s: Provider, e: Event)
    requires Enabled(s, e) && Flushing(s)
    ensures Flushing(StepOf(cfg, s, e).0)
  {
    hide HandleCmd, HandleRead, LastDrain, HandleFlush;
    match e
    case TakeCmd(encoded) => CmdFlushing(cfg, s, encoded);
    case Read(step, closing) => ReadFlushing(cfg, s, step, closing);
    case FeedEnd(rest) => LastDrainFrame(cfg, s, rest);
    case FlushStep(who, step) => FlushFlushing(cfg, s, who, step);
    case _ =>
  }

  lemma CmdFlushing(cfg: Config, s: Provider, encoded: Encoded)
    requires Enabled(s, TakeCmd(encoded)) && Flushing(s)
    ensures Flushing(HandleCmd(cfg, s, encoded).0)
  {
  }

  lemma ReadFlushing(cfg: Config, s: Provider, step: CoreRead, closing: Encoded)
    requires s.reader.Draining? && Flushing(s)
    ensures Flushing(HandleRead(cfg, s, step, closing).0)
  {
    hide Deliver;
  }

  lemma FlushFlushing(cfg: Config, s: Provider, who: Who, e: FlushEvent)
    requires Enabled(s, FlushStep(who, e)) && Flushing(s)
    ensures Flushing(HandleFlush(cfg, s, who, e).0)
  {
  }

  /** In every run the bytes the core wrote - of a message, a close, a ping's reply, the reply to the peer's close - are
      drained, or a flush waits to drain them, unless the write half is dead or the pump is done. */
  lemma {:induction false} NothingIsLeftUnflushed(cfg: Config, events: seq<Event>)
    requires CanRun(cfg, Start, events)
    ensures Flushing(Run(cfg, Start, events))
    decreases |events|
  {
    if events != [] {
      var init, e := Last(cfg, events);
      hide Run, Trace, StepOf, Enabled, CanRun, Inv, Flushing;
      NothingIsLeftUnflushed(cfg, init);
      FlushingKept(cfg, Run(cfg, Start, init), e);
    }
  }

  // ----- what the core writes ----------------------------------------------------------------------------

  /** The core's bytes are appended to what it wrote and to what is to be drained. */
  predicate Appends(w: Wire, v: Wire, bytes: seq<Byte>) {
    v.written == w.written + bytes && v.outbound == w.outbound + bytes && v.accepted == w.accepted
  }

  /** On a healthy connection a message and a close that the core encodes are written as it encoded them, and flushed by
      the task that gave them; the message's send waits for its own bytes, where they stand. */
  lemma EncodingsAreWritten(cfg: Config, s: Provider, bytes: seq<Byte>)
    requires Enabled(s, TakeCmd(Encodes(bytes))) && !s.wire.wireClosing && !s.wire.writeDead
    ensures var t, c := StepOf(cfg, s, TakeCmd(Encodes(bytes))).0, s.calls.cmds[0];
            && (!c.ClaimCmd? ==> Appends(s.wire, t.wire, bytes))
            && (c.SendCmd? ==> t.cmd == CmdSends(Sending(c.id, |s.wire.written|, bytes), WaitLock))
            && (c.CloseCmd? ==> t.cmd == CmdCloses(WaitLock))
  {
  }

  /** So is the close of an overflow, by the reader, which then goes on, or leaves after a message past the cap. */
  lemma OverflowIsClosed(cfg: Config, s: Provider, step: CoreRead, bytes: seq<Byte>)
    requires s.reader.Draining? && !s.wire.wireClosing && !s.inbound.overflowed
    requires step.CapacityError? || (step.Data? && s.inbound.used + step.message.Size() > cfg.limit)
    ensures var t := StepOf(cfg, s, Read(step, Encodes(bytes))).0;
            && t.inbound.overflowed && t.inbound.queue == s.inbound.queue && Appends(s.wire, t.wire, bytes)
            && t.reader == ReaderFlush(WaitLock, step.CapacityError?)
  {
  }

  // ----- what the core's reads leave ---------------------------------------------------------------------

  /** What the core wrote in answer to a ping or the peer's close goes out as it wrote it. */
  lemma RepliesAreWritten(cfg: Config, s: Provider, step: CoreRead, closing: Encoded)
    requires s.reader.Draining? && (step.PeerClose? || step.Control?)
    ensures var t := StepOf(cfg, s, Read(step, closing)).0;
            && t.wire.written == s.wire.written + step.reply && t.wire.outbound == s.wire.outbound + step.reply
            && t.reader == ReaderFlush(WaitLock, false)
  {
  }

  // ----- sends -------------------------------------------------------------------------------------------

  /** The errors the core refused messages with. */
  function Refused(events: seq<Event>): set<Error> {
    if events == [] then {}
    else
      var e := events[|events| - 1];
      Refused(events[..|events| - 1]) + (if e.TakeCmd? && e.encoded.Refuses? then {e.encoded.error} else {})
  }

  /** Neither closing nor dead, and not done. */
  predicate Healthy(s: Provider) { !s.wire.wireClosing && !s.wire.writeDead && !s.reader.ReaderDone? }

  function RefusedBy(e: Event): set<Error> { if e.TakeCmd? && e.encoded.Refuses? then {e.encoded.error} else {} }

  lemma StepFails(cfg: Config, s: Provider, e: Event, given: set<Error>)
    requires Enabled(s, e) && Healthy(s) && RefusedBy(e) <= given && (s.cmd.CmdLate? ==> s.reader.ReaderDone?)
    ensures FailsExcused(StepOf(cfg, s, e).1, given)
  {
    hide HandleCmd, HandleRead, LastDrain, HandleFlush, Excused;
    match e
    case TakeCmd(encoded) => CmdFails(cfg, s, encoded, given);
    case Read(step, closing) =>
      ReadShows(cfg, s, step, closing);
      NoSendFails(HandleRead(cfg, s, step, closing).1, given);
    case FeedEnd(rest) =>
      LastDrainShows(cfg, s, rest);
      NoSendFails(LastDrain(cfg, s, rest).1, given);
    case FlushStep(who, step) => FlushFails(cfg, s, who, step, given);
    case _ =>
  }

  lemma NoSendFails(ls: seq<Label>, given: set<Error>)
    requires forall l <- ls :: NoAnswer(l)
    ensures FailsExcused(ls, given)
  {
    assert forall j :: 0 <= j < |ls| ==> ls[j] in ls;
  }

  lemma CmdFails(cfg: Config, s: Provider, encoded: Encoded, given: set<Error>)
    requires Enabled(s, TakeCmd(encoded)) && Healthy(s) && (encoded.Refuses? ==> encoded.error in given)
    ensures FailsExcused(HandleCmd(cfg, s, encoded).1, given)
  {
    hide Excused, BeginClose;
  }

  lemma FlushFails(cfg: Config, s: Provider, who: Who, e: FlushEvent, given: set<Error>)
    requires Enabled(s, FlushStep(who, e)) && Healthy(s)
    ensures FailsExcused(HandleFlush(cfg, s, who, e).1, given)
  {
    FlushDies(cfg, s.now, s.wire, who, FlushOf(s, who).value, e);
    var ls := HandleFlush(cfg, s, who, e).1;
    if |ls| > 1 && ls[0].WriteDied? {
      assert forall j :: 1 <= j < |ls| ==> ls[..j][0] in ls[..j];
    }
    hide FlushNext;
  }

  lemma FlushDies(cfg: Config, now: nat, w: Wire, who: Who, f: Flush, e: FlushEvent)
    requires !w.writeDead
    ensures var (v, out) := FlushNext(cfg, now, w, who, f, e); out.Returned? && out.result.Failed? ==> v.writeDead
  {
  }

  lemma StepDies(cfg: Config, s: Provider, e: Event)
    requires Enabled(s, e)
    ensures StepOf(cfg, s, e).0.wire.writeDead ==> s.wire.writeDead || WriteDied in StepOf(cfg, s, e).1
  {
    hide HandleRead, LastDrain;
    match e
    case Read(step, closing) => ReadDies(cfg, s, step, closing);
    case FeedEnd(rest) => LastDrainDies(cfg, s, rest);
    case _ =>
  }

  lemma ReadDies(cfg: Config, s: Provider, step: CoreRead, closing: Encoded)
    ensures HandleRead(cfg, s, step, closing).0.wire.writeDead == s.wire.writeDead
  {
    hide Deliver;
  }

  lemma {:induction false} LastDrainDies(cfg: Config, s: Provider, rest: seq<CoreRead>)
    ensures LastDrain(cfg, s, rest).0.wire.writeDead == s.wire.writeDead
    decreases |rest|
  {
    hide Deliver;
    if rest != [] {
      match rest[0]
      case Data(m) => LastDrainDies(cfg, s.(inbound := Deliver(cfg, s.wire.wireClosing, s.inbound, m).0), rest[1..]);
      case Control(reply) => LastDrainDies(cfg, s.(wire := CoreWrites(s.wire, reply)), rest[1..]);
      case RawFrame => LastDrainDies(cfg, s, rest[1..]);
      case _ =>
    }
  }

  /** The errors sends fail with: `closed`, or what the core gave. */
  predicate ErrorOk(l: Label, given: set<Error>) { SendFails(l, given) ==> l.result.error.Closed? }

  lemma StepErrors(cfg: Config, s: Provider, e: Event, given: set<Error>)
    requires Enabled(s, e) && RefusedBy(e) <= given
    ensures forall l <- StepOf(cfg, s, e).1 :: ErrorOk(l, given)
  {
    hide HandleRead, LastDrain, HandleFlush, BeginClose;
    match e
    case Read(step, closing) => ReadShows(cfg, s, step, closing);
    case FeedEnd(rest) => LastDrainShows(cfg, s, rest);
    case FlushStep(who, step) => FlushErrors(cfg, s, who, step, given);
    case _ =>
  }

  lemma FlushErrors(cfg: Config, s: Provider, who: Who, e: FlushEvent, given: set<Error>)
    requires Enabled(s, FlushStep(who, e))
    ensures forall l <- HandleFlush(cfg, s, who, e).1 :: ErrorOk(l, given)
  {
    FlushFailsClosed(cfg, s.now, s.wire, who, FlushOf(s, who).value, e);
    hide FlushNext;
  }

  lemma FlushFailsClosed(cfg: Config, now: nat, w: Wire, who: Who, f: Flush, e: FlushEvent)
    ensures var out := FlushNext(cfg, now, w, who, f, e).1;
            out.Returned? ==> out.result.Sent? || out.result.error.Closed?
  {
  }

  lemma ErrorsStay(ls: seq<Label>, before: set<Error>, given: set<Error>)
    requires before <= given && forall l <- ls :: ErrorOk(l, before)
    ensures forall l <- ls :: ErrorOk(l, given)
  {
  }

  /** In every run a send fails with `closed`, or with an error the core refused a message with. */
  lemma {:induction false} ErrorsInEveryRun(cfg: Config, events: seq<Event>)
    requires CanRun(cfg, Start, events)
    ensures forall l <- Trace(cfg, Start, events) :: ErrorOk(l, Refused(events))
    ensures forall l <- Trace(cfg, Start, events) :: l.SendDone? ==>
              l.result.Sent? || l.result.error.Closed? || l.result.error in Refused(events)
    decreases |events|
  {
    if events != [] {
      var init, e := Last(cfg, events);
      var s, ls := Run(cfg, Start, init), Trace(cfg, Start, init);
      assert Refused(events) == Refused(init) + RefusedBy(e);
      hide Run, Trace, StepOf, CanRun, Inv, Enabled, Refused;
      ErrorsInEveryRun(cfg, init);
      ErrorsStay(ls, Refused(init), Refused(events));
      StepErrors(cfg, s, e, Refused(events));
    }
  }

  /** In every run a send fails only after something ended acceptance or a write died, or with an error the core gave:
      on a healthy connection every send the core takes is written, and answered `Ok`. */
  lemma {:induction false} FailuresInEveryRun(cfg: Config, events: seq<Event>)
    requires CanRun(cfg, Start, events)
    ensures FailsExcused(Trace(cfg, Start, events), Refused(events))
    ensures Run(cfg, Start, events).wire.writeDead ==> WriteDied in Trace(cfg, Start, events)
    decreases |events|
  {
    if events != [] {
      var init, e := Last(cfg, events);
      var s, ls := Run(cfg, Start, init), Trace(cfg, Start, init);
      assert Refused(events) == Refused(init) + RefusedBy(e);
      hide Refused;
      FailuresInEveryRun(cfg, init);
      StateSays(cfg, init);
      CloseFrameInEveryRun(cfg, init);
      PartsOf(cfg, s);
      EndedIsDone(cfg, s);
      hide Run, Trace, StepOf, CanRun, Inv, Enabled, FailsExcused, Excused, Waiting, Overflowed, FirstClose, Cause;
      if Healthy(s) {
        StepFails(cfg, s, e, Refused(events));
      } else {
        Unhealthy(s, ls, FirstCloseArgs(init));
      }
      FailsConcat(ls, StepOf(cfg, s, e).1, Refused(init), Refused(events));
      StepDies(cfg, s, e);
    }
  }

  lemma EndedIsDone(cfg: Config, s: Provider)
    requires InboundInv(cfg, s)
    ensures s.inbound.ended == s.reader.ReaderDone?
  {
  }

  lemma Unhealthy(s: Provider, ls: seq<Label>, args: Option<CloseArgs>)
    requires !Healthy(s) && CloseInv(s, Cause(ls), args) && (s.wire.writeDead ==> WriteDied in ls)
    requires s.reader.ReaderDone? ==> Label.End in ls
    ensures Excused(ls)
  {
    hide Cause;
    if !s.wire.writeDead {
      CauseExcuses(ls);
    }
  }

  // ----- the end of reading ------------------------------------------------------------------------------

  /** The reader is done, or will be once the close that a message past the cap caused is flushed. */
  predicate Leaving(r: ReaderPc) { r.ReaderDone? || (r.ReaderFlush? && r.thenBreak) }

  lemma StepLeaves(cfg: Config, s: Provider, e: Event)
    requires Enabled(s, e)
    ensures Leaving(s.reader) ==> Leaving(StepOf(cfg, s, e).0.reader)
    ensures e.FeedEnd? || (e.Read? && (e.step.CapacityError? || e.step.ReadEnd?)) ==>
              Leaving(StepOf(cfg, s, e).0.reader)
  {
    hide LastDrain;
    match e
    case FeedEnd(rest) => LastDrainFrame(cfg, s, rest);
    case _ =>
  }

  /** In every run nothing is read after a message past the cap, or after the stream's end and its final drain. */
  lemma {:induction false} EndIsReadLast(cfg: Config, events: seq<Event>)
    requires CanRun(cfg, Start, events)
    ensures EndIsLast(Inputs(Trace(cfg, Start, events)))
    ensures ReadEnds(Inputs(Trace(cfg, Start, events))) ==> Leaving(Run(cfg, Start, events).reader)
    decreases |events|
  {
    if events == [] {
      NoInputs([]);
    } else {
      var init, e := Last(cfg, events);
      var s, ls := Run(cfg, Start, init), Trace(cfg, Start, init);
      EndIsReadLast(cfg, init);
      StepInputs(cfg, s, e);
      StepLeaves(cfg, s, e);
      hide Run, Trace, StepOf, CanRun, Inv, Inputs, EndIsLast, ReadEnds, SentOf;
      TurnInput(s, e);
      EndIsLastConcat(Inputs(ls), Inputs(StepOf(cfg, s, e).1));
      InputsConcat(ls, StepOf(cfg, s, e).1);
      EndsEither(Inputs(ls), Inputs(StepOf(cfg, s, e).1));
    }
  }

  lemma TurnInput(s: Provider, e: Event)
    requires Enabled(s, e)
    ensures EndIsLast(SentOf(e)) && (Leaving(s.reader) ==> SentOf(e) == [])
    ensures ReadEnds(SentOf(e)) ==> e.FeedEnd? || (e.Read? && (e.step.CapacityError? || e.step.ReadEnd?))
  {
    if e.FeedEnd? {
      DrainEndsLast(e.rest);
    }
  }

  lemma {:induction false} DrainEndsLast(rest: seq<CoreRead>)
    ensures EndIsLast(DrainedInputs(rest)) && DrainedInputs(rest) != []
    decreases |rest|
  {
    if rest != [] {
      DrainEndsLast(rest[1..]);
    }
  }

  lemma EndsEither(a: seq<Input>, b: seq<Input>)
    ensures ReadEnds(a + b) ==> ReadEnds(a) || ReadEnds(b)
  {
  }
}
