/** The in-guest pump's one end without an input to show for it: the deadline at the reader's select. */
module GuestEnd {
  import opened Types
  import opened Contract
  import opened PeerInput
  import opened GuestPump
  import opened GuestTime
  import opened GuestRefinement
  import opened GuestDelivery

  // ----- the ways out of the reader's loop ---------------------------------------------------------------

  /** The labels end acceptance, and not with the queue's end. */
  ghost predicate CloseFirst(ls: seq<Label>) { FirstClose(ls) < |ls| && !ls[FirstClose(ls)].End? }

  lemma {:induction false} CloseFirstAppend(a: seq<Label>, b: seq<Label>)
    requires CloseFirst(a) || (CloseFirst(b) && forall l <- a :: !l.End?)
    ensures CloseFirst(a + b)
  {
    var k := FirstClose(a + b);
    if FirstClose(a) < |a| {
      assert (a + b)[FirstClose(a)] == a[FirstClose(a)];
      assert (a + b)[k] == a[k];
      assert a[k] in a;
    } else {
      assert (a + b)[|a| + FirstClose(b)] == b[FirstClose(b)];
      assert forall i :: 0 <= i < |a| ==> (a + b)[i] == a[i];
      assert forall i :: 0 <= i < |b| ==> (a + b)[|a| + i] == b[i];
    }
  }

  lemma EndOfInputCloses(s: Provider)
    ensures CloseFirst(EndOfInput(s).1)
  {
    assert EndOfInput(s).1[0] == InputEnds;
  }

  lemma {:induction false} LastDrainCloses(cfg: Config, s: Provider, rest: seq<CoreRead>)
    ensures CloseFirst(LastDrain(cfg, s, rest).1)
    decreases |rest|
  {
    hide LastDrain, Deliver, Finalize, EndOfInput, CoreWrites, PeerInfo, CloseFirst;
    EndOfInputCloses(s);
    if rest == [] {
      DrainNothing(cfg, s);
    } else {
      DrainStep(cfg, s, rest);
      match rest[0]
      case Data(m) =>
        var (q, l) := Deliver(cfg, s.wire.wireClosing, s.inbound, m);
        DeliverIsNoEnd(cfg, s.wire.wireClosing, s.inbound, m);
        LastDrainCloses(cfg, s.(inbound := q), rest[1..]);
        CloseFirstAppend([l], LastDrain(cfg, s.(inbound := q), rest[1..]).1);
      case PeerClose(frame, reply) =>
        var t := s.(cells := PeerInfo(s.cells, frame), wire := CoreWrites(s.wire, reply));
        FrameCloses(CloseInfoFrom(frame));
        CloseFirstAppend([PeerFrame(CloseInfoFrom(frame))], Finalize(t).1);
      case Control(reply) => LastDrainCloses(cfg, s.(wire := CoreWrites(s.wire, reply)), rest[1..]);
      case RawFrame => LastDrainCloses(cfg, s, rest[1..]);
      case _ =>
    }
  }

  lemma FrameCloses(info: CloseInfo)
    ensures CloseFirst([PeerFrame(info)])
  {
    assert Closes([PeerFrame(info)][0]);
  }

  lemma DeliverIsNoEnd(cfg: Config, closing: bool, q: Inbound, m: Message)
    ensures !Deliver(cfg, closing, q, m).1.End?
  {
  }

  /** What a step that ends the reader shows, or what made it possible. */
  lemma LeavingCloses(cfg: Config, s: Provider, e: Event)
    requires Enabled(s, e) && CauseInv(s) && !s.reader.ReaderDone? && StepOf(cfg, s, e).0.reader.ReaderDone?
    ensures e.DeadlineExpires? || s.wire.wireClosing || CloseFirst(StepOf(cfg, s, e).1)
  {
    hide CloseFirst, LastDrain, HandleRead, HandleFlush, CauseInv;
    match e
    case Read(step, closing) => ReadCloses(cfg, s, step, closing);
    case FeedEnd(rest) => LastDrainCloses(cfg, s, rest);
    case FlushStep(who, step) => FlushLeaves(cfg, s, who, step);
    case DeadlineExpires =>
    case _ => OtherStays(cfg, s, e);
  }

  lemma ReadCloses(cfg: Config, s: Provider, step: CoreRead, closing: Encoded)
    requires s.reader.Draining? && HandleRead(cfg, s, step, closing).0.reader.ReaderDone?
    ensures CloseFirst(HandleRead(cfg, s, step, closing).1)
  {
    hide CloseFirst, BeginClose, Finalize, EndOfInput;
    EndOfInputCloses(s);
    if step.CapacityError? {
      var t := s.(inbound := s.inbound.(overflowed := true));
      OverflowCloses();
      CloseFirstAppend([LatchOverflow], ReaderCloses(cfg, t, closing, true).1);
    }
  }

  lemma OverflowCloses()
    ensures CloseFirst([LatchOverflow])
  {
    assert Closes([LatchOverflow][0]);
  }

  lemma FlushLeaves(cfg: Config, s: Provider, who: Who, e: FlushEvent)
    requires Enabled(s, FlushStep(who, e)) && CauseInv(s) && !s.reader.ReaderDone?
    requires HandleFlush(cfg, s, who, e).0.reader.ReaderDone?
    ensures s.wire.wireClosing
  {
    hide FlushNext;
  }

  lemma OtherStays(cfg: Config, s: Provider, e: Event)
    requires Enabled(s, e) && !e.Read? && !e.FeedEnd? && !e.FlushStep? && !e.DeadlineExpires?
    ensures StepOf(cfg, s, e).0.reader.ReaderDone? == s.reader.ReaderDone?
  {
    hide BeginClose;
  }

  // ----- runs cut at an event ----------------------------------------------------------------------------

  lemma {:induction false} RunConcat(cfg: Config, s: Provider, a: seq<Event>, b: seq<Event>)
    requires CanRun(cfg, s, a + b)
    ensures CanRun(cfg, s, a) && CanRun(cfg, Run(cfg, s, a), b)
    ensures Run(cfg, s, a + b) == Run(cfg, Run(cfg, s, a), b)
    ensures Trace(cfg, s, a + b) == Trace(cfg, s, a) + Trace(cfg, Run(cfg, s, a), b)
    decreases |a|
  {
    hide StepOf, Enabled;
    if a == [] {
      assert a + b == b;
    } else {
      assert (a + b)[0] == a[0] && (a + b)[1..] == a[1..] + b;
      RunConcat(cfg, StepOf(cfg, s, a[0]).0, a[1..], b);
    }
  }

  lemma Cut(cfg: Config, events: seq<Event>, k: nat)
    requires CanRun(cfg, Start, events) && k < |events|
    ensures CanRun(cfg, Start, events[..k])
    ensures var s := Run(cfg, Start, events[..k]);
            && Enabled(s, events[k]) && CanRun(cfg, StepOf(cfg, s, events[k]).0, events[k + 1..])
            && Trace(cfg, Start, events) == Trace(cfg, Start, events[..k]) + (StepOf(cfg, s, events[k]).1
                                            + Trace(cfg, StepOf(cfg, s, events[k]).0, events[k + 1..]))
  {
    hide Enabled, StepOf;
    assert events == events[..k] + events[k..];
    RunConcat(cfg, Start, events[..k], events[k..]);
    assert events[k..][0] == events[k] && events[k..][1..] == events[k + 1..];
  }

  /** The event that ended the reader. */
  ghost predicate Leaves(cfg: Config, events: seq<Event>, k: nat) {
    && k < |events| && !Run(cfg, Start, events[..k]).reader.ReaderDone?
    && StepOf(cfg, Run(cfg, Start, events[..k]), events[k]).0.reader.ReaderDone?
  }

  lemma {:induction false} Leaving(cfg: Config, s: Provider, events: seq<Event>) returns (k: nat)
    requires CanRun(cfg, s, events) && !s.reader.ReaderDone? && Run(cfg, s, events).reader.ReaderDone?
    ensures k < |events| && !Run(cfg, s, events[..k]).reader.ReaderDone?
    ensures StepOf(cfg, Run(cfg, s, events[..k]), events[k]).0.reader.ReaderDone?
    decreases |events|
  {
    hide StepOf, Enabled;
    var t := StepOf(cfg, s, events[0]).0;
    if t.reader.ReaderDone? {
      k := 0;
    } else {
      k := Leaving(cfg, t, events[1..]);
      assert events[..k + 1][1..] == events[1..][..k];
      k := k + 1;
    }
  }

  // ----- what the contract says of the state -------------------------------------------------------------

  lemma ContractAfter(cfg: Config, events: seq<Event>)
    requires CanRun(cfg, Start, events)
    ensures var s, ls := Run(cfg, Start, events), Trace(cfg, Start, events);
            && Allowed(cfg.limit, ls) && CauseInv(s)
            && At(cfg.limit, ls, |ls|).ended == s.reader.ReaderDone?
            && (s.wire.wireClosing ==> At(cfg.limit, ls, |ls|).stopped)
  {
    StartInv(cfg);
    StartMatches();
    hide Inv, Rel, Run, Trace, Step;
    RunInv(cfg, Start, events);
    RunMatches(cfg, Start, Contract.Init, events);
    var s, ls := Run(cfg, Start, events), Trace(cfg, Start, events);
    assert ls[..|ls|] == ls;
    RelSays(cfg, s, Exec(cfg.limit, Contract.Init, ls).value);
  }

  lemma RelSays(cfg: Config, s: Provider, c: State)
    requires Inv(cfg, s) && Rel(s, c)
    ensures CauseInv(s) && c.ended == s.reader.ReaderDone? && (s.wire.wireClosing ==> c.stopped)
  {
    PartsOf(cfg, s);
    hide Inv;
  }

  lemma EndLatches(limit: nat, ls: seq<Label>, i: nat)
    requires Allowed(limit, ls) && i < |ls| && ls[i].End?
    ensures At(limit, ls, |ls|).ended
  {
    StepAt(limit, ls, i);
    EndStep(limit, At(limit, ls, i), ls[i]);
    hide Step;
    LaterAt(limit, ls, i + 1, |ls|);
  }

  lemma EndStep(limit: nat, s: State, l: Label)
    requires l.End? && Step(limit, s, l).Some?
    ensures Step(limit, s, l).value.ended
  {
  }

  /** Acceptance ended with the queue, before any other cause. */
  ghost predicate EndsWithQueue(ls: seq<Label>) { FirstClose(ls) < |ls| && ls[FirstClose(ls)].End? }

  /** The queue's end is not shown before the reader's last event, nor is acceptance over by then. */
  lemma EndIsLater(cfg: Config, events: seq<Event>, k: nat)
    requires CanRun(cfg, Start, events) && Leaves(cfg, events, k) && EndsWithQueue(Trace(cfg, Start, events))
    ensures |Trace(cfg, Start, events[..k])| <= FirstClose(Trace(cfg, Start, events))
    ensures !Run(cfg, Start, events[..k]).wire.wireClosing
  {
    Cut(cfg, events, k);
    ContractAfter(cfg, events[..k]);
    hide Enabled, StepOf, Run, Trace, Step;
    var ls, before := Trace(cfg, Start, events), Trace(cfg, Start, events[..k]);
    assert forall i :: 0 <= i < |before| ==> before[i] == ls[i];
    if FirstClose(ls) < |before| {
      EndLatches(cfg.limit, before, FirstClose(ls));
    }
    StoppedMeansLabel(cfg.limit, before, |before|);
  }

  lemma LeftAtDeadline(cfg: Config, events: seq<Event>, k: nat)
    requires CanRun(cfg, Start, events) && Leaves(cfg, events, k) && EndsWithQueue(Trace(cfg, Start, events))
    ensures events[k].DeadlineExpires?
  {
    EndIsLater(cfg, events, k);
    Cut(cfg, events, k);
    ContractAfter(cfg, events[..k]);
    var s, e := Run(cfg, Start, events[..k]), events[k];
    LeavingCloses(cfg, s, e);
    hide Enabled, StepOf, Run, Trace, CloseFirst, EndsWithQueue;
    QueueEndsFirst(Trace(cfg, Start, events), Trace(cfg, Start, events[..k]), StepOf(cfg, s, e).1,
                   Trace(cfg, StepOf(cfg, s, e).0, events[k + 1..]));
  }

  lemma QueueEndsFirst(ls: seq<Label>, before: seq<Label>, now: seq<Label>, later: seq<Label>)
    requires ls == before + (now + later) && |before| <= FirstClose(ls) && EndsWithQueue(ls)
    ensures !CloseFirst(now)
  {
    assert forall i :: 0 <= i < |now| ==> ls[|before| + i] == now[i];
  }

  lemma ReadByDeadline(cfg: Config, events: seq<Event>, k: nat)
    requires CanRun(cfg, Start, events) && Leaves(cfg, events, k) && events[k].DeadlineExpires?
    requires |Trace(cfg, Start, events[..k])| <= FirstClose(Trace(cfg, Start, events))
    ensures ReadInTime(Trace(cfg, Start, events)) == SentBy(events[..k])
  {
    Cut(cfg, events, k);
    var s, e, rest := Run(cfg, Start, events[..k]), events[k], events[k + 1..];
    var t := StepOf(cfg, s, e).0;
    RunInputs(cfg, Start, events[..k]);
    StepInputs(cfg, s, e);
    RunInputs(cfg, t, rest);
    assert t.reader.ReaderDone? && SentOf(e) == [];
    hide StepOf, Enabled, Run, Trace, Inputs, FirstClose, ReadInTime, SentBy;
    var now, later := StepOf(cfg, s, e).1, Trace(cfg, t, rest);
    InputsConcat(now, later);
    ReadUpTo(Trace(cfg, Start, events), Trace(cfg, Start, events[..k]), now + later);
  }

  /** In every run whose acceptance ended with the queue, after a failed write and with no local close: the reader
      left its loop at the expired deadline, from the select that follows a read that found nothing more, and the
      guest was handed every message the core had decoded by then. */
  lemma {:induction false} DeadWriteDeliversAll(cfg: Config, events: seq<Event>, i: nat) returns (k: nat)
    requires CanRun(cfg, Start, events)
    requires FoundEnd(Trace(cfg, Start, events), i) && EndsWithQueue(Trace(cfg, Start, events))
    ensures k < |events| && events[k].DeadlineExpires? && Run(cfg, Start, events[..k]).reader.Selecting?
    ensures Handed(Trace(cfg, Start, events)) == MessagesOf(SentBy(events[..k]))
  {
    var ls := Trace(cfg, Start, events);
    hide Run, Trace, StepOf, Inputs, Delivers, ReadInTime, CanRun;
    DeliversWhatTheCoreRead(cfg, events);
    FoundEndSays(cfg.limit, ls, SentBy(events), i);
    ContractAfter(cfg, events);
    EndLatches(cfg.limit, ls, FirstClose(ls));
    k := Leaving(cfg, Start, events);
    LeftAtDeadline(cfg, events, k);
    EndIsLater(cfg, events, k);
    Cut(cfg, events, k);
    ReadByDeadline(cfg, events, k);
    assert Run(cfg, Start, events[..k]).reader.Selecting?;
  }

  /** So in every run, whoever finds the end of the queue without a local close was handed all the decoded messages
      before an item that ended acceptance, or all that were decoded when the deadline expired. */
  lemma {:induction false} FoundEndSaysWhy(cfg: Config, events: seq<Event>, i: nat)
    requires CanRun(cfg, Start, events) && FoundEnd(Trace(cfg, Start, events), i)
    ensures || NamesItsInput(Trace(cfg, Start, events), SentBy(events))
            || exists k: nat ::
                 && k < |events| && events[k].DeadlineExpires? && Run(cfg, Start, events[..k]).reader.Selecting?
                 && Handed(Trace(cfg, Start, events)) == MessagesOf(SentBy(events[..k]))
  {
    var ls := Trace(cfg, Start, events);
    DeliversWhatTheCoreRead(cfg, events);
    hide Run, Trace, Inputs, Handed, MessagesOf, FirstClose, Delivers, CanRun, Caused, NamesItsInput;
    FoundEndSays(cfg.limit, ls, SentBy(events), i);
    if ls[FirstClose(ls)].End? {
      var k := DeadWriteDeliversAll(cfg, events, i);
    } else {
      FoundEndNamesItsInput(cfg.limit, ls, SentBy(events), i);
    }
  }
}
