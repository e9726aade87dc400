/** The in-guest pump end to end: from what the protocol core read to what the guest was handed. */
module GuestDelivery {
  import opened Types
  import opened Contract
  import opened PeerInput
  import opened GuestPump
  import opened GuestRefinement

  function InputOf(read: CoreRead): seq<Input> {
    match read
    case Data(m) => [Msg(m)]
    case PeerClose(None, _) => [Frame(CloseInfo(1005, []))]
    case PeerClose(Some(body), _) => [Frame(CloseInfo(body.code, body.reason))]
    case CapacityError => [Oversized]
    case ReadEnd => [Ended]
    case _ => []
  }

  /** What the final drain finds: everything up to a close frame, or up to the first error or the end. */
  function DrainedInputs(rest: seq<CoreRead>): seq<Input> {
    if rest == [] then [Ended]
    else
      match rest[0]
      case PeerClose(_, _) => InputOf(rest[0])
      case Data(_) => InputOf(rest[0]) + DrainedInputs(rest[1..])
      case Control(_) => DrainedInputs(rest[1..])
      case RawFrame => DrainedInputs(rest[1..])
      case _ => [Ended]
  }

  function SentOf(e: Event): seq<Input> {
    match e
    case Read(step, _) => InputOf(step)
    case FeedEnd(rest) => DrainedInputs(rest)
    case _ => []
  }

  /** What the core decoded and reported in a run. */
  function SentBy(events: seq<Event>): seq<Input> {
    if events == [] then [] else SentOf(events[0]) + SentBy(events[1..])
  }

  lemma AppendInputs(before: seq<Label>, out: Outcome)
    ensures Inputs(Append(before, out).1) == Inputs(before) + Inputs(out.1) && Append(before, out).0 == out.0
  {
    InputsConcat(before, out.1);
  }

  lemma FinalizeInputs(s: Provider)
    ensures Inputs(Finalize(s).1) == [] && Finalize(s).0.reader.ReaderDone?
    ensures Inputs(EndOfInput(s).1) == [Ended] && EndOfInput(s).0.reader.ReaderDone?
  {
    hide Inputs;
    NoInputs(Finalize(s).1);
    InputsOne(InputEnds);
    AppendInputs([InputEnds], Finalize(s));
  }

  lemma CloseInputs(cfg: Config, s: Provider, closing: Encoded, thenBreak: bool)
    ensures Inputs(ReaderCloses(cfg, s, closing, thenBreak).1) == []
  {
    NoInputs(ReaderCloses(cfg, s, closing, thenBreak).1);
  }

  lemma DeliverInput(cfg: Config, wireClosing: bool, q: Inbound, m: Message)
    ensures InputBy(Deliver(cfg, wireClosing, q, m).1) == [Msg(m)]
  {
  }

  lemma ReadInputs(cfg: Config, s: Provider, step: CoreRead, closing: Encoded)
    ensures Inputs(HandleRead(cfg, s, step, closing).1) == InputOf(step)
  {
    hide Inputs, Deliver, ReaderCloses, Finalize, EndOfInput;
    match step
    case Data(m) =>
      var (q, l) := Deliver(cfg, s.wire.wireClosing, s.inbound, m);
      DeliverInput(cfg, s.wire.wireClosing, s.inbound, m);
      InputsOne(l);
      CloseInputs(cfg, s.(inbound := q), closing, false);
      AppendInputs([l], ReaderCloses(cfg, s.(inbound := q), closing, false));
    case PeerClose(frame, reply) =>
      var info := CloseInfoFrom(frame);
      InputsOne(PeerFrame(info));
      InputsOne(Progress(IsClosing));
      InputsConcat([PeerFrame(info)], [Progress(IsClosing)]);
      assert [PeerFrame(info)] + [Progress(IsClosing)] == [PeerFrame(info), Progress(IsClosing)];
    case CapacityError =>
      var t := s.(inbound := s.inbound.(overflowed := true));
      InputsOne(LatchOverflow);
      CloseInputs(cfg, t, closing, true);
      AppendInputs([LatchOverflow], ReaderCloses(cfg, t, closing, true));
    case ReadEnd => FinalizeInputs(s);
    case _ => NoInputs([]);
  }

  /** The final drain reads exactly that and ends the reader. */
  lemma {:induction false} LastDrainInputs(cfg: Config, s: Provider, rest: seq<CoreRead>)
    ensures Inputs(LastDrain(cfg, s, rest).1) == DrainedInputs(rest)
    ensures LastDrain(cfg, s, rest).0.reader.ReaderDone?
    decreases |rest|
  {
    hide LastDrain, Inputs, Deliver, Finalize, EndOfInput, Append, CoreWrites, PeerInfo;
    FinalizeInputs(s);
    if rest == [] {
      DrainNothing(cfg, s);
    } else {
      DrainStep(cfg, s, rest);
      match rest[0]
      case Data(m) =>
        var (q, l) := Deliver(cfg, s.wire.wireClosing, s.inbound, m);
        DeliverInput(cfg, s.wire.wireClosing, s.inbound, m);
        InputsOne(l);
        LastDrainInputs(cfg, s.(inbound := q), rest[1..]);
        AppendInputs([l], LastDrain(cfg, s.(inbound := q), rest[1..]));
      case PeerClose(frame, reply) =>
        var t := s.(cells := PeerInfo(s.cells, frame), wire := CoreWrites(s.wire, reply));
        InputsOne(PeerFrame(CloseInfoFrom(frame)));
        FinalizeInputs(t);
        AppendInputs([PeerFrame(CloseInfoFrom(frame))], Finalize(t));
      case Control(reply) => LastDrainInputs(cfg, s.(wire := CoreWrites(s.wire, reply)), rest[1..]);
      case RawFrame => LastDrainInputs(cfg, s, rest[1..]);
      case _ =>
    }
  }

  lemma StepInputs(cfg: Config, s: Provider, e: Event)
    requires Enabled(s, e)
    ensures var (t, ls) := StepOf(cfg, s, e);
            && Inputs(ls) == SentOf(e) && (e.FeedEnd? ==> t.reader.ReaderDone?)
            && (s.reader.ReaderDone? ==> t.reader.ReaderDone? && Inputs(ls) == [])
  {
    hide Inputs, HandleRead, LastDrain;
    match e
    case Read(step, closing) => ReadInputs(cfg, s, step, closing);
    case FeedEnd(rest) => LastDrainInputs(cfg, s, rest);
    case _ => OtherInputs(cfg, s, e);
  }

  lemma OtherInputs(cfg: Config, s: Provider, e: Event)
    requires Enabled(s, e) && !e.Read? && !e.FeedEnd?
    ensures var (t, ls) := StepOf(cfg, s, e);
            Inputs(ls) == [] && (s.reader.ReaderDone? ==> t.reader.ReaderDone?)
  {
    QuietLabels(cfg, s, e);
    hide StepOf, Inputs, InputBy;
    NoInputs(StepOf(cfg, s, e).1);
  }

  lemma QuietLabels(cfg: Config, s: Provider, e: Event)
    requires Enabled(s, e) && !e.Read? && !e.FeedEnd?
    ensures var (t, ls) := StepOf(cfg, s, e);
            (forall l <- ls :: InputBy(l) == []) && (s.reader.ReaderDone? ==> t.reader.ReaderDone?)
  {
    hide HandleCmd, HandleLateCmd, HandleFlush, SendStep, CloseStep, ClaimStep, ReceiveStep, FeederStep;
    match e
    case TakeCmd(encoded) => CmdLabels(cfg, s, encoded);
    case TakeLateCmd => LateLabels(s);
    case FlushStep(who, step) => FlushLabels(cfg, s, who, step);
    case SendCall(_) => CallLabels(cfg, s, e);
    case CloseCall(_, _) => CallLabels(cfg, s, e);
    case ClaimCall => CallLabels(cfg, s, e);
    case ReceivePoll => CallLabels(cfg, s, e);
    case FeederPoll => CallLabels(cfg, s, e);
    case _ =>
  }

  lemma CmdLabels(cfg: Config, s: Provider, encoded: Encoded)
    ensures var (t, ls) := HandleCmd(cfg, s, encoded);
            (forall l <- ls :: InputBy(l) == []) && t.reader == s.reader
  {
    hide BeginClose;
  }

  lemma LateLabels(s: Provider)
    ensures var (t, ls) := HandleLateCmd(s); (forall l <- ls :: InputBy(l) == []) && t.reader == s.reader
  {
  }

  lemma FlushLabels(cfg: Config, s: Provider, who: Who, e: FlushEvent)
    requires FlushOf(s, who).Some?
    ensures var (t, ls) := HandleFlush(cfg, s, who, e);
            (forall l <- ls :: InputBy(l) == []) && (s.reader.ReaderDone? ==> t.reader.ReaderDone?)
  {
    hide FlushNext;
  }

  lemma CallLabels(cfg: Config, s: Provider, e: Event)
    requires e.SendCall? || e.CloseCall? || e.ClaimCall? || e.ReceivePoll? || e.FeederPoll?
    ensures var (t, ls) := StepOf(cfg, s, e); (forall l <- ls :: InputBy(l) == []) && t.reader == s.reader
  {
  }

  /** Over a run, what was taken from the core is what the core gave, in order; nothing once the reader ended. */
  lemma {:induction false} RunInputs(cfg: Config, s: Provider, events: seq<Event>)
    requires CanRun(cfg, s, events)
    ensures Inputs(Trace(cfg, s, events)) == SentBy(events)
    ensures s.reader.ReaderDone? ==> Inputs(Trace(cfg, s, events)) == []
    decreases |events|
  {
    hide StepOf, Inputs, Enabled, SentOf;
    NoInputs([]);
    if events != [] {
      var (t, ls) := StepOf(cfg, s, events[0]);
      StepInputs(cfg, s, events[0]);
      RunInputs(cfg, t, events[1..]);
      InputsConcat(ls, Trace(cfg, t, events[1..]));
    }
  }

  /** For every run: what the guest is handed is a prefix, in order and each once, of the data messages the core
      decoded before acceptance ended; all of them once a read or the stream found the end with no local close;
      and `wait-closed` reports the first close frame the core decoded or none. */
  lemma {:induction false} DeliversWhatTheCoreRead(cfg: Config, events: seq<Event>)
    requires CanRun(cfg, Start, events)
    ensures Delivers(cfg.limit, Trace(cfg, Start, events), SentBy(events))
  {
    RunInputs(cfg, Start, events);
    ImplementsContract(cfg, events);
    AllowedDelivers(cfg.limit, Trace(cfg, Start, events), SentBy(events));
  }
}
