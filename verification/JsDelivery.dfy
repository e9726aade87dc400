/** The JavaScript host end to end: from the platform's events to what the guest was handed. */
module JsDelivery {
  import opened Types
  import opened Contract
  import opened PeerInput
  import opened JsQueue
  import opened JsHost
  import opened JsRefinement

  function SentOf(e: Event): seq<Input> {
    match e
    case MessageEvent(m) => [Msg(m)]
    case PeerClosing => [Began]
    case CloseEvent(status, reason) =>
      [Ended] + (if status == 0 || status == 1006 || status == 1015 then [] else [Frame(CloseInfo(status, reason))])
    case _ => []
  }

  function SentBy(events: seq<Event>): seq<Input> {
    if events == [] then [] else SentOf(events[0]) + SentBy(events[1..])
  }

  lemma AnswersCarryNothing(answers: seq<Answer>)
    ensures Inputs(LabelsOf(answers)) == []
  {
    NoInputs(LabelsOf(answers));
  }

  lemma SettleInputs(h: Host, frame: Option<CloseInfo>)
    ensures Inputs(SettleClosed(h, frame).1)
         == if h.flags.settled || frame.None? then [] else [Frame(frame.value)]
  {
    hide Inputs, LabelsOf, Repeat;
    InputsOne(Settle);
    if !h.flags.settled {
      var ended := [Label.End] + LabelsOf(JsQueue.End(h.queue).1);
      AnswersCarryNothing(JsQueue.End(h.queue).1);
      InputsOne(Label.End);
      InputsConcat([Label.End], LabelsOf(JsQueue.End(h.queue).1));
      var frames := if frame.Some? then [PeerFrame(frame.value)] else [];
      if frame.Some? {
        InputsOne(PeerFrame(frame.value));
      }
      var settles := [Settle, Progress(IsClosed)];
      NoInputs(settles);
      var seen := Repeat(h.calls.waiting, WaitClosed(frame));
      WaitersCarryNothing(h.calls.waiting, frame);
      InputsConcat(ended, frames);
      InputsConcat(ended + frames, settles);
      InputsConcat(ended + frames + settles, seen);
    }
  }

  lemma WaitersCarryNothing(n: nat, frame: Option<CloseInfo>)
    ensures Inputs(Repeat(n, WaitClosed(frame))) == []
  {
    NoInputs(Repeat(n, WaitClosed(frame)));
  }

  /** A step of an unsettled host reads exactly the event; a settled host reads nothing. */
  lemma StepInputs(cfg: Config, h: Host, e: Event)
    requires Enabled(h, e) && FlagsInv(h)
    ensures Inputs(StepOf(cfg, h, e).1) == if h.flags.settled then [] else SentOf(e)
  {
    hide Inputs, LabelsOf, SettleClosed, OnMessage, NextMessage, RejectAll;
    match e
    case MessageEvent(m) => MessageInputs(cfg, h, m);
    case CloseEvent(status, reason) =>
      var t, frame := h.(ready := CLOSED), FrameOf(status, reason);
      SettleInputs(t, frame);
      InputsOne(InputEnds);
      InputsConcat([InputEnds], SettleClosed(t, frame).1);
      NoInputs([]);
    case PeerClosing =>
      InputsOne(PeerBegan);
      InputsOne(Progress(IsClosing));
      InputsConcat([PeerBegan], [Progress(IsClosing)]);
      assert [PeerBegan] + [Progress(IsClosing)] == [PeerBegan, Progress(IsClosing)];
    case SlotFires => SettleInputs(h.(timers := h.timers.(slot := None)), None);
    case StrayFires(i) => SettleInputs(h.(timers := h.timers.(strays := Without(h.timers.strays, i))), None);
    case _ => CallInputs(cfg, h, e);
  }

  lemma MessageInputs(cfg: Config, h: Host, m: Message)
    ensures Inputs(OnMessageEvent(cfg, h, m).1) == [Msg(m)]
  {
    hide Inputs, LabelsOf, TransportClosing;
    var (q, answers, overflow) := OnMessage(cfg.limit, h.queue, m);
    AnswersCarryNothing(answers);
    InputsOne(Accept(m));
    InputsOne(Drop(m));
    InputsOne(Overflow(m));
    InputsOne(Progress(IsClosing));
    InputsConcat([Accept(m)], LabelsOf(answers));
    InputsConcat([Overflow(m)], [Progress(IsClosing)]);
    assert [Overflow(m)] + [Progress(IsClosing)] == [Overflow(m), Progress(IsClosing)];
  }

  lemma CallInputs(cfg: Config, h: Host, e: Event)
    requires Enabled(h, e) && !e.MessageEvent? && !e.PeerClosing? && !e.CloseEvent? && !e.SlotFires? && !e.StrayFires?
    ensures Inputs(StepOf(cfg, h, e).1) == []
  {
    CallsCarryNothing(cfg, h, e);
    hide Inputs, StepOf;
    NoInputs(StepOf(cfg, h, e).1);
  }

  lemma CallsCarryNothing(cfg: Config, h: Host, e: Event)
    requires !e.MessageEvent? && !e.PeerClosing? && !e.CloseEvent? && !e.SlotFires? && !e.StrayFires?
    ensures forall l <- StepOf(cfg, h, e).1 :: InputBy(l) == []
  {
    hide RejectAll, CurrentState;
  }

  /** Over a run, what was read is a prefix of what came: a close frame that comes after a timer settled the
      outcome is not read. */
  lemma {:induction false} RunInputs(cfg: Config, h: Host, events: seq<Event>)
    requires CanRun(cfg, h, events) && Inv(cfg, h)
    ensures Inputs(Trace(cfg, h, events)) <= SentBy(events)
    ensures h.flags.settled ==> Inputs(Trace(cfg, h, events)) == []
    decreases |events|
  {
    hide StepOf, Inputs, Enabled;
    NoInputs([]);
    if events != [] {
      var e := events[0];
      var (t, ls) := StepOf(cfg, h, e);
      assert FlagsInv(h) by { hide FlagsInv; }
      hide Inv, FlagsInv;
      InvKept(cfg, h, e);
      StepInputs(cfg, h, e);
      if h.flags.settled {
        SettledStays(cfg, h, e);
      }
      RunInputs(cfg, t, events[1..]);
      InputsConcat(ls, Trace(cfg, t, events[1..]));
    }
  }

  lemma SettledStays(cfg: Config, h: Host, e: Event)
    requires Enabled(h, e) && h.flags.settled
    ensures StepOf(cfg, h, e).0.flags.settled
  {
    hide LabelsOf, RejectAll;
  }

  /** For every run: what the guest is handed is a prefix, in order and each once, of the platform's message events
      before acceptance ended; all of them once a read or the stream found the end with no local close; and
      `wait-closed` reports the frame of the platform's close event or none. */
  lemma DeliversWhatThePlatformSent(cfg: Config, events: seq<Event>)
    requires CanRun(cfg, Start, events)
    ensures Delivers(cfg.limit, Trace(cfg, Start, events), SentBy(events))
  {
    StartMatches(cfg);
    RunInputs(cfg, Start, events);
    ImplementsContract(cfg, events);
    AllowedDelivers(cfg.limit, Trace(cfg, Start, events), SentBy(events));
  }

  lemma StepNeverDies(cfg: Config, h: Host, e: Event)
    ensures WriteDied !in StepOf(cfg, h, e).1
  {
    hide RejectAll;
  }

  lemma {:induction false} NoWriteDies(cfg: Config, h: Host, events: seq<Event>)
    ensures WriteDied !in Trace(cfg, h, events)
    decreases |events|
  {
    hide StepOf;
    if events != [] {
      StepNeverDies(cfg, h, events[0]);
      NoWriteDies(cfg, StepOf(cfg, h, events[0]).0, events[1..]);
    }
  }

  /** In every run, whoever finds the end of the queue without a local close has an event of the platform to show
      for it. */
  lemma FoundEndNamesItsEvent(cfg: Config, events: seq<Event>, i: nat)
    requires CanRun(cfg, Start, events) && FoundEnd(Trace(cfg, Start, events), i)
    ensures NamesItsInput(Trace(cfg, Start, events), SentBy(events))
  {
    var ls := Trace(cfg, Start, events);
    DeliversWhatThePlatformSent(cfg, events);
    NoWriteDies(cfg, Start, events);
    hide Trace, SentBy, Inputs, Handed, MessagesOf, FirstClose, Delivers, CanRun, Caused, NamesItsInput;
    FoundEndSays(cfg.limit, ls, SentBy(events), i);
    FoundEndNamesItsInput(cfg.limit, ls, SentBy(events), i);
  }
}
