/** What a local close does to the sends the JavaScript host was given before it. */
module JsClose {
  import opened Types
  import opened Contract
  import opened JsQueue
  import opened JsHost

  /** A local close stays, and no send is answered anything but `closed` after it. */
  lemma StepStaysClosed(cfg: Config, h: Host, e: Event)
    requires Enabled(h, e) && h.flags.localClosed
    ensures var (t, ls) := StepOf(cfg, h, e); t.flags.localClosed && AnswersClosed(ls)
  {
    hide RejectAll;
  }

  /** In every continuation of a state with a local close, from whatever run, all later answers are `closed`: the
      loop of `send` tests the latch before every hand-over. */
  lemma {:induction false} ClosedAnswers(cfg: Config, h: Host, events: seq<Event>)
    requires CanRun(cfg, h, events) && h.flags.localClosed
    ensures AnswersClosed(Trace(cfg, h, events))
    decreases |events|
  {
    hide StepOf, Enabled;
    if events != [] {
      StepStaysClosed(cfg, h, events[0]);
      ClosedAnswers(cfg, StepOf(cfg, h, events[0]).0, events[1..]);
    }
  }

  lemma ClosingStep(cfg: Config, h: Host, e: Event)
    requires Enabled(h, e) && CloseCalled in StepOf(cfg, h, e).1
    ensures StepOf(cfg, h, e).0.flags.localClosed && forall l <- StepOf(cfg, h, e).1 :: !l.SendDone?
  {
    hide RejectAll;
    if e.Close? {
      hide SettleClosed, OnMessageEvent, OnCloseEvent;
    } else {
      OthersDoNotClose(cfg, h, e);
      hide StepOf;
    }
  }

  lemma OthersDoNotClose(cfg: Config, h: Host, e: Event)
    requires !e.Close?
    ensures CloseCalled !in StepOf(cfg, h, e).1
  {
    hide RejectAll;
  }

  /** So in every run a send answered after the local close was shown is answered `closed`. */
  lemma {:induction false} SentOnlyBeforeClose(cfg: Config, h: Host, events: seq<Event>, i: nat, j: nat)
    requires CanRun(cfg, h, events) && i < j < |Trace(cfg, h, events)|
    requires Trace(cfg, h, events)[i] == CloseCalled && Trace(cfg, h, events)[j].SendDone?
    ensures Trace(cfg, h, events)[j].result == Failed(Closed)
    decreases |events|
  {
    hide StepOf, Enabled;
    var (t, ls) := StepOf(cfg, h, events[0]);
    var later := Trace(cfg, t, events[1..]);
    assert Trace(cfg, h, events) == ls + later;
    if i < |ls| {
      assert ls[i] in ls && (j < |ls| ==> ls[j] in ls);
      ClosingStep(cfg, h, events[0]);
      assert |ls| <= j;
      ClosedAnswers(cfg, t, events[1..]);
      assert later[j - |ls|] in later;
    } else {
      SentOnlyBeforeClose(cfg, t, events[1..], i - |ls|, j - |ls|);
    }
  }
}
