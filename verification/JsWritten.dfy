/** What the JavaScript host passes to the platform's socket, and the outcome it takes from it, off the events. */
module JsWritten {
  import opened Types
  import opened Contract
  import opened Answers
  import opened JsQueue
  import opened JsHost
  import opened JsRefinement
  import opened JsCalls

  // ----- messages ----------------------------------------------------------------------------------------

  /** The messages given to `send`, by call. */
  function Given(events: seq<Event>): seq<Message> {
    if events == [] then []
    else
      var e := events[|events| - 1];
      Given(events[..|events| - 1]) + (if e.Send? then [e.message] else [])
  }

  /** The sends answered `Ok`, in order. */
  function SentIds(ls: seq<Label>): seq<nat> {
    if ls == [] then []
    else (if ls[0].SendDone? && ls[0].result.Sent? then [ls[0].id] else []) + SentIds(ls[1..])
  }

  lemma {:induction false} SentIdsConcat(a: seq<Label>, b: seq<Label>)
    ensures SentIds(a + b) == SentIds(a) + SentIds(b)
    decreases |a|
  {
    if a == [] {
      assert a + b == b;
    } else {
      assert (a + b)[0] == a[0] && (a + b)[1..] == a[1..] + b;
      SentIdsConcat(a[1..], b);
    }
  }

  lemma {:induction false} NoneSent(ls: seq<Label>)
    requires forall l <- ls :: !l.SendDone? || !l.result.Sent?
    ensures SentIds(ls) == []
  {
    if ls != [] {
      NoneSent(ls[1..]);
    }
  }

  function PassedIds(sent: seq<Passed>): seq<nat> { seq(|sent|, i requires 0 <= i < |sent| => sent[i].id) }

  ghost predicate AllGiven(sent: seq<Passed>, given: seq<Message>) {
    forall p <- sent :: p.id < |given| && given[p.id] == p.message
  }

  /** What a step passes to `ws.send`, against the sends it answers `Ok`. */
  ghost predicate PassesBy(h: Host, out: Outcome, given: seq<Message>) {
    && PassedIds(out.0.socket.sent) == PassedIds(h.socket.sent) + SentIds(out.1)
    && AllGiven(out.0.socket.sent, given) && out.0.calls.given == given
  }

  lemma NothingPassed(h: Host, t: Host, ls: seq<Label>)
    requires AllGiven(h.socket.sent, h.calls.given) && t.socket.sent == h.socket.sent
    requires t.calls.given == h.calls.given
    requires forall l <- ls :: !l.SendDone? || !l.result.Sent?
    ensures PassesBy(h, (t, ls), h.calls.given)
  {
    NoneSent(ls);
    assert PassedIds(h.socket.sent) + [] == PassedIds(h.socket.sent);
  }

  lemma SocketKept(cfg: Config, h: Host, e: Event)
    requires Enabled(h, e) && AllGiven(h.socket.sent, h.calls.given) && |h.calls.given| == h.calls.sends
    ensures PassesBy(h, StepOf(cfg, h, e), h.calls.given + if e.Send? then [e.message] else [])
  {
    match e
    case Send(m, drained, throws) => SendPasses(h, m, drained, throws);
    case SendPoll(id, drained, throws) =>
      PollPasses(h, id, drained, throws);
      assert h.calls.given + [] == h.calls.given;
    case _ =>
      OthersPass(cfg, h, e);
      NothingPassed(h, StepOf(cfg, h, e).0, StepOf(cfg, h, e).1);
      assert h.calls.given + [] == h.calls.given;
    hide StepOf, SentIds, PassedIds, AllGiven;
  }

  lemma OthersPass(cfg: Config, h: Host, e: Event)
    requires !e.Send? && !e.SendPoll?
    ensures var (t, ls) := StepOf(cfg, h, e);
            && t.socket.sent == h.socket.sent && t.calls.given == h.calls.given
            && forall l <- ls :: !l.SendDone? || !l.result.Sent?
  {
    hide RejectAll;
  }

  lemma OnePassed(sent: seq<Passed>, p: Passed, given: seq<Message>)
    requires AllGiven(sent, given) && p.id < |given| && given[p.id] == p.message
    ensures AllGiven(sent + [p], given) && PassedIds(sent + [p]) == PassedIds(sent) + [p.id]
  {
  }

  lemma SentOne(a: Label, b: Label)
    ensures SentIds([]) == []
    ensures SentIds([b]) == if b.SendDone? && b.result.Sent? then [b.id] else []
    ensures !a.SendDone? ==> SentIds([a, b]) == if b.SendDone? && b.result.Sent? then [b.id] else []
  {
    assert [a, b][1..] == [b] && [b][1..] == [];
  }

  lemma MoreGiven(sent: seq<Passed>, given: seq<Message>, m: Message)
    requires AllGiven(sent, given)
    ensures AllGiven(sent, given + [m])
  {
  }

  lemma SendPasses(h: Host, m: Message, drained: bool, throws: bool)
    requires AllGiven(h.socket.sent, h.calls.given) && |h.calls.given| == h.calls.sends
    ensures PassesBy(h, OnSend(h, m, drained, throws), h.calls.given + [m])
  {
    var id, given := h.calls.sends, h.calls.given + [m];
    MoreGiven(h.socket.sent, h.calls.given, m);
    hide AllGiven;
    if !Refuses(h) && drained && !throws {
      OnePassed(h.socket.sent, Passed(id, m), given);
      SentOne(SendCalled(id), SendDone(id, Sent));
      hide SentIds;
    } else {
      NoneSent(OnSend(h, m, drained, throws).1);
      hide SentIds;
      assert PassedIds(h.socket.sent) + [] == PassedIds(h.socket.sent);
    }
  }

  lemma PollPasses(h: Host, id: nat, drained: bool, throws: bool)
    requires AllGiven(h.socket.sent, h.calls.given) && id < |h.calls.given|
    ensures PassesBy(h, OnSendPoll(h, id, drained, throws), h.calls.given)
  {
    OnePassed(h.socket.sent, Passed(id, h.calls.given[id]), h.calls.given);
    SentOne(SendCalled(id), SendDone(id, Sent));
    SentOne(SendCalled(id), SendDone(id, Failed(Other)));
    SentOne(SendCalled(id), SendDone(id, Failed(Closed)));
    hide SentIds, AllGiven;
    assert PassedIds(h.socket.sent) + [] == PassedIds(h.socket.sent);
  }

  /** In every run: what was passed to the platform's `send` are, in the order of their answers, the messages of the
      sends answered `Ok`, each the one given to the call. */
  lemma {:induction false} MessagesInEveryRun(cfg: Config, events: seq<Event>)
    requires CanRun(cfg, Start, events)
    ensures var h := Run(cfg, Start, events);
            && PassedIds(h.socket.sent) == SentIds(Trace(cfg, Start, events))
            && (forall p <- h.socket.sent :: p.id < |Given(events)| && Given(events)[p.id] == p.message)
            && h.calls.given == Given(events)
    decreases |events|
  {
    if events != [] {
      var init, e := Last(cfg, events);
      var h := Run(cfg, Start, init);
      MessagesInEveryRun(cfg, init);
      assert Given(events) == Given(init) + if e.Send? then [e.message] else [];
      assert FlagsInv(h);
      hide StepOf, Inv, FlagsInv, Given, Trace, Run, CanRun, SentIds;
      SocketKept(cfg, h, e);
      SentIdsConcat(Trace(cfg, Start, init), StepOf(cfg, h, e).1);
    }
  }

  // ----- closes ------------------------------------------------------------------------------------------

  /** The arguments of the first valid `close`. */
  function FirstCloseArgs(events: seq<Event>): Option<CloseArgs> {
    if events == [] then None
    else NextCloseArgs(FirstCloseArgs(events[..|events| - 1]), events[|events| - 1])
  }

  function NextCloseArgs(args: Option<CloseArgs>, e: Event): Option<CloseArgs> {
    if args.Some? || !e.Close? || !CloseArgsOk(e.code, e.reason) then args else Some(CloseArgs(e.code, e.reason))
  }

  /** An overflow closes without arguments; the first valid `close` with its own, and later than any overflow. */
  function ClosesFor(overflowed: bool, args: Option<CloseArgs>): seq<(Option<nat>, seq<Byte>)> {
    (if overflowed then [(None, [])] else []) + (if args.Some? then [(args.value.code, args.value.reason)] else [])
  }

  ghost predicate ClosesInv(h: Host, args: Option<CloseArgs>) {
    h.flags.localClosed == args.Some? && h.socket.closes == ClosesFor(h.queue.overflowed, args)
  }

  lemma ClosesKept(cfg: Config, h: Host, e: Event, args: Option<CloseArgs>)
    requires Enabled(h, e) && FlagsInv(h) && ClosesInv(h, args)
    ensures ClosesInv(StepOf(cfg, h, e).0, NextCloseArgs(args, e))
  {
    hide LabelsOf, RejectAll, TransportClosing;
    match e
    case MessageEvent(m) => OverflowCloses(cfg, h, m, args);
    case _ =>
  }

  lemma OverflowCloses(cfg: Config, h: Host, m: Message, args: Option<CloseArgs>)
    requires h.ready.OPEN? && FlagsInv(h) && ClosesInv(h, args)
    ensures ClosesInv(OnMessageEvent(cfg, h, m).0, args)
  {
  }

  /** In every run the calls of the platform's `close` are one without arguments if the connection overflowed, then one
      with the code and reason of the first valid `close`, if there was one. */
  lemma {:induction false} ClosesInEveryRun(cfg: Config, events: seq<Event>)
    requires CanRun(cfg, Start, events)
    ensures var h, args := Run(cfg, Start, events), FirstCloseArgs(events);
            && ClosesInv(h, args)
            && h.socket.closes == (if Overflowed(Trace(cfg, Start, events)) then [(None, [])] else [])
                                  + (if args.Some? then [(args.value.code, args.value.reason)] else [])
    decreases |events|
  {
    StateSays(cfg, events);
    OverflowSays(Run(cfg, Start, events), Trace(cfg, Start, events));
    if events != [] {
      var init, e := Last(cfg, events);
      ClosesInEveryRun(cfg, init);
      var h := Run(cfg, Start, init);
      assert FirstCloseArgs(events) == NextCloseArgs(FirstCloseArgs(init), e);
      assert FlagsInv(h);
      hide StepOf, Inv, FlagsInv, FirstCloseArgs, Trace, Run, CanRun;
      ClosesKept(cfg, h, e, FirstCloseArgs(init));
    }
  }

  lemma OverflowSays(h: Host, ls: seq<Label>)
    requires Says(h, ls)
    ensures h.queue.overflowed <==> Overflowed(ls)
  {
  }

  // ----- the outcome -------------------------------------------------------------------------------------

  /** The close outcome, from the platform's events: the first close event or timer settles it. A timer settles to
      none, and so does a code that no frame carried. */
  function Outcome(events: seq<Event>): Option<Option<CloseInfo>> {
    if events == [] then None
    else
      var before := Outcome(events[..|events| - 1]);
      if before.Some? then before else OutcomeOf(events[|events| - 1])
  }

  /** What an event settles an unsettled connection to. */
  function OutcomeOf(e: Event): Option<Option<CloseInfo>> {
    match e
    case CloseEvent(status, reason) =>
      Some(if status == 0 || status == 1006 || status == 1015 then None else Some(CloseInfo(status, reason)))
    case SlotFires => Some(None)
    case StrayFires(_) => Some(None)
    case _ => None
  }

  function Settled(h: Host): Option<Option<CloseInfo>> {
    if h.flags.settled then Some(h.flags.closeInfo) else None
  }

  /** The first such event settles, and stops the timer the deadline field holds; later ones change nothing of it. */
  lemma SettlesBy(cfg: Config, h: Host, e: Event)
    requires Enabled(h, e)
    ensures Settled(StepOf(cfg, h, e).0) == if h.flags.settled then Settled(h) else OutcomeOf(e)
    ensures !h.flags.settled && OutcomeOf(e).Some? ==> StepOf(cfg, h, e).0.timers.slot.None?
  {
    hide LabelsOf, RejectAll;
  }

  lemma {:induction false} SettledByEvents(cfg: Config, events: seq<Event>)
    requires CanRun(cfg, Start, events)
    ensures Settled(Run(cfg, Start, events)) == Outcome(events)
    decreases |events|
  {
    if events != [] {
      var init, e := Last(cfg, events);
      hide StepOf, Inv, Trace, Run, CanRun;
      SettledByEvents(cfg, init);
      SettlesBy(cfg, Run(cfg, Start, init), e);
    }
  }

  /** In every run each `wait-closed` reports what the first close event or timer settled: the event's code and reason,
      or none for a timer and for the codes 0, 1006 and 1015. */
  lemma {:induction false} WaitClosedReports(cfg: Config, events: seq<Event>, i: nat)
    requires CanRun(cfg, Start, events) && i < |Trace(cfg, Start, events)| && Trace(cfg, Start, events)[i].WaitClosed?
    ensures Outcome(events) == Some(Trace(cfg, Start, events)[i].outcome)
  {
    var ls := Trace(cfg, Start, events);
    ImplementsContract(cfg, events);
    WaitClosedIsLatched(cfg.limit, ls, i);
    WaitsAfterSettle(cfg.limit, ls, i);
    StateSays(cfg, events);
    OutcomeSays(Run(cfg, Start, events), ls);
    SettledByEvents(cfg, events);
  }

  lemma OutcomeSays(h: Host, ls: seq<Label>)
    requires Says(h, ls) && Settle in ls
    ensures Settled(h) == Some(FirstFrame(ls))
  {
  }

  lemma {:induction false} WaitsAfterSettle(limit: nat, ls: seq<Label>, i: nat)
    requires Allowed(limit, ls) && i < |ls| && ls[i].WaitClosed?
    ensures Settle in ls
  {
    StepAt(limit, ls, i);
    ObservationState(limit, At(limit, ls, i), ls[i]);
    LatchesAreLabels(limit, ls, i);
    hide Step;
    assert forall l <- ls[..i] :: l in ls;
  }
}
