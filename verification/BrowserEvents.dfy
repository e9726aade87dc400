/** What the `WebSocket` class shows the page and passes to the WIT resource, read off the schedule alone. */
module BrowserEvents {
  import opened Types
  import opened BrowserShim

  // ----- the schedule's story ----------------------------------------------------------------------------

  /** How the connection ended: with the outcome of `wait-closed`, or in the handshake. */
  datatype Ending = Outcome(info: CloseInfo) | NoFrame | HandshakeFailed

  function EndingOf(e: Event): Option<Ending> {
    match e
    case ConnectFails => Some(HandshakeFailed)
    case CloseSettles(None) => Some(NoFrame)
    case CloseSettles(Some(info)) => Some(Outcome(info))
    case _ => None
  }

  /** What a schedule says of the connection: how it ended, whether its handshake succeeded, the first `close` with
      arguments the class takes, made before the end, whether the handshake's success came before it, and whether a
      `receive` failed. */
  datatype Story = Story(ending: Option<Ending>, established: bool, closing: Option<Args>, opens: bool, deaf: bool)

  /** No code, 1000, or one from 3000 to 4999, and a reason of at most 123 bytes. */
  predicate Takes(a: Args) {
    && |a.reason| < 124
    && match a.code
       case None => true
       case Some(number) => number == 1000.0 || !(number < 3000.0 || number > 4999.0)
  }

  /** The story so far, and one more event. */
  function Next(t: Story, e: Event): Story {
    Story(if t.ending.Some? then t.ending else EndingOf(e),
          t.established || e.Established?,
          if t.closing.None? && t.ending.None? && e.Close? && Takes(e.args) then Some(e.args) else t.closing,
          t.opens || (e.Established? && t.closing.None?),
          t.deaf || (e.Receive? && e.message.None?))
  }

  function Tell(events: seq<Event>): Story {
    if events == [] then Story(None, false, None, false, false)
    else Next(Tell(events[..|events| - 1]), events[|events| - 1])
  }

  /** The ready state the story calls for. */
  function StateOf(t: Story): Ready {
    if t.ending.Some? then CLOSED
    else if t.closing.Some? then CLOSING
    else if t.opens then OPEN
    else CONNECTING
  }

  /** The messages the receive loop got. */
  function Received(events: seq<Event>): seq<Message> {
    if events == [] then []
    else
      var e := events[|events| - 1];
      Received(events[..|events| - 1]) + (if e.Receive? && e.message.Some? then [e.message.value] else [])
  }

  /** The messages given to `send` while the connection was open. */
  function Given(events: seq<Event>): seq<Message> {
    if events == [] then []
    else
      var init, e := events[..|events| - 1], events[|events| - 1];
      Given(init) + (if e.Send? && StateOf(Tell(init)).OPEN? then [e.data] else [])
  }

  /** The bytes given to `send` after that, which are discarded. */
  function Discarded(events: seq<Event>): nat {
    if events == [] then 0
    else
      var init, e := events[..|events| - 1], events[|events| - 1];
      Discarded(init) + (if e.Send? && StateOf(Tell(init)).Rank() > 1 then |e.data.payload| else 0)
  }

  // ----- what is dispatched ------------------------------------------------------------------------------

  /** The messages of the message events. */
  function Shown(dispatched: seq<Dom>): seq<Message> {
    if dispatched == [] then []
    else
      var d := dispatched[|dispatched| - 1];
      Shown(dispatched[..|dispatched| - 1]) + (if d.MessageEvent? then [d.message] else [])
  }

  lemma ShownSnoc(dispatched: seq<Dom>, d: Dom)
    ensures Shown(dispatched + [d]) == Shown(dispatched) + (if d.MessageEvent? then [d.message] else [])
  {
    assert (dispatched + [d])[..|dispatched|] == dispatched;
  }

  /** A close event that says how the connection ended: the outcome's own code and reason, 1006 and no reason without
      one; clean only with an outcome, after a handshake that no `close` preceded. */
  predicate TellsEnding(d: Dom, t: Story) {
    d.CloseEvent? ==>
      match t.ending
      case Some(Outcome(info)) => d.code == info.code && d.reason == info.reason && d.wasClean == t.opens
      case Some(_) => d.code == 1006 && d.reason == [] && !d.wasClean
      case None => false
  }

  /** The arguments passed down for a `close`: its reason as it is, its code cut to a whole number; 1000 for a reason
      without a code. */
  predicate PassesOn(passed: (Option<nat>, seq<Byte>), a: Args) {
    && passed.1 == a.reason
    && match a.code
       case Some(number) =>
         passed.0.Some? && passed.0.value as real <= number && number < passed.0.value as real + 1.0
       case None => passed.0 == if a.reason == [] then None else Some(1000)
  }

  ghost predicate ClosesPassed(hostCloses: seq<(Option<nat>, seq<Byte>)>, t: Story) {
    if t.established && t.closing.Some? then |hostCloses| == 1 && PassesOn(hostCloses[0], t.closing.value)
    else hostCloses == []
  }

  ghost predicate LifeTells(l: Life, t: Story) {
    && l.ready == StateOf(t)
    && l.connecting == (t.ending.None? && !t.established)
    && (t.ending == Some(HandshakeFailed) ==> !t.established) && (t.opens ==> t.established)
    && (t.established && t.closing.None? ==> t.opens)
    && (t.closing.Some? ==> ShimAccepts(t.closing.value))
    && l.receiving == (t.opens && !t.deaf) && (t.deaf ==> t.opens)
    && l.pendingClose == (if t.opens then None else t.closing)
    && l.settling == (if t.established && t.ending.None? then Some(!t.opens) else None)
    && l.closeDispatched == t.ending.Some?
    && (OpenEvent in l.events <==> t.opens)
    && (forall d <- l.events :: TellsEnding(d, t))
    && ClosesPassed(l.hostCloses, t)
  }

  lemma UnderlyingPasses(a: Args)
    requires ShimAccepts(a)
    ensures PassesOn(Underlying(a), a)
  {
  }

  /** One more event dispatched, which is no close event. */
  lemma DispatchOne(events: seq<Dom>, d: Dom, t: Story)
    requires !d.CloseEvent?
    ensures OpenEvent in events + [d] <==> OpenEvent in events || d.OpenEvent?
    ensures (forall x <- events :: TellsEnding(x, t)) ==> forall x <- events + [d] :: TellsEnding(x, t)
  {
    assert forall x <- events + [d] :: x in events || x == d;
    assert (events + [d])[|events|] == d && forall x <- events :: x in events + [d];
  }

  /** Before the end there is no close event, so any story that goes on from there tells the same. */
  lemma NoCloseYet(events: seq<Dom>, t: Story, u: Story)
    requires t.ending.None? && forall d <- events :: TellsEnding(d, t)
    ensures forall d <- events :: TellsEnding(d, u)
  {
  }

  lemma SameEnding(t: Story, u: Story)
    requires u.ending == t.ending && u.opens == t.opens
    ensures forall d :: TellsEnding(d, u) <==> TellsEnding(d, t)
  {
  }

  lemma Ends(events: seq<Dom>, unclean: bool, close: Dom, t: Story, u: Story)
    requires t.ending.None? && (forall d <- events :: TellsEnding(d, t)) && close.CloseEvent? && TellsEnding(close, u)
    ensures var after := events + (if unclean then [ErrorEvent] else []) + [close];
            (forall d <- after :: TellsEnding(d, u)) && (OpenEvent in after <==> OpenEvent in events)
  {
    var after := events + (if unclean then [ErrorEvent] else []) + [close];
    assert forall d <- after :: d in events || d == ErrorEvent || d == close;
    assert forall d <- events :: d in after;
    NoCloseYet(events, t, u);
    hide TellsEnding;
  }

  lemma LifeKept(s: Shim, e: Event, t: Story)
    requires Enabled(s, e) && LifeTells(s.life, t)
    ensures LifeTells(StepOf(s, e).life, Next(t, e))
  {
    var l, u := s.life, Next(t, e);
    hide TellsEnding, PassesOn, Underlying;
    match e
    case Close(a) => CloseTells(l, a, t);
    case Established =>
      DispatchOne(l.events, OpenEvent, t);
      NoCloseYet(l.events, t, u);
      NoCloseYet(l.events + [OpenEvent], t, u);
      if l.pendingClose.Some? {
        UnderlyingPasses(l.pendingClose.value);
      }
    case ConnectFails =>
      FailureTells(l, t);
    case Receive(m) =>
      SameEnding(t, u);
      if m.Some? { DispatchOne(l.events, MessageEvent(m.value), t); }
    case CloseSettles(info) => SettleTells(l, info, t);
    case _ => assert u == t;
  }

  lemma CloseTells(l: Life, a: Args, t: Story)
    requires LifeTells(l, t)
    ensures LifeTells(OnClose(l, a), Next(t, Close(a)))
  {
    hide TellsEnding, PassesOn, Underlying;
    if ShimAccepts(a) && t.closing.None? && t.ending.None? {
      UnderlyingPasses(a);
      NoCloseYet(l.events, t, Next(t, Close(a)));
    }
  }

  lemma FailureTells(l: Life, t: Story)
    requires l.connecting && LifeTells(l, t)
    ensures LifeTells(OnFailed(l), Next(t, ConnectFails))
  {
    var u, close := Next(t, ConnectFails), CloseEvent(false, 1006, []);
    assert TellsEnding(close, u);
    Ends(l.events, true, close, t, u);
    assert l.events + [ErrorEvent] + [close] == l.events + [ErrorEvent, close];
    hide TellsEnding, PassesOn;
  }

  lemma SettleTells(l: Life, info: Option<CloseInfo>, t: Story)
    requires l.settling.Some? && LifeTells(l, t)
    ensures LifeTells(OnCloseSettles(l, info), Next(t, CloseSettles(info)))
  {
    var u := Next(t, CloseSettles(info));
    var after := OnCloseSettles(l, info).events;
    var close := after[|after| - 1];
    assert TellsEnding(close, u);
    Ends(l.events, !close.wasClean, close, t, u);
    hide TellsEnding, PassesOn;
  }

  // ----- what is sent ------------------------------------------------------------------------------------

  ghost predicate OutTells(o: Out, given: seq<Message>, discarded: nat) {
    && o.made == |given| && o.discarded == discarded
    && (forall job <- o.queue :: job.id < |given| && given[job.id] == job.message)
    && |o.passed| == |o.issued|
    && forall i :: 0 <= i < |o.issued| ==> o.issued[i] < |given| && o.passed[i] == given[o.issued[i]]
  }

  lemma OutKept(s: Shim, e: Event, given: seq<Message>, discarded: nat)
    requires Enabled(s, e) && OutTells(s.out, given, discarded)
    ensures OutTells(StepOf(s, e).out,
                     given + (if e.Send? && s.life.ready.OPEN? then [e.data] else []),
                     discarded + (if e.Send? && s.life.ready.Rank() > 1 then |e.data.payload| else 0))
  {
    assert given + [] == given;
    match e
    case StartHead => assert s.out.queue[0] in s.out.queue;
    case BlobRead(_) => assert s.out.queue[0] in s.out.queue;
    case _ =>
  }

  /** The chain sends its head: a Blob is read first and passed on only if that succeeds, anything else at once; then
      the head leaves, and its bytes with it. One of its turns is due as long as anything is queued. */
  lemma ChainTurns(s: Shim, ok: bool)
    requires s.out.queue != []
    ensures var job, passes := s.out.queue[0], Issue(s.out);
            && passes.issued == s.out.issued + [job.id] && passes.passed == s.out.passed + [job.message]
            && passes.queue == s.out.queue && passes.head.Sending?
            && match s.out.head
               case NotStarted =>
                 && Enabled(s, StartHead)
                 && StepOf(s, StartHead).out == if job.blob then s.out.(head := ReadingBlob) else passes
               case ReadingBlob =>
                 && Enabled(s, BlobRead(ok))
                 && if ok then StepOf(s, BlobRead(ok)).out == passes else Leaves(s.out, StepOf(s, BlobRead(ok)).out)
               case Sending => Enabled(s, SendSettles) && Leaves(s.out, StepOf(s, SendSettles).out)
  {
  }

  predicate Leaves(o: Out, p: Out)
    requires o.queue != []
  {
    && p.queue == o.queue[1..] && p.head.NotStarted? && p.buffered == o.buffered - |o.queue[0].message.payload|
    && p.issued == o.issued && p.passed == o.passed
  }

  // ----- runs --------------------------------------------------------------------------------------------

  lemma {:induction false} RunConcat(s: Shim, a: seq<Event>, b: seq<Event>)
    requires CanRun(s, a + b)
    ensures CanRun(s, a) && CanRun(Run(s, a), b) && Run(s, a + b) == Run(Run(s, a), b)
    decreases |a|
  {
    hide StepOf, Enabled;
    if a == [] {
      assert a + b == b;
    } else {
      assert (a + b)[0] == a[0] && (a + b)[1..] == a[1..] + b;
      RunConcat(StepOf(s, a[0]), a[1..], b);
    }
  }

  lemma {:induction false} Last(events: seq<Event>) returns (init: seq<Event>, e: Event)
    requires CanRun(Start, events) && events != []
    ensures init == events[..|events| - 1] && e == events[|events| - 1] && CanRun(Start, init)
    ensures Enabled(Run(Start, init), e) && Run(Start, events) == StepOf(Run(Start, init), e)
  {
    hide StepOf, Enabled;
    var k := |events| - 1;
    init, e := events[..k], events[k];
    assert events == init + [e] && [e][1..] == [];
    RunConcat(Start, init, [e]);
  }

  lemma ShownKept(s: Shim, e: Event)
    requires Enabled(s, e)
    ensures Shown(StepOf(s, e).life.events)
         == Shown(s.life.events) + (if e.Receive? && e.message.Some? then [e.message.value] else [])
  {
    hide Shown;
    var events := s.life.events;
    assert Shown(events) + [] == Shown(events) && events + [] == events;
    match e
    case Established => ShownSnoc(events, OpenEvent);
    case ConnectFails =>
      ShownSnoc(events, ErrorEvent);
      ShownSnoc(events + [ErrorEvent], CloseEvent(false, 1006, []));
      assert events + [ErrorEvent] + [CloseEvent(false, 1006, [])]
          == events + [ErrorEvent, CloseEvent(false, 1006, [])];
    case Receive(m) => if m.Some? { ShownSnoc(events, MessageEvent(m.value)); }
    case CloseSettles(info) =>
      var after := StepOf(s, e).life.events;
      if !s.life.closeDispatched {
        ShownSnoc(events, ErrorEvent);
        ShownSnoc(events, after[|after| - 1]);
        ShownSnoc(events + [ErrorEvent], after[|after| - 1]);
      }
    case _ =>
  }

  /** In every run from the start, off the schedule alone: the ready state; whether the open event was dispatched; every
      close event's code, reason and cleanness, which are those of the outcome that settled the connection, or 1006
      and no reason; the message events, which are the messages received, in order; the arguments the WIT `close` was
      called with, which are those of the first `close` the class took; and what the class waits for. */
  lemma {:induction false} EventsInEveryRun(events: seq<Event>)
    requires CanRun(Start, events)
    ensures var l, t := Run(Start, events).life, Tell(events);
            && LifeTells(l, t)
            && l.ready == StateOf(t)
            && (OpenEvent in l.events <==> t.opens)
            && (forall d <- l.events :: TellsEnding(d, t))
            && Shown(l.events) == Received(events)
            && ClosesPassed(l.hostCloses, t)
            && (forall m :: Enabled(Run(Start, events), Receive(m)) <==> t.opens && !t.deaf)
            && (Enabled(Run(Start, events), Established) <==> t.ending.None? && !t.established)
            && (Enabled(Run(Start, events), ConnectFails) <==> t.ending.None? && !t.established)
            && (forall info :: Enabled(Run(Start, events), CloseSettles(info)) <==> t.established && t.ending.None?)
    decreases |events|
  {
    if events != [] {
      var init, e := Last(events);
      hide Run, CanRun, StepOf, Enabled, LifeTells, Next, Shown;
      EventsInEveryRun(init);
      LifeKept(Run(Start, init), e, Tell(init));
      ShownKept(Run(Start, init), e);
    }
    LifeSays(Run(Start, events), Tell(events));
  }

  lemma LifeSays(s: Shim, t: Story)
    requires LifeTells(s.life, t)
    ensures s.life.ready == StateOf(t) && (OpenEvent in s.life.events <==> t.opens)
    ensures ClosesPassed(s.life.hostCloses, t) && forall d <- s.life.events :: TellsEnding(d, t)
    ensures forall m :: Enabled(s, Receive(m)) <==> t.opens && !t.deaf
    ensures Enabled(s, Established) <==> t.ending.None? && !t.established
    ensures Enabled(s, ConnectFails) <==> t.ending.None? && !t.established
    ensures forall info :: Enabled(s, CloseSettles(info)) <==> t.established && t.ending.None?
  {
    hide TellsEnding;
  }

  /** In every run from the start: what was passed to the WIT `send` is the data given to the sends that were issued,
      made while open; `bufferedAmount` is the bytes of those not settled plus the bytes given once closing. */
  lemma {:induction false} DataInEveryRun(events: seq<Event>)
    requires CanRun(Start, events)
    ensures var o := Run(Start, events).out;
            && OutTells(o, Given(events), Discarded(events))
            && o.buffered == Unsettled(o.queue) + Discarded(events)
            && |o.passed| == |o.issued| && o.made == |Given(events)|
            && (forall i :: 0 <= i < |o.issued| ==>
                  o.issued[i] < |Given(events)| && o.passed[i] == Given(events)[o.issued[i]])
    decreases |events|
  {
    SendsInEveryRun(events);
    if events != [] {
      var init, e := Last(events);
      hide Run, CanRun, StepOf, Enabled, OutTells, Tell, StateOf;
      DataInEveryRun(init);
      EventsInEveryRun(init);
      OutKept(Run(Start, init), e, Given(init), Discarded(init));
    }
    OutSays(Run(Start, events).out, Given(events), Discarded(events));
  }

  lemma OutSays(o: Out, given: seq<Message>, discarded: nat)
    requires OutTells(o, given, discarded)
    ensures o.made == |given| && o.discarded == discarded && |o.passed| == |o.issued|
    ensures forall i :: 0 <= i < |o.issued| ==> o.issued[i] < |given| && o.passed[i] == given[o.issued[i]]
  {
  }
}
