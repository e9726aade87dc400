/** The standard `WebSocket` class over the WIT resource (js/componentize/websocket.js), as a machine. */
module BrowserShim {
  import opened Types

  datatype Ready = CONNECTING | OPEN | CLOSING | CLOSED {
    function Rank(): nat {
      match this
      case CONNECTING => 0
      case OPEN => 1
      case CLOSING => 2
      case CLOSED => 3
    }
  }

  /** A send in the promise chain; a Blob's bytes are read when its turn comes. */
  datatype Job = Job(id: nat, message: Message, blob: bool)

  datatype Head = NotStarted | ReadingBlob | Sending

  /** The outbound half. `issued` are the sends passed to the WIT resource and `passed` what was passed, `unread` the
      Blobs that failed. */
  datatype Out = Out(
    buffered: int, queue: seq<Job>, head: Head, made: nat, discarded: nat, issued: seq<nat>, unread: seq<nat>,
    passed: seq<Message>)

  datatype Args = Args(code: Option<real>, reason: seq<Byte>)

  datatype Dom =
    | OpenEvent
    | MessageEvent(message: Message)
    | ErrorEvent
    | CloseEvent(wasClean: bool, code: nat, reason: seq<Byte>)

  /** The lifecycle. `settling` is the pending `wait-closed` and whether `close` preceded the handshake. */
  datatype Life = Life(
    ready: Ready, connecting: bool, pendingClose: Option<Args>, receiving: bool, settling: Option<bool>,
    closeDispatched: bool, events: seq<Dom>, hostCloses: seq<(Option<nat>, seq<Byte>)>)

  datatype Shim = Shim(out: Out, life: Life)

  const Start: Shim :=
    Shim(Out(0, [], NotStarted, 0, 0, [], [], []), Life(CONNECTING, true, None, false, None, false, [], []))

  datatype Event =
    | Send(data: Message, blob: bool)
    | Close(args: Args)
    | Established
    | ConnectFails
    | StartHead
    | BlobRead(ok: bool)
    | SendSettles
    | Receive(message: Option<Message>)
    | CloseSettles(info: Option<CloseInfo>)

  predicate Enabled(s: Shim, e: Event) {
    match e
    case Established => s.life.connecting
    case ConnectFails => s.life.connecting
    case StartHead => s.out.queue != [] && s.out.head.NotStarted?
    case BlobRead(_) => s.out.queue != [] && s.out.head.ReadingBlob?
    case SendSettles => s.out.queue != [] && s.out.head.Sending?
    case Receive(_) => s.life.receiving
    case CloseSettles(_) => s.life.settling.Some?
    case _ => true
  }

  // ----- sends -------------------------------------------------------------------------------------------

  /** `send` past the CONNECTING check: the bytes count at once, and stay counted when discarded. */
  function OnSend(ready: Ready, o: Out, m: Message, blob: bool): Out {
    if ready.CONNECTING? then o
    else if !ready.OPEN? then o.(buffered := o.buffered + m.Size(), discarded := o.discarded + m.Size())
    else
      o.(buffered := o.buffered + m.Size(), made := o.made + 1, queue := o.queue + [Job(o.made, m, blob)])
  }

  /** The WIT `send` of the head. */
  function Issue(o: Out): Out {
    if o.queue == [] then o
    else o.(head := Sending, issued := o.issued + [o.queue[0].id], passed := o.passed + [o.queue[0].message])
  }

  function OnStart(o: Out): Out {
    if o.queue == [] then o
    else if o.queue[0].blob then o.(head := ReadingBlob)
    else Issue(o)
  }

  /** The head leaves the chain, however its send ended. */
  function Settle(o: Out): Out {
    if o.queue == [] then o
    else o.(buffered := o.buffered - o.queue[0].message.Size(), queue := o.queue[1..], head := NotStarted)
  }

  function OnBlobRead(o: Out, ok: bool): Out {
    if o.queue == [] then o
    else if ok then Issue(o)
    else Settle(o.(unread := o.unread + [o.queue[0].id]))
  }

  // ----- closing -----------------------------------------------------------------------------------------

  /** `close` takes no code, 1000, or anything from 3000 to 4999, and at most 123 bytes of reason. */
  predicate ShimAccepts(a: Args) {
    && (a.code.Some? ==> a.code.value == 1000.0 || 3000.0 <= a.code.value <= 4999.0)
    && |a.reason| <= 123
  }

  /** A number becomes a `u16` by truncation. */
  function Truncated(number: real): nat { if number < 0.0 then 0 else number.Floor }

  /** What is passed down: a reason gets the code it needs. */
  function Underlying(a: Args): (Option<nat>, seq<Byte>) {
    if |a.reason| > 0 && a.code.None? then (Some(1000), a.reason)
    else (if a.code.None? then None else Some(Truncated(a.code.value)), a.reason)
  }

  function OnClose(l: Life, a: Args): Life {
    if !ShimAccepts(a) || l.ready.CLOSING? || l.ready.CLOSED? then l
    else if l.ready.CONNECTING? then l.(pendingClose := Some(a), ready := CLOSING)
    else l.(ready := CLOSING, hostCloses := l.hostCloses + [Underlying(a)])
  }

  function OnEstablished(l: Life): Life {
    var c := l.(connecting := false);
    if l.pendingClose.Some? then
      c.(hostCloses := l.hostCloses + [Underlying(l.pendingClose.value)], settling := Some(true))
    else c.(ready := OPEN, events := l.events + [OpenEvent], receiving := true, settling := Some(false))
  }

  function OnFailed(l: Life): Life {
    var c := l.(connecting := false, ready := CLOSED);
    if l.closeDispatched then c
    else c.(closeDispatched := true, events := l.events + [ErrorEvent, CloseEvent(false, 1006, [])])
  }

  function OnCloseSettles(l: Life, info: Option<CloseInfo>): Life {
    var c := l.(ready := CLOSED, settling := None);
    if l.closeDispatched then c
    else
      var wasClean := info.Some? && l.settling == Some(false);
      var (code, reason) := if info.Some? then (info.value.code, info.value.reason) else (1006, []);
      c.(closeDispatched := true,
         events := l.events + (if wasClean then [] else [ErrorEvent]) + [CloseEvent(wasClean, code, reason)])
  }

  function OnReceive(l: Life, m: Option<Message>): Life {
    if m.None? then l.(receiving := false) else l.(events := l.events + [MessageEvent(m.value)])
  }

  // ----- the machine -------------------------------------------------------------------------------------

  function StepOf(s: Shim, e: Event): Shim {
    match e
    case Send(m, blob) => s.(out := OnSend(s.life.ready, s.out, m, blob))
    case StartHead => s.(out := OnStart(s.out))
    case BlobRead(ok) => s.(out := OnBlobRead(s.out, ok))
    case SendSettles => s.(out := Settle(s.out))
    case Close(a) => s.(life := OnClose(s.life, a))
    case Established => s.(life := OnEstablished(s.life))
    case ConnectFails => s.(life := OnFailed(s.life))
    case Receive(m) => s.(life := OnReceive(s.life, m))
    case CloseSettles(info) => s.(life := OnCloseSettles(s.life, info))
  }

  // ----- the outbound invariant --------------------------------------------------------------------------

  function Unsettled(queue: seq<Job>): nat {
    if queue == [] then 0 else queue[0].message.Size() + Unsettled(queue[1..])
  }

  lemma {:induction false} UnsettledSnoc(queue: seq<Job>, job: Job)
    ensures Unsettled(queue + [job]) == Unsettled(queue) + job.message.Size()
  {
    if queue == [] {
      assert [job][1..] == [];
    } else {
      assert (queue + [job])[1..] == queue[1..] + [job];
      UnsettledSnoc(queue[1..], job);
    }
  }

  predicate Increasing(ids: seq<nat>) { forall i, j :: 0 <= i < j < |ids| ==> ids[i] < ids[j] }

  /** The number of jobs that left the chain. */
  function Left(o: Out): int { o.made - |o.queue| }

  ghost predicate OutInv(o: Out) {
    && o.buffered == Unsettled(o.queue) + o.discarded
    && |o.queue| <= o.made
    && (forall i :: 0 <= i < |o.queue| ==> o.queue[i].id == Left(o) + i)
    && (o.queue == [] ==> o.head.NotStarted?)
    && Increasing(o.issued)
    && (forall x <- o.issued :: x < Left(o) || (x == Left(o) && o.head.Sending?))
    && (o.head.Sending? ==> Left(o) in o.issued)
    && (forall id: nat :: id < Left(o) ==> id in o.issued || id in o.unread)
  }

  lemma OutKept(s: Shim, e: Event)
    requires Enabled(s, e) && OutInv(s.out)
    ensures OutInv(StepOf(s, e).out)
  {
    match e
    case Send(m, blob) => UnsettledSnoc(s.out.queue, Job(s.out.made, m, blob));
    case StartHead => IssueKept(s.out);
    case BlobRead(ok) => if ok { IssueKept(s.out); } else { UnreadKept(s.out); }
    case SendSettles => SettleKept(s.out);
    case _ =>
  }

  lemma IssueKept(o: Out)
    requires OutInv(o) && o.queue != [] && !o.head.Sending?
    ensures OutInv(Issue(o))
    ensures OutInv(o.(head := ReadingBlob))
  {
    var issued := o.issued + [o.queue[0].id];
    assert issued[|o.issued|] == Left(o);
    assert forall x :: x in issued <==> x in o.issued || x == Left(o);
    forall i | 0 <= i < |o.issued|
      ensures o.issued[i] < Left(o)
    {
      assert o.issued[i] in o.issued;
    }
  }

  lemma SettleKept(o: Out)
    requires OutInv(o) && o.queue != [] && o.head.Sending?
    ensures OutInv(Settle(o))
  {
  }

  lemma UnreadKept(o: Out)
    requires OutInv(o) && o.queue != [] && o.head.ReadingBlob?
    ensures OutInv(Settle(o.(unread := o.unread + [o.queue[0].id])))
  {
    var unread := o.unread + [o.queue[0].id];
    assert unread[|o.unread|] == Left(o);
    assert forall x :: x in o.unread ==> x in unread;
  }

  // ----- the lifecycle invariant -------------------------------------------------------------------------

  function CloseEvents(events: seq<Dom>): nat {
    if events == [] then 0
    else CloseEvents(events[..|events| - 1]) + (if events[|events| - 1].CloseEvent? then 1 else 0)
  }

  lemma CloseEventsSnoc(events: seq<Dom>, e: Dom)
    ensures CloseEvents(events + [e]) == CloseEvents(events) + (if e.CloseEvent? then 1 else 0)
  {
    assert (events + [e])[..|events|] == events;
  }

  predicate LifeInv(l: Life) {
    && (l.ready.CONNECTING? ==> l.connecting && l.pendingClose.None?)
    && (l.connecting ==> l.ready == if l.pendingClose.None? then CONNECTING else CLOSING)
    && (l.pendingClose.Some? ==> ShimAccepts(l.pendingClose.value))
    && (l.connecting ==> l.events == [] && !l.receiving && l.hostCloses == [])
    && l.settling.Some? == (!l.connecting && !l.ready.CLOSED?)
    && l.closeDispatched == l.ready.CLOSED?
    && CloseEvents(l.events) == (if l.ready.CLOSED? then 1 else 0)
    && (forall i :: 1 <= i < |l.events| ==> !l.events[i].OpenEvent?)
    && |l.hostCloses| <= 1 && (l.ready.OPEN? ==> l.hostCloses == [])
    && (forall i :: 0 <= i < |l.hostCloses| ==> CloseArgsOk(l.hostCloses[i].0, l.hostCloses[i].1))
  }

  /** No argument pair the shim accepts is rejected by the host's close validator; what the host takes, the
      shim takes too and passes on as it is. */
  lemma CloseArgumentsAgree(a: Args)
    ensures ShimAccepts(a) ==> CloseArgsOk(Underlying(a).0, Underlying(a).1)
    ensures forall code: Option<nat> :: CloseArgsOk(code, a.reason) ==>
              var same := Args(if code.None? then None else Some(code.value as real), a.reason);
              ShimAccepts(same) && Underlying(same) == (code, a.reason)
  {
    forall code: Option<nat> | CloseArgsOk(code, a.reason)
      ensures var same := Args(if code.None? then None else Some(code.value as real), a.reason);
              ShimAccepts(same) && Underlying(same) == (code, a.reason)
    {
    }
  }

  lemma LifeKept(s: Shim, e: Event)
    requires Enabled(s, e) && LifeInv(s.life)
    ensures LifeInv(StepOf(s, e).life)
    ensures s.life.ready.Rank() <= StepOf(s, e).life.ready.Rank() && s.life.events <= StepOf(s, e).life.events
  {
    hide CloseEvents;
    var l := s.life;
    match e
    case Close(a) => CloseArgumentsAgree(a);
    case Established => EstablishedKept(l);
    case ConnectFails => FailedKept(l);
    case Receive(m) => if m.Some? { CloseEventsSnoc(l.events, MessageEvent(m.value)); }
    case CloseSettles(info) => SettlesKept(l, info);
    case _ =>
  }

  lemma EstablishedKept(l: Life)
    requires l.connecting && LifeInv(l)
    ensures LifeInv(OnEstablished(l)) && l.ready.Rank() <= OnEstablished(l).ready.Rank()
  {
    CloseEventsSnoc(l.events, OpenEvent);
    if l.pendingClose.Some? {
      CloseArgumentsAgree(l.pendingClose.value);
    }
  }

  lemma FailedKept(l: Life)
    requires l.connecting && LifeInv(l)
    ensures LifeInv(OnFailed(l))
  {
    CloseEventsSnoc(l.events, ErrorEvent);
    CloseEventsSnoc(l.events + [ErrorEvent], CloseEvent(false, 1006, []));
    assert l.events + [ErrorEvent] + [CloseEvent(false, 1006, [])]
        == l.events + [ErrorEvent, CloseEvent(false, 1006, [])];
  }

  lemma SettlesKept(l: Life, info: Option<CloseInfo>)
    requires l.settling.Some? && LifeInv(l)
    ensures LifeInv(OnCloseSettles(l, info)) && l.events <= OnCloseSettles(l, info).events
  {
    hide CloseEvents;
    var t := OnCloseSettles(l, info);
    var last := t.events[|t.events| - 1];
    CloseEventsSnoc(l.events, ErrorEvent);
    CloseEventsSnoc(l.events, last);
    CloseEventsSnoc(l.events + [ErrorEvent], last);
    assert l.events + [] == l.events;
  }

  // ----- what the dispatched events say ---------------------------------------------------------------------

  /** An error event comes exactly just before an unclean close event. */
  ghost predicate ErrorsAnnounceClose(events: seq<Dom>) {
    forall i :: 0 <= i < |events| ==> (events[i].ErrorEvent? <==> BeforeUnclean(events, i))
  }

  predicate BeforeUnclean(events: seq<Dom>, i: nat) {
    i + 1 < |events| && events[i + 1].CloseEvent? && !events[i + 1].wasClean
  }

  /** A connection closed before its handshake settled never opens, gets no message and does not close clean. */
  ghost predicate EventsInv(l: Life) {
    && ErrorsAnnounceClose(l.events)
    && (l.settling.Some? ==> l.settling.value == l.pendingClose.Some?)
    && (l.pendingClose.Some? ==> !l.receiving)
    && (l.pendingClose.Some? ==>
          forall i :: 0 <= i < |l.events| ==>
            l.events[i].ErrorEvent? || (l.events[i].CloseEvent? && !l.events[i].wasClean))
  }

  lemma AnnounceOne(events: seq<Dom>, e: Dom)
    requires ErrorsAnnounceClose(events) && !e.ErrorEvent? && (e.CloseEvent? ==> e.wasClean)
    ensures ErrorsAnnounceClose(events + [e])
  {
    var t := events + [e];
    forall i | 0 <= i < |t|
      ensures t[i].ErrorEvent? <==> BeforeUnclean(t, i)
    {
      if i < |events| {
        assert t[i] == events[i] && (BeforeUnclean(t, i) <==> BeforeUnclean(events, i));
      }
    }
  }

  lemma AnnounceTwo(events: seq<Dom>, close: Dom)
    requires ErrorsAnnounceClose(events) && close.CloseEvent? && !close.wasClean
    ensures ErrorsAnnounceClose(events + [ErrorEvent] + [close])
  {
    var t := events + [ErrorEvent] + [close];
    forall i | 0 <= i < |t|
      ensures t[i].ErrorEvent? <==> BeforeUnclean(t, i)
    {
      if i < |events| {
        assert t[i] == events[i] && (BeforeUnclean(t, i) <==> BeforeUnclean(events, i));
      }
    }
  }

  lemma EventsKept(s: Shim, e: Event)
    requires Enabled(s, e) && LifeInv(s.life) && EventsInv(s.life)
    ensures EventsInv(StepOf(s, e).life)
  {
    hide CloseEvents, ErrorsAnnounceClose;
    var l := s.life;
    assert l.events + [] == l.events;
    match e
    case Established => AnnounceOne(l.events, OpenEvent);
    case ConnectFails =>
      var close := CloseEvent(false, 1006, []);
      AnnounceTwo(l.events, close);
      assert l.events + [ErrorEvent] + [close] == l.events + [ErrorEvent, close];
    case Receive(m) => if m.Some? { AnnounceOne(l.events, MessageEvent(m.value)); }
    case CloseSettles(info) =>
      var t := OnCloseSettles(l, info);
      var close := t.events[|t.events| - 1];
      if close.wasClean { AnnounceOne(l.events, close); } else { AnnounceTwo(l.events, close); }
    case _ =>
  }

  // ----- runs --------------------------------------------------------------------------------------------

  predicate CanRun(s: Shim, events: seq<Event>)
    decreases |events|
  {
    events == [] || (Enabled(s, events[0]) && CanRun(StepOf(s, events[0]), events[1..]))
  }

  function Run(s: Shim, events: seq<Event>): Shim
    decreases |events|
  {
    if events == [] then s else Run(StepOf(s, events[0]), events[1..])
  }

  ghost predicate Inv(s: Shim) { LifeInv(s.life) && EventsInv(s.life) && OutInv(s.out) }

  /** Every run keeps the invariants; the ready state never goes back and dispatched events stay. */
  lemma {:induction false} RunKeeps(s: Shim, events: seq<Event>)
    requires Inv(s) && CanRun(s, events)
    ensures Inv(Run(s, events))
    ensures s.life.ready.Rank() <= Run(s, events).life.ready.Rank() && s.life.events <= Run(s, events).life.events
    decreases |events|
  {
    hide LifeInv, EventsInv, OutInv, StepOf, Enabled;
    if events != [] {
      LifeKept(s, events[0]);
      EventsKept(s, events[0]);
      OutKept(s, events[0]);
      RunKeeps(StepOf(s, events[0]), events[1..]);
    }
  }

  lemma StartKeeps()
    ensures Inv(Start)
  {
  }

  /** In every run: `bufferedAmount` is the bytes of the unsettled sends plus those discarded outside OPEN;
      the WIT sends are issued in `send` order, one at a time, and every send that left the chain was issued
      unless its Blob could not be read. */
  lemma SendsInEveryRun(events: seq<Event>)
    requires CanRun(Start, events)
    ensures var o := Run(Start, events).out;
            && o.buffered == Unsettled(o.queue) + o.discarded
            && Increasing(o.issued)
            && (forall i :: 0 <= i < |o.queue| ==> o.queue[i].id == o.made - |o.queue| + i)
            && (forall id: nat :: id < o.made - |o.queue| ==> id in o.issued || id in o.unread)
            && (forall x <- o.issued :: x < o.made - |o.queue| || (x == o.made - |o.queue| && o.head.Sending?))
  {
    hide Run, Inv;
    StartKeeps();
    RunKeeps(Start, events);
    OutSays(Run(Start, events));
  }

  lemma OutSays(s: Shim)
    requires Inv(s)
    ensures s.out.buffered == Unsettled(s.out.queue) + s.out.discarded && Increasing(s.out.issued)
    ensures forall i :: 0 <= i < |s.out.queue| ==> s.out.queue[i].id == s.out.made - |s.out.queue| + i
    ensures forall id: nat :: id < s.out.made - |s.out.queue| ==> id in s.out.issued || id in s.out.unread
    ensures forall x <- s.out.issued ::
              x < s.out.made - |s.out.queue| || (x == s.out.made - |s.out.queue| && s.out.head.Sending?)
  {
    hide LifeInv, EventsInv;
  }

  /** In every run: exactly one close event was dispatched once the connection settled or failed, none before;
      an open event comes first if at all, an error event exactly before an unclean close event; a connection closed
      before its handshake settled never opened, got no message and did not close clean; the host's `close` was
      called at most once, with arguments it takes. */
  lemma ClosesInEveryRun(events: seq<Event>)
    requires CanRun(Start, events)
    ensures var l := Run(Start, events).life;
            && CloseEvents(l.events) == (if l.ready.CLOSED? then 1 else 0)
            && (l.ready.CLOSED? <==> !l.connecting && l.settling.None?)
            && (forall i :: 1 <= i < |l.events| ==> !l.events[i].OpenEvent?)
            && ErrorsAnnounceClose(l.events)
            && (l.pendingClose.Some? ==>
                  forall i :: 0 <= i < |l.events| ==>
                    l.events[i].ErrorEvent? || (l.events[i].CloseEvent? && !l.events[i].wasClean))
            && |l.hostCloses| <= 1
            && (forall i :: 0 <= i < |l.hostCloses| ==> CloseArgsOk(l.hostCloses[i].0, l.hostCloses[i].1))
  {
    hide Run, Inv;
    StartKeeps();
    RunKeeps(Start, events);
    LifeSays(Run(Start, events));
    EventsSay(Run(Start, events));
  }

  lemma EventsSay(s: Shim)
    requires Inv(s)
    ensures ErrorsAnnounceClose(s.life.events)
    ensures s.life.pendingClose.Some? ==>
              forall i :: 0 <= i < |s.life.events| ==>
                s.life.events[i].ErrorEvent? || (s.life.events[i].CloseEvent? && !s.life.events[i].wasClean)
  {
    hide LifeInv, OutInv;
  }

  lemma LifeSays(s: Shim)
    requires Inv(s)
    ensures CloseEvents(s.life.events) == (if s.life.ready.CLOSED? then 1 else 0)
    ensures s.life.ready.CLOSED? <==> !s.life.connecting && s.life.settling.None?
    ensures forall i :: 1 <= i < |s.life.events| ==> !s.life.events[i].OpenEvent?
    ensures |s.life.hostCloses| <= 1
    ensures forall i :: 0 <= i < |s.life.hostCloses| ==> CloseArgsOk(s.life.hostCloses[i].0, s.life.hostCloses[i].1)
  {
    hide EventsInv, OutInv;
  }
}
