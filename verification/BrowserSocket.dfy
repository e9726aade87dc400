/** The standard `WebSocket` class (js/componentize/websocket.js) as an object, proved against its machine. */
module BrowserSocket {
  import opened Types
  import opened BrowserShim
  import opened BrowserEvents

  class WebSocket {
    var out: Out
    var readyState: Ready
    var connecting: bool
    var pendingClose: Option<Args>
    var receiving: bool
    var settling: Option<bool>
    var closeDispatched: bool
    var dispatched: seq<Dom>
    var hostCloses: seq<(Option<nat>, seq<Byte>)>

    ghost function Model(): Shim
      reads this
    {
      Shim(out, Life(readyState, connecting, pendingClose, receiving, settling,
                     closeDispatched, dispatched, hostCloses))
    }

    constructor ()
      ensures Model() == Start
    {
      out := Out(0, [], NotStarted, 0, 0, [], [], []);
      readyState, connecting, pendingClose, receiving, settling := CONNECTING, true, None, false, None;
      closeDispatched, dispatched, hostCloses := false, [], [];
    }

    method Send(m: Message, blob: bool) returns (ok: bool)
      modifies this`out
      ensures Model() == StepOf(old(Model()), Event.Send(m, blob)) && ok == !readyState.CONNECTING?
    {
      if readyState.CONNECTING? {
        return false;
      }
      out := out.(buffered := out.buffered + m.Size());
      if !readyState.OPEN? {
        out := out.(discarded := out.discarded + m.Size());
        return true;
      }
      out := out.(queue := out.queue + [Job(out.made, m, blob)], made := out.made + 1);
      return true;
    }

    method Close(a: Args) returns (ok: bool)
      modifies this`readyState, this`pendingClose, this`hostCloses
      ensures Model() == StepOf(old(Model()), Event.Close(a)) && ok == ShimAccepts(a)
    {
      if a.code.Some? && a.code.value != 1000.0 && !(3000.0 <= a.code.value <= 4999.0) {
        return false;
      }
      if |a.reason| > 123 {
        return false;
      }
      if readyState.CLOSING? || readyState.CLOSED? {
        return true;
      }
      if readyState.CONNECTING? {
        pendingClose := Some(a);
        readyState := CLOSING;
        return true;
      }
      readyState := CLOSING;
      CloseUnderlying(a);
      return true;
    }

    method CloseUnderlying(a: Args)
      modifies this`hostCloses
      ensures hostCloses == old(hostCloses) + [Underlying(a)]
    {
      if |a.reason| > 0 && a.code.None? {
        hostCloses := hostCloses + [(Some(1000), a.reason)];
      } else {
        hostCloses := hostCloses + [(if a.code.None? then None else Some(Truncated(a.code.value)), a.reason)];
      }
    }

    /** The handshake succeeded. */
    method Establish()
      requires connecting
      modifies this
      ensures Model() == StepOf(old(Model()), Established)
    {
      connecting := false;
      if pendingClose.Some? {
        CloseUnderlying(pendingClose.value);
        settling := Some(true);
        return;
      }
      readyState := OPEN;
      dispatched := dispatched + [OpenEvent];
      receiving := true;
      settling := Some(false);
    }

    /** The handshake failed. */
    method Fail()
      requires connecting
      modifies this
      ensures Model() == StepOf(old(Model()), ConnectFails)
    {
      connecting := false;
      readyState := CLOSED;
      if closeDispatched {
        return;
      }
      closeDispatched := true;
      dispatched := dispatched + [ErrorEvent];
      dispatched := dispatched + [CloseEvent(false, 1006, [])];
      assert old(dispatched) + [ErrorEvent] + [CloseEvent(false, 1006, [])]
          == old(dispatched) + [ErrorEvent, CloseEvent(false, 1006, [])];
    }

    /** `wait-closed` resolved. */
    method SettleClose(info: Option<CloseInfo>)
      requires settling.Some?
      modifies this
      ensures Model() == StepOf(old(Model()), CloseSettles(info))
    {
      var failedDuringConnecting := settling.value;
      settling := None;
      readyState := CLOSED;
      if closeDispatched {
        return;
      }
      closeDispatched := true;
      var wasClean := info.Some? && !failedDuringConnecting;
      var code := if info.Some? then info.value.code else 1006;
      var reason := if info.Some? then info.value.reason else [];
      if !wasClean {
        dispatched := dispatched + [ErrorEvent];
      }
      assert old(dispatched) + [] == old(dispatched);
      dispatched := dispatched + [CloseEvent(wasClean, code, reason)];
    }

    /** The chain's next send starts. */
    method StartNext()
      requires out.queue != [] && out.head.NotStarted?
      modifies this`out
      ensures Model() == StepOf(old(Model()), StartHead)
    {
      var job := out.queue[0];
      if job.blob {
        out := out.(head := ReadingBlob);
      } else {
        out := out.(head := Sending, issued := out.issued + [job.id], passed := out.passed + [job.message]);
      }
    }

    method BlobDone(ok: bool)
      requires out.queue != [] && out.head.ReadingBlob?
      modifies this`out
      ensures Model() == StepOf(old(Model()), BlobRead(ok))
    {
      if ok {
        out := out.(head := Sending, issued := out.issued + [out.queue[0].id],
                    passed := out.passed + [out.queue[0].message]);
      } else {
        out := out.(unread := out.unread + [out.queue[0].id]);
        LeaveChain();
      }
    }

    method SendDone()
      requires out.queue != [] && out.head.Sending?
      modifies this`out
      ensures Model() == StepOf(old(Model()), SendSettles)
    {
      LeaveChain();
    }

    method LeaveChain()
      requires out.queue != []
      modifies this`out
      ensures out == Settle(old(out))
    {
      out := out.(buffered := out.buffered - out.queue[0].message.Size());
      out := out.(queue := out.queue[1..], head := NotStarted);
    }

    /** One turn of the receive loop. */
    method ReceiveTurn(message: Option<Message>)
      requires receiving
      modifies this`receiving, this`dispatched
      ensures Model() == StepOf(old(Model()), Receive(message))
    {
      if message.None? {
        receiving := false;
        return;
      }
      dispatched := dispatched + [MessageEvent(message.value)];
    }

    // ----- the schedule ----------------------------------------------------------------------------------

    /** One call of the page, or one turn of the chain, the receive loop or the handshake. */
    method Turn(e: Event)
      requires Enabled(Model(), e)
      modifies this
      ensures Model() == StepOf(old(Model()), e)
    {
      match e
      case Send(m, blob) => var ok := Send(m, blob);
      case Close(args) => var ok := Close(args);
      case Established => Establish();
      case ConnectFails => Fail();
      case StartHead => StartNext();
      case BlobRead(ok) => BlobDone(ok);
      case SendSettles => SendDone();
      case Receive(message) => ReceiveTurn(message);
      case CloseSettles(info) => SettleClose(info);
    }

    /** For every schedule the object is where the machine is; from the start, what it counts, issues, dispatches and
        passes down is what the schedule calls for. */
    method Drive(schedule: seq<Event>)
      requires CanRun(Model(), schedule)
      modifies this
      ensures Model() == Run(old(Model()), schedule)
      ensures old(Model()) == Start ==>
                && out.buffered == Unsettled(out.queue) + Discarded(schedule) && Increasing(out.issued)
                && CloseEvents(dispatched) == (if readyState.CLOSED? then 1 else 0) && ErrorsAnnounceClose(dispatched)
                && readyState == StateOf(Tell(schedule)) && (forall d <- dispatched :: TellsEnding(d, Tell(schedule)))
                && Shown(dispatched) == Received(schedule) && ClosesPassed(hostCloses, Tell(schedule))
    {
      hide StepOf, Enabled;
      ghost var start := Model();
      var i := 0;
      while i < |schedule|
        invariant i <= |schedule| && CanRun(Model(), schedule[i..])
        invariant Run(Model(), schedule[i..]) == Run(start, schedule)
      {
        assert schedule[i..][0] == schedule[i] && schedule[i..][1..] == schedule[i + 1..];
        Turn(schedule[i]);
        i := i + 1;
      }
      assert schedule[i..] == [];
      if start == Start {
        SendsInEveryRun(schedule);
        ClosesInEveryRun(schedule);
        EventsInEveryRun(schedule);
        DataInEveryRun(schedule);
      }
    }
  }
}
