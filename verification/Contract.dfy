/** The per-connection contract of wit/README.md as a labelled step machine: a refused label is a violation. */
module Contract {
  import opened Types

  datatype Label =
    // What the connection does with the peer's input.
    | Accept(message: Message)       // a data message enters the receivable backlog
    | Overflow(message: Message)     // a data message that does not fit: discarded, the overflow latches
    | Drop(message: Message)         // a data message discarded while closing
    | LatchOverflow                  // the transport rejected a message past its cap
    | Stop                           // the closing procedure of a local close began toward the peer
    | PeerBegan                      // the closing handshake began from the peer's side
    | PeerFrame(info: CloseInfo)     // the peer's close frame was read
    | InputEnds                      // the transport reported its end or an error
    | WriteDied                      // a write failed or stalled: nothing more is written
    | End                            // the inbound queue ended
    | Settle                         // the close outcome was latched
    | Progress(state: WsState)       // the lifecycle advanced
    // What the guest observes.
    | Received(message: Message)
    | ReceiveFailed(error: Error)
    | ClaimOk
    | ClaimFailed(error: Error)
    | StreamItem(message: Message)
    | StreamEnd
    | CloseCalled
    | SendCalled(id: nat)
    | SendRefused(id: nat)           // answered `closed` at the call
    | SendDone(id: nat, result: SendResult)
    | WaitClosed(outcome: Option<CloseInfo>)
    | StateSeen(state: WsState)
  {
    predicate IsInput() {
      match this
      case Accept(_) => true
      case Overflow(_) => true
      case Drop(_) => true
      case LatchOverflow => true
      case Stop => true
      case PeerBegan => true
      case PeerFrame(_) => true
      case InputEnds => true
      case WriteDied => true
      case End => true
      case Settle => true
      case Progress(_) => true
      case _ => false
    }
  }

  datatype State = State(
    accepted: seq<Message>,                // every message that ever entered the backlog
    taken: nat,                            // how many of them were handed out
    stopped: bool,                         // nothing more is accepted
    overflowed: bool,
    broken: bool,                          // nothing more can be written
    localClosed: bool,
    claimed: bool,
    ended: bool,
    peer: Option<CloseInfo>,
    outcome: Option<Option<CloseInfo>>,
    lifecycle: WsState,
    calls: set<nat>,                       // send calls made so far
    inFlight: set<nat>                     // send calls not answered yet
  ) {
    ghost predicate Valid() {
      && taken <= |accepted|
      && inFlight <= calls
      && (ended ==> stopped)
      && (overflowed ==> stopped)
      && (outcome.Some? ==> outcome.value == peer)
    }

    function Backlog(): seq<Message> { if taken <= |accepted| then accepted[taken..] else [] }

    /** The backlog plus the message being handed over: its bytes may still be charged while a
        reader on another thread is between taking it and releasing them. */
    function Charged(): seq<Message> {
      var start := if taken == 0 then 0 else taken - 1;
      if start <= |accepted| then accepted[start..] else []
    }

    predicate Drained() { taken == |accepted| }
  }

  const Init: State :=
    State([], 0, false, false, false, false, false, false, None, None, IsOpen, {}, {})

  function Guard(allowed: bool, next: State): Option<State> {
    if allowed then Some(next) else None
  }

  function Step(limit: nat, s: State, l: Label): (r: Option<State>)
    ensures s.Valid() && r.Some? ==> r.value.Valid()
  {
    if l.IsInput() then InputStep(limit, s, l) else ObservedStep(s, l)
  }

  function InputStep(limit: nat, s: State, l: Label): (r: Option<State>)
    ensures s.Valid() && r.Some? ==> r.value.Valid()
  {
    match l
    case Accept(m) =>
      Guard(!s.stopped && Bytes(s.Backlog()) + m.Size() <= limit, s.(accepted := s.accepted + [m]))
    case Overflow(m) =>
      Guard(!s.stopped && Bytes(s.Charged()) + m.Size() > limit, s.(stopped := true, overflowed := true))
    case Drop(_) => Guard(s.stopped, s)
    case LatchOverflow => Guard(!s.ended, s.(stopped := true, overflowed := true))
    case Stop => Guard(s.localClosed || s.stopped, s.(stopped := true))
    case PeerBegan => Some(s.(stopped := true))
    case PeerFrame(info) =>
      Guard(s.outcome.None?, s.(stopped := true, peer := if s.peer.None? then Some(info) else s.peer))
    case InputEnds => Some(s.(stopped := true))
    case WriteDied => Some(s.(broken := true))
    case End => Guard(MayEnd(s), s.(stopped := true, ended := true))
    case Settle => Guard(s.outcome.None?, s.(outcome := Some(s.peer)))
    case Progress(next) => Some(s.(lifecycle := s.lifecycle.Advance(next)))
    case _ => None
  }

  function ObservedStep(s: State, l: Label): (r: Option<State>)
    ensures s.Valid() && r.Some? ==> r.value.Valid()
  {
    match l
    case Received(m) => Guard(!s.localClosed && !s.claimed && Next(s, m), s.(taken := s.taken + 1))
    case StreamItem(m) => Guard(!s.localClosed && s.claimed && Next(s, m), s.(taken := s.taken + 1))
    case ReceiveFailed(e) => Guard(ReadFails(s, e), s)
    case StreamEnd =>
      Guard(s.claimed && (s.localClosed || (s.Drained() && (s.ended || s.overflowed))), s)
    case ClaimOk => Guard(!s.localClosed && !s.claimed, s.(claimed := true))
    case ClaimFailed(e) =>
      Guard((e.Closed? && s.localClosed) || (e.ReceivingViaStream? && !s.localClosed && s.claimed), s)
    case CloseCalled =>
      Guard(!s.localClosed, s.(localClosed := true, lifecycle := s.lifecycle.Advance(IsClosing)))
    case SendCalled(id) =>
      Guard(!s.localClosed && id !in s.calls, s.(calls := s.calls + {id}, inFlight := s.inFlight + {id}))
    case SendRefused(id) => Guard((s.localClosed || s.stopped) && id !in s.calls, s.(calls := s.calls + {id}))
    case SendDone(id, _) => Guard(id in s.inFlight, s.(inFlight := s.inFlight - {id}))
    case WaitClosed(v) => Guard(s.outcome == Some(v), s)
    case StateSeen(state) => Guard(state == s.lifecycle, s)
    case _ => None
  }

  /** When a `receive` may fail, and with which error. */
  predicate ReadFails(s: State, e: Error) {
    match e
    case Closed => s.localClosed || (s.Drained() && s.ended && !s.overflowed)
    case ReceiveBufferOverflow => !s.localClosed && s.Drained() && s.overflowed
    case ReceivingViaStream => s.claimed
    case _ => false
  }

  /** The queue never ends without a cause. */
  predicate MayEnd(s: State) { s.stopped || s.broken || s.localClosed }

  predicate Next(s: State, m: Message) { s.taken < |s.accepted| && s.accepted[s.taken] == m }

  function Exec(limit: nat, s: State, ls: seq<Label>): (r: Option<State>)
    ensures s.Valid() && r.Some? ==> r.value.Valid()
    decreases |ls|
  {
    if ls == [] then Some(s)
    else
      var next := Step(limit, s, ls[0]);
      if next.None? then None else Exec(limit, next.value, ls[1..])
  }

  /** Whether a label sequence is a run of the contract. */
  ghost predicate Allowed(limit: nat, ls: seq<Label>) { Exec(limit, Init, ls).Some? }

  lemma {:induction false} ExecConcat(limit: nat, s: State, a: seq<Label>, b: seq<Label>)
    requires s.Valid()
    ensures Exec(limit, s, a + b)
         == (var mid := Exec(limit, s, a); if mid.None? then None else Exec(limit, mid.value, b))
    decreases |a|
  {
    hide Step;
    if a == [] {
      assert a + b == b;
    } else {
      assert (a + b)[0] == a[0] && (a + b)[1..] == a[1..] + b;
      var next := Step(limit, s, a[0]);
      if next.Some? {
        ExecConcat(limit, next.value, a[1..], b);
      }
    }
  }

  /** The labels that need no message, one by one. */
  lemma PlainSteps(limit: nat, s: State, state: WsState)
    requires s.Valid()
    ensures s.localClosed || s.stopped ==> Step(limit, s, Stop) == Some(s.(stopped := true))
    ensures Step(limit, s, PeerBegan) == Some(s.(stopped := true))
    ensures Step(limit, s, InputEnds) == Some(s.(stopped := true))
    ensures Step(limit, s, WriteDied) == Some(s.(broken := true))
    ensures MayEnd(s) ==> Step(limit, s, End) == Some(s.(stopped := true, ended := true))
    ensures s.outcome.None? ==> Step(limit, s, Settle) == Some(s.(outcome := Some(s.peer)))
    ensures !s.ended ==> Step(limit, s, LatchOverflow) == Some(s.(stopped := true, overflowed := true))
    ensures Step(limit, s, Progress(state)) == Some(s.(lifecycle := s.lifecycle.Advance(state)))
  {
  }

  /** Refusals and reports leave the state as it is. */
  lemma ReportSteps(limit: nat, s: State, e: Error)
    requires s.Valid()
    ensures ReadFails(s, e) ==> Step(limit, s, ReceiveFailed(e)) == Some(s)
    ensures s.localClosed ==> Step(limit, s, ClaimFailed(Closed)) == Some(s)
    ensures !s.localClosed && s.claimed ==> Step(limit, s, ClaimFailed(ReceivingViaStream)) == Some(s)
    ensures !s.localClosed && !s.claimed ==> Step(limit, s, ClaimOk) == Some(s.(claimed := true))
    ensures !s.localClosed ==>
              Step(limit, s, CloseCalled) == Some(s.(localClosed := true, lifecycle := s.lifecycle.Advance(IsClosing)))
    ensures s.outcome.Some? ==> Step(limit, s, WaitClosed(s.outcome.value)) == Some(s)
    ensures Step(limit, s, StateSeen(s.lifecycle)) == Some(s)
    ensures s.claimed && (s.localClosed || (s.Drained() && (s.ended || s.overflowed))) ==>
              Step(limit, s, StreamEnd) == Some(s)
  {
  }

  /** What may still be charged covers the backlog. */
  lemma ChargedCoversBacklog(s: State)
    requires s.Valid()
    ensures Bytes(s.Charged()) == Bytes(s.Backlog()) + (if s.taken == 0 then 0 else s.accepted[s.taken - 1].Size())
  {
    if s.taken > 0 {
      assert s.Charged()[1..] == s.Backlog();
    }
  }

  /** A data message that arrives while the backlog is open: accepted when it fits, else the overflow. */
  lemma ArriveSteps(limit: nat, s: State, m: Message)
    requires s.Valid()
    ensures s.stopped ==> Step(limit, s, Drop(m)) == Some(s)
    ensures !s.stopped && Bytes(s.Backlog()) + m.Size() <= limit ==>
              var d := s.(accepted := s.accepted + [m]);
              Step(limit, s, Accept(m)) == Some(d) && d.Valid() && d.Backlog() == s.Backlog() + [m]
    ensures !s.stopped && Bytes(s.Backlog()) + m.Size() > limit ==>
              Step(limit, s, Overflow(m)) == Some(s.(stopped := true, overflowed := true))
  {
    ChargedCoversBacklog(s);
    AcceptGrows(s, m);
    hide Bytes, State.Backlog, State.Charged, State.Valid;
  }

  lemma AcceptGrows(s: State, m: Message)
    requires s.Valid()
    ensures var d := s.(accepted := s.accepted + [m]); d.Valid() && d.Backlog() == s.Backlog() + [m]
  {
  }

  /** An overflow may count the bytes of a message being handed over. */
  lemma OverflowStep(limit: nat, s: State, m: Message)
    requires s.Valid() && !s.stopped && Bytes(s.Charged()) + m.Size() > limit
    ensures Step(limit, s, Overflow(m)) == Some(s.(stopped := true, overflowed := true))
  {
  }

  /** The calls and answers of sends. */
  lemma SendSteps(limit: nat, s: State, id: nat, result: SendResult)
    requires s.Valid()
    ensures !s.localClosed && id !in s.calls ==>
              Step(limit, s, SendCalled(id)) == Some(s.(calls := s.calls + {id}, inFlight := s.inFlight + {id}))
    ensures (s.localClosed || s.stopped) && id !in s.calls ==>
              Step(limit, s, SendRefused(id)) == Some(s.(calls := s.calls + {id}))
    ensures id in s.inFlight ==> Step(limit, s, SendDone(id, result)) == Some(s.(inFlight := s.inFlight - {id}))
  {
  }

  lemma PeerFrameStep(limit: nat, s: State, info: CloseInfo)
    requires s.Valid() && s.outcome.None?
    ensures Step(limit, s, PeerFrame(info))
         == Some(s.(stopped := true, peer := if s.peer.None? then Some(info) else s.peer))
  {
  }

  /** Handing out the next message. */
  lemma TakeSteps(limit: nat, s: State, m: Message)
    requires s.Valid() && Next(s, m) && !s.localClosed
    ensures !s.claimed ==> Step(limit, s, Received(m)) == Some(s.(taken := s.taken + 1))
    ensures s.claimed ==> Step(limit, s, StreamItem(m)) == Some(s.(taken := s.taken + 1))
    ensures var d := s.(taken := s.taken + 1); d.Valid() && d.Backlog() == s.Backlog()[1..] && s.Backlog()[0] == m
  {
  }

  lemma ExecOne(limit: nat, s: State, l: Label)
    requires s.Valid()
    ensures Exec(limit, s, [l]) == Step(limit, s, l)
  {
    hide Step;
    assert [l][1..] == [];
  }

  lemma ExecTwo(limit: nat, s: State, a: Label, b: Label)
    requires s.Valid() && Step(limit, s, a).Some?
    ensures Exec(limit, s, [a, b]) == Step(limit, Step(limit, s, a).value, b)
  {
    hide Step;
    assert [a, b] == [a] + [b];
    ExecOne(limit, s, a);
    ExecConcat(limit, s, [a], [b]);
    ExecOne(limit, Step(limit, s, a).value, b);
  }

  lemma ExecMore(limit: nat, s: State, a: Label, ls: seq<Label>)
    requires s.Valid() && Step(limit, s, a).Some?
    ensures Exec(limit, s, [a] + ls) == Exec(limit, Step(limit, s, a).value, ls)
  {
    hide Step;
    ExecOne(limit, s, a);
    ExecConcat(limit, s, [a], ls);
  }

  // ----- what a run says about its messages --------------------------------------------------------------

  function HandedBy(l: Label): seq<Message> {
    match l
    case Received(m) => [m]
    case StreamItem(m) => [m]
    case _ => []
  }

  function AcceptedBy(l: Label): seq<Message> { if l.Accept? then [l.message] else [] }

  function ArrivedBy(l: Label): seq<Message> {
    match l
    case Accept(m) => [m]
    case Overflow(m) => [m]
    case Drop(m) => [m]
    case _ => []
  }

  /** The messages handed to the guest, by `receive` or by the claimed stream. */
  function Handed(ls: seq<Label>): seq<Message> {
    if ls == [] then [] else HandedBy(ls[0]) + Handed(ls[1..])
  }

  function AcceptedOf(ls: seq<Label>): seq<Message> {
    if ls == [] then [] else AcceptedBy(ls[0]) + AcceptedOf(ls[1..])
  }

  /** The peer's data messages, in the order they were read. */
  function Arrived(ls: seq<Label>): seq<Message> {
    if ls == [] then [] else ArrivedBy(ls[0]) + Arrived(ls[1..])
  }

  /** What a label does to the queue. */
  ghost predicate MovesBy(limit: nat, s: State, l: Label, t: State) {
    && t.accepted == s.accepted + AcceptedBy(l)
    && t.taken == s.taken + |HandedBy(l)|
    && t.taken <= |t.accepted| && t.accepted[s.taken..t.taken] == HandedBy(l)
    && (s.stopped ==> AcceptedBy(l) == [] && t.stopped)
    && (AcceptedBy(l) == ArrivedBy(l) || t.stopped)
    && AcceptedBy(l) <= ArrivedBy(l)
    && (l.Accept? ==> Bytes(s.Backlog()) + l.message.Size() <= limit && HandedBy(l) == [])
  }

  lemma StepIsQueue(limit: nat, s: State, l: Label)
    requires s.Valid() && Step(limit, s, l).Some?
    ensures MovesBy(limit, s, l, Step(limit, s, l).value)
  {
    if l.IsInput() {
      InputIsQueue(limit, s, l);
    } else {
      ObservedIsQueue(limit, s, l);
    }
    hide InputStep, ObservedStep, MovesBy;
  }

  lemma InputIsQueue(limit: nat, s: State, l: Label)
    requires s.Valid() && InputStep(limit, s, l).Some?
    ensures MovesBy(limit, s, l, InputStep(limit, s, l).value)
  {
  }

  lemma ObservedIsQueue(limit: nat, s: State, l: Label)
    requires s.Valid() && ObservedStep(s, l).Some?
    ensures MovesBy(limit, s, l, ObservedStep(s, l).value)
  {
    if HandedBy(l) != [] {
      SliceOne(s.accepted, s.taken);
    }
  }

  lemma SliceOne<T>(whole: seq<T>, i: nat)
    requires i < |whole|
    ensures whole[i..i + 1] == [whole[i]]
  {
  }

  lemma SliceSplit<T>(whole: seq<T>, part: seq<T>, i: nat, j: nat, k: nat)
    requires i <= j <= k <= |whole| && j <= |part| && part <= whole
    ensures whole[i..k] == part[i..j] + whole[j..k]
  {
  }

  /** The backlog is a queue: the handed-out messages continue exactly where the cursor stood. */
  lemma {:induction false} ExecIsQueue(limit: nat, s: State, ls: seq<Label>)
    requires s.Valid() && Exec(limit, s, ls).Some?
    ensures var t := Exec(limit, s, ls).value;
            && t.accepted == s.accepted + AcceptedOf(ls)
            && s.taken <= t.taken
            && t.accepted[s.taken..t.taken] == Handed(ls)
    decreases |ls|
  {
    hide Step;
    if ls != [] {
      StepIsQueue(limit, s, ls[0]);
      var mid := Step(limit, s, ls[0]).value;
      ExecIsQueue(limit, mid, ls[1..]);
      var t := Exec(limit, s, ls).value;
      assert t == Exec(limit, mid, ls[1..]).value;
      assert mid.accepted == s.accepted + AcceptedBy(ls[0]);
      assert t.accepted == s.accepted + (AcceptedBy(ls[0]) + AcceptedOf(ls[1..]));
      SliceSplit(t.accepted, mid.accepted, s.taken, mid.taken, t.taken);
    }
  }

  /** Once stopped, nothing more is accepted. */
  lemma {:induction false} StoppedAcceptsNothing(limit: nat, s: State, ls: seq<Label>)
    requires s.Valid() && s.stopped && Exec(limit, s, ls).Some?
    ensures AcceptedOf(ls) == [] && Exec(limit, s, ls).value.stopped
    decreases |ls|
  {
    hide Step;
    if ls != [] {
      StepIsQueue(limit, s, ls[0]);
      StoppedAcceptsNothing(limit, Step(limit, s, ls[0]).value, ls[1..]);
    }
  }

  lemma {:induction false} AcceptedIsPrefixOfArrived(limit: nat, s: State, ls: seq<Label>)
    requires s.Valid() && Exec(limit, s, ls).Some?
    ensures AcceptedOf(ls) <= Arrived(ls)
    decreases |ls|
  {
    hide Step;
    if ls != [] {
      StepIsQueue(limit, s, ls[0]);
      var step := Step(limit, s, ls[0]);
      if step.value.stopped {
        StoppedAcceptsNothing(limit, step.value, ls[1..]);
      } else {
        AcceptedIsPrefixOfArrived(limit, step.value, ls[1..]);
      }
    }
  }

  /** In-order, exactly-once delivery: what the guest was handed is a prefix of what was accepted,
      which is a prefix of what the peer sent. */
  lemma HandedIsPrefix(limit: nat, ls: seq<Label>)
    requires Allowed(limit, ls)
    ensures Handed(ls) <= AcceptedOf(ls) <= Arrived(ls)
  {
    hide Step;
    ExecIsQueue(limit, Init, ls);
    AcceptedIsPrefixOfArrived(limit, Init, ls);
  }

  // ----- where acceptance ends ---------------------------------------------------------------------------

  /** The labels after which nothing more is accepted. */
  predicate Closes(l: Label) {
    IsOverflow(l) || l.Stop? || l.PeerBegan? || l.PeerFrame? || l.InputEnds? || l.End?
  }

  predicate IsOverflow(l: Label) { l.Overflow? || l.LatchOverflow? }

  /** Where the first of them stands. */
  function FirstClose(ls: seq<Label>): (k: nat)
    ensures k <= |ls| && (k < |ls| ==> Closes(ls[k])) && forall i :: 0 <= i < k ==> !Closes(ls[i])
  {
    if ls == [] || Closes(ls[0]) then 0 else 1 + FirstClose(ls[1..])
  }

  /** What a label does to the latch that ends acceptance. */
  ghost predicate StopsBy(s: State, l: Label, t: State) {
    && (t.stopped <==> s.stopped || Closes(l))
    && (t.broken <==> s.broken || l.WriteDied?)
    && (l.Stop? ==> s.localClosed || s.stopped)
    && (l.End? ==> s.stopped || s.broken || s.localClosed)
    && (t.localClosed <==> s.localClosed || l.CloseCalled?)
    && (!t.stopped ==> AcceptedBy(l) == ArrivedBy(l))
  }

  lemma StepStops(limit: nat, s: State, l: Label)
    requires s.Valid() && Step(limit, s, l).Some?
    ensures StopsBy(s, l, Step(limit, s, l).value)
  {
    if l.IsInput() {
      InputStops(limit, s, l);
    } else {
      ObservedStops(s, l);
    }
    hide InputStep, ObservedStep, StopsBy;
  }

  lemma InputStops(limit: nat, s: State, l: Label)
    requires s.Valid() && InputStep(limit, s, l).Some?
    ensures StopsBy(s, l, InputStep(limit, s, l).value)
  {
  }

  lemma ObservedStops(s: State, l: Label)
    requires s.Valid() && ObservedStep(s, l).Some?
    ensures StopsBy(s, l, ObservedStep(s, l).value)
  {
  }

  lemma {:induction false} AcceptedFrom(limit: nat, s: State, ls: seq<Label>)
    requires s.Valid() && !s.stopped && Exec(limit, s, ls).Some?
    ensures AcceptedOf(ls) == Arrived(ls[..FirstClose(ls)])
    ensures Exec(limit, s, ls).value.stopped <==> FirstClose(ls) < |ls|
    decreases |ls|
  {
    hide Step;
    if ls != [] {
      var l, rest := ls[0], ls[1..];
      var t := Step(limit, s, l).value;
      StepStops(limit, s, l);
      StepIsQueue(limit, s, l);
      if Closes(l) {
        StoppedAcceptsNothing(limit, t, rest);
        ClosingAcceptsNothing(l);
      } else {
        AcceptedFrom(limit, t, rest);
        var upTo := ls[..FirstClose(ls)];
        assert upTo[0] == l && upTo[1..] == rest[..FirstClose(rest)];
      }
    }
  }

  lemma ClosingAcceptsNothing(l: Label)
    requires Closes(l)
    ensures AcceptedBy(l) == []
  {
  }

  /** What is accepted is everything that arrived before the first overflow, begun close, peer close or end,
      and nothing after it. */
  lemma AcceptedExactly(limit: nat, ls: seq<Label>)
    requires Allowed(limit, ls)
    ensures AcceptedOf(ls) == Arrived(ls[..FirstClose(ls)])
  {
    hide Step;
    AcceptedFrom(limit, Init, ls);
  }

  // ----- latches -----------------------------------------------------------------------------------------

  /** Every latch only ever closes, a latched outcome never changes, the lifecycle never regresses. */
  ghost predicate Later(s: State, t: State) {
    && (s.stopped ==> t.stopped) && (s.overflowed ==> t.overflowed)
    && (s.localClosed ==> t.localClosed) && (s.claimed ==> t.claimed) && (s.ended ==> t.ended)
    && (s.outcome.Some? ==> t.outcome == s.outcome)
    && (s.peer.Some? ==> t.peer == s.peer)
    && s.lifecycle.Rank() <= t.lifecycle.Rank()
    && s.calls <= t.calls && t.inFlight * s.calls <= s.inFlight
  }

  /** What a label does to the latches. */
  ghost predicate LatchesBy(s: State, l: Label, t: State) {
    && (t.overflowed <==> s.overflowed || l.Overflow? || l.LatchOverflow?)
    && (t.localClosed <==> s.localClosed || l.CloseCalled?)
    && (t.claimed <==> s.claimed || l.ClaimOk?)
    && (s.ended ==> t.overflowed == s.overflowed)
  }

  lemma StepOnlyAdvances(limit: nat, s: State, l: Label)
    requires s.Valid() && Step(limit, s, l).Some?
    ensures Later(s, Step(limit, s, l).value) && LatchesBy(s, l, Step(limit, s, l).value)
  {
    if l.IsInput() {
      InputOnlyAdvances(limit, s, l);
    } else {
      ObservedOnlyAdvances(s, l);
    }
    hide InputStep, ObservedStep, Later, LatchesBy;
  }

  lemma InputOnlyAdvances(limit: nat, s: State, l: Label)
    requires s.Valid() && InputStep(limit, s, l).Some?
    ensures Later(s, InputStep(limit, s, l).value) && LatchesBy(s, l, InputStep(limit, s, l).value)
  {
    InputLater(limit, s, l);
    InputLatches(limit, s, l);
    hide InputStep, Later, LatchesBy;
  }

  lemma InputLater(limit: nat, s: State, l: Label)
    requires s.Valid() && InputStep(limit, s, l).Some?
    ensures Later(s, InputStep(limit, s, l).value)
  {
  }

  lemma InputLatches(limit: nat, s: State, l: Label)
    requires s.Valid() && InputStep(limit, s, l).Some?
    ensures LatchesBy(s, l, InputStep(limit, s, l).value)
  {
  }

  lemma ObservedOnlyAdvances(s: State, l: Label)
    requires s.Valid() && ObservedStep(s, l).Some?
    ensures Later(s, ObservedStep(s, l).value) && LatchesBy(s, l, ObservedStep(s, l).value)
  {
  }

  lemma LaterTransitive(s: State, t: State, u: State)
    requires s.Valid() && Later(s, t) && Later(t, u)
    ensures Later(s, u)
  {
  }

  lemma {:induction false} ExecOnlyAdvances(limit: nat, s: State, ls: seq<Label>)
    requires s.Valid() && Exec(limit, s, ls).Some?
    ensures Later(s, Exec(limit, s, ls).value)
    decreases |ls|
  {
    hide Step;
    if ls != [] {
      StepOnlyAdvances(limit, s, ls[0]);
      var step := Step(limit, s, ls[0]);
      ExecOnlyAdvances(limit, step.value, ls[1..]);
      LaterTransitive(s, step.value, Exec(limit, s, ls).value);
    }
  }

  /** The state a run is in before its `i`-th label. */
  function At(limit: nat, ls: seq<Label>, i: nat): (s: State)
    requires Allowed(limit, ls) && i <= |ls|
    ensures s.Valid()
  {
    PrefixAllowed(limit, ls, i);
    Exec(limit, Init, ls[..i]).value
  }

  lemma PrefixAllowed(limit: nat, ls: seq<Label>, i: nat)
    requires Allowed(limit, ls) && i <= |ls|
    ensures Allowed(limit, ls[..i])
  {
    hide Step;
    assert ls == ls[..i] + ls[i..];
    ExecConcat(limit, Init, ls[..i], ls[i..]);
  }

  lemma StepAt(limit: nat, ls: seq<Label>, i: nat)
    requires Allowed(limit, ls) && i < |ls|
    ensures Step(limit, At(limit, ls, i), ls[i]) == Some(At(limit, ls, i + 1))
  {
    hide Step;
    PrefixAllowed(limit, ls, i + 1);
    assert ls[..i + 1] == ls[..i] + [ls[i]];
    ExecConcat(limit, Init, ls[..i], [ls[i]]);
    assert [ls[i]][1..] == [];
  }

  lemma LaterAt(limit: nat, ls: seq<Label>, i: nat, j: nat)
    requires Allowed(limit, ls) && i <= j <= |ls|
    ensures Later(At(limit, ls, i), At(limit, ls, j))
  {
    hide Step;
    PrefixAllowed(limit, ls, j);
    assert ls[..j] == ls[..i] + ls[i..j];
    ExecConcat(limit, Init, ls[..i], ls[i..j]);
    ExecOnlyAdvances(limit, At(limit, ls, i), ls[i..j]);
  }

  predicate IsTake(l: Label) { l.Received? || l.StreamItem? }

  /** After a local close nothing is handed out; after a claim no `receive` gets a message; at most
      one claim succeeds; an accepted close is unique. */
  lemma SignalsWin(limit: nat, ls: seq<Label>, i: nat, j: nat)
    requires Allowed(limit, ls) && i < j < |ls|
    ensures ls[i].CloseCalled? ==> !IsTake(ls[j]) && !ls[j].CloseCalled? && !ls[j].ClaimOk? && !ls[j].SendCalled?
    ensures ls[i].ClaimOk? ==> !ls[j].Received? && !ls[j].ClaimOk?
  {
    hide Step;
    StepAt(limit, ls, i);
    StepOnlyAdvances(limit, At(limit, ls, i), ls[i]);
    LaterAt(limit, ls, i + 1, j);
    StepAt(limit, ls, j);
    ObservationState(limit, At(limit, ls, j), ls[j]);
  }

  lemma {:induction false} LatchesMeanLabels(limit: nat, ls: seq<Label>, i: nat)
    requires Allowed(limit, ls) && i <= |ls|
    ensures At(limit, ls, i).overflowed <==> exists k :: 0 <= k < i && IsOverflow(ls[k])
    ensures At(limit, ls, i).localClosed <==> CloseCalled in ls[..i]
    decreases i
  {
    hide Step;
    if i > 0 {
      LatchesMeanLabels(limit, ls, i - 1);
      StepAt(limit, ls, i - 1);
      var s, l := At(limit, ls, i - 1), ls[i - 1];
      StepOnlyAdvances(limit, s, l);
      assert ls[..i] == ls[..i - 1] + [l];
    }
  }

  lemma {:induction false} OverflowSettledAtEnd(limit: nat, ls: seq<Label>, i: nat, j: nat)
    requires Allowed(limit, ls) && i <= j <= |ls| && At(limit, ls, i).ended
    ensures At(limit, ls, j).overflowed == At(limit, ls, i).overflowed
    decreases j - i
  {
    hide Step;
    if i < j {
      OverflowSettledAtEnd(limit, ls, i, j - 1);
      LaterAt(limit, ls, i, j - 1);
      StepAt(limit, ls, j - 1);
      StepOnlyAdvances(limit, At(limit, ls, j - 1), ls[j - 1]);
    }
  }

  predicate IsDrainedRead(l: Label) {
    l == ReceiveFailed(Closed) || l == ReceiveFailed(ReceiveBufferOverflow)
  }

  /** A read, of either kind, that found the end of the queue. */
  predicate FindsEnd(l: Label) { IsDrainedRead(l) || l.StreamEnd? }

  lemma DrainedReadState(limit: nat, s: State, l: Label)
    requires s.Valid() && Step(limit, s, l).Some? && FindsEnd(l) && !s.localClosed
    ensures s.Drained() && s.stopped && (s.ended || s.overflowed)
    ensures IsDrainedRead(l) ==> l == ReceiveFailed(if s.overflowed then ReceiveBufferOverflow else Closed)
  {
  }

  lemma NothingAfterDrained(limit: nat, s: State, ls: seq<Label>)
    requires s.Valid() && Exec(limit, s, ls).Some? && s.Drained() && s.stopped
    ensures AcceptedOf(ls) == [] && Handed(ls) == []
  {
    hide Step;
    ExecIsQueue(limit, s, ls);
    StoppedAcceptsNothing(limit, s, ls);
  }

  lemma AllHanded(limit: nat, ls: seq<Label>)
    requires Allowed(limit, ls) && Exec(limit, Init, ls).value.Drained()
    ensures Handed(ls) == AcceptedOf(ls)
  {
    hide Step;
    ExecIsQueue(limit, Init, ls);
    var t := Exec(limit, Init, ls).value;
    assert t.accepted[..|t.accepted|] == t.accepted;
  }

  /** A read or stream that found the end of the queue without a local close has seen the whole accepted log:
      nothing is accepted or handed out at any later point of the run. */
  lemma {:induction false} DrainedReadSawEverything(limit: nat, ls: seq<Label>, i: nat)
    requires Allowed(limit, ls) && i < |ls| && FindsEnd(ls[i])
    requires CloseCalled !in ls[..i]
    ensures Handed(ls) == Handed(ls[..i]) == AcceptedOf(ls[..i]) == AcceptedOf(ls)
    ensures ls[i].ReceiveFailed? ==>
              (ls[i].error == ReceiveBufferOverflow <==> exists k :: 0 <= k < i && IsOverflow(ls[k]))
  {
    hide Step;
    StepAt(limit, ls, i);
    LatchesMeanLabels(limit, ls, i);
    var s := At(limit, ls, i);
    DrainedReadState(limit, s, ls[i]);
    var before, after := ls[..i], ls[i..];
    assert ls == before + after;
    ExecConcat(limit, Init, before, after);
    AllHanded(limit, before);
    NothingAfterDrained(limit, s, after);
    AcceptedConcat(before, after);
    HandedConcat(before, after);
  }

  /** What ends acceptance when no local close does: an overflow, the peer, the transport's end, or a queue
      that ended after a write failed. */
  predicate Caused(ls: seq<Label>, k: nat)
    requires k < |ls|
  {
    || IsOverflow(ls[k]) || ls[k].PeerBegan? || ls[k].PeerFrame? || ls[k].InputEnds?
    || (ls[k].End? && WriteDied in ls[..k])
  }

  lemma {:induction false} StoppedMeansLabel(limit: nat, ls: seq<Label>, i: nat)
    requires Allowed(limit, ls) && i <= |ls|
    ensures At(limit, ls, i).stopped <==> FirstClose(ls) < i
    ensures At(limit, ls, i).broken <==> WriteDied in ls[..i]
    decreases i
  {
    hide Step;
    if i > 0 {
      StoppedMeansLabel(limit, ls, i - 1);
      StepAt(limit, ls, i - 1);
      StepStops(limit, At(limit, ls, i - 1), ls[i - 1]);
      assert ls[..i] == ls[..i - 1] + [ls[i - 1]];
    }
  }

  /** Without a local close, acceptance ends for a cause. */
  lemma {:induction false} AcceptanceEndsForACause(limit: nat, ls: seq<Label>)
    requires Allowed(limit, ls) && FirstClose(ls) < |ls| && CloseCalled !in ls[..FirstClose(ls)]
    ensures Caused(ls, FirstClose(ls))
  {
    hide Step;
    var k := FirstClose(ls);
    StoppedMeansLabel(limit, ls, k);
    LatchesMeanLabels(limit, ls, k);
    StepAt(limit, ls, k);
    StepStops(limit, At(limit, ls, k), ls[k]);
  }

  /** Exactly what is delivered: once a read or the stream found the end, with no local close, the messages
      handed out are all that arrived before acceptance ended, and it ended for a cause. */
  lemma {:induction false} EndMeansAllDelivered(limit: nat, ls: seq<Label>, i: nat)
    requires Allowed(limit, ls) && i < |ls| && FindsEnd(ls[i])
    requires CloseCalled !in ls[..i]
    ensures FirstClose(ls) < i && Caused(ls, FirstClose(ls))
    ensures Handed(ls) == Arrived(ls[..FirstClose(ls)])
  {
    hide Step;
    StepAt(limit, ls, i);
    LatchesMeanLabels(limit, ls, i);
    DrainedReadState(limit, At(limit, ls, i), ls[i]);
    StoppedMeansLabel(limit, ls, i);
    assert ls[..FirstClose(ls)] <= ls[..i];
    AcceptanceEndsForACause(limit, ls);
    DrainedReadSawEverything(limit, ls, i);
    AcceptedExactly(limit, ls);
  }

  /** Every later read, absent a local close and a claim report, reports the same error. */
  lemma DrainedReadsAgree(limit: nat, ls: seq<Label>, i: nat, j: nat)
    requires Allowed(limit, ls) && i < j < |ls| && IsDrainedRead(ls[i]) && IsDrainedRead(ls[j])
    requires CloseCalled !in ls[..j]
    ensures ls[j] == ls[i]
  {
    hide Step;
    assert ls[..i] <= ls[..j];
    StepAt(limit, ls, i);
    StepAt(limit, ls, j);
    LatchesMeanLabels(limit, ls, i);
    LatchesMeanLabels(limit, ls, j);
    DrainedReadState(limit, At(limit, ls, i), ls[i]);
    DrainedReadState(limit, At(limit, ls, j), ls[j]);
    if !At(limit, ls, i).overflowed {
      OverflowSettledAtEnd(limit, ls, i, j);
    }
  }

  lemma {:induction false} AcceptedConcat(a: seq<Label>, b: seq<Label>)
    ensures AcceptedOf(a + b) == AcceptedOf(a) + AcceptedOf(b)
  {
    if a == [] {
      assert a + b == b;
    } else {
      assert (a + b)[0] == a[0] && (a + b)[1..] == a[1..] + b;
      AcceptedConcat(a[1..], b);
    }
  }

  lemma {:induction false} HandedConcat(a: seq<Label>, b: seq<Label>)
    ensures Handed(a + b) == Handed(a) + Handed(b)
  {
    if a == [] {
      assert a + b == b;
    } else {
      assert (a + b)[0] == a[0] && (a + b)[1..] == a[1..] + b;
      HandedConcat(a[1..], b);
    }
  }

  // ----- the close outcome -------------------------------------------------------------------------------

  /** The first close frame of the peer read before the outcome settled. */
  function FirstFrame(ls: seq<Label>): Option<CloseInfo> {
    if ls == [] || ls[0].Settle? then None
    else if ls[0].PeerFrame? then Some(ls[0].info)
    else FirstFrame(ls[1..])
  }

  lemma {:induction false} OutcomeIsFirstFrame(limit: nat, s: State, ls: seq<Label>)
    requires s.Valid() && s.outcome.None? && Exec(limit, s, ls).Some?
    requires Exec(limit, s, ls).value.outcome.Some?
    ensures Exec(limit, s, ls).value.outcome.value == if s.peer.Some? then s.peer else FirstFrame(ls)
    decreases |ls|
  {
    hide Step;
    var l := ls[0];
    var step := Step(limit, s, l);
    StepSettles(limit, s, l);
    if l.Settle? {
      ExecOnlyAdvances(limit, step.value, ls[1..]);
    } else {
      OutcomeIsFirstFrame(limit, step.value, ls[1..]);
    }
  }

  /** What a settled, a lifecycle or a send observation says about the state it is made in. */
  lemma ObservationState(limit: nat, s: State, l: Label)
    requires s.Valid() && Step(limit, s, l).Some?
    ensures l.WaitClosed? ==> s.outcome == Some(l.outcome)
    ensures l.StateSeen? ==> s.lifecycle == l.state
    ensures l.SendCalled? ==> !s.localClosed
    ensures l.SendDone? || l.SendRefused? ==> var t := Step(limit, s, l).value; l.id in t.calls && l.id !in t.inFlight
    ensures l.SendDone? ==> l.id in s.inFlight
    ensures l.SendRefused? ==> l.id !in s.calls
    ensures s.localClosed ==> !IsTake(l) && !l.CloseCalled? && !l.ClaimOk? && !l.SendCalled?
    ensures s.claimed ==> !l.Received? && !l.ClaimOk?
  {
  }

  /** What a label does to the outcome and the peer's frame. */
  ghost predicate SettlesBy(s: State, l: Label, t: State) {
    && t.outcome == (if l.Settle? then Some(s.peer) else None)
    && t.peer == (if l.PeerFrame? && s.peer.None? then Some(l.info) else s.peer)
  }

  lemma StepSettles(limit: nat, s: State, l: Label)
    requires s.Valid() && s.outcome.None? && Step(limit, s, l).Some?
    ensures SettlesBy(s, l, Step(limit, s, l).value)
  {
    if l.IsInput() {
      InputSettles(limit, s, l);
    } else {
      ObservedSettles(s, l);
    }
    hide InputStep, ObservedStep, SettlesBy;
  }

  lemma InputSettles(limit: nat, s: State, l: Label)
    requires s.Valid() && s.outcome.None? && InputStep(limit, s, l).Some?
    ensures SettlesBy(s, l, InputStep(limit, s, l).value)
  {
  }

  lemma ObservedSettles(s: State, l: Label)
    requires s.Valid() && s.outcome.None? && ObservedStep(s, l).Some?
    ensures SettlesBy(s, l, ObservedStep(s, l).value)
  {
  }

  /** `wait-closed` yields one value for the whole run: the first close frame read before the outcome
      settled, else none, whatever frames, closes and timers come later. */
  lemma {:induction false} WaitClosedIsLatched(limit: nat, ls: seq<Label>, i: nat)
    requires Allowed(limit, ls) && i < |ls| && ls[i].WaitClosed?
    ensures ls[i].outcome == FirstFrame(ls)
  {
    hide Step;
    StepAt(limit, ls, i);
    ObservationState(limit, At(limit, ls, i), ls[i]);
    LaterAt(limit, ls, i, |ls|);
    assert ls[..|ls|] == ls;
    OutcomeIsFirstFrame(limit, Init, ls);
  }

  /** Reported states never move backwards. */
  lemma StatesNeverRegress(limit: nat, ls: seq<Label>, i: nat, j: nat)
    requires Allowed(limit, ls) && i < j < |ls| && ls[i].StateSeen? && ls[j].StateSeen?
    ensures ls[i].state.Rank() <= ls[j].state.Rank()
  {
    hide Step;
    StepAt(limit, ls, i);
    StepAt(limit, ls, j);
    ObservationState(limit, At(limit, ls, i), ls[i]);
    ObservationState(limit, At(limit, ls, j), ls[j]);
    LaterAt(limit, ls, i, j);
  }

  // ----- sends -------------------------------------------------------------------------------------------

  /** Each send call is answered at most once. */
  lemma SendsAnsweredOnce(limit: nat, ls: seq<Label>, i: nat, j: nat)
    requires Allowed(limit, ls) && i < j < |ls|
    requires ls[i].SendDone? || ls[i].SendRefused?
    requires ls[j].SendDone? || ls[j].SendRefused?
    ensures ls[i].id != ls[j].id
  {
    hide Step;
    StepAt(limit, ls, i);
    LaterAt(limit, ls, i + 1, j);
    StepAt(limit, ls, j);
    ObservationState(limit, At(limit, ls, i), ls[i]);
    ObservationState(limit, At(limit, ls, j), ls[j]);
    LaterAt(limit, ls, i, j);
  }

  /** No send is answered anything but `closed`. */
  predicate AnswersClosed(ls: seq<Label>) { forall l <- ls :: l.SendDone? ==> l.result == Failed(Closed) }

  /** What a label does to the sends in flight. */
  ghost predicate FliesBy(s: State, l: Label, t: State, id: nat) {
    id in t.inFlight ==> id in s.inFlight || l == SendCalled(id)
  }

  lemma StepInFlight(limit: nat, s: State, l: Label, id: nat)
    requires s.Valid() && Step(limit, s, l).Some? && id in Step(limit, s, l).value.inFlight
    ensures id in s.inFlight || l == SendCalled(id)
  {
    if l.IsInput() {
      InputInFlight(limit, s, l, id);
    } else {
      ObservedInFlight(s, l, id);
    }
    hide InputStep, ObservedStep;
  }

  lemma InputInFlight(limit: nat, s: State, l: Label, id: nat)
    requires s.Valid() && InputStep(limit, s, l).Some?
    ensures FliesBy(s, l, InputStep(limit, s, l).value, id)
  {
  }

  lemma ObservedInFlight(s: State, l: Label, id: nat)
    requires s.Valid() && ObservedStep(s, l).Some?
    ensures FliesBy(s, l, ObservedStep(s, l).value, id)
  {
  }

  lemma {:induction false} InFlightWasCalled(limit: nat, ls: seq<Label>, i: nat, id: nat)
    requires Allowed(limit, ls) && i <= |ls| && id in At(limit, ls, i).inFlight
    ensures exists k :: 0 <= k < i && ls[k] == SendCalled(id)
    decreases i
  {
    hide Step;
    if i > 0 {
      StepAt(limit, ls, i - 1);
      var s, l := At(limit, ls, i - 1), ls[i - 1];
      StepInFlight(limit, s, l, id);
      if id in s.inFlight {
        InFlightWasCalled(limit, ls, i - 1, id);
      }
    }
  }

  /** Only a call made before any local close can succeed; every other call was refused outright. */
  lemma SentWasCalledBeforeClose(limit: nat, ls: seq<Label>, i: nat)
    requires Allowed(limit, ls) && i < |ls| && ls[i].SendDone?
    ensures exists k :: 0 <= k < i && ls[k] == SendCalled(ls[i].id) && CloseCalled !in ls[..k]
  {
    hide Step;
    StepAt(limit, ls, i);
    ObservationState(limit, At(limit, ls, i), ls[i]);
    InFlightWasCalled(limit, ls, i, ls[i].id);
    var k :| 0 <= k < i && ls[k] == SendCalled(ls[i].id);
    StepAt(limit, ls, k);
    ObservationState(limit, At(limit, ls, k), ls[k]);
    LatchesMeanLabels(limit, ls, k);
  }

  /** What the guest was not handed yet, counting the last message handed out. */
  function NotYetReleased(ls: seq<Label>): seq<Message> {
    var n := |Handed(ls)|;
    var start := if n == 0 then 0 else n - 1;
    if start <= |AcceptedOf(ls)| then AcceptedOf(ls)[start..] else []
  }

  /** An overflow is shown only when the backlog, the message being handed over and the new one together exceed
      the bound; a message is accepted only when it fits beside the backlog. */
  lemma OverflowMeansFull(limit: nat, ls: seq<Label>, i: nat)
    requires Allowed(limit, ls) && i < |ls|
    ensures ls[i].Overflow? ==> Bytes(NotYetReleased(ls[..i])) + ls[i].message.Size() > limit
    ensures ls[i].Accept? ==>
              && |Handed(ls[..i])| <= |AcceptedOf(ls[..i])|
              && Bytes(AcceptedOf(ls[..i])[|Handed(ls[..i])|..]) + ls[i].message.Size() <= limit
  {
    StepAt(limit, ls, i);
    PrefixAllowed(limit, ls, i);
    var s := At(limit, ls, i);
    hide Step;
    ExecIsQueue(limit, Init, ls[..i]);
    assert s.accepted == AcceptedOf(ls[..i]) && s.taken == |Handed(ls[..i])|;
    ArrivalState(limit, s, ls[i]);
  }

  lemma ArrivalState(limit: nat, s: State, l: Label)
    requires s.Valid() && Step(limit, s, l).Some?
    ensures l.Overflow? ==> Bytes(s.Charged()) + l.message.Size() > limit
    ensures l.Accept? ==> Bytes(s.Backlog()) + l.message.Size() <= limit
  {
  }

  lemma StepBoundsBacklog(limit: nat, s: State, l: Label)
    requires s.Valid() && Step(limit, s, l).Some? && Bytes(s.Backlog()) <= limit
    ensures Bytes(Step(limit, s, l).value.Backlog()) <= limit
  {
    StepIsQueue(limit, s, l);
    var t := Step(limit, s, l).value;
    hide Step;
    if l.Accept? {
      assert t.Backlog() == s.Backlog() + [l.message];
      BytesSnoc(s.Backlog(), l.message);
    } else if |HandedBy(l)| == 1 {
      assert t.Backlog() == s.Backlog()[1..];
    } else {
      assert t.Backlog() == s.Backlog();
    }
  }

  /** The receivable backlog never exceeds the inbound bound. */
  lemma {:induction false} BacklogBounded(limit: nat, ls: seq<Label>, i: nat)
    requires Allowed(limit, ls) && i <= |ls|
    ensures Bytes(At(limit, ls, i).Backlog()) <= limit
    decreases i
  {
    hide Step;
    if i > 0 {
      BacklogBounded(limit, ls, i - 1);
      StepAt(limit, ls, i - 1);
      StepBoundsBacklog(limit, At(limit, ls, i - 1), ls[i - 1]);
    }
  }
}
