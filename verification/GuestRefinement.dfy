/** Every run of the in-guest pump, as the guest observes it, is a run of the contract.

    The relation is the reference pump's, split by what the steps of the two tasks touch: the queue, the latch that
    ends acceptance, the shared cells, and the pending sends. The command task's steps only answer sends and stop; the
    reader's deliver, end the input and finalize; a flush of either shows at most that the write half died. A run is
    then the concatenation of its steps. */
module GuestRefinement {
  import opened Types
  import opened CallIds
  import opened Contract
  import opened GuestPump
  import opened GuestInvariants
  import opened GuestSends
  import opened GuestTime

  ghost predicate QueueRel(q: Inbound, cells: Cells, c: State) {
    && c.Backlog() == q.queue
    && c.overflowed == q.overflowed
    && c.ended == q.ended
    && c.localClosed == cells.localClosed
    && c.claimed == cells.claimed
  }

  ghost predicate StopRel(s: Provider, c: State) {
    && (s.wire.wireClosing ==> c.stopped)
    && (c.stopped ==> s.wire.wireClosing || s.inbound.overflowed || s.reader.ReaderDone?)
    && (s.wire.writeDead ==> c.broken)
  }

  ghost predicate CellsRel(cells: Cells, c: State) {
    c.peer == cells.peerFrame && c.outcome == cells.closeInfo && c.lifecycle == cells.lifecycle
  }

  ghost predicate SendRel(s: Provider, c: State) {
    (forall id <- c.calls :: id < s.calls.made) && c.inFlight == IdSet(Pending(s))
  }

  ghost predicate Rel(s: Provider, c: State) {
    c.Valid() && QueueRel(s.inbound, s.cells, c) && StopRel(s, c) && CellsRel(s.cells, c) && SendRel(s, c)
  }

  /** The labels of a step lead the contract to a related state. */
  ghost predicate Matches(cfg: Config, c: State, out: Outcome) {
    var next := Exec(cfg.limit, c, out.1);
    next.Some? && Rel(out.0, next.value)
  }

  lemma MatchesOne(cfg: Config, c: State, d: State, t: Provider, l: Label)
    requires c.Valid() && Step(cfg.limit, c, l) == Some(d) && Rel(t, d)
    ensures Matches(cfg, c, (t, [l]))
  {
    hide Step, Rel;
    ExecOne(cfg.limit, c, l);
  }

  lemma {:induction false} MatchesAppend(cfg: Config, c: State, d: State, before: seq<Label>, out: Outcome)
    requires c.Valid() && d.Valid() && Exec(cfg.limit, c, before) == Some(d) && Matches(cfg, d, out)
    ensures Matches(cfg, c, Append(before, out))
  {
    hide Step, Rel;
    ExecConcat(cfg.limit, c, before, out.1);
  }

  lemma PendingIncreasing(s: Provider)
    requires OrderInv(s)
    ensures Increasing(Pending(s), s.calls.made)
  {
    var k := |s.calls.answered|;
    assert forall i :: 0 <= i < |Pending(s)| ==> Pending(s)[i] == s.calls.issued[k + i];
  }

  /** A step that leaves the sends alone. */
  lemma RelParts(s: Provider, c: State, t: Provider, d: State)
    requires SendRel(s, c) && d.calls == c.calls && d.inFlight == c.inFlight
    requires t.cmd == s.cmd && t.calls.cmds == s.calls.cmds && t.calls.made == s.calls.made
    requires d.Valid() && QueueRel(t.inbound, t.cells, d) && StopRel(t, d) && CellsRel(t.cells, d)
    ensures Rel(t, d)
  {
    assert Pending(t) == Pending(s);
  }

  lemma RelValid(s: Provider, c: State)
    requires Rel(s, c)
    ensures c.Valid()
  {
  }

  // ----- the reader task ---------------------------------------------------------------------------------

  /** The contract's state once the reader finalized. */
  function Finalized(c: State): State {
    c.(outcome := Some(c.peer), lifecycle := c.lifecycle.Advance(IsClosed), stopped := true, ended := true)
  }

  lemma FinalizeRel(s: Provider, c: State)
    requires c.Valid() && QueueRel(s.inbound, s.cells, c) && CellsRel(s.cells, c) && SendRel(s, c)
    requires s.wire.writeDead ==> c.broken
    ensures Rel(Finalize(s).0, Finalized(c))
  {
    assert Finalized(c).Backlog() == c.Backlog();
    RelParts(s, c, Finalize(s).0, Finalized(c));
  }

  lemma FinalizeExec(limit: nat, c: State)
    requires c.Valid() && MayEnd(c) && c.outcome.None?
    ensures Exec(limit, c, [Settle, Progress(IsClosed), End]) == Some(Finalized(c))
  {
    var c1 := c.(outcome := Some(c.peer));
    var c2 := c1.(lifecycle := c1.lifecycle.Advance(IsClosed));
    assert c2.lifecycle == c.lifecycle.Advance(IsClosed);
    PlainSteps(limit, c, IsClosed);
    PlainSteps(limit, c1, IsClosed);
    PlainSteps(limit, c2, IsClosed);
    hide Step, Exec, WsState.Advance;
    ExecMore(limit, c, Settle, [Progress(IsClosed), End]);
    ExecTwo(limit, c1, Progress(IsClosed), End);
    assert [Settle] + [Progress(IsClosed), End] == [Settle, Progress(IsClosed), End];
  }

  /** Finalization settles the outcome, advances the state, and ends the queue, in that order. */
  lemma FinalizeMatches(cfg: Config, s: Provider, c: State)
    requires c.Valid() && MayEnd(c) && QueueRel(s.inbound, s.cells, c) && CellsRel(s.cells, c) && SendRel(s, c)
    requires s.cells.closeInfo.None? && (s.wire.writeDead ==> c.broken)
    ensures Matches(cfg, c, Finalize(s))
  {
    FinalizeRel(s, c);
    FinalizeExec(cfg.limit, c);
    hide Exec, Rel;
  }

  /** The transport's end, then finalization. */
  lemma EndOfInputMatches(cfg: Config, s: Provider, c: State)
    requires c.Valid() && QueueRel(s.inbound, s.cells, c) && CellsRel(s.cells, c) && SendRel(s, c)
    requires s.cells.closeInfo.None? && (s.wire.writeDead ==> c.broken)
    ensures Matches(cfg, c, EndOfInput(s))
  {
    var d := c.(stopped := true);
    FinalizeMatches(cfg, s, d);
    PlainSteps(cfg.limit, c, IsClosed);
    hide Finalize, Step, Matches;
    ExecOne(cfg.limit, c, InputEnds);
    MatchesAppend(cfg, c, d, [InputEnds], Finalize(s));
  }

  /** The contract's state after a delivery. */
  function AfterDeliver(c: State, l: Label): State {
    match l
    case Accept(m) => c.(accepted := c.accepted + [m])
    case Overflow(_) => c.(stopped := true, overflowed := true)
    case _ => c
  }

  lemma DeliverMatches(cfg: Config, s: Provider, c: State, m: Message)
    requires Rel(s, c) && QueueOk(cfg, s.inbound) && !s.reader.ReaderDone?
    ensures var (q, l) := Deliver(cfg, s.wire.wireClosing, s.inbound, m);
            Matches(cfg, c, (s.(inbound := q), [l]))
  {
    hide Step;
    var (q, l) := Deliver(cfg, s.wire.wireClosing, s.inbound, m);
    var d := AfterDeliver(c, l);
    ArriveSteps(cfg.limit, c, m);
    assert c.overflowed ==> c.stopped;
    RelParts(s, c, s.(inbound := q), d);
    hide Rel, Deliver;
    MatchesOne(cfg, c, d, s.(inbound := q), l);
  }

  /** The reader's own `begin_close`. */
  lemma ReaderClosesMatches(cfg: Config, s: Provider, c: State, closing: Encoded, thenBreak: bool)
    requires Rel(s, c) && c.stopped && s.cells.closeInfo.None? && s.reader.Draining?
    ensures Matches(cfg, c, ReaderCloses(cfg, s, closing, thenBreak))
  {
    var (w, flush) := BeginClose(cfg, s.now, s.wire, None, closing);
    var d := if s.wire.wireClosing then c else c.(stopped := true);
    var t := s.(wire := w);
    assert w.wireClosing;
    RelParts(s, c, t, d);
    StopLabelsStep(cfg.limit, s.wire, c);
    var out := if flush then (t.(reader := ReaderFlush(WaitLock, thenBreak)), [])
               else if thenBreak then Finalize(t)
               else (t.(reader := Draining), []);
    if flush || !thenBreak {
      RelParts(t, d, out.0, d);
    } else {
      FinalizeMatches(cfg, t, d);
    }
    hide BeginClose, Finalize, Rel, Step;
    MatchesAppend(cfg, c, d, StopLabels(s.wire), out);
  }

  lemma StopLabelsStep(limit: nat, w: Wire, c: State)
    requires c.Valid() && (w.wireClosing ==> c.stopped) && (c.stopped || c.localClosed)
    ensures Exec(limit, c, StopLabels(w)) == Some(if w.wireClosing then c else c.(stopped := true))
  {
    PlainSteps(limit, c, IsClosing);
    hide Step;
    if !w.wireClosing {
      ExecOne(limit, c, Stop);
    }
  }

  lemma ReadMatches(cfg: Config, s: Provider, c: State, step: CoreRead, closing: Encoded)
    requires s.reader.Draining? && Inv(cfg, s) && Rel(s, c)
    ensures Matches(cfg, c, HandleRead(cfg, s, step, closing))
  {
    hide WireInv, BytesInv, OrderInv, TimeInv, Matches, BeginClose, Step;
    match step
    case Data(m) => ReadDataMatches(cfg, s, c, m, closing);
    case PeerClose(frame, reply) => ReadCloseMatches(cfg, s, c, frame, reply);
    case CapacityError => ReadCapacityMatches(cfg, s, c, closing);
    case ReadEnd => EndOfInputMatches(cfg, s, c);
    case _ => ReadQuietMatches(cfg, s, c, step, closing);
  }

  lemma ReadQuietMatches(cfg: Config, s: Provider, c: State, step: CoreRead, closing: Encoded)
    requires s.reader.Draining? && Rel(s, c) && (step.Control? || step.RawFrame? || step.WouldBlock?)
    ensures Matches(cfg, c, HandleRead(cfg, s, step, closing))
  {
    RelParts(s, c, HandleRead(cfg, s, step, closing).0, c);
  }

  lemma ReadDataMatches(cfg: Config, s: Provider, c: State, m: Message, closing: Encoded)
    requires s.reader.Draining? && CellsInv(s) && InboundInv(cfg, s) && Rel(s, c)
    ensures Matches(cfg, c, HandleRead(cfg, s, Data(m), closing))
  {
    var (q, l) := Deliver(cfg, s.wire.wireClosing, s.inbound, m);
    var t := s.(inbound := q);
    DeliverMatches(cfg, s, c, m);
    assert s.cells.closeInfo.None?;
    hide Deliver, Rel, Exec;
    if q.overflowed && !s.wire.wireClosing {
      var d := Exec(cfg.limit, c, [l]).value;
      assert c.Valid() by { RelValid(s, c); }
      assert d.stopped by { OverflowStops(t, d); }
      ReaderClosesMatches(cfg, t, d, closing, false);
      MatchesAppend(cfg, c, d, [l], ReaderCloses(cfg, t, closing, false));
    }
  }

  lemma OverflowStops(s: Provider, c: State)
    requires Rel(s, c) && s.inbound.overflowed
    ensures c.stopped
  {
  }

  lemma ReadCloseMatches(cfg: Config, s: Provider, c: State, frame: Option<CloseInfo>, reply: seq<Byte>)
    requires s.reader.Draining? && CellsInv(s) && Rel(s, c)
    ensures Matches(cfg, c, HandleRead(cfg, s, PeerClose(frame, reply), Refuses(Closed)))
  {
    var info := CloseInfoFrom(frame);
    var t := HandleRead(cfg, s, PeerClose(frame, reply), Refuses(Closed)).0;
    var c1 := c.(stopped := true, peer := if c.peer.None? then Some(info) else c.peer);
    var c2 := c1.(lifecycle := c1.lifecycle.Advance(IsClosing));
    RelParts(s, c, t, c2);
    PeerFrameStep(cfg.limit, c, info);
    PlainSteps(cfg.limit, c1, IsClosing);
    hide Step, Rel;
    ExecTwo(cfg.limit, c, PeerFrame(info), Progress(IsClosing));
  }

  lemma CapacityRel(s: Provider, c: State)
    requires Rel(s, c)
    ensures Rel(s.(inbound := s.inbound.(overflowed := true)), c.(stopped := true, overflowed := true))
  {
    RelParts(s, c, s.(inbound := s.inbound.(overflowed := true)), c.(stopped := true, overflowed := true));
  }

  lemma ReadCapacityMatches(cfg: Config, s: Provider, c: State, closing: Encoded)
    requires s.reader.Draining? && CellsInv(s) && InboundInv(cfg, s) && Rel(s, c)
    ensures Matches(cfg, c, HandleRead(cfg, s, CapacityError, closing))
  {
    assert s.cells.closeInfo.None? && !c.ended;
    hide CellsInv, InboundInv, Rel, Matches, ReaderCloses;
    CapacityMatches(cfg, s, c, closing);
  }

  lemma CapacityMatches(cfg: Config, s: Provider, c: State, closing: Encoded)
    requires s.reader.Draining? && s.cells.closeInfo.None? && !c.ended && Rel(s, c)
    ensures var t := s.(inbound := s.inbound.(overflowed := true));
            Matches(cfg, c, Append([LatchOverflow], ReaderCloses(cfg, t, closing, true)))
  {
    hide Step, Rel, Exec, ReaderCloses, Matches;
    var t, d := s.(inbound := s.inbound.(overflowed := true)), c.(stopped := true, overflowed := true);
    CapacityRel(s, c);
    assert c.Valid() && d.Valid() by { RelValid(s, c); RelValid(t, d); }
    PlainSteps(cfg.limit, c, IsClosing);
    ReaderClosesMatches(cfg, t, d, closing, true);
    ExecOne(cfg.limit, c, LatchOverflow);
    MatchesAppend(cfg, c, d, [LatchOverflow], ReaderCloses(cfg, t, closing, true));
  }

  lemma {:induction false} LastDrainMatches(cfg: Config, s: Provider, c: State, rest: seq<CoreRead>)
    requires s.reader.Selecting? && s.cells.closeInfo.None? && QueueOk(cfg, s.inbound) && Rel(s, c)
    ensures Matches(cfg, c, LastDrain(cfg, s, rest))
    decreases |rest|
  {
    if rest == [] {
      EndOfInputMatches(cfg, s, c);
    } else {
      match rest[0]
      case Data(m) => LastDrainDataMatches(cfg, s, c, m, rest);
      case PeerClose(frame, reply) =>
        LastDrainCloseMatches(cfg, s, c, frame, reply);
      case Control(reply) =>
        var t := s.(wire := CoreWrites(s.wire, reply));
        RelParts(s, c, t, c);
        LastDrainMatches(cfg, t, c, rest[1..]);
      case RawFrame => LastDrainMatches(cfg, s, c, rest[1..]);
      case _ => EndOfInputMatches(cfg, s, c);
    }
  }

  lemma {:induction false} LastDrainDataMatches(cfg: Config, s: Provider, c: State, m: Message, rest: seq<CoreRead>)
    requires s.reader.Selecting? && s.cells.closeInfo.None? && QueueOk(cfg, s.inbound) && Rel(s, c)
    requires rest != [] && rest[0] == Data(m)
    ensures Matches(cfg, c, LastDrain(cfg, s, rest))
    decreases |rest|, 0
  {
    var (q, l) := Deliver(cfg, s.wire.wireClosing, s.inbound, m);
    DeliverMatches(cfg, s, c, m);
    DeliverKeeps(cfg, s.wire.wireClosing, s.inbound, m);
    hide Deliver, Rel, Exec;
    var d := Exec(cfg.limit, c, [l]).value;
    assert c.Valid() by { RelValid(s, c); }
    LastDrainMatches(cfg, s.(inbound := q), d, rest[1..]);
    MatchesAppend(cfg, c, d, [l], LastDrain(cfg, s.(inbound := q), rest[1..]));
  }

  lemma LastDrainCloseMatches(cfg: Config, s: Provider, c: State, frame: Option<CloseInfo>, reply: seq<Byte>)
    requires s.reader.Selecting? && s.cells.closeInfo.None? && Rel(s, c)
    ensures var t := s.(cells := PeerInfo(s.cells, frame), wire := CoreWrites(s.wire, reply));
            Matches(cfg, c, Append([PeerFrame(CloseInfoFrom(frame))], Finalize(t)))
  {
    var info := CloseInfoFrom(frame);
    var t := s.(cells := PeerInfo(s.cells, frame), wire := CoreWrites(s.wire, reply));
    var d := c.(stopped := true, peer := if c.peer.None? then Some(info) else c.peer);
    PeerFrameStep(cfg.limit, c, info);
    assert Pending(t) == Pending(s);
    FinalizeMatches(cfg, t, d);
    hide Step, Rel, Finalize;
    ExecOne(cfg.limit, c, PeerFrame(info));
    MatchesAppend(cfg, c, d, [PeerFrame(info)], Finalize(t));
  }

  // ----- the command task --------------------------------------------------------------------------------

  /** Answering the first pending send. */
  lemma AnswerMatches(cfg: Config, s: Provider, t: Provider, c: State, sending: Sending, result: SendResult)
    requires OrderInv(s) && Rel(s, c) && Pending(s) == [sending.id] + Pending(t)
    requires t.inbound == s.inbound && t.cells == s.cells && t.reader == s.reader
    requires t.wire.wireClosing == s.wire.wireClosing
    requires t.wire.writeDead ==> c.broken
    requires t.calls.made == s.calls.made
    ensures Matches(cfg, c, Answer(t, sending, result))
  {
    PendingIncreasing(s);
    IdSetTail(Pending(s), s.calls.made);
    assert Pending(s)[1..] == Pending(t);
    assert Pending(s)[0] == sending.id;
    SendSteps(cfg.limit, c, sending.id, result);
    var u := Answer(t, sending, result).0;
    assert Pending(u) == Pending(t);
    var d := c.(inFlight := c.inFlight - {sending.id});
    assert Rel(u, d);
    hide Step, Rel;
    MatchesOne(cfg, c, d, u, SendDone(sending.id, result));
  }

  lemma CmdMatches(cfg: Config, s: Provider, c: State, encoded: Encoded)
    requires Enabled(s, TakeCmd(encoded)) && Inv(cfg, s) && Rel(s, c)
    ensures Matches(cfg, c, HandleCmd(cfg, s, encoded))
  {
    hide WireInv, BytesInv, TimeInv, InboundInv, CauseInv, Matches, BeginClose, Answer;
    var t := PopCmd(s);
    assert s.calls.cmds[0] in s.calls.cmds;
    assert s.calls.cmds[0].CloseCmd? ==> s.cells.localClosed;
    hide CellsInv;
    match s.calls.cmds[0]
    case SendCmd(id, _) =>
      var start := |s.wire.written|;
      if s.wire.wireClosing || s.wire.writeDead {
        AnswerMatches(cfg, s, t, c, Sending(id, start, []), Failed(Closed));
      } else if encoded.Refuses? {
        AnswerMatches(cfg, s, t, c, Sending(id, start, []), Failed(encoded.error));
      } else {
        StartSendMatches(cfg, s, c, id, encoded);
      }
    case CloseCmd(_) => CmdCloseMatches(cfg, s, c, encoded);
    case ClaimCmd =>
      assert Pending(t) == Pending(s);
      ClaimCmdMatches(cfg, s, t.(cells := s.cells.(feeder := true)), c);
  }

  lemma ClaimCmdMatches(cfg: Config, s: Provider, t: Provider, c: State)
    requires Rel(s, c) && Pending(t) == Pending(s) && t.calls.made == s.calls.made
    requires t.wire == s.wire && t.inbound == s.inbound && t.reader.ReaderDone? == s.reader.ReaderDone?
    requires t.cells == s.cells.(feeder := t.cells.feeder)
    ensures Matches(cfg, c, (t, []))
  {
  }

  lemma StartSendMatches(cfg: Config, s: Provider, c: State, id: nat, encoded: Encoded)
    requires Rel(s, c) && s.cmd.CmdIdle? && s.calls.cmds != [] && s.calls.cmds[0].SendCmd? && s.calls.cmds[0].id == id
    requires !s.wire.wireClosing && !s.wire.writeDead && encoded.Encodes?
    ensures Matches(cfg, c, HandleCmd(cfg, s, encoded))
  {
    assert Pending(HandleCmd(cfg, s, encoded).0) == Pending(s);
  }

  lemma CmdCloseMatches(cfg: Config, s: Provider, c: State, encoded: Encoded)
    requires Rel(s, c) && s.cmd.CmdIdle? && s.calls.cmds != [] && s.calls.cmds[0].CloseCmd? && s.cells.localClosed
    ensures Matches(cfg, c, HandleCmd(cfg, s, encoded))
  {
    var out := HandleCmd(cfg, s, encoded);
    assert Pending(out.0) == Pending(s);
    var d := if s.wire.wireClosing then c else c.(stopped := true);
    StopLabelsStep(cfg.limit, s.wire, c);
    assert Rel(out.0, d);
    hide Step, Rel;
  }

  lemma LateMatches(cfg: Config, s: Provider, c: State)
    requires Enabled(s, TakeLateCmd) && Inv(cfg, s) && Rel(s, c)
    ensures Matches(cfg, c, HandleLateCmd(s))
  {
    hide WireInv, BytesInv, TimeInv, CellsInv, InboundInv, Matches, Answer;
    var t := PopCmd(s);
    match s.calls.cmds[0]
    case SendCmd(id, _) => AnswerMatches(cfg, s, t, c, Sending(id, |s.wire.written|, []), Failed(Closed));
    case CloseCmd(_) =>
      assert Pending(t) == Pending(s);
      ClaimCmdMatches(cfg, s, t, c);
    case ClaimCmd =>
      assert Pending(t) == Pending(s);
      ClaimCmdMatches(cfg, s, t.(cells := s.cells.(feeder := true)), c);
  }

  lemma FlushMatches(cfg: Config, s: Provider, c: State, who: Who, e: FlushEvent)
    requires Enabled(s, FlushStep(who, e)) && Inv(cfg, s) && Rel(s, c)
    ensures Matches(cfg, c, HandleFlush(cfg, s, who, e))
  {
    hide BytesInv, TimeInv, InboundInv, Matches, Answer, ResumeCmd, ResumeReader;
    LeftOfOne(s, who, e);
    FlushKeeps(cfg, s.now, s.cells.localClosed, s.wire, who, FlushOf(s, who).value, e);
    var (w, out) := FlushNext(cfg, s.now, s.wire, who, FlushOf(s, who).value, e);
    hide FlushNext, WireInv;
    var t := s.(wire := w);
    var d := if w.writeDead && !s.wire.writeDead then c.(broken := true) else c;
    DeathMatches(cfg, s, c, w);
    assert w.writeDead ==> d.broken;
    hide Rel;
    if who.ReaderTask? {
      ResumeReaderMatches(cfg, s, t, d, out);
      MatchesAppend(cfg, c, d, DeathLabels(s.wire, w), ResumeReader(t, out));
    } else {
      ResumeCmdMatches(cfg, s, t, d, out);
      MatchesAppend(cfg, c, d, DeathLabels(s.wire, w), ResumeCmd(t, out));
    }
  }

  /** A write that died, shown. */
  lemma DeathMatches(cfg: Config, s: Provider, c: State, w: Wire)
    requires Rel(s, c)
    ensures var d := if w.writeDead && !s.wire.writeDead then c.(broken := true) else c;
            && c.Valid() && Rel(s, d) && Exec(cfg.limit, c, DeathLabels(s.wire, w)) == Some(d)
            && (s.wire.writeDead ==> d.broken)
  {
    PlainSteps(cfg.limit, c, IsClosed);
    hide Step;
    if w.writeDead && !s.wire.writeDead {
      ExecOne(cfg.limit, c, WriteDied);
    }
  }

  lemma ResumeCmdMatches(cfg: Config, s: Provider, t: Provider, c: State, out: FlushOut)
    requires Rel(s, c) && OrderInv(s) && t == s.(wire := t.wire) && t.wire.wireClosing == s.wire.wireClosing
    requires (t.wire.writeDead ==> c.broken) && (s.cmd.CmdSends? || s.cmd.CmdCloses?)
    ensures Matches(cfg, c, ResumeCmd(t, out))
  {
    hide Answer;
    if out.Returned? && s.cmd.CmdSends? {
      AnswerMatches(cfg, s, t.(cmd := CmdIdle), c, s.cmd.sending, out.result);
    } else {
      assert Pending(ResumeCmd(t, out).0) == Pending(s);
    }
  }

  lemma ResumeReaderMatches(cfg: Config, s: Provider, t: Provider, c: State, out: FlushOut)
    requires Rel(s, c) && t == s.(wire := t.wire) && t.wire.wireClosing == s.wire.wireClosing
    requires s.reader.ReaderFlush? && CellsInv(s) && CauseInv(s) && (t.wire.writeDead ==> c.broken)
    ensures Matches(cfg, c, ResumeReader(t, out))
  {
    if out.Returned? && s.reader.thenBreak {
      assert Pending(t) == Pending(s);
      FinalizeMatches(cfg, t, c);
    } else {
      RelParts(s, c, ResumeReader(t, out).0, c);
    }
  }

  // ----- the guest ---------------------------------------------------------------------------------------

  lemma SendCallMatches(cfg: Config, s: Provider, c: State, m: Message)
    requires Rel(s, c)
    ensures Matches(cfg, c, SendStep(s, m))
  {
    var id := s.calls.made;
    var out := SendStep(s, m);
    SendSteps(cfg.limit, c, id, Sent);
    CmdIdsSnoc(s.calls.cmds, SendCmd(id, m));
    if s.cells.localClosed {
      assert Pending(out.0) == Pending(s);
      MatchesOne(cfg, c, c.(calls := c.calls + {id}), out.0, SendRefused(id));
    } else {
      assert Pending(out.0) == Pending(s) + [id];
      IdSetSnoc(Pending(s), id);
      MatchesOne(cfg, c, c.(calls := c.calls + {id}, inFlight := c.inFlight + {id}), out.0, SendCalled(id));
    }
  }

  lemma CloseMatches(cfg: Config, s: Provider, c: State, code: Option<nat>, reason: seq<Byte>)
    requires Rel(s, c)
    ensures Matches(cfg, c, CloseStep(s, code, reason))
  {
    if CloseArgsOk(code, reason) && !s.cells.localClosed {
      var t, d := CloseStep(s, code, reason).0, c.(localClosed := true, lifecycle := c.lifecycle.Advance(IsClosing));
      CmdIdsSnoc(s.calls.cmds, CloseCmd(FrameFor(code, reason)));
      assert Pending(t) == Pending(s);
      assert Rel(t, d) by { hide Pending, IdSet; }
      ReportSteps(cfg.limit, c, Closed);
      assert !c.localClosed;
      hide Rel, Step;
      MatchesOne(cfg, c, d, t, CloseCalled);
    }
  }

  lemma ClaimMatches(cfg: Config, s: Provider, c: State)
    requires Rel(s, c)
    ensures Matches(cfg, c, ClaimStep(s))
  {
    var t := ClaimStep(s).0;
    var d := c.(claimed := c.claimed || !s.cells.localClosed);
    CmdIdsSnoc(s.calls.cmds, ClaimCmd);
    assert Pending(t) == Pending(s);
    assert Rel(t, d) by { hide Pending, IdSet; }
    assert c.localClosed == s.cells.localClosed && c.claimed == s.cells.claimed;
    ReportSteps(cfg.limit, c, Closed);
    hide Rel, Step;
    if s.cells.localClosed {
      MatchesOne(cfg, c, d, t, ClaimFailed(Closed));
    } else if s.cells.claimed {
      MatchesOne(cfg, c, d, t, ClaimFailed(ReceivingViaStream));
    } else {
      MatchesOne(cfg, c, d, t, ClaimOk);
    }
  }

  /** A step that touches no send, no latch and no queue. */
  lemma RelByCalls(s: Provider, c: State, t: Provider)
    requires Rel(s, c) && t.wire == s.wire && t.inbound == s.inbound && t.cells == s.cells.(feeder := t.cells.feeder)
    requires t.reader.ReaderDone? == s.reader.ReaderDone?
    requires Pending(t) == Pending(s) && t.calls.made == s.calls.made
    ensures Rel(t, c)
  {
  }

  lemma RelByTake(s: Provider, c: State)
    requires Rel(s, c) && s.inbound.queue != []
    ensures Next(c, s.inbound.queue[0]) && Rel(s.(inbound := TakeHead(s.inbound)), c.(taken := c.taken + 1))
  {
    assert c.Backlog()[0] == c.accepted[c.taken];
    var t := s.(inbound := TakeHead(s.inbound));
    assert Pending(t) == Pending(s);
    assert c.accepted[c.taken + 1..] == c.Backlog()[1..];
  }

  lemma ReceiveMatches(cfg: Config, s: Provider, c: State)
    requires Enabled(s, ReceivePoll) && Rel(s, c)
    ensures Matches(cfg, c, ReceiveStep(s))
  {
    var one := s.(calls := s.calls.(pendingReceives := s.calls.pendingReceives - 1));
    assert Pending(one) == Pending(s);
    RelByCalls(s, c, one);
    assert c.localClosed == one.cells.localClosed && c.claimed == one.cells.claimed;
    if !s.cells.claimed && !s.cells.localClosed && s.inbound.queue != [] {
      hide Step;
      RelByTake(one, c);
      TakeSteps(cfg.limit, c, s.inbound.queue[0]);
      hide Rel;
      MatchesOne(cfg, c, c.(taken := c.taken + 1), ReceiveStep(s).0, Received(s.inbound.queue[0]));
    } else if s.cells.claimed || s.cells.localClosed || s.inbound.ended {
      var e := if s.cells.claimed then ReceivingViaStream
               else if s.cells.localClosed then Closed
               else if s.inbound.overflowed then ReceiveBufferOverflow else Closed;
      assert ReadFails(c, e);
      hide Step, Rel;
      ReportSteps(cfg.limit, c, e);
      MatchesOne(cfg, c, c, one, ReceiveFailed(e));
    }
  }

  lemma FeederMatches(cfg: Config, s: Provider, c: State)
    requires Enabled(s, FeederPoll) && CellsInv(s) && Rel(s, c)
    ensures Matches(cfg, c, FeederStep(s))
  {
    if !s.cells.localClosed && s.inbound.queue != [] {
      hide Step;
      RelByTake(s, c);
      TakeSteps(cfg.limit, c, s.inbound.queue[0]);
      hide Rel;
      MatchesOne(cfg, c, c.(taken := c.taken + 1), FeederStep(s).0, StreamItem(s.inbound.queue[0]));
    } else if s.cells.localClosed || s.inbound.ended {
      assert c.claimed && (c.localClosed || (c.Drained() && c.ended));
      var t := FeederStep(s).0;
      assert Pending(t) == Pending(s);
      RelByCalls(s, c, t);
      hide Step, Rel;
      ReportSteps(cfg.limit, c, Closed);
      MatchesOne(cfg, c, c, t, StreamEnd);
    }
  }

  lemma QuietRel(cfg: Config, s: Provider, c: State, e: Event)
    requires e.ReceiveCall? || e.AwaitClosed? || e.ReadState? || e.Tick? || e.SeePumpDone? || e.FeedChunk?
    requires Enabled(s, e) && Rel(s, c)
    ensures Rel(StepOf(cfg, s, e).0, c)
  {
    var t := StepOf(cfg, s, e).0;
    assert Pending(t) == Pending(s);
    RelByCalls(s, c, t);
    hide Rel, Pending;
  }

  lemma QuietMatches(cfg: Config, s: Provider, c: State, e: Event)
    requires e.ReceiveCall? || e.AwaitClosed? || e.ReadState? || e.Tick? || e.SeePumpDone? || e.FeedChunk?
    requires Enabled(s, e) && CellsInv(s) && Rel(s, c)
    ensures Matches(cfg, c, StepOf(cfg, s, e))
  {
    QuietRel(cfg, s, c, e);
    CellsOfRel(s, c);
    QuietShows(cfg, s, e);
    QuietStep(cfg.limit, s, c, e);
    hide Rel, Step, StepOf, Exec, CellsInv, Enabled, QuietLabels, Matches;
    var t := StepOf(cfg, s, e).0;
    if QuietLabels(s, e) == [] {
      MatchesQuietly(cfg, c, t);
    } else {
      MatchesOne(cfg, c, c, t, QuietLabels(s, e)[0]);
      assert StepOf(cfg, s, e).1 == [QuietLabels(s, e)[0]];
    }
  }

  lemma MatchesQuietly(cfg: Config, c: State, t: Provider)
    requires Rel(t, c)
    ensures Matches(cfg, c, (t, []))
  {
    hide Rel;
  }

  lemma QuietStep(limit: nat, s: Provider, c: State, e: Event)
    requires c.Valid() && c.lifecycle == s.cells.lifecycle && c.outcome == s.cells.closeInfo
    requires c.localClosed == s.cells.localClosed && c.claimed == s.cells.claimed
    requires e.AwaitClosed? ==> s.cells.closeInfo == Some(s.cells.peerFrame)
    ensures QuietLabels(s, e) != [] ==> QuietLabels(s, e) == [QuietLabels(s, e)[0]]
    ensures QuietLabels(s, e) != [] ==> Step(limit, c, QuietLabels(s, e)[0]) == Some(c)
  {
    ReportSteps(limit, c, if s.cells.localClosed then Closed else ReceivingViaStream);
    hide Step;
  }

  function QuietLabels(s: Provider, e: Event): seq<Label> {
    match e
    case AwaitClosed => [WaitClosed(s.cells.peerFrame)]
    case ReadState => [StateSeen(s.cells.lifecycle)]
    case ReceiveCall =>
      if s.cells.localClosed then [ReceiveFailed(Closed)]
      else if s.cells.claimed then [ReceiveFailed(ReceivingViaStream)]
      else []
    case _ => []
  }

  lemma QuietShows(cfg: Config, s: Provider, e: Event)
    requires e.ReceiveCall? || e.AwaitClosed? || e.ReadState? || e.Tick? || e.SeePumpDone? || e.FeedChunk?
    requires Enabled(s, e) && CellsInv(s)
    ensures StepOf(cfg, s, e).1 == QuietLabels(s, e)
    ensures e.AwaitClosed? ==> s.cells.closeInfo == Some(s.cells.peerFrame)
  {
  }

  /** What the reports show. */
  lemma CellsOfRel(s: Provider, c: State)
    requires Rel(s, c)
    ensures c.Valid() && c.lifecycle == s.cells.lifecycle && c.outcome == s.cells.closeInfo
    ensures c.localClosed == s.cells.localClosed && c.claimed == s.cells.claimed
  {
  }

  // ----- runs --------------------------------------------------------------------------------------------

  lemma StepMatches(cfg: Config, s: Provider, c: State, e: Event)
    requires Enabled(s, e) && Inv(cfg, s) && Rel(s, c)
    ensures Matches(cfg, c, StepOf(cfg, s, e))
  {
    PartsOf(cfg, s);
    hide Inv, Rel, Matches, HandleCmd, HandleLateCmd, HandleRead, LastDrain, HandleFlush, Finalize;
    hide SendStep, CloseStep, ClaimStep, ReceiveStep, FeederStep;
    match e
    case SendCall(m) => SendCallMatches(cfg, s, c, m);
    case CloseCall(code, reason) => CloseMatches(cfg, s, c, code, reason);
    case ClaimCall => ClaimMatches(cfg, s, c);
    case ReceivePoll => ReceiveMatches(cfg, s, c);
    case FeederPoll => FeederMatches(cfg, s, c);
    case TakeCmd(encoded) => CmdMatches(cfg, s, c, encoded);
    case TakeLateCmd => LateMatches(cfg, s, c);
    case Read(step, closing) => ReadMatches(cfg, s, c, step, closing);
    case DeadlineExpires => FinalizeByRel(cfg, s, c);
    case FeedEnd(rest) => FeedEndMatches(cfg, s, c, rest);
    case FlushStep(who, step) => FlushMatches(cfg, s, c, who, step);
    case _ => QuietMatches(cfg, s, c, e);
  }

  lemma FinalizeByRel(cfg: Config, s: Provider, c: State)
    requires s.reader.Selecting? && Expired(s) && CellsInv(s) && CauseInv(s) && Rel(s, c)
    ensures Matches(cfg, c, Finalize(s))
  {
    FinalizeMatches(cfg, s, c);
  }

  lemma {:induction false} FeedEndMatches(cfg: Config, s: Provider, c: State, rest: seq<CoreRead>)
    requires s.reader.Selecting? && CellsInv(s) && InboundInv(cfg, s) && Rel(s, c)
    ensures Matches(cfg, c, LastDrain(cfg, s, rest))
  {
    LastDrainMatches(cfg, s, c, rest);
  }

  lemma {:induction false} RunMatches(cfg: Config, s: Provider, c: State, events: seq<Event>)
    requires Inv(cfg, s) && Rel(s, c) && CanRun(cfg, s, events)
    ensures c.Valid() && Matches(cfg, c, (Run(cfg, s, events), Trace(cfg, s, events)))
    decreases |events|
  {
    assert c.Valid();
    hide Inv, StepOf, Step, Rel;
    if events != [] {
      StepMatches(cfg, s, c, events[0]);
      InvKept(cfg, s, events[0]);
      var (t, ls) := StepOf(cfg, s, events[0]);
      var mid := Exec(cfg.limit, c, ls).value;
      RunMatches(cfg, t, mid, events[1..]);
      ExecConcat(cfg.limit, c, ls, Trace(cfg, t, events[1..]));
    }
  }

  lemma StartMatches()
    ensures Rel(Start, Init)
  {
    assert IdSet(Pending(Start)) == {};
  }

  /** The trace of every run of the in-guest implementation is a run of the contract, so everything
      proved of the contract's runs holds of it. */
  lemma ImplementsContract(cfg: Config, events: seq<Event>)
    requires CanRun(cfg, Start, events)
    ensures Allowed(cfg.limit, Trace(cfg, Start, events))
  {
    StartInv(cfg);
    StartMatches();
    hide Inv, Rel;
    RunMatches(cfg, Start, Init, events);
  }
}
