/** The outbound half of the in-guest pump: what an `Ok` from `send` promises about the bytes, whichever
    task's flush carried them, and the acks in command order.

    A send remembers where the core wrote its bytes. While its own flush waits, another flush may have drained
    them; by the time its flush returns `Ok` they are all accepted, because the write lock was free only after
    the other flush had its bytes accepted or had killed the write half. */
module GuestSends {
  import opened Types
  import opened CallIds
  import opened GuestPump
  import opened GuestInvariants

  // ----- bytes -------------------------------------------------------------------------------------------

  /** The message's bytes are where the core wrote them. */
  ghost predicate Placed(w: Wire, m: Sending) {
    m.End() <= |w.written| && w.written[m.start..m.End()] == m.bytes
  }

  /** A send waiting for its flush: its bytes are accepted, in that flush's hands, or not drained yet. */
  ghost predicate SendingOk(w: Wire, m: Sending, f: Flush) {
    Placed(w, m) && (f.Writing? ==> m.End() <= |w.accepted| + |f.left|)
  }

  ghost predicate AckOk(w: Wire, a: Ack) {
    a.result.Sent? ==> Placed(w, a.sending) && a.sending.End() <= |w.accepted|
  }

  ghost predicate BytesInv(s: Provider) {
    && (s.cmd.CmdSends? ==> SendingOk(s.wire, s.cmd.sending, s.cmd.flush))
    && (forall i :: 0 <= i < |s.calls.acks| ==> AckOk(s.wire, s.calls.acks[i]))
  }

  ghost predicate WireGrows(w: Wire, v: Wire) { w.written <= v.written && w.accepted <= v.accepted }

  lemma PlacedStays(w: Wire, v: Wire, m: Sending)
    requires Placed(w, m) && WireGrows(w, v)
    ensures Placed(v, m)
  {
    assert v.written[..|w.written|] == w.written;
    assert v.written[m.start..m.End()] == v.written[..|w.written|][m.start..m.End()];
  }

  lemma AcksStay(w: Wire, v: Wire, acks: seq<Ack>)
    requires WireGrows(w, v) && forall i :: 0 <= i < |acks| ==> AckOk(w, acks[i])
    ensures forall i :: 0 <= i < |acks| ==> AckOk(v, acks[i])
  {
    forall i | 0 <= i < |acks|
      ensures AckOk(v, acks[i])
    {
      if acks[i].result.Sent? {
        PlacedStays(w, v, acks[i].sending);
      }
    }
  }

  /** A step outside the command task's own flush. */
  lemma BytesInvByGrowth(s: Provider, t: Provider)
    requires BytesInv(s) && WireGrows(s.wire, t.wire) && t.calls.acks == s.calls.acks
    requires t.cmd == s.cmd || !t.cmd.CmdSends?
    requires t.cmd.CmdSends? && t.cmd.flush.Writing? ==> t.wire.accepted == s.wire.accepted
    ensures BytesInv(t)
  {
    AcksStay(s.wire, t.wire, s.calls.acks);
    if t.cmd.CmdSends? {
      PlacedStays(s.wire, t.wire, s.cmd.sending);
    }
  }

  /** One more ack. */
  lemma BytesInvByAck(s: Provider, t: Provider, ack: Ack)
    requires BytesInv(s) && WireGrows(s.wire, t.wire) && t.calls.acks == s.calls.acks + [ack]
    requires AckOk(t.wire, ack) && !t.cmd.CmdSends?
    ensures BytesInv(t)
  {
    AcksStay(s.wire, t.wire, s.calls.acks);
  }

  lemma BytesKept(cfg: Config, s: Provider, e: Event)
    requires Enabled(s, e) && WireInv(s) && BytesInv(s)
    ensures BytesInv(StepOf(cfg, s, e).0)
  {
    hide HandleCmd, HandleRead, LastDrain, HandleFlush, WireInv, BytesInv;
    match e
    case TakeCmd(encoded) => CmdBytesKept(cfg, s, encoded);
    case TakeLateCmd => LateBytesKept(s);
    case Read(step, closing) =>
      ReadFrame(cfg, s, step, closing);
      BytesInvByGrowth(s, HandleRead(cfg, s, step, closing).0);
    case FeedEnd(rest) => LastDrainFrame(cfg, s, rest); BytesInvByGrowth(s, LastDrain(cfg, s, rest).0);
    case FlushStep(who, step) => FlushBytesKept(cfg, s, who, step);
    case _ => OtherBytesKept(cfg, s, e);
  }

  lemma OtherBytesKept(cfg: Config, s: Provider, e: Event)
    requires Enabled(s, e) && BytesInv(s)
    requires !e.TakeCmd? && !e.TakeLateCmd? && !e.Read? && !e.FeedEnd? && !e.FlushStep?
    ensures BytesInv(StepOf(cfg, s, e).0)
  {
    BytesInvByGrowth(s, StepOf(cfg, s, e).0);
  }

  /** The reader never touches the command task, the acks or the accepted bytes outside its flushes. */
  lemma ReadFrame(cfg: Config, s: Provider, step: CoreRead, closing: Encoded)
    ensures var t := HandleRead(cfg, s, step, closing).0;
            && t.cmd == s.cmd && t.calls == s.calls && t.now == s.now
            && t.wire.accepted == s.wire.accepted && s.wire.written <= t.wire.written
  {
  }

  lemma {:induction false} LastDrainFrame(cfg: Config, s: Provider, rest: seq<CoreRead>)
    ensures var t := LastDrain(cfg, s, rest).0;
            && t.cmd == s.cmd && t.calls == s.calls && t.now == s.now
            && t.wire.accepted == s.wire.accepted && s.wire.written <= t.wire.written
            && t.reader.ReaderDone?
    decreases |rest|
  {
    if rest != [] {
      match rest[0]
      case Data(m) =>
        LastDrainFrame(cfg, s.(inbound := Deliver(cfg, s.wire.wireClosing, s.inbound, m).0), rest[1..]);
      case Control(reply) => LastDrainFrame(cfg, s.(wire := CoreWrites(s.wire, reply)), rest[1..]);
      case RawFrame => LastDrainFrame(cfg, s, rest[1..]);
      case _ =>
    }
  }

  lemma CmdBytesKept(cfg: Config, s: Provider, encoded: Encoded)
    requires Enabled(s, TakeCmd(encoded)) && WireInv(s) && BytesInv(s)
    ensures BytesInv(HandleCmd(cfg, s, encoded).0)
  {
    var t := HandleCmd(cfg, s, encoded).0;
    match s.calls.cmds[0]
    case SendCmd(id, _) =>
      if t.cmd.CmdSends? {
        AcksStay(s.wire, t.wire, s.calls.acks);
        assert t.wire.written[|s.wire.written|..] == encoded.bytes;
      } else {
        hide WireInv;
        BytesInvByAck(s, t, t.calls.acks[|s.calls.acks|]);
      }
    case CloseCmd(_) => BytesInvByGrowth(s, t);
    case ClaimCmd => BytesInvByGrowth(s, t);
  }

  lemma LateBytesKept(s: Provider)
    requires Enabled(s, TakeLateCmd) && BytesInv(s)
    ensures BytesInv(HandleLateCmd(s).0)
  {
    var t := HandleLateCmd(s).0;
    if s.calls.cmds[0].SendCmd? {
      BytesInvByAck(s, t, t.calls.acks[|s.calls.acks|]);
    } else {
      BytesInvByGrowth(s, t);
    }
  }

  lemma FlushBytesKept(cfg: Config, s: Provider, who: Who, e: FlushEvent)
    requires Enabled(s, FlushStep(who, e)) && WireInv(s) && BytesInv(s)
    ensures BytesInv(HandleFlush(cfg, s, who, e).0)
  {
    LeftOfOne(s, who, e);
    FlushWireKept(cfg, s, who, e);
    var t := HandleFlush(cfg, s, who, e).0;
    if who.ReaderTask? {
      BytesInvByGrowth(s, t);
    } else {
      var f := FlushOf(s, CmdTask).value;
      FlushOkMeansAccepted(cfg, s.now, s.cells.localClosed, s.wire, CmdTask, f, e);
      if s.cmd.CmdSends? {
        SendFlushKept(cfg, s, e);
      } else {
        BytesInvByGrowth(s, t);
      }
    }
  }

  lemma SendFlushKept(cfg: Config, s: Provider, e: FlushEvent)
    requires Enabled(s, FlushStep(CmdTask, e)) && WireInv(s) && BytesInv(s) && s.cmd.CmdSends?
    ensures BytesInv(HandleFlush(cfg, s, CmdTask, e).0)
  {
    LeftOfOne(s, CmdTask, e);
    FlushWireKept(cfg, s, CmdTask, e);
    FlushOkMeansAccepted(cfg, s.now, s.cells.localClosed, s.wire, CmdTask, s.cmd.flush, e);
    var t := HandleFlush(cfg, s, CmdTask, e).0;
    hide WireInv, FlushNext;
    PlacedStays(s.wire, t.wire, s.cmd.sending);
    if t.cmd.CmdSends? {
      AcksStay(s.wire, t.wire, s.calls.acks);
    } else {
      BytesInvByAck(s, t, t.calls.acks[|s.calls.acks|]);
    }
  }

  // ----- acks in command order ---------------------------------------------------------------------------

  function CmdIds(cmds: seq<Cmd>): seq<nat> {
    if cmds == [] then []
    else (if cmds[0].SendCmd? then [cmds[0].id] else []) + CmdIds(cmds[1..])
  }

  function InFlight(c: CmdPc): seq<nat> { if c.CmdSends? then [c.sending.id] else [] }

  lemma {:induction false} CmdIdsSnoc(a: seq<Cmd>, c: Cmd)
    ensures CmdIds(a + [c]) == CmdIds(a) + (if c.SendCmd? then [c.id] else [])
  {
    if a == [] {
      assert [c][1..] == [];
      assert a + [c] == [c];
    } else {
      assert (a + [c])[0] == a[0] && (a + [c])[1..] == a[1..] + [c];
      CmdIdsSnoc(a[1..], c);
    }
  }

  /** The sends not answered yet, in the order they will be. */
  function Pending(s: Provider): seq<nat> { InFlight(s.cmd) + CmdIds(s.calls.cmds) }

  ghost predicate OrderInv(s: Provider) {
    && Increasing(s.calls.issued, s.calls.made)
    && s.calls.issued == s.calls.answered + Pending(s)
  }

  lemma OrderKept(cfg: Config, s: Provider, e: Event)
    requires Enabled(s, e) && OrderInv(s)
    ensures OrderInv(StepOf(cfg, s, e).0)
  {
    hide HandleCmd, HandleLateCmd, HandleRead, LastDrain, HandleFlush, OrderInv;
    match e
    case TakeCmd(encoded) => CmdOrderKept(cfg, s, encoded);
    case TakeLateCmd => LateOrderKept(s);
    case Read(step, closing) => ReadFrame(cfg, s, step, closing); OrderByFrame(s, HandleRead(cfg, s, step, closing).0);
    case FeedEnd(rest) => LastDrainFrame(cfg, s, rest); OrderByFrame(s, LastDrain(cfg, s, rest).0);
    case FlushStep(who, step) => FlushOrderKept(cfg, s, who, step);
    case _ => OtherOrderKept(cfg, s, e);
  }

  lemma OrderByFrame(s: Provider, t: Provider)
    requires OrderInv(s) && t.cmd == s.cmd && t.calls == s.calls
    ensures OrderInv(t)
  {
  }

  lemma CmdOrderKept(cfg: Config, s: Provider, encoded: Encoded)
    requires Enabled(s, TakeCmd(encoded)) && OrderInv(s)
    ensures OrderInv(HandleCmd(cfg, s, encoded).0)
  {
    hide BeginClose, CoreWrites, OrderInv;
    OrderByPop(s, HandleCmd(cfg, s, encoded).0);
  }

  /** The head of the channel was taken: its send, if it is one, is answered or in flight. */
  lemma OrderByPop(s: Provider, t: Provider)
    requires OrderInv(s) && InFlight(s.cmd) == [] && s.calls.cmds != []
    requires t.calls.cmds == s.calls.cmds[1..] && t.calls.issued == s.calls.issued && t.calls.made == s.calls.made
    requires t.calls.answered + InFlight(t.cmd)
          == s.calls.answered + (if s.calls.cmds[0].SendCmd? then [s.calls.cmds[0].id] else [])
    ensures OrderInv(t)
  {
    hide Increasing;
    var head := if s.calls.cmds[0].SendCmd? then [s.calls.cmds[0].id] else [];
    var rest := CmdIds(t.calls.cmds);
    assert s.calls.issued == s.calls.answered + (head + rest);
    assert s.calls.answered + (head + rest) == (s.calls.answered + head) + rest;
    assert (t.calls.answered + InFlight(t.cmd)) + rest == t.calls.answered + (InFlight(t.cmd) + rest);
  }

  lemma LateOrderKept(s: Provider)
    requires Enabled(s, TakeLateCmd) && OrderInv(s)
    ensures OrderInv(HandleLateCmd(s).0)
  {
  }

  lemma FlushOrderKept(cfg: Config, s: Provider, who: Who, e: FlushEvent)
    requires Enabled(s, FlushStep(who, e)) && OrderInv(s)
    ensures OrderInv(HandleFlush(cfg, s, who, e).0)
  {
    hide FlushNext;
  }

  lemma OtherOrderKept(cfg: Config, s: Provider, e: Event)
    requires Enabled(s, e) && OrderInv(s)
    requires !e.TakeCmd? && !e.TakeLateCmd? && !e.Read? && !e.FeedEnd? && !e.FlushStep?
    ensures OrderInv(StepOf(cfg, s, e).0)
  {
    var t := StepOf(cfg, s, e).0;
    match e
    case SendCall(m) => OrderByPost(s, t, SendCmd(s.calls.made, m));
    case CloseCall(code, reason) =>
      if t.calls != s.calls {
        OrderByPost(s, t, CloseCmd(FrameFor(code, reason)));
      }
    case ClaimCall =>
      if t.calls != s.calls {
        OrderByPost(s, t, ClaimCmd);
      }
    case _ =>
  }

  /** A command was enqueued; a send's id is new. */
  lemma OrderByPost(s: Provider, t: Provider, c: Cmd)
    requires OrderInv(s) && t.cmd == s.cmd && t.calls.answered == s.calls.answered
    requires if c.SendCmd? && s.cells.localClosed then t.calls.cmds == s.calls.cmds && t.calls.issued == s.calls.issued
             else t.calls.cmds == s.calls.cmds + [c]
                  && t.calls.issued == s.calls.issued + (if c.SendCmd? then [c.id] else [])
    requires t.calls.made == (if c.SendCmd? then s.calls.made + 1 else s.calls.made)
    requires c.SendCmd? ==> c.id == s.calls.made
    ensures OrderInv(t)
  {
    IncreasingSnoc(s.calls.issued, s.calls.made);
    CmdIdsSnoc(s.calls.cmds, c);
    hide Increasing, CmdIds;
    var more := if c.SendCmd? then [c.id] else [];
    assert s.calls.issued + more == s.calls.answered + (Pending(s) + more);
    assert Pending(s) + more == InFlight(s.cmd) + (CmdIds(s.calls.cmds) + more);
  }
}
