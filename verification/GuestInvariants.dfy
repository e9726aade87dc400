/** What every step of the in-guest pump keeps of its byte path.

    The two tasks' flushes share one write lock. A flush holds it exactly while it writes, with the bytes it
    drained; whatever the core wrote is accepted, in the hands of that flush, or not drained yet, unless the write
    half is dead. The deadline is armed once, and whenever the wire is closing or the write half is dead. */
module GuestInvariants {
  import opened Types
  import opened GuestPump

  // ----- the wire: latches, the lock, and where every byte is --------------------------------------------

  /** The drained bytes a flush still has to hand over. */
  function Left(f: Option<Flush>): seq<Byte> {
    if f.Some? && f.value.Writing? then f.value.left else []
  }

  ghost predicate FlushOk(w: Wire, who: Who, f: Option<Flush>) {
    && ((f.Some? && f.value.Writing?) == (w.lock == Some(who)))
    && (f.Some? && f.value.Writing? ==> !w.writeDead && f.value.left != [])
    && (f.Some? && f.value.Writing? && f.value.bound.Until? ==> w.deadline == Some(f.value.bound.deadline))
  }

  /** Of the bytes the core wrote, the accepted ones are a prefix; unless the write half is dead the rest is
      what a flush holds under the lock, then what was not drained yet. */
  ghost predicate BytesOk(w: Wire, left: seq<Byte>) {
    && w.accepted <= w.written
    && (!w.writeDead ==> w.written == w.accepted + left + w.outbound)
  }

  function AllLeft(s: Provider): seq<Byte> { Left(FlushOf(s, CmdTask)) + Left(FlushOf(s, ReaderTask)) }

  ghost predicate WireInv(s: Provider) {
    && FlushOk(s.wire, CmdTask, FlushOf(s, CmdTask))
    && FlushOk(s.wire, ReaderTask, FlushOf(s, ReaderTask))
    && BytesOk(s.wire, AllLeft(s))
    && (s.wire.wireClosing || s.wire.writeDead ==> s.wire.deadline.Some?)
  }

  /** A step of a flush, on the wire alone. */
  lemma FlushKeeps(cfg: Config, now: nat, closed: bool, w: Wire, who: Who, f: Flush, e: FlushEvent)
    requires FlushEnabled(now, closed, w, f, e) && FlushOk(w, who, Some(f)) && BytesOk(w, Left(Some(f)))
    requires w.writeDead ==> w.deadline.Some?
    ensures var (v, out) := FlushNext(cfg, now, w, who, f, e);
            var g := if out.Still? then Some(out.flush) else None;
            && FlushOk(v, who, g) && BytesOk(v, Left(g))
            && (v.lock == w.lock || w.lock == Some(who) || v.lock == Some(who))
            && (v.lock.None? || v.lock == Some(who) || v.lock == w.lock)
            && v.written == w.written && v.wireClosing == w.wireClosing && w.accepted <= v.accepted
            && (w.writeDead ==> v.writeDead) && (v.writeDead ==> v.deadline.Some?)
            && (w.deadline.Some? ==> v.deadline == w.deadline)
            && (w.deadline.None? ==> v.deadline.None? || v.deadline == Some(now + cfg.closeTimeout))
  {
    if e.WriterAccepts? {
      assert f.left == f.left[..e.count] + f.left[e.count..];
      assert f.left[..|f.left|] == f.left;
    }
  }

  /** A flush that returns `Ok` leaves every byte the core had written by the time of its drain accepted. */
  lemma FlushOkMeansAccepted(cfg: Config, now: nat, closed: bool, w: Wire, who: Who, f: Flush, e: FlushEvent)
    requires FlushEnabled(now, closed, w, f, e) && FlushOk(w, who, Some(f)) && BytesOk(w, Left(Some(f)))
    ensures var (v, out) := FlushNext(cfg, now, w, who, f, e);
            && (out == Returned(Sent) && e.TakeLock? ==> v.accepted == w.written)
            && (out == Returned(Sent) && !e.TakeLock? ==> v.accepted == w.accepted + f.left)
            && (out.Still? && e.TakeLock? ==> |v.accepted| + |Left(Some(out.flush))| == |w.written|)
            && (out.Still? && !e.TakeLock? ==>
                  |v.accepted| + |Left(Some(out.flush))| == |w.accepted| + |Left(Some(f))|)
  {
    if e.WriterAccepts? {
      assert f.left[..|f.left|] == f.left;
    }
  }

  // ----- the core writing --------------------------------------------------------------------------------

  lemma CoreWritesKeeps(w: Wire, bytes: seq<Byte>, left: seq<Byte>)
    requires BytesOk(w, left)
    ensures BytesOk(CoreWrites(w, bytes), left)
  {
    assert w.accepted + left + (w.outbound + bytes) == (w.accepted + left + w.outbound) + bytes;
  }

  /** `begin_close` only grows the core's output and arms the deadline. */
  lemma BeginCloseKeeps(cfg: Config, now: nat, w: Wire, frame: Option<CloseInfo>, closing: Encoded,
                        left: seq<Byte>)
    requires BytesOk(w, left) && (w.wireClosing || w.writeDead ==> w.deadline.Some?)
    ensures var v := BeginClose(cfg, now, w, frame, closing).0;
            && BytesOk(v, left) && v.wireClosing && v.deadline.Some?
            && SameLock(w, v)
            && (w.deadline.Some? ==> v.deadline == w.deadline)
            && (w.deadline.None? ==> v.deadline == Some(now + cfg.closeTimeout))
  {
    if closing.Encodes? {
      CoreWritesKeeps(w.(handed := w.handed + [CloseToCore(frame)]), closing.bytes, left);
    }
  }

  /** What no one but a flush changes. */
  ghost predicate SameLock(w: Wire, v: Wire) {
    v.lock == w.lock && v.writeDead == w.writeDead && v.accepted == w.accepted && w.written <= v.written
  }

  /** A step outside flushing: the wire may grow, the flushes stay or are new ones waiting for the lock. */
  lemma WireInvByGrowth(s: Provider, t: Provider)
    requires WireInv(s) && SameLock(s.wire, t.wire) && BytesOk(t.wire, AllLeft(s))
    requires s.wire.deadline.Some? ==> t.wire.deadline == s.wire.deadline
    requires t.wire.wireClosing ==> t.wire.deadline.Some?
    requires FlushOf(t, CmdTask) == FlushOf(s, CmdTask)
          || (Left(FlushOf(s, CmdTask)) == [] && s.wire.lock != Some(CmdTask)
              && (FlushOf(t, CmdTask) == Some(WaitLock) || FlushOf(t, CmdTask).None?))
    requires FlushOf(t, ReaderTask) == FlushOf(s, ReaderTask)
          || (Left(FlushOf(s, ReaderTask)) == [] && s.wire.lock != Some(ReaderTask)
              && (FlushOf(t, ReaderTask) == Some(WaitLock) || FlushOf(t, ReaderTask).None?))
    ensures WireInv(t)
  {
    assert AllLeft(t) == AllLeft(s);
  }

  lemma WireKept(cfg: Config, s: Provider, e: Event)
    requires Enabled(s, e) && WireInv(s)
    ensures WireInv(StepOf(cfg, s, e).0)
    ensures DeadlineKept(cfg, s.now, s.wire, StepOf(cfg, s, e).0.wire)
  {
    hide HandleCmd, HandleRead, LastDrain, HandleFlush, WireInv;
    match e
    case TakeCmd(encoded) => CmdWireKept(cfg, s, encoded);
    case Read(step, closing) => ReadWireKept(cfg, s, step, closing);
    case FeedEnd(rest) => LastDrainWireKept(cfg, s, rest);
    case FlushStep(who, step) => FlushWireKept(cfg, s, who, step);
    case _ => OtherWireKept(cfg, s, e);
  }

  /** The deadline is armed once, one close timeout from now, and never moves. */
  ghost predicate DeadlineKept(cfg: Config, now: nat, w: Wire, v: Wire) {
    if w.deadline.Some? then v.deadline == w.deadline
    else v.deadline.None? || v.deadline == Some(now + cfg.closeTimeout)
  }

  lemma OtherWireKept(cfg: Config, s: Provider, e: Event)
    requires Enabled(s, e) && WireInv(s)
    requires !e.TakeCmd? && !e.Read? && !e.FeedEnd? && !e.FlushStep?
    ensures var t := StepOf(cfg, s, e).0; WireInv(t) && t.wire == s.wire
  {
    var t := StepOf(cfg, s, e).0;
    assert FlushOf(t, CmdTask) == FlushOf(s, CmdTask) && FlushOf(t, ReaderTask) == FlushOf(s, ReaderTask);
  }

  lemma CmdWireKept(cfg: Config, s: Provider, encoded: Encoded)
    requires Enabled(s, TakeCmd(encoded)) && WireInv(s)
    ensures WireInv(HandleCmd(cfg, s, encoded).0)
    ensures DeadlineKept(cfg, s.now, s.wire, HandleCmd(cfg, s, encoded).0.wire)
  {
    var cmd := s.calls.cmds[0];
    if cmd.CloseCmd? {
      BeginCloseKeeps(cfg, s.now, s.wire, cmd.frame, encoded, AllLeft(s));
    } else if cmd.SendCmd? && encoded.Encodes? {
      var taken := s.wire.(handed := s.wire.handed + [MessageToCore(cmd.id, cmd.message)]);
      CoreWritesKeeps(taken, encoded.bytes, AllLeft(s));
    }
    WireInvByGrowth(s, HandleCmd(cfg, s, encoded).0);
    hide WireInv, BytesOk, BeginClose;
  }

  lemma ReadWireKept(cfg: Config, s: Provider, step: CoreRead, closing: Encoded)
    requires s.reader.Draining? && WireInv(s)
    ensures WireInv(HandleRead(cfg, s, step, closing).0)
    ensures DeadlineKept(cfg, s.now, s.wire, HandleRead(cfg, s, step, closing).0.wire)
  {
    BeginCloseKeeps(cfg, s.now, s.wire, None, closing, AllLeft(s));
    match step
    case PeerClose(_, reply) => CoreWritesKeeps(s.wire, reply, AllLeft(s));
    case Control(reply) => CoreWritesKeeps(s.wire, reply, AllLeft(s));
    case _ =>
    WireInvByGrowth(s, HandleRead(cfg, s, step, closing).0);
  }

  lemma {:induction false} LastDrainWireKept(cfg: Config, s: Provider, rest: seq<CoreRead>)
    requires s.reader.Selecting? && WireInv(s)
    ensures WireInv(LastDrain(cfg, s, rest).0)
    ensures LastDrain(cfg, s, rest).0.wire.deadline == s.wire.deadline
    decreases |rest|
  {
    if rest == [] {
      WireInvByGrowth(s, Finalize(s).0);
    } else {
      match rest[0]
      case Data(m) =>
        var t := s.(inbound := Deliver(cfg, s.wire.wireClosing, s.inbound, m).0);
        WireInvByGrowth(s, t);
        LastDrainWireKept(cfg, t, rest[1..]);
      case PeerClose(frame, reply) =>
        CoreWritesKeeps(s.wire, reply, AllLeft(s));
        WireInvByGrowth(s, LastDrain(cfg, s, rest).0);
      case Control(reply) =>
        CoreWritesKeeps(s.wire, reply, AllLeft(s));
        var t := s.(wire := CoreWrites(s.wire, reply));
        WireInvByGrowth(s, t);
        LastDrainWireKept(cfg, t, rest[1..]);
      case RawFrame => LastDrainWireKept(cfg, s, rest[1..]);
      case _ => WireInvByGrowth(s, Finalize(s).0);
    }
  }

  lemma FlushWireKept(cfg: Config, s: Provider, who: Who, e: FlushEvent)
    requires Enabled(s, FlushStep(who, e)) && WireInv(s)
    ensures WireInv(HandleFlush(cfg, s, who, e).0)
    ensures DeadlineKept(cfg, s.now, s.wire, HandleFlush(cfg, s, who, e).0.wire)
    ensures var t := HandleFlush(cfg, s, who, e).0;
            t.wire.written == s.wire.written && s.wire.accepted <= t.wire.accepted
  {
    var f := FlushOf(s, who).value;
    LeftOfOne(s, who, e);
    FlushKeeps(cfg, s.now, s.cells.localClosed, s.wire, who, f, e);
    var t := HandleFlush(cfg, s, who, e).0;
    LeftOfOneAfter(cfg, s, who, e);
  }

  /** At most one flush holds bytes: the one that steps is it, or the lock is free. */
  lemma LeftOfOne(s: Provider, who: Who, e: FlushEvent)
    requires Enabled(s, FlushStep(who, e)) && WireInv(s)
    ensures AllLeft(s) == Left(FlushOf(s, who))
    ensures var other := if who.CmdTask? then ReaderTask else CmdTask;
            Left(FlushOf(s, other)) == [] && s.wire.lock != Some(other)
  {
  }

  lemma LeftOfOneAfter(cfg: Config, s: Provider, who: Who, e: FlushEvent)
    requires Enabled(s, FlushStep(who, e)) && WireInv(s)
    ensures var other := if who.CmdTask? then ReaderTask else CmdTask;
            var (w, out) := FlushNext(cfg, s.now, s.wire, who, FlushOf(s, who).value, e);
            var t := HandleFlush(cfg, s, who, e).0;
            && FlushOf(t, other) == FlushOf(s, other) && t.wire == w
            && FlushOf(t, who) == (if out.Still? then Some(out.flush) else None)
            && AllLeft(t) == Left(FlushOf(t, who))
  {
    LeftOfOne(s, who, e);
    hide FlushNext, WireInv;
  }
}
