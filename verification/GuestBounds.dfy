/** How long one flush of the in-guest pump can last, and how its reader ends. */
module GuestBounds {
  import opened Types
  import opened Contract
  import opened GuestPump

  predicate WritesUntil(s: Provider, who: Who, deadline: nat) {
    var f := FlushOf(s, who);
    f.Some? && f.value.Writing? && f.value.bound == Until(deadline)
  }

  predicate Writes(s: Provider, who: Who) { FlushOf(s, who).Some? && FlushOf(s, who).value.Writing? }

  /** The same write is in progress throughout. */
  predicate WritesThroughout(cfg: Config, s: Provider, who: Who, events: seq<Event>)
    decreases |events|
  {
    Writes(s, who) && (events == [] || WritesThroughout(cfg, StepOf(cfg, s, events[0]).0, who, events[1..]))
  }

  /** A write that starts with the deadline armed races it; one that sees a local close arms it, if need be, and
      races it from then on. */
  lemma BoundFromStart(cfg: Config, s: Provider, who: Who, e: FlushEvent)
    requires Enabled(s, FlushStep(who, e)) && (e.SeeLocalClose? || (e.TakeLock? && s.wire.deadline.Some?))
    ensures var t := StepOf(cfg, s, FlushStep(who, e)).0;
            Writes(t, who) ==> t.wire.deadline.Some? && WritesUntil(t, who, t.wire.deadline.value)
  {
  }

  lemma StepKeepsBound(cfg: Config, s: Provider, who: Who, deadline: nat, e: Event)
    requires Enabled(s, e) && WritesUntil(s, who, deadline)
    ensures var t := StepOf(cfg, s, e).0;
            && (Writes(t, who) ==> WritesUntil(t, who, deadline))
            && (t.now == s.now || (t.now == s.now + 1 && s.now < deadline))
  {
    hide LastDrain, BeginClose, Deliver, Finalize, HandleFlush;
    match e
    case Tick => TickSpares(s, who, deadline);
    case FlushStep(other, step) => FlushKeepsBound(cfg, s, who, deadline, other, step);
    case FeedEnd(rest) => LastDrainDone(cfg, s, rest);
    case Read(step, closing) => ReadKeepsCommand(cfg, s, step, closing);
    case _ => OtherKeepsBound(cfg, s, who, e);
  }

  lemma FlushKeepsBound(cfg: Config, s: Provider, who: Who, deadline: nat, other: Who, e: FlushEvent)
    requires Enabled(s, FlushStep(other, e)) && WritesUntil(s, who, deadline)
    ensures var t := HandleFlush(cfg, s, other, e).0;
            t.now == s.now && (Writes(t, who) ==> WritesUntil(t, who, deadline))
  {
  }

  lemma TickSpares(s: Provider, who: Who, deadline: nat)
    requires Enabled(s, Tick) && WritesUntil(s, who, deadline)
    ensures s.now < deadline
  {
    if who.CmdTask? {
      assert !FlushReady(s, CmdTask);
    } else {
      assert !FlushReady(s, ReaderTask);
    }
  }

  lemma OtherKeepsBound(cfg: Config, s: Provider, who: Who, e: Event)
    requires Enabled(s, e) && Writes(s, who)
    requires !e.Tick? && !e.FlushStep? && !e.FeedEnd? && !e.Read?
    ensures var t := StepOf(cfg, s, e).0; t.now == s.now && FlushOf(t, who) == FlushOf(s, who)
  {
  }

  lemma ReadKeepsCommand(cfg: Config, s: Provider, step: CoreRead, closing: Encoded)
    requires s.reader.Draining?
    ensures var t := HandleRead(cfg, s, step, closing).0;
            t.now == s.now && t.cmd == s.cmd && !Writes(t, ReaderTask)
  {
  }

  lemma {:induction false} LastDrainDone(cfg: Config, s: Provider, rest: seq<CoreRead>)
    ensures var t := LastDrain(cfg, s, rest).0; t.now == s.now && t.cmd == s.cmd && t.reader.ReaderDone?
    decreases |rest|
  {
    if rest == [] {
      DrainNothing(cfg, s);
    } else {
      DrainStep(cfg, s, rest);
      hide LastDrain;
      match rest[0]
      case Data(m) => LastDrainDone(cfg, s.(inbound := Deliver(cfg, s.wire.wireClosing, s.inbound, m).0), rest[1..]);
      case Control(reply) => LastDrainDone(cfg, s.(wire := CoreWrites(s.wire, reply)), rest[1..]);
      case RawFrame => LastDrainDone(cfg, s, rest[1..]);
      case _ =>
    }
  }

  /** For every interleaving: while one write that races the deadline lasts, time does not pass the deadline (nor
      move at all, if the write started after it). */
  lemma {:induction false} WriteEndsByDeadline(cfg: Config, s: Provider, who: Who, deadline: nat, events: seq<Event>)
    requires CanRun(cfg, s, events) && WritesUntil(s, who, deadline) && WritesThroughout(cfg, s, who, events)
    ensures var t := Run(cfg, s, events);
            WritesUntil(t, who, deadline) && t.now <= (if s.now < deadline then deadline else s.now)
    decreases |events|
  {
    hide StepOf, Enabled, WritesUntil, Writes;
    if events != [] {
      StepKeepsBound(cfg, s, who, deadline, events[0]);
      assert Writes(StepOf(cfg, s, events[0]).0, who);
      WriteEndsByDeadline(cfg, StepOf(cfg, s, events[0]).0, who, deadline, events[1..]);
    }
  }

  predicate OfReader(e: Event) {
    e.Read? || e.DeadlineExpires? || e.FeedChunk? || e.FeedEnd? || (e.FlushStep? && e.who.ReaderTask?)
  }

  /** A reader that reaches its select past the deadline leaves the loop, whatever bytes are there to read: that
      is its only step, time waits for it, and it latches the close outcome, then the state, then the end of
      the queue. */
  lemma ExpiredReaderLeaves(cfg: Config, s: Provider, e: Event)
    requires s.reader.Selecting? && Expired(s) && Enabled(s, e)
    ensures !e.Tick? && (OfReader(e) ==> e.DeadlineExpires?)
    ensures Enabled(s, DeadlineExpires)
    ensures var (t, labels) := StepOf(cfg, s, DeadlineExpires);
            && t.reader.ReaderDone? && labels == [Settle, Progress(IsClosed), End]
            && t.cells.closeInfo == Some(s.cells.peerFrame) && t.inbound == s.inbound.(ended := true)
  {
  }
}
