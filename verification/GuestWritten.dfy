/** What the in-guest pump hands the protocol core to encode: the messages given to `send`, and one close frame. */
module GuestWritten {
  import opened Types
  import opened Contract
  import opened Answers
  import opened GuestPump
  import opened GuestTime
  import opened GuestRefinement
  import opened GuestCalls

  // ----- messages ----------------------------------------------------------------------------------------

  predicate GivenToCore(given: seq<Message>, x: ToCore) { x.MessageToCore? ==> IsGiven(given, x.id, x.message) }

  predicate GivenCmd(given: seq<Message>, c: Cmd) { c.SendCmd? ==> IsGiven(given, c.id, c.message) }

  /** Messages reach the core in the order of their calls, each at most once. */
  ghost predicate InOrder(handed: seq<ToCore>) {
    forall i, j :: 0 <= i < j < |handed| && handed[i].MessageToCore? && handed[j].MessageToCore? ==>
      handed[i].id < handed[j].id
  }

  ghost predicate CmdsInOrder(cmds: seq<Cmd>) {
    forall i, j :: 0 <= i < j < |cmds| && cmds[i].SendCmd? && cmds[j].SendCmd? ==> cmds[i].id < cmds[j].id
  }

  ghost predicate GivenInv(s: Provider, given: seq<Message>) {
    && s.calls.made == |given|
    && (forall c <- s.calls.cmds :: GivenCmd(given, c))
    && (forall x <- s.wire.handed :: GivenToCore(given, x))
    && InOrder(s.wire.handed) && CmdsInOrder(s.calls.cmds)
    && forall x <- s.wire.handed, c <- s.calls.cmds :: x.MessageToCore? && c.SendCmd? ==> x.id < c.id
  }

  /** Nothing handed over, a close, or the message at the head of the channel. */
  ghost predicate Hands(s: Provider, t: Provider) {
    && t.calls.made == s.calls.made
    && (t.calls.cmds == s.calls.cmds || (s.calls.cmds != [] && t.calls.cmds == s.calls.cmds[1..]))
    && (t.wire.handed == s.wire.handed
        || (|t.wire.handed| == |s.wire.handed| + 1 && t.wire.handed[..|s.wire.handed|] == s.wire.handed
            && (t.wire.handed[|s.wire.handed|].CloseToCore? || HandsHead(s, t))))
  }

  ghost predicate HandsHead(s: Provider, t: Provider)
    requires |t.wire.handed| > 0
  {
    && s.calls.cmds != [] && s.calls.cmds[0].SendCmd? && t.calls.cmds == s.calls.cmds[1..]
    && t.wire.handed[|t.wire.handed| - 1] == MessageToCore(s.calls.cmds[0].id, s.calls.cmds[0].message)
  }

  lemma HandsKeep(s: Provider, t: Provider, given: seq<Message>)
    requires GivenInv(s, given) && Hands(s, t)
    ensures GivenInv(t, given)
  {
    var n := |s.wire.handed|;
    assert forall c <- t.calls.cmds :: c in s.calls.cmds;
    if t.wire.handed != s.wire.handed {
      assert forall i :: 0 <= i < n ==> t.wire.handed[i] == s.wire.handed[i];
      assert forall x <- t.wire.handed :: x in s.wire.handed || x == t.wire.handed[n];
      if t.wire.handed[n].MessageToCore? {
        assert s.calls.cmds[0] in s.calls.cmds && forall i :: 0 <= i < n ==> t.wire.handed[i] in s.wire.handed;
      }
    }
    hide GivenCmd, GivenToCore;
  }

  lemma GivenKept(cfg: Config, s: Provider, e: Event, given: seq<Message>)
    requires Enabled(s, e) && GivenInv(s, given)
    ensures GivenInv(StepOf(cfg, s, e).0, given + if e.SendCall? then [e.message] else [])
  {
    hide GivenInv;
    match e
    case SendCall(m) => SendGiven(s, m, given);
    case CloseCall(_, _) => PostGiven(cfg, s, e, given);
    case ClaimCall => PostGiven(cfg, s, e, given);
    case _ =>
      StepHands(cfg, s, e);
      hide StepOf;
      HandsKeep(s, StepOf(cfg, s, e).0, given);
      assert given + [] == given;
  }

  lemma PostGiven(cfg: Config, s: Provider, e: Event, given: seq<Message>)
    requires (e.CloseCall? || e.ClaimCall?) && GivenInv(s, given)
    ensures GivenInv(StepOf(cfg, s, e).0, given + [])
  {
    var t := StepOf(cfg, s, e).0;
    assert given + [] == given;
    assert forall c <- t.calls.cmds :: c in s.calls.cmds || !c.SendCmd?;
    hide GivenToCore;
  }

  lemma SendGiven(s: Provider, m: Message, given: seq<Message>)
    requires GivenInv(s, given)
    ensures GivenInv(SendStep(s, m).0, given + [m])
  {
    var longer := given + [m];
    assert forall c :: GivenCmd(given, c) ==> GivenCmd(longer, c);
    assert forall x :: GivenToCore(given, x) ==> GivenToCore(longer, x);
    assert GivenCmd(longer, SendCmd(|given|, m));
    assert forall c <- s.calls.cmds :: GivenCmd(given, c);
    assert forall x <- s.wire.handed :: GivenToCore(given, x);
    assert forall c <- s.calls.cmds :: c.SendCmd? ==> c.id < |given|;
    assert forall x <- s.wire.handed :: x.MessageToCore? ==> x.id < |given|;
    hide GivenCmd, GivenToCore;
  }

  lemma StepHands(cfg: Config, s: Provider, e: Event)
    requires Enabled(s, e) && !e.SendCall? && !e.CloseCall? && !e.ClaimCall?
    ensures Hands(s, StepOf(cfg, s, e).0)
  {
    hide HandleCmd, HandleRead, LastDrain, HandleFlush;
    match e
    case TakeCmd(encoded) => CmdHands(cfg, s, encoded);
    case Read(step, closing) => ReadHands(cfg, s, step, closing);
    case FeedEnd(rest) => LastDrainHands(cfg, s, rest);
    case FlushStep(who, step) => FlushHands(cfg, s, who, step);
    case _ =>
  }

  lemma CmdHands(cfg: Config, s: Provider, encoded: Encoded)
    requires Enabled(s, TakeCmd(encoded))
    ensures Hands(s, HandleCmd(cfg, s, encoded).0)
  {
  }

  lemma ReadHands(cfg: Config, s: Provider, step: CoreRead, closing: Encoded)
    ensures Hands(s, HandleRead(cfg, s, step, closing).0)
  {
    hide Deliver;
  }

  lemma {:induction false} LastDrainHands(cfg: Config, s: Provider, rest: seq<CoreRead>)
    ensures var t := LastDrain(cfg, s, rest).0;
            t.wire.handed == s.wire.handed && t.calls == s.calls && t.cells.localClosed == s.cells.localClosed
    ensures LastDrain(cfg, s, rest).0.wire.wireClosing == s.wire.wireClosing
    decreases |rest|
  {
    hide Deliver;
    if rest != [] {
      match rest[0]
      case Data(m) => LastDrainHands(cfg, s.(inbound := Deliver(cfg, s.wire.wireClosing, s.inbound, m).0), rest[1..]);
      case Control(reply) => LastDrainHands(cfg, s.(wire := CoreWrites(s.wire, reply)), rest[1..]);
      case RawFrame => LastDrainHands(cfg, s, rest[1..]);
      case _ =>
    }
  }

  lemma FlushHands(cfg: Config, s: Provider, who: Who, e: FlushEvent)
    ensures var t := HandleFlush(cfg, s, who, e).0;
            && t.wire.handed == s.wire.handed && t.wire.wireClosing == s.wire.wireClosing
            && t.calls.cmds == s.calls.cmds && t.calls.made == s.calls.made
            && t.cells.localClosed == s.cells.localClosed
  {
    var f := FlushOf(s, who);
    FlushWire(cfg, s.now, s.wire, who, if f.Some? then f.value else WaitLock, e);
    hide FlushNext, FlushOf;
  }

  lemma FlushWire(cfg: Config, now: nat, w: Wire, who: Who, f: Flush, e: FlushEvent)
    ensures var v := FlushNext(cfg, now, w, who, f, e).0; v.handed == w.handed && v.wireClosing == w.wireClosing
  {
  }

  // ----- answers -----------------------------------------------------------------------------------------

  ghost predicate Took(handed: seq<ToCore>, id: nat) { exists x <- handed :: x.MessageToCore? && x.id == id }

  /** A send in its flush, or answered `Ok`, reached the core. */
  ghost predicate TookInv(s: Provider) {
    && (s.cmd.CmdSends? ==> Took(s.wire.handed, s.cmd.sending.id))
    && forall a <- s.calls.acks :: a.result.Sent? ==> Took(s.wire.handed, a.sending.id)
  }

  /** No new ack, or one of a send that reached the core, or one that failed. */
  ghost predicate AcksTook(s: Provider, t: Provider) {
    && s.wire.handed <= t.wire.handed
    && (t.cmd.CmdSends? ==>
          (s.cmd.CmdSends? && t.cmd.sending == s.cmd.sending) || Took(t.wire.handed, t.cmd.sending.id))
    && (t.calls.acks == s.calls.acks
        || (|t.calls.acks| == |s.calls.acks| + 1 && t.calls.acks[..|s.calls.acks|] == s.calls.acks
            && var a := t.calls.acks[|s.calls.acks|];
               a.result.Sent? ==> s.cmd.CmdSends? && a.sending == s.cmd.sending))
  }

  lemma AcksKeep(s: Provider, t: Provider)
    requires TookInv(s) && AcksTook(s, t)
    ensures TookInv(t)
  {
    forall id | Took(s.wire.handed, id)
      ensures Took(t.wire.handed, id)
    {
      var x :| x in s.wire.handed && x.MessageToCore? && x.id == id;
      assert x in t.wire.handed;
    }
    if t.calls.acks != s.calls.acks {
      assert forall a <- t.calls.acks :: a in s.calls.acks || a == t.calls.acks[|s.calls.acks|];
    }
    hide Took;
  }

  lemma StepTook(cfg: Config, s: Provider, e: Event)
    requires Enabled(s, e)
    ensures AcksTook(s, StepOf(cfg, s, e).0)
  {
    hide HandleCmd, HandleRead, LastDrain, HandleFlush, Took;
    match e
    case TakeCmd(encoded) => CmdTook(cfg, s, encoded);
    case Read(step, closing) => ReadHands(cfg, s, step, closing); GuestSends.ReadFrame(cfg, s, step, closing);
    case FeedEnd(rest) => LastDrainHands(cfg, s, rest); GuestSends.LastDrainFrame(cfg, s, rest);
    case FlushStep(who, step) => FlushTook(cfg, s, who, step);
    case _ =>
  }

  lemma CmdTook(cfg: Config, s: Provider, encoded: Encoded)
    requires Enabled(s, TakeCmd(encoded))
    ensures AcksTook(s, HandleCmd(cfg, s, encoded).0)
  {
    var t := HandleCmd(cfg, s, encoded).0;
    if t.cmd.CmdSends? {
      assert t.wire.handed[|s.wire.handed|].MessageToCore? && t.wire.handed[|s.wire.handed|].id == t.cmd.sending.id;
    }
  }

  lemma FlushTook(cfg: Config, s: Provider, who: Who, e: FlushEvent)
    ensures AcksTook(s, HandleFlush(cfg, s, who, e).0)
  {
    FlushHands(cfg, s, who, e);
    hide FlushNext, FlushOf, Took;
  }

  lemma {:induction false} AnswerListed(ls: seq<Label>, l: Label)
    requires l in ls && l.SendDone?
    ensures SendAnswer(l.id, l.result) in SendAnswers(ls)
  {
    if l != ls[0] {
      AnswerListed(ls[1..], l);
    }
  }

  /** In every run: what the core was handed are, in the order of the calls and each at most once, messages given to
      `send`; and a send answered `Ok` is one of them. */
  lemma {:induction false} MessagesInEveryRun(cfg: Config, events: seq<Event>)
    requires CanRun(cfg, Start, events)
    ensures var s := Run(cfg, Start, events);
            && GivenInv(s, Given(events)) && TookInv(s) && InOrder(s.wire.handed)
            && (forall x <- s.wire.handed :: x.MessageToCore? ==>
                  x.id < |Given(events)| && Given(events)[x.id] == x.message)
            && (forall l <- Trace(cfg, Start, events) :: l.SendDone? && l.result.Sent? ==> Took(s.wire.handed, l.id))
    decreases |events|
  {
    if events != [] {
      var init, e := Last(cfg, events);
      assert Given(events) == Given(init) + if e.SendCall? then [e.message] else [];
      hide Run, Trace, StepOf, Enabled, CanRun, Inv, Given, TookInv, GivenInv;
      MessagesInEveryRun(cfg, init);
      GivenKept(cfg, Run(cfg, Start, init), e, Given(init));
      StepTook(cfg, Run(cfg, Start, init), e);
      AcksKeep(Run(cfg, Start, init), Run(cfg, Start, events));
    }
    NoCallIsLost(cfg, events);
    HandedAreGiven(Run(cfg, Start, events), Given(events));
    SentWereTaken(Run(cfg, Start, events), Trace(cfg, Start, events));
  }

  lemma HandedAreGiven(s: Provider, given: seq<Message>)
    requires GivenInv(s, given)
    ensures InOrder(s.wire.handed)
    ensures forall x <- s.wire.handed :: x.MessageToCore? ==> x.id < |given| && given[x.id] == x.message
  {
    assert forall x <- s.wire.handed :: GivenToCore(given, x);
  }

  lemma SentWereTaken(s: Provider, ls: seq<Label>)
    requires TookInv(s) && AcksAsAnswers(s.calls.acks) == SendAnswers(ls)
    ensures forall l <- ls :: l.SendDone? && l.result.Sent? ==> Took(s.wire.handed, l.id)
  {
    hide Took, SendAnswers;
    forall l <- ls | l.SendDone? && l.result.Sent?
      ensures Took(s.wire.handed, l.id)
    {
      AnswerListed(ls, l);
      var i :| 0 <= i < |s.calls.acks| && AcksAsAnswers(s.calls.acks)[i] == SendAnswer(l.id, l.result);
      assert s.calls.acks[i] in s.calls.acks;
    }
  }

  // ----- the close frame ---------------------------------------------------------------------------------

  /** The arguments of the first valid `close`. */
  function FirstCloseArgs(events: seq<Event>): Option<CloseArgs> {
    if events == [] then None
    else NextCloseArgs(FirstCloseArgs(events[..|events| - 1]), events[|events| - 1])
  }

  function NextCloseArgs(args: Option<CloseArgs>, e: Event): Option<CloseArgs> {
    if args.Some? || !e.CloseCall? || !CloseArgsOk(e.code, e.reason) then args else Some(CloseArgs(e.code, e.reason))
  }

  /** The close handed over follows what ended acceptance: a local close carries its arguments, an overflow's has no
      body, and the core answers the peer's frame by itself. */
  predicate Follows(frame: Option<CloseInfo>, cause: Option<Label>, args: Option<CloseArgs>) {
    match cause
    case Some(Stop) => Carries(frame, args)
    case Some(Overflow(_)) => frame.None?
    case Some(LatchOverflow) => frame.None?
    case _ => false
  }

  predicate CallsForClose(cause: Option<Label>) { cause.Some? && (cause.value.Stop? || IsOverflow(cause.value)) }

  ghost predicate CloseHanded(w: Wire, cause: Option<Label>, args: Option<CloseArgs>) {
    && (w.wireClosing ==> cause.Some?)
    && (forall x <- w.handed :: x.CloseToCore? ==> Follows(x.frame, cause, args))
    && OneClose(w.handed)
    && (w.wireClosing && CallsForClose(cause) ==> exists x <- w.handed :: x.CloseToCore?)
  }

  ghost predicate OneClose(handed: seq<ToCore>) {
    forall i, j :: 0 <= i < j < |handed| ==> !handed[i].CloseToCore? || !handed[j].CloseToCore?
  }

  ghost predicate CmdsCarry(cmds: seq<Cmd>, args: Option<CloseArgs>) {
    forall c <- cmds :: c.CloseCmd? ==> Carries(c.frame, args)
  }

  /** A local close is on its way to the core, or was acted on. */
  ghost predicate Coming(s: Provider) {
    s.wire.wireClosing || s.reader.ReaderDone? || exists c <- s.calls.cmds :: c.CloseCmd?
  }

  ghost predicate CloseInv(s: Provider, cause: Option<Label>, args: Option<CloseArgs>) {
    && s.cells.localClosed == args.Some?
    && CmdsCarry(s.calls.cmds, args)
    && (s.cells.localClosed ==> Coming(s))
    && CloseHanded(s.wire, cause, args)
    && (cause.Some? ==> s.wire.wireClosing || s.reader.ReaderDone?)
  }

  /** What `begin_close` hands over, and the labels that go with it. */
  lemma BeginCloseHands(cfg: Config, now: nat, w: Wire, frame: Option<CloseInfo>, closing: Encoded,
                        before: seq<Label>, cause: Option<Label>, args: Option<CloseArgs>)
    requires CloseHanded(w, cause, args) && (cause.Some? ==> w.wireClosing)
    requires !w.wireClosing ==>
               Follows(frame, Cause(before + [Stop]), args) && Cause(before + [Stop]).Some?
    ensures var v := BeginClose(cfg, now, w, frame, closing).0;
            CloseHanded(v, NextCause(cause, before + StopLabels(w)), args) && v.wireClosing
  {
    if !w.wireClosing {
      var v := BeginClose(cfg, now, w, frame, closing).0;
      assert v.handed == w.handed + [CloseToCore(frame)] && v.handed[|w.handed|] == CloseToCore(frame);
      assert forall x <- w.handed :: !x.CloseToCore?;
      hide Follows, BeginClose, Cause;
    }
  }

  lemma CloseKept(cfg: Config, s: Provider, e: Event, cause: Option<Label>, args: Option<CloseArgs>)
    requires Enabled(s, e) && CloseInv(s, cause, args) && InboundInv(cfg, s)
    requires s.cmd.CmdLate? ==> s.reader.ReaderDone?
    ensures var (t, ls) := StepOf(cfg, s, e); CloseInv(t, NextCause(cause, ls), NextCloseArgs(args, e))
  {
    hide HandleCmd, HandleLateCmd, HandleRead, LastDrain, HandleFlush, CloseInv, InboundInv, NextCause;
    match e
    case TakeCmd(encoded) => CmdClose(cfg, s, encoded, cause, args);
    case TakeLateCmd => LateClose(s, cause, args);
    case Read(step, closing) => ReadClose(cfg, s, step, closing, cause, args);
    case FeedEnd(rest) =>
      LastDrainHands(cfg, s, rest);
      GuestSends.LastDrainFrame(cfg, s, rest);
      ReaderEnds(s, LastDrain(cfg, s, rest).0, LastDrain(cfg, s, rest).1, cause, args);
    case FlushStep(who, step) => FlushClose(cfg, s, who, step, cause, args);
    case DeadlineExpires => ReaderEnds(s, Finalize(s).0, Finalize(s).1, cause, args);
    case CloseCall(code, reason) => CallClose(s, code, reason, cause, args);
    case _ => OtherClose(cfg, s, e, cause, args);
  }

  /** The pump finalized: whatever it showed, nothing is handed over any more. */
  lemma ReaderEnds(s: Provider, t: Provider, ls: seq<Label>, cause: Option<Label>, args: Option<CloseArgs>)
    requires CloseInv(s, cause, args) && t.reader.ReaderDone?
    requires t.wire.handed == s.wire.handed && t.wire.wireClosing == s.wire.wireClosing
    requires t.calls.cmds == s.calls.cmds && t.cells.localClosed == s.cells.localClosed
    ensures CloseInv(t, NextCause(cause, ls), args)
  {
    if cause.None? {
      assert forall x <- s.wire.handed :: !x.CloseToCore?;
    }
    hide Follows, Cause;
  }

  /** Nothing changed that a close depends on. */
  lemma SameClose(s: Provider, t: Provider, ls: seq<Label>, cause: Option<Label>, args: Option<CloseArgs>)
    requires CloseInv(s, cause, args) && (s.reader.ReaderDone? ==> t.reader.ReaderDone?)
    requires t.wire.handed == s.wire.handed && t.wire.wireClosing == s.wire.wireClosing
    requires t.calls.cmds == s.calls.cmds && t.cells.localClosed == s.cells.localClosed
    requires forall l <- ls :: !Closes(l)
    ensures CloseInv(t, NextCause(cause, ls), args)
  {
    QuietCause(ls);
    hide Follows, Cause;
  }

  lemma OtherClose(cfg: Config, s: Provider, e: Event, cause: Option<Label>, args: Option<CloseArgs>)
    requires Enabled(s, e) && CloseInv(s, cause, args) && !e.CloseCall? && !e.DeadlineExpires?
    requires !e.TakeCmd? && !e.TakeLateCmd? && !e.Read? && !e.FeedEnd? && !e.FlushStep?
    ensures var (t, ls) := StepOf(cfg, s, e); CloseInv(t, NextCause(cause, ls), args)
  {
    var (t, ls) := StepOf(cfg, s, e);
    QuietCause(ls);
    assert forall c <- t.calls.cmds :: c in s.calls.cmds || !c.CloseCmd?;
    assert forall c <- s.calls.cmds :: c in t.calls.cmds;
    hide Follows, Cause, Carries;
  }

  lemma CallClose(s: Provider, code: Option<nat>, reason: seq<Byte>, cause: Option<Label>, args: Option<CloseArgs>)
    requires CloseInv(s, cause, args)
    ensures var (t, ls) := CloseStep(s, code, reason);
            CloseInv(t, NextCause(cause, ls), NextCloseArgs(args, CloseCall(code, reason)))
  {
    var (t, ls) := CloseStep(s, code, reason);
    QuietCause(ls);
    if args.None? && CloseArgsOk(code, reason) {
      assert t.calls.cmds[|s.calls.cmds|].CloseCmd?;
      assert forall c <- s.calls.cmds :: !c.CloseCmd?;
      assert forall x <- s.wire.handed :: x.CloseToCore? ==> !Carries(x.frame, args);
    }
    hide Cause;
  }

  /** The command task took the head of the channel and left the wire's closing alone. */
  lemma Popped(s: Provider, t: Provider, ls: seq<Label>, cause: Option<Label>, args: Option<CloseArgs>)
    requires CloseInv(s, cause, args) && s.calls.cmds != [] && (s.calls.cmds[0].CloseCmd? ==> s.reader.ReaderDone?)
    requires t.calls.cmds == s.calls.cmds[1..] && t.cells.localClosed == s.cells.localClosed && t.reader == s.reader
    requires t.wire.wireClosing == s.wire.wireClosing
    requires t.wire.handed == s.wire.handed || HandsMessage(s.wire.handed, t.wire.handed)
    requires forall l <- ls :: !Closes(l)
    ensures CloseInv(t, NextCause(cause, ls), args)
  {
    QuietCause(ls);
    assert forall c <- s.calls.cmds :: c == s.calls.cmds[0] || c in t.calls.cmds;
    assert forall c <- t.calls.cmds :: c in s.calls.cmds;
    assert forall x <- t.wire.handed :: x.CloseToCore? ==> x in s.wire.handed;
    assert forall x <- s.wire.handed :: x in t.wire.handed;
    hide Follows, Cause, Carries;
  }

  ghost predicate HandsMessage(before: seq<ToCore>, after: seq<ToCore>) {
    |after| == |before| + 1 && after[|before|].MessageToCore? && after == before + [after[|before|]]
  }

  lemma CmdClose(cfg: Config, s: Provider, encoded: Encoded, cause: Option<Label>, args: Option<CloseArgs>)
    requires Enabled(s, TakeCmd(encoded)) && CloseInv(s, cause, args)
    ensures var (t, ls) := HandleCmd(cfg, s, encoded); CloseInv(t, NextCause(cause, ls), args)
  {
    var (t, ls) := HandleCmd(cfg, s, encoded);
    if s.calls.cmds[0].CloseCmd? {
      var frame := s.calls.cmds[0].frame;
      assert s.calls.cmds[0] in s.calls.cmds && forall c <- t.calls.cmds :: c in s.calls.cmds;
      StopIsCause();
      assert [] + [Stop] == [Stop] && [] + StopLabels(s.wire) == StopLabels(s.wire);
      BeginCloseHands(cfg, s.now, s.wire, frame, encoded, [], cause, args);
      hide BeginClose, CloseHanded, Cause, Carries;
    } else {
      assert t.wire.handed == s.wire.handed || HandsMessage(s.wire.handed, t.wire.handed);
      hide BeginClose, CloseInv;
      Popped(s, t, ls, cause, args);
    }
  }

  lemma LateClose(s: Provider, cause: Option<Label>, args: Option<CloseArgs>)
    requires Enabled(s, TakeLateCmd) && CloseInv(s, cause, args) && (s.cmd.CmdLate? ==> s.reader.ReaderDone?)
    ensures var (t, ls) := HandleLateCmd(s); CloseInv(t, NextCause(cause, ls), args)
  {
    hide CloseInv;
    Popped(s, HandleLateCmd(s).0, HandleLateCmd(s).1, cause, args);
  }

  lemma FlushClose(cfg: Config, s: Provider, who: Who, e: FlushEvent, cause: Option<Label>, args: Option<CloseArgs>)
    requires Enabled(s, FlushStep(who, e)) && CloseInv(s, cause, args)
    ensures var (t, ls) := HandleFlush(cfg, s, who, e); CloseInv(t, NextCause(cause, ls), args)
  {
    FlushHands(cfg, s, who, e);
    FlushShows(cfg, s, who, e);
    var (t, ls) := HandleFlush(cfg, s, who, e);
    hide HandleFlush, CloseInv, FlushOf;
    if t.reader.ReaderDone? {
      ReaderEnds(s, t, ls, cause, args);
    } else {
      SameClose(s, t, ls, cause, args);
    }
  }

  lemma FlushShows(cfg: Config, s: Provider, who: Who, e: FlushEvent)
    requires FlushOf(s, who).Some?
    ensures var (t, ls) := HandleFlush(cfg, s, who, e);
            (s.reader.ReaderDone? ==> t.reader.ReaderDone?) && (t.reader.ReaderDone? || forall l <- ls :: !Closes(l))
  {
    hide FlushNext;
  }

  lemma ReadClose(cfg: Config, s: Provider, step: CoreRead, closing: Encoded, cause: Option<Label>,
                  args: Option<CloseArgs>)
    requires s.reader.Draining? && CloseInv(s, cause, args) && InboundInv(cfg, s)
    ensures var (t, ls) := HandleRead(cfg, s, step, closing); CloseInv(t, NextCause(cause, ls), args)
  {
    match step
    case Data(m) =>
      var (q, l) := Deliver(cfg, s.wire.wireClosing, s.inbound, m);
      if q.overflowed && !s.wire.wireClosing {
        OverflowClose(cfg, s, s.(inbound := q), l, closing, false, cause, args);
      } else {
        SameClose(s, HandleRead(cfg, s, step, closing).0, [l], cause, args);
      }
    case PeerClose(frame, reply) => PeerClosed(cfg, s, frame, reply, cause, args);
    case CapacityError =>
      OverflowClose(cfg, s, s.(inbound := s.inbound.(overflowed := true)), LatchOverflow, closing, true, cause, args);
    case ReadEnd => ReaderEnds(s, EndOfInput(s).0, EndOfInput(s).1, cause, args);
    case _ => SameClose(s, HandleRead(cfg, s, step, closing).0, [], cause, args);
  }

  /** An overflow's close, from the reader. */
  lemma OverflowClose(cfg: Config, s: Provider, t: Provider, first: Label, closing: Encoded, thenBreak: bool,
                      cause: Option<Label>, args: Option<CloseArgs>)
    requires s.reader.Draining? && CloseInv(s, cause, args) && IsOverflow(first)
    requires t == s.(inbound := t.inbound)
    ensures var (u, ls) := Append([first], ReaderCloses(cfg, t, closing, thenBreak));
            CloseInv(u, NextCause(cause, ls), args)
  {
    var (w, flush) := BeginClose(cfg, s.now, s.wire, None, closing);
    var u := ReaderCloses(cfg, t, closing, thenBreak).0;
    assert Closes([first][0]) && Cause([first]) == Some(first);
    CauseConcat([first], [Stop]);
    CauseConcat([first], StopLabels(s.wire));
    CauseConcat([first], ReaderCloses(cfg, t, closing, thenBreak).1);
    assert Follows(None, Some(first), args);
    hide Cause, Follows;
    BeginCloseHands(cfg, s.now, s.wire, None, closing, [first], cause, args);
    assert u.wire == w && u.calls == s.calls && u.cells.localClosed == s.cells.localClosed;
    hide BeginClose, ReaderCloses, CloseHanded;
  }

  lemma PeerClosed(cfg: Config, s: Provider, frame: Option<CloseInfo>, reply: seq<Byte>, cause: Option<Label>,
                   args: Option<CloseArgs>)
    requires s.reader.Draining? && CloseInv(s, cause, args)
    ensures var (t, ls) := HandlePeerClose(cfg, s, frame, reply); CloseInv(t, NextCause(cause, ls), args)
  {
    var ls := [PeerFrame(CloseInfoFrom(frame)), Progress(IsClosing)];
    assert Closes(ls[0]);
    if cause.None? {
      assert forall x <- s.wire.handed :: !x.CloseToCore?;
    }
    hide Follows;
  }

  /** In every run: the one close handed to the core follows the label that ended acceptance. After a local close it
      carries the code and the reason of the first valid `close`, no body if that named no code; after an overflow it
      has no body; otherwise there is none. A wire that closes for either cause got its close. */
  lemma {:induction false} CloseFrameInEveryRun(cfg: Config, events: seq<Event>)
    requires CanRun(cfg, Start, events)
    ensures var s, ls := Run(cfg, Start, events), Trace(cfg, Start, events);
            && CloseInv(s, Cause(ls), FirstCloseArgs(events))
            && (forall x <- s.wire.handed :: x.CloseToCore? ==> Follows(x.frame, Cause(ls), FirstCloseArgs(events)))
            && OneClose(s.wire.handed)
            && (s.wire.wireClosing && CallsForClose(Cause(ls)) ==> exists x <- s.wire.handed :: x.CloseToCore?)
    decreases |events|
  {
    if events == [] {
      QuietCause([]);
    } else {
      var init, e := Last(cfg, events);
      assert FirstCloseArgs(events) == NextCloseArgs(FirstCloseArgs(init), e);
      hide Run, Trace, StepOf, Enabled, CanRun, Inv, FirstCloseArgs, CloseInv, Follows, Cause;
      CloseFrameInEveryRun(cfg, init);
      var s := Run(cfg, Start, init);
      PartsOf(cfg, s);
      CloseKept(cfg, s, e, Cause(Trace(cfg, Start, init)), FirstCloseArgs(init));
      CauseConcat(Trace(cfg, Start, init), StepOf(cfg, s, e).1);
    }
    HandedSays(Run(cfg, Start, events), Cause(Trace(cfg, Start, events)), FirstCloseArgs(events));
  }

  lemma HandedSays(s: Provider, cause: Option<Label>, args: Option<CloseArgs>)
    requires CloseInv(s, cause, args)
    ensures forall x <- s.wire.handed :: x.CloseToCore? ==> Follows(x.frame, cause, args)
    ensures OneClose(s.wire.handed)
    ensures s.wire.wireClosing && CallsForClose(cause) ==> exists x <- s.wire.handed :: x.CloseToCore?
  {
  }
}
