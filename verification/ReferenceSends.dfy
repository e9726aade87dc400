/** The outbound half of the reference pump: acks in command order, the shape of their results, and
    what reached the transport.

    The first part says that every enqueued send is answered once, in the order of the commands. The second is a
    ledger between the answers and the frames handed to the transport: what was answered `Ok` was written, in
    order; after the first failure nothing is; and the close frame, if any, is the last. */
module ReferenceSends {
  import opened Types
  import opened CallIds
  import opened ReferencePump
  import opened ReferenceInvariants

  // ----- the sequences involved --------------------------------------------------------------------------

  function CmdIds(cmds: seq<Cmd>): seq<nat> {
    if cmds == [] then []
    else (if cmds[0].SendCmd? then [cmds[0].id] else []) + CmdIds(cmds[1..])
  }

  function AckIds(acks: seq<Ack>): seq<nat> {
    seq(|acks|, i requires 0 <= i < |acks| => acks[i].id)
  }

  /** The sends answered `Ok`, in answer order. */
  function SentIds(acks: seq<Ack>): seq<nat> {
    if acks == [] then []
    else SentIds(acks[..|acks| - 1]) + (if acks[|acks| - 1].result.Sent? then [acks[|acks| - 1].id] else [])
  }

  /** The data frames handed to the transport, in order. */
  function DataIds(wire: seq<Frame>): seq<nat> {
    if wire == [] then []
    else DataIds(wire[..|wire| - 1]) + (if wire[|wire| - 1].DataFrame? then [wire[|wire| - 1].id] else [])
  }

  function InFlight(pc: Pc): seq<nat> { if pc.Writing? && pc.job.DataJob? then [pc.job.id] else [] }

  lemma {:induction false} CmdIdsConcat(a: seq<Cmd>, b: seq<Cmd>)
    ensures CmdIds(a + b) == CmdIds(a) + CmdIds(b)
  {
    if a == [] {
      assert a + b == b;
    } else {
      assert (a + b)[0] == a[0] && (a + b)[1..] == a[1..] + b;
      CmdIdsConcat(a[1..], b);
    }
  }

  lemma Snoc(acks: seq<Ack>, ack: Ack, wire: seq<Frame>, frame: Frame)
    ensures AckIds(acks + [ack]) == AckIds(acks) + [ack.id]
    ensures SentIds(acks + [ack]) == SentIds(acks) + if ack.result.Sent? then [ack.id] else []
    ensures DataIds(wire + [frame]) == DataIds(wire) + if frame.DataFrame? then [frame.id] else []
  {
    assert (acks + [ack])[..|acks|] == acks;
    assert (wire + [frame])[..|wire|] == wire;
  }

  // ----- every enqueued send is answered once, in command order ------------------------------------------

  ghost predicate OrderInv(s: Pump) {
    && Increasing(s.guest.issued, s.guest.calls)
    && s.guest.issued == AckIds(s.task.acks) + InFlight(s.task.pc) + CmdIds(s.channel.cmds)
  }

  /** Answered, in flight and waiting ids, as the helpers see them. */
  function Owed(t: Task): seq<nat> { AckIds(t.acks) + InFlight(t.pc) }

  lemma BeginCloseOrder(cfg: Config, now: nat, t: Task, frame: Option<CloseInfo>, thenBreak: bool)
    requires t.pc.AtSelect?
    ensures Owed(BeginClose(cfg, now, t, frame, thenBreak).0) == Owed(t)
  {
  }

  lemma PeerClosesOrder(cfg: Config, now: nat, t: Task, frame: Option<CloseInfo>)
    requires t.pc.AtSelect?
    ensures Owed(PeerCloses(cfg, now, t, frame).0) == Owed(t)
  {
  }

  lemma EndWriteOrder(cfg: Config, now: nat, t: Task, result: SendResult)
    requires t.pc.Writing?
    ensures Owed(EndWrite(cfg, now, t, result).0) == Owed(t)
  {
  }

  lemma OrderKept(cfg: Config, s: Pump, e: Event)
    requires Enabled(s, e) && ControlInv(s) && OrderInv(s)
    ensures OrderInv(StepOf(cfg, s, e).0)
  {
    hide BeginClose, PeerCloses, EndWrite, HandleCmd, HandleRead, Finalize, OutsideStep;
    match e
    case TakeCmd => CmdOrderKept(cfg, s);
    case ReadSocket => ReadOrderKept(cfg, s);
    case WriteEnds(outcome) => EndWriteOrder(cfg, s.now, s.task, outcome);
    case WriteTimesOut => EndWriteOrder(cfg, s.now, s.task, Failed(Closed));
    case FinalizeStep => FinalizeOrderKept(s);
    case DeadlineFires =>
    case ArmMidWrite =>
    case _ => OutsideOrderKept(s, e);
  }

  lemma FinalizeOrderKept(s: Pump)
    requires Enabled(s, FinalizeStep) && OrderInv(s)
    ensures OrderInv(Finalize(s).0)
  {
    hide FinalizeTask;
  }

  lemma OutsideOrderKept(s: Pump, e: Event)
    requires !IsPump(e) && Enabled(s, e) && ControlInv(s) && OrderInv(s)
    ensures OrderInv(OutsideStep(s, e).0)
  {
    if e.SendCall? {
      SendCallOrderKept(s, e.message);
      hide SendStep;
    } else if e.PostClose? {
      PostCloseOrderKept(s);
    }
  }

  lemma SendCallOrderKept(s: Pump, m: Message)
    requires OrderInv(s)
    ensures OrderInv(SendStep(s, m).0)
  {
    var id := s.guest.calls;
    CmdIdsConcat(s.channel.cmds, [SendCmd(id, m)]);
    assert CmdIds([SendCmd(id, m)]) == [id];
    IncreasingSnoc(s.guest.issued, id);
  }

  lemma PostCloseOrderKept(s: Pump)
    requires Enabled(s, PostClose) && ControlInv(s) && OrderInv(s)
    ensures OrderInv(OutsideStep(s, PostClose).0)
  {
    CmdIdsConcat(s.channel.cmds, [s.channel.toPost.value]);
    assert CmdIds([s.channel.toPost.value]) == [];
  }

  lemma CmdOrderKept(cfg: Config, s: Pump)
    requires Enabled(s, TakeCmd) && OrderInv(s)
    ensures OrderInv(HandleCmd(cfg, s).0)
  {
    hide BeginClose;
    if s.channel.cmds == [] {
      BeginCloseOrder(cfg, s.now, s.task.(cmdsDone := true), None, false);
    } else if s.channel.cmds[0].CloseCmd? {
      BeginCloseOrder(cfg, s.now, s.task, s.channel.cmds[0].frame, false);
    }
  }

  lemma ReadOrderKept(cfg: Config, s: Pump)
    requires Enabled(s, ReadSocket) && OrderInv(s)
    ensures OrderInv(HandleRead(cfg, s).0)
  {
    hide BeginClose, PeerCloses;
    match s.inbox[0]
    case Data(_) => BeginCloseOrder(cfg, s.now, s.task, None, false);
    case CapacityError => BeginCloseOrder(cfg, s.now, s.task, None, true);
    case PeerClose(frame) => PeerClosesOrder(cfg, s.now, s.task, frame);
    case _ =>
  }

  // ----- results and frames ------------------------------------------------------------------------------

  /** `Ok`s, then errors, all but the first of them `closed`. */
  ghost predicate OksThenErrors(acks: seq<Ack>) {
    forall i, j :: 0 <= i < j < |acks| && acks[i].result.Failed? ==> acks[j].result == Failed(Closed)
  }

  ghost predicate AnyFailed(acks: seq<Ack>) { exists i :: 0 <= i < |acks| && acks[i].result.Failed? }

  /** Data frames, then at most one close frame, then nothing. */
  ghost predicate DataThenClose(wire: seq<Frame>) {
    forall i :: 0 <= i < |wire| - 1 ==> wire[i].DataFrame?
  }

  predicate WroteClose(wire: seq<Frame>) { wire != [] && wire[|wire| - 1].CloseFrame? }

  predicate LeftLoop(pc: Pc) { pc.Finalizing? || pc.Done? }

  /** How the acks relate to the frames: `over` says that no further data frame can be written. */
  ghost predicate Ledger(acks: seq<Ack>, wire: seq<Frame>, inFlight: seq<nat>, over: bool) {
    && OksThenErrors(acks)
    && (AnyFailed(acks) ==> over)
    && DataThenClose(wire)
    // A send answered `Ok` was written, in order; at most one more was handed to the transport.
    && SentIds(acks) <= DataIds(wire) <= AckIds(acks) + inFlight
    && |DataIds(wire)| <= |SentIds(acks)| + 1
    && (!AnyFailed(acks) ==> DataIds(wire) == AckIds(acks) + inFlight)
  }

  predicate Over(t: Task) { t.wireClosing || t.writeDead || LeftLoop(t.pc) }

  ghost predicate WireInv(t: Task) {
    && Ledger(t.acks, t.wire, InFlight(t.pc), Over(t))
    && (WroteClose(t.wire) ==> t.wireClosing)
  }

  lemma {:induction false} AllSent(acks: seq<Ack>)
    requires !AnyFailed(acks)
    ensures SentIds(acks) == AckIds(acks)
  {
    if acks != [] {
      var init := acks[..|acks| - 1];
      assert forall i :: 0 <= i < |init| ==> init[i] == acks[i];
      AllSent(init);
      assert acks == init + [acks[|acks| - 1]];
      Snoc(init, acks[|acks| - 1], [], CloseFrame(None));
    }
  }

  lemma FailedSnoc(acks: seq<Ack>, ack: Ack)
    ensures AnyFailed(acks + [ack]) <==> AnyFailed(acks) || ack.result.Failed?
    ensures OksThenErrors(acks) && (!AnyFailed(acks) || ack.result == Failed(Closed)) ==> OksThenErrors(acks + [ack])
  {
    var longer := acks + [ack];
    assert forall i :: 0 <= i < |acks| ==> longer[i] == acks[i];
    assert longer[|acks|] == ack;
  }

  /** A send refused by the pump. */
  lemma LedgerRefuse(acks: seq<Ack>, wire: seq<Frame>, ack: Ack)
    requires Ledger(acks, wire, [], true) && ack.result == Failed(Closed)
    ensures Ledger(acks + [ack], wire, [], true)
  {
    FailedSnoc(acks, ack);
    Snoc(acks, ack, wire, CloseFrame(None));
  }

  /** A data frame handed to the transport. */
  lemma LedgerStart(acks: seq<Ack>, wire: seq<Frame>, id: nat, m: Message)
    requires Ledger(acks, wire, [], false) && !WroteClose(wire)
    ensures Ledger(acks, wire + [DataFrame(id, m)], [id], false)
  {
    Snoc(acks, Ack(0, Sent), wire, DataFrame(id, m));
    AllSent(acks);
  }

  /** The end of the write in flight. */
  lemma LedgerEnd(acks: seq<Ack>, wire: seq<Frame>, ack: Ack)
    requires Ledger(acks, wire, [ack.id], false)
    ensures Ledger(acks + [ack], wire, [], ack.result.Failed?)
  {
    FailedSnoc(acks, ack);
    Snoc(acks, ack, wire, CloseFrame(None));
    AllSent(acks);
  }

  lemma LedgerClose(acks: seq<Ack>, wire: seq<Frame>, frame: Option<CloseInfo>, over: bool)
    requires Ledger(acks, wire, [], over) && !WroteClose(wire)
    ensures Ledger(acks, wire + [CloseFrame(frame)], [], true)
  {
    Snoc(acks, Ack(0, Sent), wire, CloseFrame(frame));
  }

  lemma LedgerOver(acks: seq<Ack>, wire: seq<Frame>, inFlight: seq<nat>, over: bool)
    requires Ledger(acks, wire, inFlight, over)
    ensures Ledger(acks, wire, inFlight, true)
  {
  }

  lemma AckWire(t: Task, id: nat)
    requires WireInv(t) && !t.pc.Writing? && Over(t)
    ensures WireInv(t.(acks := t.acks + [Ack(id, Failed(Closed))]))
  {
    hide Ledger;
    LedgerRefuse(t.acks, t.wire, Ack(id, Failed(Closed)));
  }

  lemma StartDataWire(t: Task, id: nat, m: Message)
    requires TaskInv(t) && WireInv(t) && t.pc.AtSelect? && !t.wireClosing && !t.writeDead
    ensures WireInv(BoundedWrite(t, DataJob(id), [DataFrame(id, m)]).0)
  {
    hide Ledger;
    LedgerStart(t.acks, t.wire, id, m);
  }

  lemma EndWriteWire(cfg: Config, now: nat, t: Task, result: SendResult)
    requires TaskInv(t) && WireInv(t) && t.pc.Writing?
    ensures WireInv(EndWrite(cfg, now, t, result).0)
  {
    hide Ledger;
    if t.pc.job.DataJob? {
      LedgerEnd(t.acks, t.wire, Ack(t.pc.job.id, result));
      LedgerOver(t.acks + [Ack(t.pc.job.id, result)], t.wire, [], result.Failed?);
    } else {
      LedgerOver(t.acks, t.wire, [], Over(t));
    }
  }

  lemma BeginCloseWire(cfg: Config, now: nat, t: Task, frame: Option<CloseInfo>, thenBreak: bool)
    requires TaskInv(t) && WireInv(t) && t.pc.AtSelect?
    ensures WireInv(BeginClose(cfg, now, t, frame, thenBreak).0)
  {
    hide Ledger;
    LedgerOver(t.acks, t.wire, [], Over(t));
    if !t.wireClosing {
      LedgerClose(t.acks, t.wire, frame, Over(t));
    }
  }

  lemma PeerClosesWire(cfg: Config, now: nat, t: Task, frame: Option<CloseInfo>)
    requires TaskInv(t) && WireInv(t) && t.pc.AtSelect?
    ensures WireInv(PeerCloses(cfg, now, t, frame).0)
  {
    hide Ledger;
    LedgerOver(t.acks, t.wire, [], Over(t));
    if !t.wireClosing {
      LedgerClose(t.acks, t.wire, frame, Over(t));
    }
  }

  lemma WireKept(cfg: Config, s: Pump, e: Event)
    requires Enabled(s, e) && ControlInv(s) && WireInv(s.task)
    ensures WireInv(StepOf(cfg, s, e).0.task)
  {
    hide BeginClose, PeerCloses, EndWrite, BoundedWrite, WireInv, TaskInv;
    match e
    case TakeCmd => CmdWireKept(cfg, s);
    case ReadSocket => ReadWireKept(cfg, s);
    case WriteEnds(outcome) => EndWriteWire(cfg, s.now, s.task, outcome);
    case WriteTimesOut => EndWriteWire(cfg, s.now, s.task, Failed(Closed));
    case FinalizeStep => FinalizeWireKept(cfg, s);
    case _ => OtherWireKept(cfg, s, e);
  }

  lemma OtherWireKept(cfg: Config, s: Pump, e: Event)
    requires Enabled(s, e) && (!IsPump(e) || e.DeadlineFires? || e.ArmMidWrite?) && WireInv(s.task)
    ensures WireInv(StepOf(cfg, s, e).0.task)
  {
    hide Ledger;
    LedgerOver(s.task.acks, s.task.wire, InFlight(s.task.pc), Over(s.task));
  }

  lemma CmdWireKept(cfg: Config, s: Pump)
    requires Enabled(s, TakeCmd) && ControlInv(s) && WireInv(s.task)
    ensures WireInv(HandleCmd(cfg, s).0.task)
  {
    hide BeginClose, Ledger;
    if s.channel.cmds == [] {
      BeginCloseWire(cfg, s.now, s.task.(cmdsDone := true), None, false);
    } else {
      match s.channel.cmds[0]
      case CloseCmd(frame) => BeginCloseWire(cfg, s.now, s.task, frame, false);
      case SendCmd(id, m) =>
        if s.task.wireClosing || s.task.writeDead {
          AckWire(s.task, id);
        } else {
          StartDataWire(s.task, id, m);
        }
    }
  }

  lemma ReadWireKept(cfg: Config, s: Pump)
    requires Enabled(s, ReadSocket) && ControlInv(s) && WireInv(s.task)
    ensures WireInv(HandleRead(cfg, s).0.task)
  {
    hide BeginClose, PeerCloses, Ledger;
    match s.inbox[0]
    case Data(_) => BeginCloseWire(cfg, s.now, s.task, None, false);
    case CapacityError => BeginCloseWire(cfg, s.now, s.task, None, true);
    case PeerClose(frame) => PeerClosesWire(cfg, s.now, s.task, frame);
    case Ping => assert s.task.wire + [] == s.task.wire;
    case _ => LedgerOver(s.task.acks, s.task.wire, [], Over(s.task));
  }

  lemma FinalizeWireKept(cfg: Config, s: Pump)
    requires Enabled(s, FinalizeStep) && ControlInv(s) && WireInv(s.task)
    ensures WireInv(Finalize(s).0.task)
  {
    hide Ledger;
    if s.task.pc.stage == 3 && s.channel.cmds != [] && s.channel.cmds[0].SendCmd? {
      AckWire(s.task, s.channel.cmds[0].id);
    }
  }
}
