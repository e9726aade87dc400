/** The reference pump's one end without an input to show for it: the deadline after a failed write. */
module ReferenceEnd {
  import opened Types
  import opened Contract
  import opened PeerInput
  import opened ReferencePump
  import opened ReferenceInvariants
  import opened ReferenceSends
  import opened ReferenceTermination
  import opened ReferenceRefinement
  import opened ReferenceDelivery

  /** The ways out of the loop. */
  lemma LeavingStops(cfg: Config, s: Pump, e: Event)
    requires Enabled(s, e) && ControlInv(s) && !LeftLoop(s.task.pc) && LeftLoop(StepOf(cfg, s, e).0.task.pc)
    ensures Stage(StepOf(cfg, s, e).0.task.pc) == 0
    ensures e.DeadlineFires? || StepOf(cfg, s, e).0.task.wireClosing || StepOf(cfg, s, e).1 == [InputEnds]
  {
    ControlKept(cfg, s, e);
    hide ControlInv, TaskInv;
    match e
    case TakeCmd => CmdStays(cfg, s);
    case ReadSocket => ReadLeaves(cfg, s);
    case WriteEnds(_) => assert s.task.pc.job.CloseJob?; WritingClose(s);
    case WriteTimesOut => assert s.task.pc.job.CloseJob?; WritingClose(s);
    case _ =>
  }

  lemma WritingClose(s: Pump)
    requires ControlInv(s) && s.task.pc.Writing? && s.task.pc.job.CloseJob?
    ensures s.task.wireClosing
  {
  }

  lemma ClosesStay(cfg: Config, now: nat, t: Task, frame: Option<CloseInfo>)
    requires t.pc.AtSelect?
    ensures !LeftLoop(BeginClose(cfg, now, t, frame, false).0.pc)
  {
  }

  lemma CmdStays(cfg: Config, s: Pump)
    requires Enabled(s, TakeCmd)
    ensures !LeftLoop(HandleCmd(cfg, s).0.task.pc)
  {
    hide BeginClose;
    if s.channel.cmds == [] {
      ClosesStay(cfg, s.now, s.task.(cmdsDone := true), None);
    } else if s.channel.cmds[0].CloseCmd? {
      ClosesStay(cfg, s.now, s.task, s.channel.cmds[0].frame);
    }
  }

  lemma PingStays(t: Task)
    requires t.pc.AtSelect?
    ensures !LeftLoop(BoundedWrite(t, FlushJob, []).0.pc)
  {
  }

  lemma ReadLeaves(cfg: Config, s: Pump)
    requires Enabled(s, ReadSocket) && ControlInv(s) && LeftLoop(HandleRead(cfg, s).0.task.pc)
    ensures Stage(HandleRead(cfg, s).0.task.pc) == 0
    ensures HandleRead(cfg, s).0.task.wireClosing || HandleRead(cfg, s).1 == [InputEnds]
  {
    hide BeginClose, PeerCloses, BoundedWrite, TaskInv;
    match s.inbox[0]
    case Data(_) => BeginCloseInv(cfg, s.now, s.task, None, false);
    case CapacityError => BeginCloseInv(cfg, s.now, s.task, None, true);
    case PeerClose(frame) => PeerClosesInv(cfg, s.now, s.task, frame);
    case Ping => PingStays(s.task);
    case _ =>
  }

  /** Past the loop nothing is read. */
  lemma {:induction false} NoInputsPastLoop(cfg: Config, s: Pump, events: seq<Event>)
    requires CanRun(cfg, s, events) && LeftLoop(s.task.pc)
    ensures Inputs(Trace(cfg, s, events)) == []
    decreases |events|
  {
    hide StepOf, Inputs;
    NoInputs([]);
    if events != [] {
      var e := events[0];
      StepInputs(cfg, s, e);
      StaysLeft(cfg, s, e);
      var (t, ls) := StepOf(cfg, s, e);
      NoInputsPastLoop(cfg, t, events[1..]);
      InputsConcat(ls, Trace(cfg, t, events[1..]));
    }
  }

  lemma StaysLeft(cfg: Config, s: Pump, e: Event)
    requires Enabled(s, e) && LeftLoop(s.task.pc)
    ensures LeftLoop(StepOf(cfg, s, e).0.task.pc) && !e.ReadSocket?
  {
    hide FinalizeTask;
  }

  /** The event that left the loop. */
  lemma {:induction false} Leaving(cfg: Config, s: Pump, events: seq<Event>) returns (k: nat)
    requires CanRun(cfg, s, events) && !LeftLoop(s.task.pc) && LeftLoop(Run(cfg, s, events).task.pc)
    ensures k < |events| && !LeftLoop(Run(cfg, s, events[..k]).task.pc)
    ensures LeftLoop(StepOf(cfg, Run(cfg, s, events[..k]), events[k]).0.task.pc)
    decreases |events|
  {
    hide StepOf, Enabled;
    var t := StepOf(cfg, s, events[0]).0;
    if LeftLoop(t.task.pc) {
      k := 0;
    } else {
      k := Leaving(cfg, t, events[1..]);
      assert events[..k + 1][1..] == events[1..][..k];
      k := k + 1;
    }
  }

  lemma {:induction false} TraceConcat(cfg: Config, s: Pump, a: seq<Event>, b: seq<Event>)
    ensures Trace(cfg, s, a + b) == Trace(cfg, s, a) + Trace(cfg, Run(cfg, s, a), b)
    decreases |a|
  {
    hide StepOf;
    if a == [] {
      assert a + b == b;
    } else {
      assert (a + b)[0] == a[0] && (a + b)[1..] == a[1..] + b;
      TraceConcat(cfg, StepOf(cfg, s, a[0]).0, a[1..], b);
    }
  }

  /** What the relation says of the contract's state after a run. */
  lemma ContractAfter(cfg: Config, events: seq<Event>)
    requires CanRun(cfg, Start, events)
    ensures var s, ls := Run(cfg, Start, events), Trace(cfg, Start, events);
            && Allowed(cfg.limit, ls) && ControlInv(s)
            && At(cfg.limit, ls, |ls|).ended == (Stage(s.task.pc) > 1)
            && (s.task.wireClosing ==> At(cfg.limit, ls, |ls|).stopped)
  {
    StartInv(cfg);
    StartMatches();
    hide Inv, Rel, Run, Trace, Step;
    RunInv(cfg, Start, events);
    RunMatches(cfg, Start, Contract.Init, events);
    var s, ls := Run(cfg, Start, events), Trace(cfg, Start, events);
    assert ls[..|ls|] == ls;
    RelSays(cfg, s, Exec(cfg.limit, Contract.Init, ls).value);
  }

  lemma RelSays(cfg: Config, s: Pump, c: State)
    requires Inv(cfg, s) && Rel(s, c)
    ensures ControlInv(s) && c.ended == (Stage(s.task.pc) > 1) && (s.task.wireClosing ==> c.stopped)
  {
    hide BudgetInv, TimeInv, OrderInv, WireInv, CauseInv;
  }

  /** A run that leaves the loop at its deadline has read everything that had arrived. */
  lemma DeadlineReadsAll(cfg: Config, events: seq<Event>)
    requires CanRun(cfg, Start, events) && Enabled(Run(cfg, Start, events), DeadlineFires)
    ensures Inputs(Trace(cfg, Start, events)) == InputsIn(SentBy(events))
  {
    hide Inputs, Run, Trace;
    RunInputs(cfg, Start, events);
    var read, sent := Inputs(Trace(cfg, Start, events)), InputsIn(SentBy(events));
    assert InputsIn(Run(cfg, Start, events).inbox) == [] && InputsIn(Start.inbox) == [];
    assert read == read + [] == [] + sent == sent;
  }

  /** The queue's end, shown somewhere in a run, means that the run is past its loop. */
  lemma EndIsPastLoop(cfg: Config, events: seq<Event>, i: nat)
    requires CanRun(cfg, Start, events) && i < |Trace(cfg, Start, events)| && Trace(cfg, Start, events)[i].End?
    ensures Stage(Run(cfg, Start, events).task.pc) > 1
  {
    ContractAfter(cfg, events);
    hide Run, Trace, Step, ControlInv;
    EndLatches(cfg.limit, Trace(cfg, Start, events), i);
  }

  lemma EndLatches(limit: nat, ls: seq<Label>, i: nat)
    requires Allowed(limit, ls) && i < |ls| && ls[i].End?
    ensures At(limit, ls, |ls|).ended
  {
    StepAt(limit, ls, i);
    EndStep(limit, At(limit, ls, i), ls[i]);
    hide Step;
    LaterAt(limit, ls, i + 1, |ls|);
  }

  lemma EndStep(limit: nat, s: State, l: Label)
    requires l.End? && Step(limit, s, l).Some?
    ensures Step(limit, s, l).value.ended
  {
  }

  /** A run cut after its `k`-th event. */
  lemma Cut(cfg: Config, events: seq<Event>, k: nat)
    requires CanRun(cfg, Start, events) && k < |events|
    ensures CanRun(cfg, Start, events[..k]) && CanRun(cfg, Start, events[..k + 1])
    ensures var s, t := Run(cfg, Start, events[..k]), Run(cfg, Start, events[..k + 1]);
            && Enabled(s, events[k]) && t == StepOf(cfg, s, events[k]).0 && CanRun(cfg, t, events[k + 1..])
            && Trace(cfg, Start, events[..k + 1]) == Trace(cfg, Start, events[..k]) + StepOf(cfg, s, events[k]).1
            && Trace(cfg, Start, events) == Trace(cfg, Start, events[..k + 1]) + Trace(cfg, t, events[k + 1..])
  {
    hide Enabled, StepOf;
    var a, e, upTo, rest := events[..k], events[k], events[..k + 1], events[k + 1..];
    assert upTo == a + [e] && events == upTo + rest && [e][1..] == [];
    RunConcat(cfg, Start, upTo, rest);
    RunConcat(cfg, Start, a, [e]);
    TraceConcat(cfg, Start, upTo, rest);
    TraceConcat(cfg, Start, a, [e]);
    assert StepOf(cfg, Run(cfg, Start, a), e).1 + [] == StepOf(cfg, Run(cfg, Start, a), e).1;
  }

  /** The event that takes the pump out of its loop. */
  ghost predicate Leaves(cfg: Config, events: seq<Event>, k: nat) {
    && k < |events| && !LeftLoop(Run(cfg, Start, events[..k]).task.pc)
    && LeftLoop(StepOf(cfg, Run(cfg, Start, events[..k]), events[k]).0.task.pc)
  }

  /** Acceptance ended with the queue, before any other cause. */
  ghost predicate EndsWithQueue(ls: seq<Label>) { FirstClose(ls) < |ls| && ls[FirstClose(ls)].End? }

  /** The queue's end comes after the loop was left. */
  lemma EndIsLater(cfg: Config, events: seq<Event>, k: nat)
    requires CanRun(cfg, Start, events) && Leaves(cfg, events, k) && EndsWithQueue(Trace(cfg, Start, events))
    ensures |Trace(cfg, Start, events[..k + 1])| <= FirstClose(Trace(cfg, Start, events))
  {
    Cut(cfg, events, k);
    ContractAfter(cfg, events[..k]);
    hide Enabled, StepOf, Run, Trace, Step, ControlInv;
    LeavingStops(cfg, Run(cfg, Start, events[..k]), events[k]);
    var ls, mid := Trace(cfg, Start, events), Trace(cfg, Start, events[..k + 1]);
    if FirstClose(ls) < |mid| {
      assert mid[FirstClose(ls)] == ls[FirstClose(ls)];
      EndIsPastLoop(cfg, events[..k + 1], FirstClose(ls));
    }
  }

  lemma NothingClosedYet(limit: nat, ls: seq<Label>, mid: seq<Label>, later: seq<Label>)
    requires Allowed(limit, mid) && ls == mid + later && |mid| <= FirstClose(ls)
    ensures !At(limit, mid, |mid|).stopped && forall j :: 0 <= j < |mid| ==> mid[j] != InputEnds
  {
    hide Step, Exec;
    assert forall j :: 0 <= j < |mid| ==> mid[j] == ls[j] && !Closes(mid[j]);
    StoppedMeansLabel(limit, mid, |mid|);
  }

  /** When acceptance ended with the queue, the loop was left at the deadline. */
  lemma LeftAtDeadline(cfg: Config, events: seq<Event>, k: nat)
    requires CanRun(cfg, Start, events) && Leaves(cfg, events, k) && EndsWithQueue(Trace(cfg, Start, events))
    ensures events[k].DeadlineFires?
  {
    EndIsLater(cfg, events, k);
    Cut(cfg, events, k);
    ContractAfter(cfg, events[..k]);
    ContractAfter(cfg, events[..k + 1]);
    var s, t, e := Run(cfg, Start, events[..k]), Run(cfg, Start, events[..k + 1]), events[k];
    var mid := Trace(cfg, Start, events[..k + 1]);
    hide Enabled, StepOf, Run, Trace, Exec, Step, At, FirstClose, EndsWithQueue, ControlInv;
    LeavingStops(cfg, s, e);
    NothingClosedYet(cfg.limit, Trace(cfg, Start, events), mid, Trace(cfg, t, events[k + 1..]));
    assert StepOf(cfg, s, e).1 == [InputEnds] ==> mid[|mid| - 1] == InputEnds;
  }

  lemma ReadByDeadline(cfg: Config, events: seq<Event>, k: nat)
    requires CanRun(cfg, Start, events) && Leaves(cfg, events, k) && events[k].DeadlineFires?
    requires |Trace(cfg, Start, events[..k + 1])| <= FirstClose(Trace(cfg, Start, events))
    ensures ReadInTime(Trace(cfg, Start, events)) == InputsIn(SentBy(events[..k]))
  {
    Cut(cfg, events, k);
    var s, t, rest := Run(cfg, Start, events[..k]), Run(cfg, Start, events[..k + 1]), events[k + 1..];
    DeadlineReadsAll(cfg, events[..k]);
    NoInputsPastLoop(cfg, t, rest);
    assert StepOf(cfg, s, events[k]).1 == [];
    hide StepOf, Enabled, Run, Trace, Inputs, FirstClose, ReadInTime;
    var mid := Trace(cfg, Start, events[..k + 1]);
    assert mid == Trace(cfg, Start, events[..k]) + [] == Trace(cfg, Start, events[..k]);
    ReadUpTo(Trace(cfg, Start, events), mid, Trace(cfg, t, rest));
  }

  /** In every run whose acceptance ended with the queue, after a failed write and with no local close: the pump left
      its loop at the deadline, and the guest was handed every message that had arrived by then. */
  lemma {:induction false} DeadWriteDeliversAll(cfg: Config, events: seq<Event>, i: nat) returns (k: nat)
    requires CanRun(cfg, Start, events)
    requires FoundEnd(Trace(cfg, Start, events), i) && EndsWithQueue(Trace(cfg, Start, events))
    ensures k < |events| && events[k].DeadlineFires?
    ensures Handed(Trace(cfg, Start, events)) == MessagesOf(InputsIn(SentBy(events[..k])))
  {
    var ls := Trace(cfg, Start, events);
    DeliversWhatThePeerSent(cfg, events);
    FoundEndSays(cfg.limit, ls, InputsIn(SentBy(events)), i);
    EndIsPastLoop(cfg, events, FirstClose(ls));
    k := Leaving(cfg, Start, events);
    hide StepOf, Enabled, Run, Trace, Inputs, Delivers, ReadInTime, CanRun, FirstClose, Caused;
    EndIsLater(cfg, events, k);
    LeftAtDeadline(cfg, events, k);
    ReadByDeadline(cfg, events, k);
  }

  /** So in every run, whoever finds the end of the queue without a local close was handed all the peer's messages
      before a place in its input that ended acceptance, or all that had arrived when the deadline fired. */
  lemma {:induction false} FoundEndSaysWhy(cfg: Config, events: seq<Event>, i: nat)
    requires CanRun(cfg, Start, events) && FoundEnd(Trace(cfg, Start, events), i)
    ensures || NamesItsInput(Trace(cfg, Start, events), InputsIn(SentBy(events)))
            || exists k: nat ::
                 && k < |events| && events[k].DeadlineFires?
                 && Handed(Trace(cfg, Start, events)) == MessagesOf(InputsIn(SentBy(events[..k])))
  {
    var ls := Trace(cfg, Start, events);
    DeliversWhatThePeerSent(cfg, events);
    hide Run, Trace, Inputs, Handed, MessagesOf, FirstClose, Delivers, CanRun, Caused, NamesItsInput;
    FoundEndSays(cfg.limit, ls, InputsIn(SentBy(events)), i);
    if ls[FirstClose(ls)].End? {
      var k := DeadWriteDeliversAll(cfg, events, i);
    } else {
      FoundEndNamesItsInput(cfg.limit, ls, InputsIn(SentBy(events)), i);
    }
  }
}
