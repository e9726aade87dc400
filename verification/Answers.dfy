/** What a trace so far owes to the next call: the answers a connection must give, read off the labels alone. */
module Answers {
  import opened Types
  import opened Contract

  /** The latches, as the labels show them. */
  predicate Overflowed(ls: seq<Label>) { exists k :: 0 <= k < |ls| && IsOverflow(ls[k]) }

  /** The accepted messages not handed out yet. */
  function Waiting(ls: seq<Label>): seq<Message> {
    if |Handed(ls)| <= |AcceptedOf(ls)| then AcceptedOf(ls)[|Handed(ls)|..] else []
  }

  /** What is left to say at the end of the queue. */
  function EndAnswer(ls: seq<Label>): Error { if Overflowed(ls) then ReceiveBufferOverflow else Closed }

  /** The answer owed to a pending `receive`: the claim first, then the local close, then the queue in order, and at
      the queue's end the overflow or `closed`. */
  function ReceiveAnswer(ls: seq<Label>): Option<Label> {
    if ClaimOk in ls then Some(ReceiveFailed(ReceivingViaStream))
    else if CloseCalled in ls then Some(ReceiveFailed(Closed))
    else if Waiting(ls) != [] then Some(Received(Waiting(ls)[0]))
    else if Label.End in ls then Some(ReceiveFailed(EndAnswer(ls)))
    else None
  }

  /** The answer owed to the claimed stream. */
  function StreamAnswer(ls: seq<Label>): Option<Label> {
    if CloseCalled in ls then Some(StreamEnd)
    else if Waiting(ls) != [] then Some(StreamItem(Waiting(ls)[0]))
    else if Label.End in ls then Some(StreamEnd)
    else None
  }

  /** The answer to a claim. */
  function ClaimAnswer(ls: seq<Label>): Label {
    if CloseCalled in ls then ClaimFailed(Closed)
    else if ClaimOk in ls then ClaimFailed(ReceivingViaStream)
    else ClaimOk
  }

  /** What a new `receive` is refused with. */
  function ReceiveRefusal(ls: seq<Label>): Option<Label> {
    if CloseCalled in ls then Some(ReceiveFailed(Closed))
    else if ClaimOk in ls then Some(ReceiveFailed(ReceivingViaStream))
    else None
  }

  // ----- the contract's state is what the labels say -----------------------------------------------------

  ghost predicate EndsBy(s: State, l: Label, t: State) {
    && (t.ended <==> s.ended || l.End?) && (t.claimed <==> s.claimed || l.ClaimOk?)
    && (t.outcome.Some? <==> s.outcome.Some? || l.Settle?)
  }

  lemma StepEnds(limit: nat, s: State, l: Label)
    requires s.Valid() && Step(limit, s, l).Some?
    ensures EndsBy(s, l, Step(limit, s, l).value)
  {
    if l.IsInput() {
      InputEndsBy(limit, s, l);
    } else {
      ObservedEndsBy(s, l);
    }
    hide InputStep, ObservedStep, EndsBy;
  }

  lemma InputEndsBy(limit: nat, s: State, l: Label)
    requires s.Valid() && InputStep(limit, s, l).Some?
    ensures EndsBy(s, l, InputStep(limit, s, l).value)
  {
  }

  lemma ObservedEndsBy(s: State, l: Label)
    requires s.Valid() && ObservedStep(s, l).Some?
    ensures EndsBy(s, l, ObservedStep(s, l).value)
  {
  }

  lemma {:induction false} LatchesAreLabels(limit: nat, ls: seq<Label>, i: nat)
    requires Allowed(limit, ls) && i <= |ls|
    ensures At(limit, ls, i).ended <==> Label.End in ls[..i]
    ensures At(limit, ls, i).claimed <==> ClaimOk in ls[..i]
    ensures At(limit, ls, i).outcome.Some? <==> Settle in ls[..i]
    decreases i
  {
    hide Step;
    if i > 0 {
      LatchesAreLabels(limit, ls, i - 1);
      StepAt(limit, ls, i - 1);
      StepEnds(limit, At(limit, ls, i - 1), ls[i - 1]);
      assert ls[..i] == ls[..i - 1] + [ls[i - 1]];
    }
  }

  /** After a run: the queue, the latches and the outcome, off the labels. */
  lemma {:induction false} StateIsLabels(limit: nat, ls: seq<Label>, s: State)
    requires Allowed(limit, ls) && Exec(limit, Init, ls) == Some(s)
    ensures s.Valid() && s.Backlog() == Waiting(ls)
    ensures (s.overflowed <==> Overflowed(ls)) && (s.localClosed <==> CloseCalled in ls)
    ensures (s.ended <==> Label.End in ls) && (s.claimed <==> ClaimOk in ls) && (s.stopped <==> FirstClose(ls) < |ls|)
    ensures s.outcome == if Settle in ls then Some(FirstFrame(ls)) else None
  {
    hide Step;
    assert ls[..|ls|] == ls && At(limit, ls, |ls|) == s;
    LatchesMeanLabels(limit, ls, |ls|);
    LatchesAreLabels(limit, ls, |ls|);
    StoppedMeansLabel(limit, ls, |ls|);
    ExecIsQueue(limit, Init, ls);
    HandedIsPrefix(limit, ls);
    assert s.accepted == AcceptedOf(ls) && s.taken == |Handed(ls)|;
    if s.outcome.Some? {
      OutcomeIsFirstFrame(limit, Init, ls);
    }
  }

  // ----- counting ----------------------------------------------------------------------------------------

  predicate AnswersReceive(l: Label) { l.Received? || l.ReceiveFailed? }

  predicate ShowsSendCall(l: Label) { l.SendCalled? || l.SendRefused? }

  /** The answers given to `receive` calls. */
  function ReceiveAnswers(ls: seq<Label>): nat {
    if ls == [] then 0 else (if AnswersReceive(ls[0]) then 1 else 0) + ReceiveAnswers(ls[1..])
  }

  /** The sends taken or refused at the call. */
  function SendCallsShown(ls: seq<Label>): nat {
    if ls == [] then 0 else (if ShowsSendCall(ls[0]) then 1 else 0) + SendCallsShown(ls[1..])
  }

  datatype SendAnswer = SendAnswer(id: nat, result: SendResult)

  /** The answers of sends, in order. */
  function SendAnswers(ls: seq<Label>): seq<SendAnswer> {
    if ls == [] then []
    else (if ls[0].SendDone? then [SendAnswer(ls[0].id, ls[0].result)] else []) + SendAnswers(ls[1..])
  }

  lemma {:induction false} CountsConcat(a: seq<Label>, b: seq<Label>)
    ensures ReceiveAnswers(a + b) == ReceiveAnswers(a) + ReceiveAnswers(b)
    ensures SendCallsShown(a + b) == SendCallsShown(a) + SendCallsShown(b)
    decreases |a|
  {
    if a == [] {
      assert a + b == b;
    } else {
      assert (a + b)[0] == a[0] && (a + b)[1..] == a[1..] + b;
      CountsConcat(a[1..], b);
    }
  }

  lemma {:induction false} SendAnswersConcat(a: seq<Label>, b: seq<Label>)
    ensures SendAnswers(a + b) == SendAnswers(a) + SendAnswers(b)
    decreases |a|
  {
    if a == [] {
      assert a + b == b;
    } else {
      assert (a + b)[0] == a[0] && (a + b)[1..] == a[1..] + b;
      SendAnswersConcat(a[1..], b);
    }
  }

  /** A step that shows at most one such label. */
  lemma CountsOne(l: Label)
    ensures ReceiveAnswers([l]) == (if AnswersReceive(l) then 1 else 0) && ReceiveAnswers([]) == 0
    ensures SendCallsShown([l]) == (if ShowsSendCall(l) then 1 else 0) && SendCallsShown([]) == 0
    ensures SendAnswers([l]) == (if l.SendDone? then [SendAnswer(l.id, l.result)] else []) && SendAnswers([]) == []
  {
    assert [l][1..] == [];
  }

  lemma {:induction false} CountsNone(ls: seq<Label>)
    requires forall l <- ls :: !AnswersReceive(l) && !ShowsSendCall(l) && !l.SendDone?
    ensures ReceiveAnswers(ls) == 0 && SendCallsShown(ls) == 0 && SendAnswers(ls) == []
  {
    if ls != [] {
      CountsNone(ls[1..]);
    }
  }

  // ----- the first label that ends acceptance ------------------------------------------------------------

  lemma FirstCloseConcat(a: seq<Label>, b: seq<Label>)
    ensures FirstClose(a + b) == if FirstClose(a) < |a| then FirstClose(a) else |a| + FirstClose(b)
  {
    var ab := a + b;
    assert forall i :: 0 <= i < |a| ==> ab[i] == a[i];
    assert forall i :: 0 <= i < |b| ==> ab[|a| + i] == b[i];
    var k := FirstClose(ab);
    if FirstClose(a) < |a| {
      assert Closes(ab[FirstClose(a)]);
    } else if FirstClose(b) < |b| {
      assert Closes(ab[|a| + FirstClose(b)]);
      assert k >= |a|;
      assert Closes(b[k - |a|]);
    }
  }

  /** The label itself, if there is one. */
  function Cause(ls: seq<Label>): Option<Label> {
    if FirstClose(ls) < |ls| then Some(ls[FirstClose(ls)]) else None
  }

  lemma CauseConcat(a: seq<Label>, b: seq<Label>)
    ensures Cause(a + b) == if Cause(a).Some? then Cause(a) else Cause(b)
  {
    FirstCloseConcat(a, b);
    hide FirstClose;
    if Cause(a).None? && Cause(b).Some? {
      assert (a + b)[|a| + FirstClose(b)] == b[FirstClose(b)];
    } else if Cause(a).Some? {
      assert (a + b)[FirstClose(a)] == a[FirstClose(a)];
    }
  }

  function NextCause(cause: Option<Label>, ls: seq<Label>): Option<Label> { if cause.Some? then cause else Cause(ls) }

  lemma QuietCause(ls: seq<Label>)
    requires forall l <- ls :: !Closes(l)
    ensures Cause(ls) == None
  {
  }

  lemma StopIsCause()
    ensures Cause([Stop, Progress(IsClosing)]) == Cause([Stop]) == Some(Stop)
  {
    assert Closes([Stop, Progress(IsClosing)][0]) && Closes([Stop][0]);
  }

  // ----- failures have a cause ---------------------------------------------------------------------------

  /** Something ended acceptance, or a write died. */
  ghost predicate Excused(ls: seq<Label>) { exists l <- ls :: Closes(l) || l.WriteDied? }

  /** A failure other than those the core gave. */
  predicate SendFails(l: Label, given: set<Error>) { l.SendDone? && l.result.Failed? && l.result.error !in given }

  /** Every send that fails was preceded by such a label, or fails with an error the core gave. */
  ghost predicate FailsExcused(ls: seq<Label>, given: set<Error>) {
    forall j :: 0 <= j < |ls| && SendFails(ls[j], given) ==> Excused(ls[..j])
  }

  lemma FailsConcat(a: seq<Label>, b: seq<Label>, before: set<Error>, given: set<Error>)
    requires FailsExcused(a, before) && before <= given && (Excused(a) || FailsExcused(b, given))
    ensures FailsExcused(a + b, given)
  {
    var ab := a + b;
    forall j | 0 <= j < |ab| && SendFails(ab[j], given)
      ensures Excused(ab[..j])
    {
      if j < |a| {
        assert SendFails(a[j], before) && ab[..j] == a[..j];
      } else {
        assert ab[..j] == a + b[..j - |a|];
        assert forall l <- a :: l in ab[..j];
        assert forall l <- b[..j - |a|] :: l in ab[..j];
        assert SendFails(b[j - |a|], given);
      }
    }
  }

  lemma CauseExcuses(ls: seq<Label>)
    requires Cause(ls).Some? || Label.End in ls
    ensures Excused(ls)
  {
    if Cause(ls).Some? {
      assert ls[FirstClose(ls)] in ls;
    }
  }

  // ----- what the guest gave -----------------------------------------------------------------------------

  /** A message under the identifier of its call. */
  predicate IsGiven(given: seq<Message>, id: nat, m: Message) { id < |given| && given[id] == m }

  datatype CloseArgs = CloseArgs(code: Option<nat>, reason: seq<Byte>)

  /** A frame that carries the arguments: no body without a code, else the code and the reason. */
  predicate Carries(frame: Option<CloseInfo>, args: Option<CloseArgs>) {
    && args.Some?
    && if args.value.code.None? then frame.None?
       else frame.Some? && frame.value.code == args.value.code.value && frame.value.reason == args.value.reason
  }
}
