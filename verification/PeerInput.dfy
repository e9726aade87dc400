/** What a trace says the connection read from its peer: data messages and close frames, in order. */
module PeerInput {
  import opened Types
  import opened Contract

  datatype Input =
    | Msg(message: Message)
    | Oversized                     // a message past the transport's cap
    | Began                         // the peer began the closing handshake
    | Frame(info: CloseInfo)
    | Ended                         // the transport's end, or an error

  function InputBy(l: Label): seq<Input> {
    match l
    case Accept(m) => [Msg(m)]
    case Overflow(m) => [Msg(m)]
    case Drop(m) => [Msg(m)]
    case LatchOverflow => [Oversized]
    case PeerBegan => [Began]
    case PeerFrame(info) => [Frame(info)]
    case InputEnds => [Ended]
    case _ => []
  }

  function Inputs(ls: seq<Label>): seq<Input> {
    if ls == [] then [] else InputBy(ls[0]) + Inputs(ls[1..])
  }

  function MessagesOf(input: seq<Input>): seq<Message> {
    if input == [] then []
    else (if input[0].Msg? then [input[0].message] else []) + MessagesOf(input[1..])
  }

  function FirstOf(input: seq<Input>): Option<CloseInfo> {
    if input == [] then None
    else if input[0].Frame? then Some(input[0].info)
    else FirstOf(input[1..])
  }

  lemma {:induction false} InputsConcat(a: seq<Label>, b: seq<Label>)
    ensures Inputs(a + b) == Inputs(a) + Inputs(b)
  {
    if a == [] {
      assert a + b == b;
    } else {
      assert (a + b)[0] == a[0] && (a + b)[1..] == a[1..] + b;
      InputsConcat(a[1..], b);
    }
  }

  lemma InputsOne(l: Label)
    ensures Inputs([l]) == InputBy(l) && Inputs([]) == []
  {
    assert [l][1..] == [];
  }

  /** Labels that carry no input. */
  lemma {:induction false} NoInputs(ls: seq<Label>)
    requires forall l <- ls :: InputBy(l) == []
    ensures Inputs(ls) == []
  {
    if ls != [] {
      NoInputs(ls[1..]);
    }
  }

  lemma {:induction false} MessagesConcat(a: seq<Input>, b: seq<Input>)
    ensures MessagesOf(a + b) == MessagesOf(a) + MessagesOf(b)
  {
    if a == [] {
      assert a + b == b;
    } else {
      assert (a + b)[0] == a[0] && (a + b)[1..] == a[1..] + b;
      MessagesConcat(a[1..], b);
    }
  }

  lemma {:induction false} FirstConcat(a: seq<Input>, b: seq<Input>)
    ensures FirstOf(a + b) == if FirstOf(a).Some? then FirstOf(a) else FirstOf(b)
  {
    if a == [] {
      assert a + b == b;
    } else {
      assert (a + b)[0] == a[0] && (a + b)[1..] == a[1..] + b;
      FirstConcat(a[1..], b);
    }
  }

  lemma MessagesPrefix(a: seq<Input>, b: seq<Input>)
    requires a <= b
    ensures MessagesOf(a) <= MessagesOf(b)
    ensures FirstOf(a).Some? ==> FirstOf(b) == FirstOf(a)
  {
    MessagesConcat(a, b[|a|..]);
    FirstConcat(a, b[|a|..]);
    assert b == a + b[|a|..];
  }

  lemma LabelInputs(l: Label)
    ensures MessagesOf(InputBy(l)) == ArrivedBy(l)
    ensures FirstOf(InputBy(l)) == if l.PeerFrame? then Some(l.info) else None
  {
    if InputBy(l) != [] {
      assert InputBy(l)[1..] == [];
    }
  }

  lemma {:induction false} ArrivedAreInputs(ls: seq<Label>)
    ensures MessagesOf(Inputs(ls)) == Arrived(ls)
    ensures FirstFrame(ls).Some? ==> FirstFrame(ls) == FirstOf(Inputs(ls))
  {
    hide MessagesOf, FirstOf, InputBy, ArrivedBy;
    if ls != [] {
      LabelInputs(ls[0]);
      ArrivedAreInputs(ls[1..]);
      MessagesConcat(InputBy(ls[0]), Inputs(ls[1..]));
      FirstConcat(InputBy(ls[0]), Inputs(ls[1..]));
    } else {
      NoMessages();
    }
  }

  // ----- the end of reading ------------------------------------------------------------------------------

  predicate EndsReading(input: Input) { input.Oversized? || input.Ended? }

  /** Nothing was read after a message past the cap or the transport's end. */
  predicate EndIsLast(input: seq<Input>) { forall i :: 0 <= i < |input| - 1 ==> !EndsReading(input[i]) }

  /** The end was read. */
  ghost predicate ReadEnds(input: seq<Input>) { exists i <- input :: EndsReading(i) }

  lemma EndIsLastConcat(a: seq<Input>, b: seq<Input>)
    requires EndIsLast(a) && EndIsLast(b) && (ReadEnds(a) ==> b == [])
    ensures EndIsLast(a + b)
  {
    forall i | 0 <= i < |a + b| - 1
      ensures !EndsReading((a + b)[i])
    {
      if i < |a| {
        assert a[i] in a && (b == [] ==> a + b == a);
      }
    }
  }

  // ----- settling ----------------------------------------------------------------------------------------

  /** Where the outcome settled. */
  function FirstSettle(ls: seq<Label>): (k: nat)
    ensures k <= |ls|
  {
    if ls == [] || ls[0].Settle? then 0 else 1 + FirstSettle(ls[1..])
  }

  /** What was read before the outcome settled. */
  function ReadBeforeSettle(ls: seq<Label>): seq<Input> { Inputs(ls[..FirstSettle(ls)]) }

  lemma {:induction false} FirstFrameIsRead(ls: seq<Label>)
    ensures FirstFrame(ls) == FirstOf(ReadBeforeSettle(ls))
  {
    hide Inputs, FirstOf, InputBy;
    var upTo := ls[..FirstSettle(ls)];
    if ls == [] || ls[0].Settle? {
      NoInputs([]);
      NoFrame();
    } else {
      FirstFrameIsRead(ls[1..]);
      assert upTo == [ls[0]] + ls[1..][..FirstSettle(ls[1..])];
      InputsConcat([ls[0]], ls[1..][..FirstSettle(ls[1..])]);
      InputsOne(ls[0]);
      LabelInputs(ls[0]);
      FirstConcat(InputBy(ls[0]), ReadBeforeSettle(ls[1..]));
    }
  }

  lemma {:induction false} FirstSettleConcat(a: seq<Label>, b: seq<Label>)
    ensures FirstSettle(a + b) == if Settle in a then FirstSettle(a) else |a| + FirstSettle(b)
    ensures Settle in a ==> FirstSettle(a) < |a|
    decreases |a|
  {
    if a == [] {
      assert a + b == b;
    } else {
      assert (a + b)[0] == a[0] && (a + b)[1..] == a[1..] + b;
      assert a == [a[0]] + a[1..];
      FirstSettleConcat(a[1..], b);
    }
  }

  /** Everything was read before the outcome settled, as long as it was so before and no input follows `Settle`. */
  lemma SettleReadsNoMore(a: seq<Label>, b: seq<Label>)
    requires ReadBeforeSettle(a) == Inputs(a)
    requires Settle in a ==> Inputs(b) == []
    requires ReadBeforeSettle(b) == Inputs(b)
    ensures ReadBeforeSettle(a + b) == Inputs(a + b)
  {
    hide Inputs;
    FirstSettleConcat(a, b);
    InputsConcat(a, b);
    if Settle in a {
      assert (a + b)[..FirstSettle(a)] == a[..FirstSettle(a)];
    } else {
      assert (a + b)[..|a| + FirstSettle(b)] == a + b[..FirstSettle(b)];
      InputsConcat(a, b[..FirstSettle(b)]);
    }
  }

  /** Labels without a settlement, or with nothing read. */
  lemma {:induction false} NoSettle(ls: seq<Label>)
    requires Settle !in ls || Inputs(ls) == []
    ensures ReadBeforeSettle(ls) == Inputs(ls)
  {
    if Settle in ls {
      InputsPrefix(ls, FirstSettle(ls));
    } else {
      FirstSettleConcat(ls, []);
      assert ls + [] == ls && ls[..|ls|] == ls;
    }
  }

  lemma NoFrame()
    ensures FirstOf([]) == None
  {
  }

  lemma NoMessages()
    ensures MessagesOf([]) == []
  {
  }

  lemma InputsPrefix(ls: seq<Label>, k: nat)
    requires k <= |ls|
    ensures Inputs(ls[..k]) <= Inputs(ls)
    ensures k < |ls| ==> Inputs(ls[..k]) + InputBy(ls[k]) <= Inputs(ls)
  {
    assert ls == ls[..k] + ls[k..];
    InputsConcat(ls[..k], ls[k..]);
  }

  /** What was read before acceptance ended. */
  function ReadInTime(ls: seq<Label>): seq<Input> { Inputs(ls[..FirstClose(ls)]) }

  /** The end of the queue was found at `i`, and the guest had not closed. */
  predicate FoundEnd(ls: seq<Label>, i: nat) { i < |ls| && FindsEnd(ls[i]) && CloseCalled !in ls[..i] }

  /** What a run of the contract promises end to end, when what it read is a prefix of what the peer sent.
      Messages are handed out in order, each once. Accepted are exactly the messages the peer sent up to the input
      that ended acceptance; whoever finds the end of the queue without a local close was preceded by all of them
      being handed out, and by a cause. A close outcome is exactly the first close frame that was read before it
      settled, or none if none was. */
  ghost predicate Delivers(limit: nat, ls: seq<Label>, sent: seq<Input>) {
    && Allowed(limit, ls) && Inputs(ls) <= sent
    && ReadInTime(ls) <= sent
    && (FirstClose(ls) < |ls| ==> ReadInTime(ls) + InputBy(ls[FirstClose(ls)]) <= sent)
    && Handed(ls) <= AcceptedOf(ls) == MessagesOf(ReadInTime(ls))
    && (forall i: nat :: FoundEnd(ls, i) ==>
          && FirstClose(ls) < i && Caused(ls, FirstClose(ls))
          && Handed(ls) == Handed(ls[..i]) == MessagesOf(ReadInTime(ls)))
    && ReadBeforeSettle(ls) <= sent
    && forall i :: 0 <= i < |ls| && ls[i].WaitClosed? ==> ls[i].outcome == FirstOf(ReadBeforeSettle(ls))
  }

  lemma AllowedDelivers(limit: nat, ls: seq<Label>, sent: seq<Input>)
    requires Allowed(limit, ls) && Inputs(ls) <= sent
    ensures Delivers(limit, ls, sent)
  {
    hide Step, Inputs, MessagesOf, FirstOf, FirstFrame, FirstSettle, Arrived, Handed, AcceptedOf, Allowed, FirstClose;
    var k := FirstClose(ls);
    HandedIsPrefix(limit, ls);
    AcceptedExactly(limit, ls);
    ArrivedAreInputs(ls);
    ArrivedAreInputs(ls[..k]);
    InputsPrefix(ls, k);
    InputsPrefix(ls, FirstSettle(ls));
    FirstFrameIsRead(ls);
    forall i: nat | FoundEnd(ls, i)
      ensures FirstClose(ls) < i && Caused(ls, FirstClose(ls))
      ensures Handed(ls) == Handed(ls[..i]) == MessagesOf(ReadInTime(ls))
    {
      DrainedReadSawEverything(limit, ls, i);
      EndMeansAllDelivered(limit, ls, i);
    }
    forall i | 0 <= i < |ls| && ls[i].WaitClosed?
      ensures ls[i].outcome == FirstOf(ReadBeforeSettle(ls))
    {
      WaitClosedIsLatched(limit, ls, i);
    }
  }

  /** What a found end says, in one place. */
  lemma FoundEndSays(limit: nat, ls: seq<Label>, sent: seq<Input>, i: nat)
    requires Delivers(limit, ls, sent) && FoundEnd(ls, i)
    ensures FirstClose(ls) < |ls| && Caused(ls, FirstClose(ls)) && Handed(ls) == MessagesOf(ReadInTime(ls))
    ensures ls[FirstClose(ls)].End? ==> WriteDied in ls
  {
  }

  /** Where no input comes later, what was read before acceptance ended is all that was read. */
  lemma ReadUpTo(ls: seq<Label>, before: seq<Label>, after: seq<Label>)
    requires ls == before + after && |before| <= FirstClose(ls) && Inputs(after) == []
    ensures ReadInTime(ls) == Inputs(before)
  {
    hide Inputs;
    var m := FirstClose(ls) - |before|;
    assert ls[..FirstClose(ls)] == before + after[..m];
    InputsConcat(before, after[..m]);
    InputsPrefix(after, m);
  }

  /** What may stand at the place in the peer's input where acceptance ended. */
  predicate Ends(l: Label, input: Input) {
    match input
    case Msg(m) => l == Overflow(m)
    case Oversized => l.LatchOverflow?
    case Began => l.PeerBegan?
    case Frame(info) => l == PeerFrame(info)
    case Ended => l.InputEnds?
  }

  /** All messages the peer sent before some place were handed out, none after it, and what stands there is what
      ended acceptance. */
  ghost predicate NamesItsInput(ls: seq<Label>, sent: seq<Input>) {
    && FirstClose(ls) < |ls|
    && exists n: nat :: n < |sent| && Handed(ls) == MessagesOf(sent[..n]) && Ends(ls[FirstClose(ls)], sent[n])
  }

  /** So whoever finds the end of the queue without a local close has a place in the peer's input to show for it.
      The one exception is a queue that ended after a write failed. */
  lemma FoundEndNamesItsInput(limit: nat, ls: seq<Label>, sent: seq<Input>, i: nat)
    requires Delivers(limit, ls, sent) && FoundEnd(ls, i) && !ls[FirstClose(ls)].End?
    ensures NamesItsInput(ls, sent)
  {
    hide Step, Inputs, MessagesOf, FirstOf, Handed, AcceptedOf, Allowed, FirstClose;
    assert FirstClose(ls) < i && Caused(ls, FirstClose(ls));
    var n := |ReadInTime(ls)|;
    var last := ls[FirstClose(ls)];
    assert InputBy(last) == [InputBy(last)[0]];
    assert (ReadInTime(ls) + InputBy(last))[n] == sent[n];
    assert sent[..n] == ReadInTime(ls);
  }
}
