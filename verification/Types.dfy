/** Values shared by the models of the three implementations. */
module Types {
  newtype Byte = b: int | 0 <= b < 256

  datatype Option<+T> = None | Some(value: T)

  /** One WebSocket data message. Text payloads are their UTF-8 bytes, so `Size` is what every
      implementation charges against the inbound bound. */
  datatype Message = Text(payload: seq<Byte>) | Binary(payload: seq<Byte>) {
    function Size(): nat { |payload| }
  }

  datatype CloseInfo = CloseInfo(code: nat, reason: seq<Byte>)

  datatype Error = Closed | ReceiveBufferOverflow | ReceivingViaStream | InvalidArgument | Other

  datatype SendResult = Sent | Failed(error: Error)

  /** The lifecycle behind `websocket.state`. */
  datatype WsState = IsOpen | IsClosing | IsClosed {
    function Rank(): nat {
      match this
      case IsOpen => 0
      case IsClosing => 1
      case IsClosed => 2
    }

    /** The reference cell: forward transitions only, `IsClosed` latches. */
    function Advance(next: WsState): WsState {
      match this
      case IsOpen => next
      case IsClosing => if next.IsClosed? then next else this
      case IsClosed => this
    }

    /** The in-guest cell: an advance is a strictly larger rank. */
    function AdvanceByRank(next: WsState): WsState {
      if next.Rank() > Rank() then next else this
    }
  }

  /** The total number of payload bytes in a queue. */
  function Bytes(queue: seq<Message>): nat {
    if queue == [] then 0 else queue[0].Size() + Bytes(queue[1..])
  }

  lemma {:induction false} BytesConcat(a: seq<Message>, b: seq<Message>)
    ensures Bytes(a + b) == Bytes(a) + Bytes(b)
  {
    if a == [] {
      assert a + b == b;
    } else {
      assert (a + b)[1..] == a[1..] + b;
      BytesConcat(a[1..], b);
    }
  }

  lemma BytesSnoc(a: seq<Message>, m: Message)
    ensures Bytes(a + [m]) == Bytes(a) + m.Size()
  {
    BytesConcat(a, [m]);
    assert [m][1..] == [];
    assert Bytes([m]) == m.Size();
  }

  // ----- close arguments and close frames ----------------------------------------------------------------

  /** `code` 1000 or 3000-4999, `reason` at most 123 bytes and only alongside a code. */
  predicate CloseArgsOk(code: Option<nat>, reason: seq<Byte>) {
    && (code.None? ==> reason == [])
    && (code.Some? ==> code.value == 1000 || 3000 <= code.value <= 4999)
    && |reason| <= 123
  }

  /** The close frame a local close sends: no body without a code. */
  function FrameFor(code: Option<nat>, reason: seq<Byte>): Option<CloseInfo> {
    if code.None? then None else Some(CloseInfo(code.value, reason))
  }

  /** What a received close frame reads as: 1005 and an empty reason when it had no body. */
  function CloseInfoFrom(frame: Option<CloseInfo>): CloseInfo {
    if frame.None? then CloseInfo(1005, []) else frame.value
  }
}
