/** `send-via-stream` in the three implementations: what is handed over, what `sent` counts, what ends the call. */
module SendViaStream {
  import opened Types
  import opened PayloadCollectors
  import Encodings

  /** One element of the input stream; `data` is its payload stream. */
  datatype StreamMessage<D> = StreamMessage(isString: bool, length: nat, data: D)

  /** What the world does while one element is processed; the turn after the last element is the end of the
      stream. The Rust drivers race the first two awaits against a local close, in the JavaScript host the
      stream itself may throw there. */
  datatype Turn = Turn(
    failsNext: bool,
    failsPayload: bool,
    refused: bool,           // the send is refused at the call: locally closed, or no transport any more
    interrupted: bool,       // a local close is seen before the answer of the send
    result: SendResult)      // the answer of the send

  datatype Stop =
    | EndOfStream
    | AwaitFailed
    | BadPayload
    | Refused
    | SendFailed(error: Error)
    | Interrupted

  /** How a text payload is decoded: by `String::from_utf8`, or by the platform's `TextDecoder`, whose text the
      platform encodes again as it sends it. */
  datatype Decoder = FromUtf8 | Platform {
    /** The payload of the text message sent for `bytes`. */
    function TextPayload(bytes: seq<Byte>): Option<seq<Byte>> {
      match this
      case FromUtf8 => if Encodings.Decode(bytes).Some? then Some(bytes) else None
      case Platform =>
        var text := Encodings.TextDecoder(bytes);
        if text.None? then None else Some(Encodings.Utf8(text.value))
    }
  }

  /** The message an element stands for, if its payload is as declared. */
  function Prepared(decoder: Decoder, isString: bool, declared: nat, c: Collected): Option<Message> {
    if !Accepts(c, declared) then None
    else if !isString then Some(Binary(c.data))
    else
      var text := decoder.TextPayload(c.data);
      if text.None? then None else Some(Text(text.value))
  }

  /** A turn whose awaits and whose send go through up to the answer. */
  predicate Reaches(t: Turn) { !t.failsNext && !t.failsPayload && !t.refused }

  /** The whole call, element by element: `handed` is what was passed to the transport, in order. Every element
      counted by `sent` went all the way, and the first turn that did not is what ended the call, at the earliest
      step that failed. `raced` says whether a local close interrupts a send that is on its way. */
  ghost predicate Accounts(prepared: seq<Option<Message>>, turns: seq<Turn>, raced: bool, stop: Stop, sent: nat,
                           handed: seq<Message>)
  {
    && sent <= |handed| <= sent + 1 && |handed| <= |prepared| < |turns|
    && (forall i :: 0 <= i < |handed| ==> prepared[i] == Some(handed[i]))
    && (forall i :: 0 <= i < sent ==> Reaches(turns[i]) && turns[i].result.Sent? && !(raced && turns[i].interrupted))
    && var last := turns[sent];
       match stop
       case EndOfStream => |handed| == sent == |prepared| && !last.failsNext
       case AwaitFailed => |handed| == sent && (last.failsNext || (sent < |prepared| && last.failsPayload))
       case BadPayload =>
         |handed| == sent < |prepared| && prepared[sent].None? && !last.failsNext && !last.failsPayload
       case Refused =>
         |handed| == sent < |prepared| && prepared[sent].Some? && last.refused && !last.failsNext && !last.failsPayload
       case Interrupted => |handed| == sent + 1 && Reaches(last) && raced && last.interrupted
       case SendFailed(e) =>
         |handed| == sent + 1 && Reaches(last) && last.result == Failed(e) && !(raced && last.interrupted)
  }

  /** The elements and the turns determine the call. */
  lemma OneAccount(prepared: seq<Option<Message>>, turns: seq<Turn>, raced: bool, stop: Stop, sent: nat,
                   handed: seq<Message>, stop2: Stop, sent2: nat, handed2: seq<Message>)
    requires Accounts(prepared, turns, raced, stop, sent, handed)
    requires Accounts(prepared, turns, raced, stop2, sent2, handed2)
    ensures sent == sent2 && stop == stop2 && handed == handed2
  {
    assert !(sent < sent2) && !(sent2 < sent);
    assert |handed| == |handed2|;
    assert forall k :: 0 <= k < |handed| ==> Some(handed[k]) == prepared[k] == Some(handed2[k]);
  }

  /** The longest run of well-formed elements from the front. */
  function GoodPrefix(prepared: seq<Option<Message>>): seq<Message> {
    if prepared == [] || prepared[0].None? then [] else [prepared[0].value] + GoodPrefix(prepared[1..])
  }

  lemma {:induction false} GoodPrefixAt(prepared: seq<Option<Message>>, handed: seq<Message>)
    requires |handed| <= |prepared| && forall i :: 0 <= i < |handed| ==> prepared[i] == Some(handed[i])
    ensures handed <= GoodPrefix(prepared)
    ensures |handed| == |prepared| || prepared[|handed|].None? ==> handed == GoodPrefix(prepared)
  {
    if handed != [] {
      assert forall i :: 0 <= i < |handed| - 1 ==> prepared[1..][i] == prepared[i + 1];
      GoodPrefixAt(prepared[1..], handed[1..]);
      assert handed == [handed[0]] + handed[1..];
    }
  }

  predicate Undisturbed(t: Turn) { !t.failsNext && !t.failsPayload && !t.refused && !t.interrupted && t.result.Sent? }

  /** However the call ends, what was handed over is an in-order prefix of the well-formed front of the
      input, and `sent` is all of it but a last send that failed or was interrupted; undisturbed, the call
      sends exactly that front and succeeds exactly when it is the whole input. */
  lemma HandsOverInOrder(prepared: seq<Option<Message>>, turns: seq<Turn>, raced: bool, stop: Stop, sent: nat,
                         handed: seq<Message>)
    requires Accounts(prepared, turns, raced, stop, sent, handed)
    ensures handed <= GoodPrefix(prepared)
    ensures |handed| == sent + 1 <==> stop.SendFailed? || stop.Interrupted?
    ensures |handed| == sent <==> !stop.SendFailed? && !stop.Interrupted?
    ensures (forall t <- turns :: Undisturbed(t)) ==>
              && handed == GoodPrefix(prepared) && sent == |handed|
              && stop == (if |GoodPrefix(prepared)| == |prepared| then EndOfStream else BadPayload)
  {
    GoodPrefixAt(prepared, handed);
    assert sent < |turns| ==> turns[sent] in turns;
  }

  /** What is sent for a well-formed payload. */
  function SentFor(decoder: Decoder, isString: bool, bytes: seq<Byte>): Message {
    if !isString then Binary(bytes)
    else if decoder.Platform? && Encodings.StartsWithMark(bytes) then Text(bytes[3..])
    else Text(bytes)
  }

  /** Within one word past the declared length, an element is well-formed exactly when its payload has the
      declared length and, for text, is UTF-8. Then the message carries the payload, but for a byte order mark the
      platform's decoder drops: it carries the payload itself if and only if the element is binary, or the decoder
      is strict, or the payload does not start with one. */
  lemma PreparedExactly(decoder: Decoder, isString: bool, declared: nat, bytes: seq<Byte>, word: nat)
    requires word > 0 && |bytes| < declared + word
    ensures var m := Prepared(decoder, isString, declared, InWord(Collect(bytes, declared), word));
            && (m.Some? <==> |bytes| == declared && (isString ==> Encodings.Decode(bytes).Some?))
            && (m.Some? ==> m.value == SentFor(decoder, isString, bytes))
            && (m.Some? ==> (m.value.payload == bytes <==>
                               !isString || decoder.FromUtf8? || !Encodings.StartsWithMark(bytes)))
  {
    WordExactInRange(bytes, declared, word);
    AcceptedIffDeclared(bytes, declared);
    Encodings.TextDecoderExactly(bytes);
    hide Collect, InWord, Encodings.TextDecoder, Encodings.Decode, Encodings.Utf8;
  }

  /** A text element of four bytes that the platform's decoder takes for one byte of text, the others for four. */
  lemma MarkIsDropped()
    ensures var bytes: seq<Byte> := [0xEF, 0xBB, 0xBF, 0x61];
            && Prepared(Platform, true, 4, Collect(bytes, 4)) == Some(Text([0x61]))
            && Prepared(FromUtf8, true, 4, Collect(bytes, 4)) == Some(Text(bytes))
  {
    var bytes: seq<Byte> := [0xEF, 0xBB, 0xBF, 0x61];
    var text: seq<Encodings.Scalar> := [0xFEFF, 0x61];
    assert Encodings.Utf8(text) == Encodings.Utf8Of(0xFEFF) + (Encodings.Utf8Of(0x61) + []) == bytes;
    Encodings.DecodeUtf8(text);
    Encodings.TextDecoderExactly(bytes);
    assert bytes[3..] == [0x61];
  }

  /** An element as a Rust driver prepares it, counting the excess in a machine word. */
  function RustPrepared(item: StreamMessage<seq<seq<Byte>>>, word: nat): Option<Message>
    requires word > 0
  {
    Prepared(FromUtf8, item.isString, item.length, InWord(Collect(Flatten(item.data), item.length), word))
  }

  // ----- the reference host ------------------------------------------------------------------------------

  ghost function ReferencePrepared(items: seq<StreamMessage<seq<seq<Byte>>>>): seq<Option<Message>> {
    seq(|items|, i requires 0 <= i < |items| =>
      RustPrepared(items[i], WORD64))
  }

  lemma ReferencePreparedAt(items: seq<StreamMessage<seq<seq<Byte>>>>, i: nat)
    requires i < |items|
    ensures |ReferencePrepared(items)| == |items|
    ensures ReferencePrepared(items)[i]
         == RustPrepared(items[i], WORD64)
  {
  }

  /** Draining one payload through its collector. */
  method Drain(item: StreamMessage<seq<seq<Byte>>>) returns (payload: Collected)
    ensures payload == InWord(Collect(Flatten(item.data), item.length), WORD64)
  {
    var collector := new ByteCollector(item.length);
    var i := 0;
    while i < |item.data|
      invariant i <= |item.data| && collector.Valid() && collector.done.None?
      invariant collector.limit == item.length && collector.seen == Flatten(item.data[..i])
    {
      FlattenTake(item.data, i);
      collector.Consume(item.data[i]);
      i := i + 1;
    }
    assert item.data[..i] == item.data;
    collector.Finish();
    payload := collector.done.value;
  }

  method ReferenceSendViaStream(items: seq<StreamMessage<seq<seq<Byte>>>>, turns: seq<Turn>, closedAtStart: bool)
    returns (stop: Stop, sent: nat, handed: seq<Message>)
    requires |turns| == |items| + 1
    ensures if closedAtStart then stop.AwaitFailed? && sent == 0 && handed == []
            else Accounts(ReferencePrepared(items), turns, true, stop, sent, handed)
  {
    stop, sent, handed := AwaitFailed, 0, [];
    if closedAtStart {
      return;
    }
    ghost var prepared := ReferencePrepared(items);
    hide ReferencePrepared, Collect, Flatten, GoodPrefix, Encodings.Decode;
    while true
      invariant sent == |handed| <= |items|
      invariant |prepared| == |items| && forall i :: 0 <= i < |handed| ==> prepared[i] == Some(handed[i])
      invariant forall i :: 0 <= i < sent ==> Reaches(turns[i]) && turns[i].result.Sent? && !turns[i].interrupted
      decreases |items| - sent
    {
      if turns[sent].failsNext {
        return AwaitFailed, sent, handed;
      }
      if sent == |items| {
        break;
      }
      ReferencePreparedAt(items, sent);
      var pending := items[sent];
      if turns[sent].failsPayload {
        return AwaitFailed, sent, handed;
      }
      var payload := Drain(pending);
      if payload.excess > 0 || |payload.data| != pending.length {
        return BadPayload, sent, handed;
      }
      if pending.isString && Encodings.Decode(payload.data).None? {
        return BadPayload, sent, handed;
      }
      var message := if pending.isString then Text(payload.data) else Binary(payload.data);
      if turns[sent].refused {
        return Refused, sent, handed;
      }
      handed := handed + [message];
      if turns[sent].interrupted {
        return Interrupted, sent, handed;
      }
      if turns[sent].result.Failed? {
        return SendFailed(turns[sent].result.error), sent, handed;
      }
      sent := sent + 1;
    }
    return EndOfStream, sent, handed;
  }

  // ----- the in-guest provider ---------------------------------------------------------------------------

  ghost function GuestPrepared(items: seq<StreamMessage<seq<seq<Byte>>>>): seq<Option<Message>> {
    seq(|items|, i requires 0 <= i < |items| =>
      RustPrepared(items[i], WORD32))
  }

  lemma GuestPreparedAt(items: seq<StreamMessage<seq<seq<Byte>>>>, i: nat)
    requires i < |items|
    ensures |GuestPrepared(items)| == |items|
    ensures GuestPrepared(items)[i]
         == RustPrepared(items[i], WORD32)
  {
  }

  /** The send is awaited to its answer: a local close meanwhile does not interrupt it. */
  method GuestSendViaStream(items: seq<StreamMessage<seq<seq<Byte>>>>, turns: seq<Turn>, closedAtStart: bool)
    returns (stop: Stop, sent: nat, handed: seq<Message>)
    requires |turns| == |items| + 1
    ensures if closedAtStart then stop.AwaitFailed? && sent == 0 && handed == []
            else Accounts(GuestPrepared(items), turns, false, stop, sent, handed)
  {
    stop, sent, handed := AwaitFailed, 0, [];
    if closedAtStart {
      return;
    }
    ghost var prepared := GuestPrepared(items);
    hide GuestPrepared, Collect, Flatten, GoodPrefix, Encodings.Decode;
    while true
      invariant sent == |handed| <= |items|
      invariant |prepared| == |items| && forall i :: 0 <= i < |handed| ==> prepared[i] == Some(handed[i])
      invariant forall i :: 0 <= i < sent ==> Reaches(turns[i]) && turns[i].result.Sent?
      decreases |items| - sent
    {
      if turns[sent].failsNext {
        return AwaitFailed, sent, handed;
      }
      if sent == |items| {
        return EndOfStream, sent, handed;
      }
      var message := items[sent];
      if turns[sent].failsPayload {
        return AwaitFailed, sent, handed;
      }
      var data, excess := CollectPayload(message.data, message.length);
      GuestPreparedAt(items, sent);
      if excess > 0 || |data| != message.length {
        return BadPayload, sent, handed;
      }
      if message.isString && Encodings.Decode(data).None? {
        return BadPayload, sent, handed;
      }
      var payload := if message.isString then Text(data) else Binary(data);
      if turns[sent].refused {
        return Refused, sent, handed;
      }
      handed := handed + [payload];
      if turns[sent].result.Failed? {
        return SendFailed(turns[sent].result.error), sent, handed;
      }
      sent := sent + 1;
    }
  }

  // ----- the JavaScript host -----------------------------------------------------------------------------

  ghost function JsPrepared(items: seq<StreamMessage<Source>>): seq<Option<Message>> {
    seq(|items|, i requires 0 <= i < |items| =>
      Prepared(Platform, items[i].isString, items[i].length, Collect(Flatten(items[i].data.Chunks()), items[i].length)))
  }

  lemma JsPreparedAt(items: seq<StreamMessage<Source>>, i: nat)
    requires i < |items|
    ensures |JsPrepared(items)| == |items|
    ensures JsPrepared(items)[i]
         == Prepared(Platform, items[i].isString, items[i].length,
                     Collect(Flatten(items[i].data.Chunks()), items[i].length))
  {
  }

  /** One element's payload, collected, checked and decoded. */
  method JsLift(item: StreamMessage<Source>) returns (message: Option<Message>)
    ensures message == Prepared(Platform, item.isString, item.length, Collect(Flatten(item.data.Chunks()), item.length))
  {
    hide Collect, Flatten, Encodings.TextDecoder, Encodings.Utf8;
    var buffer, excess := CollectByteStream(item.data, item.length);
    var bytes := buffer[..];
    if excess > 0 || |bytes| != item.length {
      return None;
    }
    if !item.isString {
      return Some(Binary(bytes));
    }
    var text := Encodings.TextDecoder(bytes);
    if text.None? {
      return None;
    }
    return Some(Text(Encodings.Utf8(text.value)));
  }

  /** No check at the start and no race with a local close: the next send is what sees it. */
  method JsSendViaStream(items: seq<StreamMessage<Source>>, turns: seq<Turn>)
    returns (stop: Stop, sent: nat, handed: seq<Message>)
    requires |turns| == |items| + 1
    ensures Accounts(JsPrepared(items), turns, false, stop, sent, handed)
  {
    stop, sent, handed := AwaitFailed, 0, [];
    ghost var prepared := JsPrepared(items);
    hide JsPrepared, Collect, Flatten, GoodPrefix, Prepared, Encodings.TextDecoder, Encodings.Decode;
    while true
      invariant sent == |handed| <= |items|
      invariant |prepared| == |items| && forall i :: 0 <= i < |handed| ==> prepared[i] == Some(handed[i])
      invariant forall i :: 0 <= i < sent ==> Reaches(turns[i]) && turns[i].result.Sent?
      decreases |items| - sent
    {
      if turns[sent].failsNext {
        return AwaitFailed, sent, handed;
      }
      if sent == |items| {
        break;
      }
      if turns[sent].failsPayload {
        return AwaitFailed, sent, handed;
      }
      var lifted := JsLift(items[sent]);
      assert prepared[sent] == lifted by {
        JsPreparedAt(items, sent);
      }
      if lifted.None? {
        return BadPayload, sent, handed;
      }
      var message := lifted.value;
      if turns[sent].refused {
        return Refused, sent, handed;
      }
      handed := handed + [message];
      if turns[sent].result.Failed? {
        return SendFailed(turns[sent].result.error), sent, handed;
      }
      sent := sent + 1;
    }
    return EndOfStream, sent, handed;
  }

  // ----- what each driver hands over ---------------------------------------------------------------------

  /** Every message the reference driver hands over carries its element's payload. */
  lemma ReferenceHandsPayloads(items: seq<StreamMessage<seq<seq<Byte>>>>, turns: seq<Turn>, stop: Stop, sent: nat,
                               handed: seq<Message>, i: nat)
    requires Accounts(ReferencePrepared(items), turns, true, stop, sent, handed) && i < |handed|
    requires |Flatten(items[i].data)| < items[i].length + WORD64
    ensures handed[i] == SentFor(FromUtf8, items[i].isString, Flatten(items[i].data))
    ensures handed[i].payload == Flatten(items[i].data)
  {
    ReferencePreparedAt(items, i);
    PreparedExactly(FromUtf8, items[i].isString, items[i].length, Flatten(items[i].data), WORD64);
    hide ReferencePrepared, Flatten, Prepared;
  }

  lemma GuestHandsPayloads(items: seq<StreamMessage<seq<seq<Byte>>>>, turns: seq<Turn>, stop: Stop, sent: nat,
                           handed: seq<Message>, i: nat)
    requires Accounts(GuestPrepared(items), turns, false, stop, sent, handed) && i < |handed|
    requires |Flatten(items[i].data)| < items[i].length + WORD32
    ensures handed[i] == SentFor(FromUtf8, items[i].isString, Flatten(items[i].data))
    ensures handed[i].payload == Flatten(items[i].data)
  {
    GuestPreparedAt(items, i);
    PreparedExactly(FromUtf8, items[i].isString, items[i].length, Flatten(items[i].data), WORD32);
    hide GuestPrepared, Flatten, Prepared;
  }

  /** The JavaScript driver's messages carry it exactly when they are binary or it starts with no byte order
      mark; otherwise the mark is missing. */
  lemma JsHandsPayloads(items: seq<StreamMessage<Source>>, turns: seq<Turn>, stop: Stop, sent: nat,
                        handed: seq<Message>, i: nat)
    requires Accounts(JsPrepared(items), turns, false, stop, sent, handed) && i < |handed|
    ensures var bytes := Flatten(items[i].data.Chunks());
            && handed[i] == SentFor(Platform, items[i].isString, bytes)
            && (handed[i].payload == bytes <==> !items[i].isString || !Encodings.StartsWithMark(bytes))
  {
    var bytes := Flatten(items[i].data.Chunks());
    var word := |bytes| + 1;
    JsPreparedAt(items, i);
    PreparedExactly(Platform, items[i].isString, items[i].length, bytes, word);
    WordExactInRange(bytes, items[i].length, word);
    hide JsPrepared, Flatten, Prepared, Collect;
  }
}
