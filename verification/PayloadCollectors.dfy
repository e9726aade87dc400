// The payload collectors of `send-via-stream`: each keeps the declared length and counts the rest, however chunked.
module PayloadCollectors {
  import opened Types

  const WORD32: nat := 0x1_0000_0000
  const WORD64: nat := 0x1_0000_0000_0000_0000

  /** What a collector hands back. */
  datatype Collected = Collected(data: seq<Byte>, excess: nat)

  /** The specification: the first `limit` bytes, and how many more there were. */
  function Collect(bytes: seq<Byte>, limit: nat): Collected {
    if |bytes| <= limit then Collected(bytes, 0) else Collected(bytes[..limit], |bytes| - limit)
  }

  function Flatten(chunks: seq<seq<Byte>>): seq<Byte> {
    if chunks == [] then [] else chunks[0] + Flatten(chunks[1..])
  }

  lemma {:induction false} FlattenSnoc(chunks: seq<seq<Byte>>, chunk: seq<Byte>)
    ensures Flatten(chunks + [chunk]) == Flatten(chunks) + chunk
  {
    if chunks == [] {
      assert chunks + [chunk] == [chunk] && [chunk][1..] == [];
    } else {
      assert (chunks + [chunk])[1..] == chunks[1..] + [chunk];
      FlattenSnoc(chunks[1..], chunk);
    }
  }

  lemma FlattenTake(chunks: seq<seq<Byte>>, i: nat)
    requires i < |chunks|
    ensures Flatten(chunks[..i + 1]) == Flatten(chunks[..i]) + chunks[i]
  {
    assert chunks[..i + 1] == chunks[..i] + [chunks[i]];
    FlattenSnoc(chunks[..i], chunks[i]);
  }

  /** Absorbing one more chunk: as much as there is room for is kept, the rest counted. */
  function Absorb(c: Collected, chunk: seq<Byte>, limit: nat): Collected {
    var room := if |c.data| <= limit then limit - |c.data| else 0;
    if |chunk| > room then Collected(c.data + chunk[..room], c.excess + |chunk| - room)
    else Collected(c.data + chunk, c.excess)
  }

  function AbsorbAll(c: Collected, chunks: seq<seq<Byte>>, limit: nat): Collected
    decreases |chunks|
  {
    if chunks == [] then c else AbsorbAll(Absorb(c, chunks[0], limit), chunks[1..], limit)
  }

  lemma AbsorbIsCollect(bytes: seq<Byte>, chunk: seq<Byte>, limit: nat)
    ensures Absorb(Collect(bytes, limit), chunk, limit) == Collect(bytes + chunk, limit)
  {
    if |bytes| <= limit < |bytes| + |chunk| {
      assert (bytes + chunk)[..limit] == bytes + chunk[..limit - |bytes|];
    } else if limit < |bytes| {
      assert (bytes + chunk)[..limit] == bytes[..limit] == bytes[..limit] + chunk[..0];
    }
  }

  /** Chunking is invisible: absorbing any chunks is collecting their bytes at once. */
  lemma {:induction false} ChunkingIsInvisible(bytes: seq<Byte>, chunks: seq<seq<Byte>>, limit: nat)
    ensures AbsorbAll(Collect(bytes, limit), chunks, limit) == Collect(bytes + Flatten(chunks), limit)
    decreases |chunks|
  {
    if chunks == [] {
      assert bytes + [] == bytes;
    } else {
      AbsorbIsCollect(bytes, chunks[0], limit);
      ChunkingIsInvisible(bytes + chunks[0], chunks[1..], limit);
      assert bytes + chunks[0] + Flatten(chunks[1..]) == bytes + Flatten(chunks);
    }
  }

  // ----- acceptance --------------------------------------------------------------------------------------

  /** The drivers' check: no excess and as many bytes as declared. */
  predicate Accepts(c: Collected, declared: nat) { c.excess == 0 && |c.data| == declared }

  /** The excess as a machine word counts it. */
  function InWord(c: Collected, word: nat): Collected
    requires word > 0
  {
    c.(excess := c.excess % word)
  }

  /** A payload is accepted exactly when it has the declared length, and then whole; the byte count of the
      rejection message is the payload's length. */
  lemma AcceptedIffDeclared(bytes: seq<Byte>, declared: nat)
    ensures Accepts(Collect(bytes, declared), declared) <==> |bytes| == declared
    ensures Accepts(Collect(bytes, declared), declared) ==> Collect(bytes, declared).data == bytes
    ensures |Collect(bytes, declared).data| + Collect(bytes, declared).excess == |bytes|
  {
  }

  /** On a machine word the excess can wrap: what is accepted besides is a payload longer than declared by a
      whole number of words. */
  lemma WordAcceptsExactly(bytes: seq<Byte>, declared: nat, word: nat)
    requires word > 0
    ensures Accepts(InWord(Collect(bytes, declared), word), declared)
       <==> |bytes| == declared || (|bytes| > declared && (|bytes| - declared) % word == 0)
  {
  }

  /** So within one word past the declared length the check on words is exact. */
  lemma WordExactInRange(bytes: seq<Byte>, declared: nat, word: nat)
    requires word > 0 && |bytes| < declared + word
    ensures Accepts(InWord(Collect(bytes, declared), word), declared) <==> |bytes| == declared
  {
    if |bytes| > declared {
      SmallMod(|bytes| - declared, word);
    }
  }

  lemma SmallMod(n: nat, word: nat)
    requires n < word
    ensures n % word == n
  {
  }

  /** The remainder is the one number below the word that differs by whole words. */
  lemma ModUnique(n: int, q: int, r: nat, word: nat)
    requires r < word && n == q * word + r
    ensures n % word == r
  {
    var d := n / word - q;
    assert n == (n / word) * word + n % word;
    assert d * word == r - n % word;
    WholeWords(d, word);
  }

  lemma WholeWords(d: int, word: nat)
    ensures d >= 1 ==> d * word >= word
    ensures d <= -1 ==> d * word + word <= 0
  {
  }

  lemma AddMod(a: nat, b: nat, word: nat)
    requires word > 0
    ensures (a % word + b) % word == (a + b) % word
  {
    var n := a % word + b;
    assert a == (a / word) * word + a % word && n == (n / word) * word + n % word;
    assert (a / word + n / word) * word == (a / word) * word + (n / word) * word;
    ModUnique(a + b, a / word + n / word, n % word, word);
  }

  // ----- the chunk-truncating collector ------------------------------------------------------------------

  class ByteCollector {
    const limit: nat
    var buf: seq<Byte>
    var excess: nat
    var done: Option<Collected>
    /** Every byte the stream carried so far. */
    ghost var seen: seq<Byte>

    ghost predicate Valid()
      reads this
    {
      && Collected(buf, excess) == InWord(Collect(seen, limit), WORD64)
      && (done.Some? ==> done.value == Collected(buf, excess))
    }

    constructor (limit: nat)
      ensures Valid() && this.limit == limit && seen == [] && done.None?
    {
      this.limit := limit;
      buf, excess, done, seen := [], 0, None, [];
    }

    /** One `poll_consume` with bytes available. */
    method Consume(available: seq<Byte>)
      requires Valid() && done.None?
      modifies this
      ensures Valid() && done.None? && seen == old(seen) + available
    {
      var chunk := available;
      var room := if |buf| <= limit then limit - |buf| else 0;
      AbsorbIsCollect(seen, available, limit);
      if |chunk| > room {
        AddMod(Collect(seen, limit).excess, |chunk| - room, WORD64);
        excess := (excess + (|chunk| - room)) % WORD64;
        chunk := chunk[..room];
      }
      buf := buf + chunk;
      seen := seen + available;
    }

    /** The end of the stream, by a finishing poll or by the drop: only the first hands the result over. */
    method Finish()
      requires Valid()
      modifies this`done
      ensures Valid() && done == Some(if old(done).Some? then old(done).value else InWord(Collect(seen, limit), WORD64))
    {
      if done.None? {
        done := Some(Collected(buf, excess));
      }
    }
  }

  // ----- the byte-at-a-time collector --------------------------------------------------------------------

  method CollectPayload(chunks: seq<seq<Byte>>, declared: nat) returns (collected: seq<Byte>, excess: nat)
    ensures Collected(collected, excess) == InWord(Collect(Flatten(chunks), declared), WORD32)
  {
    collected, excess := [], 0;
    var i := 0;
    while i < |chunks|
      invariant i <= |chunks|
      invariant Collected(collected, excess) == InWord(Collect(Flatten(chunks[..i]), declared), WORD32)
    {
      var chunk := chunks[i];
      ghost var before := Flatten(chunks[..i]);
      var j := 0;
      assert before + chunk[..0] == before;
      while j < |chunk|
        invariant j <= |chunk|
        invariant Collected(collected, excess) == InWord(Collect(before + chunk[..j], declared), WORD32)
      {
        ghost var bytes := before + chunk[..j];
        AbsorbIsCollect(bytes, [chunk[j]], declared);
        assert bytes + [chunk[j]] == before + chunk[..j + 1];
        if |collected| < declared {
          collected := collected + [chunk[j]];
        } else {
          AddMod(Collect(bytes, declared).excess, 1, WORD32);
          assert collected + [] == collected;
          excess := (excess + 1) % WORD32;
        }
        j := j + 1;
      }
      assert chunk[..j] == chunk;
      FlattenTake(chunks, i);
      i := i + 1;
    }
    assert chunks[..i] == chunks;
  }

  // ----- the chunk-listing collector ---------------------------------------------------------------------

  /** One value of a web stream or an async iterable. */
  datatype Item = Missing | One(byte: Byte) | Many(bytes: seq<Byte>) {
    function Bytes(): seq<Byte> {
      match this
      case Missing => []
      case One(b) => [b]
      case Many(bs) => bs
    }
  }

  /** The conventions' own stream ends at its first empty read; other sources end by themselves. */
  datatype Source = Branded(chunks: seq<seq<Byte>>) | Values(items: seq<Item>) {
    function Chunks(): seq<seq<Byte>> {
      match this
      case Branded(cs) => UpToEmpty(cs)
      case Values(items) => seq(|items|, i requires 0 <= i < |items| => items[i].Bytes())
    }
  }

  function UpToEmpty(chunks: seq<seq<Byte>>): seq<seq<Byte>> {
    if chunks == [] || chunks[0] == [] then [] else [chunks[0]] + UpToEmpty(chunks[1..])
  }

  lemma {:induction false} UpToEmptyAt(chunks: seq<seq<Byte>>, i: nat)
    requires i <= |chunks| && forall k :: 0 <= k < i ==> chunks[k] != []
    ensures i == |chunks| || chunks[i] == [] ==> UpToEmpty(chunks) == chunks[..i]
    decreases |chunks|
  {
    if i > 0 {
      UpToEmptyAt(chunks[1..], i - 1);
      assert chunks[..i] == [chunks[0]] + chunks[1..][..i - 1];
    }
  }

  /** `push`: what of a chunk to keep in the list, if anything. */
  method Push(kept: seq<seq<Byte>>, total: nat, excess: nat, value: seq<Byte>, limit: nat)
    returns (kept': seq<seq<Byte>>, total': nat, excess': nat)
    requires total == |Flatten(kept)|
    ensures total' == |Flatten(kept')|
    ensures Collected(Flatten(kept'), excess') == Absorb(Collected(Flatten(kept), excess), value, limit)
  {
    kept', total', excess' := kept, total, excess;
    var chunk := value;
    if |chunk| == 0 {
      assert Flatten(kept) + chunk == Flatten(kept);
      return;
    }
    var room := limit - total;
    if |chunk| > room {
      excess' := excess + |chunk| - (if room < 0 then 0 else room);
      if room <= 0 {
        assert Flatten(kept) + chunk[..0] == Flatten(kept);
        return;
      }
      chunk := chunk[..room];
    }
    FlattenSnoc(kept, chunk);
    kept' := kept + [chunk];
    total' := total + |chunk|;
  }

  /** The final copy into one buffer. */
  method Concat(kept: seq<seq<Byte>>, total: nat) returns (out: array<Byte>)
    requires total == |Flatten(kept)|
    ensures fresh(out) && out[..] == Flatten(kept)
  {
    out := new Byte[total];
    var offset := 0;
    var i := 0;
    while i < |kept|
      invariant i <= |kept|
      invariant offset == |Flatten(kept[..i])| && offset <= total
      invariant offset + |Flatten(kept[i..])| == total
      invariant out[..offset] == Flatten(kept[..i])
    {
      var chunk := kept[i];
      FlattenTake(kept, i);
      assert kept[i..][1..] == kept[i + 1..];
      ghost var before := out[..offset];
      forall k | 0 <= k < |chunk| {
        out[offset + k] := chunk[k];
      }
      assert out[..offset] == before;
      assert out[..offset + |chunk|] == before + chunk;
      offset := offset + |chunk|;
      i := i + 1;
    }
    assert kept[..i] == kept && kept[i..] == [];
  }

  method CollectByteStream(source: Source, limit: nat) returns (bytes: array<Byte>, excess: nat)
    ensures fresh(bytes)
    ensures Collected(bytes[..], excess) == Collect(Flatten(source.Chunks()), limit)
  {
    var kept: seq<seq<Byte>>, total, i := [], 0, 0;
    excess := 0;
    match source
    case Branded(chunks) =>
      while i < |chunks| && |chunks[i]| != 0
        invariant i <= |chunks| && total == |Flatten(kept)|
        invariant forall k :: 0 <= k < i ==> chunks[k] != []
        invariant Collected(Flatten(kept), excess) == Collect(Flatten(chunks[..i]), limit)
      {
        AbsorbIsCollect(Flatten(chunks[..i]), chunks[i], limit);
        FlattenTake(chunks, i);
        kept, total, excess := Push(kept, total, excess, chunks[i], limit);
        i := i + 1;
      }
      UpToEmptyAt(chunks, i);
      bytes := Concat(kept, total);
    case Values(items) =>
      ghost var chunks := source.Chunks();
      while i < |items|
        invariant i <= |items| && total == |Flatten(kept)|
        invariant Collected(Flatten(kept), excess) == Collect(Flatten(chunks[..i]), limit)
      {
        AbsorbIsCollect(Flatten(chunks[..i]), chunks[i], limit);
        FlattenTake(chunks, i);
        kept, total, excess := Push(kept, total, excess, items[i].Bytes(), limit);
        i := i + 1;
      }
      assert chunks[..i] == chunks;
      bytes := Concat(kept, total);
  }
}
