/** The in-memory byte pipe under the protocol core (rust/guest-provider/src/io.rs), and its life across the
    handshake (rust/guest-provider/src/connect.rs) into the pump. */
module VirtualTransport {
  import opened Types

  datatype ReadResult = Count(n: nat) | WouldBlock

  // ----- the inbound half as values ----------------------------------------------------------------------

  datatype Pipe = Pipe(inbound: seq<Byte>, eof: bool)

  datatype Op = Feed(bytes: seq<Byte>) | SetEof | Read(room: nat)

  function Min(a: nat, b: nat): nat { if a < b then a else b }

  /** What a read of at most `room` bytes yields. */
  function ReadBytes(p: Pipe, room: nat): seq<Byte> { p.inbound[..Min(room, |p.inbound|)] }

  function ResultOf(p: Pipe, room: nat): ReadResult {
    if p.inbound == [] && !p.eof then WouldBlock else Count(Min(room, |p.inbound|))
  }

  function After(p: Pipe, op: Op): Pipe {
    match op
    case Feed(bytes) => p.(inbound := p.inbound + bytes)
    case SetEof => p.(eof := true)
    case Read(room) => p.(inbound := p.inbound[Min(room, |p.inbound|)..])
  }

  function FedBy(op: Op): seq<Byte> { if op.Feed? then op.bytes else [] }

  function ReadBy(p: Pipe, op: Op): seq<Byte> { if op.Read? then ReadBytes(p, op.room) else [] }

  function Run(p: Pipe, ops: seq<Op>): Pipe
    decreases |ops|
  {
    if ops == [] then p else Run(After(p, ops[0]), ops[1..])
  }

  /** Everything fed, and everything read, in a run. */
  function Fed(ops: seq<Op>): seq<Byte> { if ops == [] then [] else FedBy(ops[0]) + Fed(ops[1..]) }

  function Taken(p: Pipe, ops: seq<Op>): seq<Byte>
    decreases |ops|
  {
    if ops == [] then [] else ReadBy(p, ops[0]) + Taken(After(p, ops[0]), ops[1..])
  }

  /** Conservation: what was there and what was fed is what was read and what is left, in order. */
  lemma {:induction false} NothingLost(p: Pipe, ops: seq<Op>)
    ensures p.inbound + Fed(ops) == Taken(p, ops) + Run(p, ops).inbound
    decreases |ops|
  {
    if ops != [] {
      var op, rest := ops[0], ops[1..];
      var q := After(p, op);
      NothingLost(q, rest);
      StepLosesNothing(p, op);
      Chain(p.inbound, FedBy(op), ReadBy(p, op), q.inbound, Fed(rest), Taken(q, rest), Run(q, rest).inbound);
    }
  }

  lemma StepLosesNothing(p: Pipe, op: Op)
    ensures p.inbound + FedBy(op) == ReadBy(p, op) + After(p, op).inbound
  {
  }

  lemma Chain(a: seq<Byte>, fed: seq<Byte>, got: seq<Byte>, b: seq<Byte>, fed': seq<Byte>, got': seq<Byte>,
              c: seq<Byte>)
    requires a + fed == got + b && b + fed' == got' + c
    ensures a + (fed + fed') == (got + got') + c
  {
    assert a + (fed + fed') == (a + fed) + fed';
    assert (got + b) + fed' == got + (b + fed');
    assert got + (got' + c) == (got + got') + c;
  }

  lemma {:induction false} EofWasSet(p: Pipe, ops: seq<Op>)
    ensures Run(p, ops).eof <==> p.eof || SetEof in ops
    decreases |ops|
  {
    if ops != [] {
      EofWasSet(After(p, ops[0]), ops[1..]);
    }
  }

  predicate IsEof(p: Pipe, room: nat) { room > 0 && ResultOf(p, room) == Count(0) }

  /** For every run from an empty pipe: the bytes read are a prefix of the bytes fed; a read with room reports
      end of file exactly when the end was set and every byte fed was read, and it blocks exactly when all was
      read and the end was not set. */
  lemma ReadsArePrefix(ops: seq<Op>, room: nat)
    requires room > 0
    ensures var p := Run(Pipe([], false), ops);
            && Taken(Pipe([], false), ops) <= Fed(ops)
            && (IsEof(p, room) <==> SetEof in ops && Taken(Pipe([], false), ops) == Fed(ops))
            && (ResultOf(p, room).WouldBlock? <==> SetEof !in ops && Taken(Pipe([], false), ops) == Fed(ops))
  {
    var start := Pipe([], false);
    NothingLost(start, ops);
    EofWasSet(start, ops);
    assert Fed(ops) == Taken(start, ops) + Run(start, ops).inbound;
  }

  /** Once reported, the end stays: without further feeding every later read with room reports it. */
  lemma {:induction false} EofStays(p: Pipe, ops: seq<Op>, room: nat, later: nat)
    requires IsEof(p, room) && later > 0 && forall op <- ops :: !op.Feed?
    ensures IsEof(Run(p, ops), later)
    decreases |ops|
  {
    if ops != [] {
      EofStays(After(p, ops[0]), ops[1..], room, later);
    }
  }

  // ----- the shared buffers ------------------------------------------------------------------------------

  class Buffers {
    var inbound: seq<Byte>
    var eof: bool
    var outbound: seq<Byte>
    /** Everything ever fed and read, written and drained. */
    ghost var fed: seq<Byte>
    ghost var taken: seq<Byte>
    ghost var written: seq<Byte>
    ghost var drained: seq<Byte>

    ghost predicate Valid()
      reads this
    {
      fed == taken + inbound && written == drained + outbound
    }

    ghost function Inbound(): Pipe
      reads this
    {
      Pipe(inbound, eof)
    }

    constructor ()
      ensures Valid() && Inbound() == Pipe([], false) && outbound == []
      ensures fed == taken == written == drained == []
    {
      inbound, eof, outbound := [], false, [];
      fed, taken, written, drained := [], [], [], [];
    }
  }

  /** The feed and drain side. */
  class IoHandle {
    const buffers: Buffers

    constructor ()
      ensures fresh(buffers) && buffers.Valid() && buffers.Inbound() == Pipe([], false) && buffers.outbound == []
      ensures buffers.fed == buffers.taken == buffers.written == buffers.drained == []
    {
      var shared := new Buffers();
      buffers := shared;
    }

    /** The endpoint for the protocol core, over the same buffers. */
    method Io() returns (io: VirtualIo)
      ensures fresh(io) && io.buffers == buffers
    {
      io := new VirtualIo(buffers);
    }

    method Feed(bytes: seq<Byte>)
      requires buffers.Valid()
      modifies buffers`inbound, buffers`fed
      ensures buffers.Valid() && buffers.Inbound() == After(old(buffers.Inbound()), Op.Feed(bytes))
      ensures buffers.fed == old(buffers.fed) + bytes
    {
      buffers.inbound := buffers.inbound + bytes;
      buffers.fed := buffers.fed + bytes;
    }

    method SetEof()
      requires buffers.Valid()
      modifies buffers`eof
      ensures buffers.Valid() && buffers.Inbound() == After(old(buffers.Inbound()), Op.SetEof)
    {
      buffers.eof := true;
    }

    method DrainOutbound() returns (bytes: seq<Byte>)
      requires buffers.Valid()
      modifies buffers`outbound, buffers`drained
      ensures buffers.Valid() && buffers.outbound == [] && bytes == old(buffers.outbound)
      ensures buffers.drained == old(buffers.drained) + bytes == buffers.written
    {
      bytes := buffers.outbound;
      buffers.outbound := [];
      buffers.drained := buffers.drained + bytes;
    }
  }

  lemma NothingToTake(p: Pipe, room: nat, was: seq<Byte>, taken: seq<Byte>)
    requires p.inbound == []
    ensures ReadBytes(p, room) == [] && [] + was[0..] == was && taken + [] == taken
    ensures After(p, Op.Read(room)) == p
  {
  }

  lemma Rejoin(whole: seq<Byte>, front: seq<Byte>, back: seq<Byte>, n: nat)
    requires whole == front + back && n <= |back|
    ensures whole == (front + back[..n]) + back[n..]
  {
  }

  /** The protocol core's endpoint. */
  class VirtualIo {
    const buffers: Buffers

    constructor (buffers: Buffers)
      ensures this.buffers == buffers
    {
      this.buffers := buffers;
    }

    method Read(buf: array<Byte>) returns (r: ReadResult)
      requires buffers.Valid()
      modifies buffers`inbound, buffers`taken, buf
      ensures buffers.Valid() && buffers.Inbound() == After(old(buffers.Inbound()), Op.Read(buf.Length))
      ensures r == ResultOf(old(buffers.Inbound()), buf.Length)
      ensures var got := ReadBytes(old(buffers.Inbound()), buf.Length);
              buf[..] == got + old(buf[..])[|got|..] && buffers.taken == old(buffers.taken) + got
    {
      if |buffers.inbound| == 0 {
        NothingToTake(buffers.Inbound(), buf.Length, buf[..], buffers.taken);
        return if buffers.eof then Count(0) else WouldBlock;
      }
      var n := Min(buf.Length, |buffers.inbound|);
      PopInto(buf, n);
      return Count(n);
    }

    /** The loop: one byte off the front of the queue into each slot. */
    method PopInto(buf: array<Byte>, n: nat)
      requires buffers.Valid() && n <= buf.Length && n <= |buffers.inbound|
      modifies buffers`inbound, buffers`taken, buf
      ensures buffers.Valid() && buffers.inbound == old(buffers.inbound)[n..]
      ensures buffers.taken == old(buffers.taken) + old(buffers.inbound)[..n]
      ensures buf[..] == old(buffers.inbound)[..n] + old(buf[..])[n..]
    {
      ghost var before, was := buffers.inbound, buf[..];
      var i := 0;
      while i < n
        invariant i <= n && buffers.inbound == before[i..] && buffers.taken == old(buffers.taken)
        invariant forall k :: 0 <= k < i ==> buf[k] == before[k]
        invariant forall k :: i <= k < buf.Length ==> buf[k] == was[k]
      {
        buf[i] := buffers.inbound[0];
        buffers.inbound := buffers.inbound[1..];
        i := i + 1;
      }
      buffers.taken := buffers.taken + before[..n];
      Rejoin(buffers.fed, old(buffers.taken), before, n);
    }

    method Write(bytes: seq<Byte>) returns (n: nat)
      requires buffers.Valid()
      modifies buffers`outbound, buffers`written
      ensures buffers.Valid() && n == |bytes|
      ensures buffers.outbound == old(buffers.outbound) + bytes && buffers.written == old(buffers.written) + bytes
    {
      buffers.outbound := buffers.outbound + bytes;
      buffers.written := buffers.written + bytes;
      return |bytes|;
    }
  }

  // ----- the handshake over the pipe ---------------------------------------------------------------------

  /** One turn of the handshake loop: how far the core reads and what it writes, and how the network answers. */
  datatype Turn = Turn(
    rooms: seq<nat>, writes: seq<Byte>, done: bool, fails: bool, writeOk: bool, chunk: seq<Byte>, ended: bool)

  datatype Handshake = Established | Broken | Unfinished

  /** A turn after which the loop goes around: what the core wrote went out, or without anything to write some bytes
      came in or the stream is still open. */
  predicate GoesOn(t: Turn) {
    !t.fails && !t.done && (if t.writes != [] then t.writeOk else t.chunk != [] || !t.ended)
  }

  /** The turns before the first that ends the loop. */
  function Going(turns: seq<Turn>): (k: nat)
    ensures k <= |turns| && (forall i :: 0 <= i < k ==> GoesOn(turns[i])) && (k < |turns| ==> !GoesOn(turns[k]))
  {
    if turns == [] || !GoesOn(turns[0]) then 0 else 1 + Going(turns[1..])
  }

  /** What they sent, and what they received: a turn reads only if the core had nothing to write. */
  function SentIn(turns: seq<Turn>): seq<Byte> {
    if turns == [] then [] else SentIn(turns[..|turns| - 1]) + turns[|turns| - 1].writes
  }

  function ReceivedIn(turns: seq<Turn>): seq<Byte> {
    if turns == [] then []
    else
      var t := turns[|turns| - 1];
      ReceivedIn(turns[..|turns| - 1]) + (if t.writes == [] then t.chunk else [])
  }

  function OutcomeOf(turns: seq<Turn>): Handshake {
    var k := Going(turns);
    if k == |turns| then Unfinished
    else if turns[k].done && !turns[k].fails then Established
    else Broken
  }

  lemma OneMoreTurn(turns: seq<Turn>, i: nat)
    requires i < |turns|
    ensures turns[..i + 1][..i] == turns[..i] && turns[..i + 1][i] == turns[i]
    ensures SentIn(turns[..i + 1]) == SentIn(turns[..i]) + turns[i].writes
    ensures ReceivedIn(turns[..i + 1])
         == ReceivedIn(turns[..i]) + (if turns[i].writes == [] then turns[i].chunk else [])
  {
    assert turns[..i + 1][..i] == turns[..i];
  }

  /** The core's side of a turn: reads while there are bytes, then a write. */
  method CoreTurn(io: VirtualIo, rooms: seq<nat>, writes: seq<Byte>)
    requires io.buffers.Valid()
    modifies io.buffers
    ensures io.buffers.Valid() && io.buffers.fed == old(io.buffers.fed) && io.buffers.drained == old(io.buffers.drained)
    ensures old(io.buffers.taken) <= io.buffers.taken && io.buffers.eof == old(io.buffers.eof)
    ensures io.buffers.written == old(io.buffers.written) + writes
    ensures io.buffers.outbound == old(io.buffers.outbound) + writes
  {
    var i := 0;
    while i < |rooms|
      invariant io.buffers.Valid() && io.buffers.fed == old(io.buffers.fed)
      invariant io.buffers.drained == old(io.buffers.drained) && io.buffers.written == old(io.buffers.written)
      invariant io.buffers.outbound == old(io.buffers.outbound)
      invariant old(io.buffers.taken) <= io.buffers.taken && io.buffers.eof == old(io.buffers.eof)
    {
      var buf := new Byte[rooms[i]];
      var r := io.Read(buf);
      if r.WouldBlock? {
        break;
      }
      i := i + 1;
    }
    var n := io.Write(writes);
  }

  /** The handshake loop. `sent` is what reached the network's writer, `received` what its reader gave. */
  method DriveHandshake(handle: IoHandle, io: VirtualIo, turns: seq<Turn>)
    returns (outcome: Handshake, ghost sent: seq<Byte>, ghost received: seq<Byte>)
    requires io.buffers == handle.buffers && handle.buffers.Valid()
    requires handle.buffers.fed == handle.buffers.written == [] && !handle.buffers.eof
    modifies handle.buffers
    // How it ends, and what went out and came in until then.
    ensures outcome == OutcomeOf(turns)
    ensures sent == SentIn(turns[..Going(turns)]) && received == ReceivedIn(turns[..Going(turns)])
    // Whatever of the peer's bytes the handshake did not read waits in the pipe, in order, for the pump.
    ensures handle.buffers.Valid() && !handle.buffers.eof
    ensures handle.buffers.fed == received && handle.buffers.taken + handle.buffers.inbound == received
    // What the core wrote reaches the network in order; what is not sent yet is what a failed write lost, or
    // waits in the pipe for the pump's first flush.
    ensures sent <= handle.buffers.written
    ensures outcome.Established? ==> sent + handle.buffers.outbound == handle.buffers.written
  {
    outcome, sent, received := Unfinished, [], [];
    var i := 0;
    while i < |turns|
      invariant i <= Going(turns)
      invariant handle.buffers.Valid() && !handle.buffers.eof
      invariant handle.buffers.fed == received == ReceivedIn(turns[..i])
      invariant handle.buffers.drained == handle.buffers.written == sent == SentIn(turns[..i])
      decreases |turns| - i
    {
      var turn := turns[i];
      OneMoreTurn(turns, i);
      CoreTurn(io, turn.rooms, turn.writes);
      if turn.fails {
        return Broken, sent, received;
      }
      if turn.done {
        return Established, sent, received;
      }
      i := i + 1;
      var outbound := handle.DrainOutbound();
      if |outbound| > 0 {
        if !turn.writeOk {
          return Broken, sent, received;
        }
        sent := sent + outbound;
        continue;
      }
      handle.Feed(turn.chunk);
      received := received + turn.chunk;
      if turn.ended && |turn.chunk| == 0 {
        return Broken, sent, received;
      }
    }
  }

  // ----- the pump over the same pipe ---------------------------------------------------------------------

  /** One wake-up of the pump's reader: a chunk, or the end. */
  datatype Wake = Chunk(bytes: seq<Byte>) | End

  /** The core's side of a wake-up: it reads until nothing is left, some at a time, or it stops for good (a close
      frame at the end, or an error) after some reads. */
  datatype Core = Drains(room: nat) | Stops(rooms: seq<nat>)

  /** What the wake-ups bring before the end. */
  function ChunksOf(wakes: seq<Wake>): seq<Byte> {
    if wakes == [] || wakes[0].End? then [] else wakes[0].bytes + ChunksOf(wakes[1..])
  }

  /** The wake-ups the reader sees: all up to the end. */
  function Seen(wakes: seq<Wake>): (k: nat)
    ensures k <= |wakes|
  {
    if wakes == [] then 0 else if wakes[0].End? then 1 else 1 + Seen(wakes[1..])
  }

  /** Whether the core stops at one of the first `n` answers. */
  predicate StopsWithin(cores: seq<Core>, n: nat) { exists i :: 0 <= i < n && i < |cores| && cores[i].Stops? }

  lemma SeenUpTo(wakes: seq<Wake>, i: nat)
    requires i <= |wakes| && End !in wakes[..i]
    ensures Seen(wakes) == i + Seen(wakes[i..])
  {
    if i > 0 {
      assert wakes[..i][0] == wakes[0] && wakes[..i][1..] == wakes[1..][..i - 1] && wakes[1..][i - 1..] == wakes[i..];
      SeenUpTo(wakes[1..], i - 1);
    }
  }

  /** The core's reads until the pipe blocks or reports its end: nothing is left. */
  method Drain(io: VirtualIo, room: nat)
    requires io.buffers.Valid() && room > 0
    modifies io.buffers`inbound, io.buffers`taken
    ensures io.buffers.Valid() && io.buffers.inbound == [] && io.buffers.taken == io.buffers.fed
  {
    while true
      invariant io.buffers.Valid()
      decreases |io.buffers.inbound|
    {
      var buf := new Byte[room];
      var r := io.Read(buf);
      if r.WouldBlock? || r.n == 0 {
        break;
      }
    }
  }

  /** The core answers one wake-up. */
  method CoreAnswers(io: VirtualIo, core: Core) returns (stopped: bool)
    requires io.buffers.Valid() && (core.Drains? ==> core.room > 0)
    modifies io.buffers
    ensures io.buffers.Valid() && io.buffers.fed == old(io.buffers.fed) && io.buffers.eof == old(io.buffers.eof)
    ensures stopped == core.Stops? && (!stopped ==> io.buffers.inbound == [] && io.buffers.taken == io.buffers.fed)
  {
    match core {
      case Drains(room) => Drain(io, room);
      case Stops(rooms) => CoreTurn(io, rooms, []);
    }
    return core.Stops?;
  }

  /** The pump goes on with the handle the handshake leaves behind. Unless the core stopped, it has read everything
      the connection ever received, first what the handshake left; the end is set after all of it. */
  method PumpReads(handle: IoHandle, io: VirtualIo, wakes: seq<Wake>, cores: seq<Core>, ghost received: seq<Byte>)
    returns (stopped: bool, ghost total: seq<Byte>)
    requires io.buffers == handle.buffers && handle.buffers.Valid() && |cores| == |wakes| + 1
    requires forall core <- cores :: core.Drains? ==> core.room > 0
    requires handle.buffers.fed == received && !handle.buffers.eof
    modifies handle.buffers
    ensures handle.buffers.Valid() && handle.buffers.fed == total
    ensures received <= total <= received + ChunksOf(wakes)
    ensures !stopped ==> total == received + ChunksOf(wakes) && handle.buffers.taken == total
    ensures handle.buffers.eof ==> total == received + ChunksOf(wakes)
    ensures !stopped ==> handle.buffers.eof == (End in wakes)
    ensures stopped == StopsWithin(cores, Seen(wakes) + 1)
  {
    total := received;
    var i := 0;
    stopped := CoreAnswers(io, cores[0]);
    while i < |wakes| && !stopped
      invariant stopped == StopsWithin(cores, i + 1)
      invariant i <= |wakes| && handle.buffers.Valid() && !handle.buffers.eof
      invariant handle.buffers.fed == total && received <= total && End !in wakes[..i]
      invariant total + ChunksOf(wakes[i..]) == received + ChunksOf(wakes)
      invariant !stopped ==> handle.buffers.taken == total
      decreases |wakes| - i
    {
      assert wakes[i..][1..] == wakes[i + 1..];
      SeenUpTo(wakes, i);
      match wakes[i]
      case Chunk(bytes) =>
        handle.Feed(bytes);
        assert (total + bytes) + ChunksOf(wakes[i + 1..]) == total + (bytes + ChunksOf(wakes[i + 1..]));
        total := total + bytes;
        i := i + 1;
        stopped := CoreAnswers(io, cores[i]);
      case End =>
        handle.SetEof();
        stopped := CoreAnswers(io, cores[i + 1]);
        return;
    }
    SeenUpTo(wakes, i);
  }

  /** The handover as a whole: over a handshake and the pump's reads after it, what the core read is a prefix, in
      order, of what the connection received; all of it unless the core stopped. */
  method Connect(turns: seq<Turn>, wakes: seq<Wake>, cores: seq<Core>)
    returns (outcome: Handshake, stopped: bool, handle: IoHandle, ghost shaken: seq<Byte>)
    requires |cores| == |wakes| + 1 && forall core <- cores :: core.Drains? ==> core.room > 0
    ensures fresh(handle) && fresh(handle.buffers) && handle.buffers.Valid()
    ensures outcome == OutcomeOf(turns) && shaken == ReceivedIn(turns[..Going(turns)])
    ensures stopped == (outcome.Established? && StopsWithin(cores, Seen(wakes) + 1))
    ensures handle.buffers.taken <= handle.buffers.fed <= shaken + ChunksOf(wakes)
    ensures outcome.Established? && !stopped ==> handle.buffers.taken == shaken + ChunksOf(wakes)
    ensures handle.buffers.eof ==> handle.buffers.fed == shaken + ChunksOf(wakes)
  {
    handle := new IoHandle();
    var io := handle.Io();
    stopped := false;
    ghost var sent;
    outcome, sent, shaken := DriveHandshake(handle, io, turns);
    if outcome.Established? {
      ghost var total;
      stopped, total := PumpReads(handle, io, wakes, cores, shaken);
    }
  }
}
