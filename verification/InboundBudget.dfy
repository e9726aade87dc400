/** The buffered-byte accounting of the inbound queue: machine words, atomics shared between the pump
    and readers on other threads, and the in-guest variant on a 32-bit word. */
module InboundBudget {

  const MiB: nat := 1024 * 1024

  // ----- word arithmetic ---------------------------------------------------------------------------------

  function Min(a: nat, b: nat): nat { if a < b then a else b }

  function Max(a: nat, b: nat): nat { if a < b then b else a }

  function SaturatingAdd(word: nat, a: nat, b: nat): nat
    requires word > 0
  {
    Min(a + b, word - 1)
  }

  function WrappingAdd(word: nat, a: nat, b: nat): nat
    requires word > 0
  {
    (a + b) % word
  }

  function WrappingSub(word: nat, a: nat, b: nat): nat
    requires word > 0
  {
    (a - b) % word
  }

  /** The transport's message cap for an inbound bound. */
  function TransportCap(word: nat, limit: nat): (cap: nat)
    requires 64 * MiB < word && limit < word
    ensures limit <= cap < word
    ensures 64 * MiB <= cap && (2 * limit < word ==> 2 * limit <= cap) && (cap <= 2 * limit || cap == 64 * MiB)
  {
    Max(Min(limit * 2, word - 1), 64 * MiB)
  }

  /** The reference check: saturating, so it never reports a fit that is not one. */
  predicate ReferenceFits(word: nat, limit: nat, used: nat, len: nat)
    requires word > 0
  {
    SaturatingAdd(word, used, len) <= limit
  }

  /** The in-guest check: an unsaturated addition. */
  predicate GuestFits(word: nat, limit: nat, used: nat, len: nat)
    requires word > 0
  {
    WrappingAdd(word, used, len) <= limit
  }

  ghost predicate ChecksAgree(word: nat, limit: nat)
    requires 64 * MiB < word && limit < word
  {
    forall used: nat, len: nat {:trigger GuestFits(word, limit, used, len)} |
      used <= limit && len <= TransportCap(word, limit) ::
      GuestFits(word, limit, used, len) == ReferenceFits(word, limit, used, len)
  }

  /** The saturating check is the mathematical one exactly when no wrap can hide behind the largest
      word: the bound is not the largest word, or the sum fits. */
  lemma ReferenceCheckExact(word: nat, limit: nat, used: nat, len: nat)
    requires 0 < word && limit < word
    ensures (ReferenceFits(word, limit, used, len) <==> used + len <= limit)
       <==> (limit < word - 1 || used + len <= limit)
  {
  }

  /** On a 32-bit word the two checks agree on every reachable use and every message the transport
      lets through exactly when three times the bound fits the word (or the bound is the whole word,
      where both accept everything). */
  lemma GuestCheckExact(limit: nat)
    requires limit < 0x1_0000_0000
    ensures ChecksAgree(0x1_0000_0000, limit) <==> (3 * limit < 0x1_0000_0000 || limit == 0xFFFF_FFFF)
  {
    var word: nat := 0x1_0000_0000;
    var cap := TransportCap(word, limit);
    if 3 * limit < word || limit == word - 1 {
      forall used: nat, len: nat {:trigger GuestFits(word, limit, used, len)} | used <= limit && len <= cap
        ensures GuestFits(word, limit, used, len) == ReferenceFits(word, limit, used, len)
      {
        if 3 * limit < word {
          assert used + len < word;
        }
      }
    } else {
      assert 0 < word - limit <= cap;
      assert !ReferenceFits(word, limit, limit, word - limit);
      assert GuestFits(word, limit, limit, word - limit);
    }
  }

  // ----- the atomic steps --------------------------------------------------------------------------------

  /** Where the one reserving task stands inside `reserve` and the send that follows it. */
  datatype Reserving =
    | Idle
    | Checked(size: nat)     // loaded `overflowed`, found it clear
    | Fits(size: nat)        // loaded `buffered`, found room
    | TooBig(size: nat)      // loaded `buffered`, found none; the latch is not stored yet
    | Reserved(size: nat)    // `fetch_add` done, the message is not in the channel yet

  datatype Fine = Fine(
    buffered: nat,           // the counter word
    overflowed: bool,
    pump: Reserving,
    queue: seq<nat>,         // sizes of the messages in the channel
    popped: seq<nat>         // taken by readers that have not released yet
  )

  datatype Atom =
    | LoadOverflowed(size: nat)
    | LoadBuffered
    | FetchAdd
    | Enqueue
    | StoreOverflowed
    | Latch                  // the transport rejected a message past its cap
    | Pop
    | Release(reader: nat)

  function Sum(sizes: seq<nat>): nat {
    if sizes == [] then 0 else sizes[0] + Sum(sizes[1..])
  }

  function Without(sizes: seq<nat>, i: nat): seq<nat>
    requires i < |sizes|
  {
    sizes[..i] + sizes[i + 1..]
  }

  predicate CanTake(s: Fine, a: Atom) {
    match a
    case LoadOverflowed(_) => s.pump.Idle?
    case LoadBuffered => s.pump.Checked?
    case FetchAdd => s.pump.Fits?
    case Enqueue => s.pump.Reserved?
    case StoreOverflowed => s.pump.TooBig?
    case Latch => s.pump.Idle?
    case Pop => s.queue != []
    case Release(i) => i < |s.popped|
  }

  function TakeAtom(word: nat, limit: nat, s: Fine, a: Atom): Fine
    requires word > 0 && CanTake(s, a)
  {
    match a
    case LoadOverflowed(n) => if s.overflowed then s else s.(pump := Checked(n))
    case LoadBuffered =>
      var n := s.pump.size;
      s.(pump := if SaturatingAdd(word, s.buffered, n) > limit then TooBig(n) else Fits(n))
    case FetchAdd =>
      s.(buffered := WrappingAdd(word, s.buffered, s.pump.size), pump := Reserved(s.pump.size))
    case Enqueue => s.(queue := s.queue + [s.pump.size], pump := Idle)
    case StoreOverflowed => s.(overflowed := true, pump := Idle)
    case Latch => s.(overflowed := true)
    case Pop => s.(queue := s.queue[1..], popped := s.popped + [s.queue[0]])
    case Release(i) =>
      s.(buffered := WrappingSub(word, s.buffered, s.popped[i]), popped := Without(s.popped, i))
  }

  function ReservedUnsent(s: Fine): nat { if s.pump.Reserved? then s.pump.size else 0 }

  /** The counter is exactly the queued, the reserved and not yet sent, and the popped and not yet
      released bytes, within the bound. */
  ghost predicate Accounted(limit: nat, s: Fine) {
    && s.buffered == Sum(s.queue) + ReservedUnsent(s) + Sum(s.popped)
    && s.buffered <= limit
    && (s.pump.Fits? ==> s.buffered + s.pump.size <= limit)
  }

  lemma {:induction false} SumConcat(a: seq<nat>, b: seq<nat>)
    ensures Sum(a + b) == Sum(a) + Sum(b)
  {
    if a == [] {
      assert a + b == b;
    } else {
      assert (a + b)[1..] == a[1..] + b;
      SumConcat(a[1..], b);
    }
  }

  lemma {:induction false} SumWithout(sizes: seq<nat>, i: nat)
    requires i < |sizes|
    ensures Sum(Without(sizes, i)) + sizes[i] == Sum(sizes)
  {
    var before, after := sizes[..i], sizes[i + 1..];
    SumConcat(before, after);
    assert sizes[i..][1..] == after;
    SumConcat(before, sizes[i..]);
    assert sizes == before + sizes[i..];
  }

  lemma NoWrap(word: nat, a: nat)
    requires a < word
    ensures a % word == a
  {
  }

  /** One atomic step keeps the accounting, and neither addition nor subtraction wraps. */
  lemma AtomAccounted(word: nat, limit: nat, s: Fine, a: Atom)
    requires limit < word - 1 && CanTake(s, a) && Accounted(limit, s)
    ensures Accounted(limit, TakeAtom(word, limit, s, a))
    ensures a.FetchAdd? ==> TakeAtom(word, limit, s, a).buffered == s.buffered + s.pump.size
    ensures a.Release? ==> TakeAtom(word, limit, s, a).buffered + s.popped[a.reader] == s.buffered
  {
    match a
    case FetchAdd =>
      NoWrap(word, s.buffered + s.pump.size);
    case Enqueue =>
      SumConcat(s.queue, [s.pump.size]);
    case Pop =>
      SumConcat(s.popped, [s.queue[0]]);
    case Release(i) =>
      SumWithout(s.popped, i);
      NoWrap(word, s.buffered - s.popped[i]);
    case _ =>
  }

  // ----- linearization: `reserve` behaves as one step ----------------------------------------------------

  datatype Coarse = Coarse(buffered: nat, overflowed: bool, queue: seq<nat>, popped: seq<nat>)

  /** `reserve` and the send as one step, taken when `buffered` is loaded. */
  function ReserveAndSend(limit: nat, c: Coarse, size: nat): Coarse {
    if c.overflowed then c
    else if c.buffered + size > limit then c.(overflowed := true)
    else c.(buffered := c.buffered + size, queue := c.queue + [size])
  }

  function Abstract(s: Fine): Coarse {
    match s.pump
    case Fits(n) => Coarse(s.buffered + n, s.overflowed, s.queue + [n], s.popped)
    case Reserved(n) => Coarse(s.buffered, s.overflowed, s.queue + [n], s.popped)
    case TooBig(_) => Coarse(s.buffered, true, s.queue, s.popped)
    case _ => Coarse(s.buffered, s.overflowed, s.queue, s.popped)
  }

  /** A run of atoms. */
  predicate CanRun(word: nat, limit: nat, s: Fine, atoms: seq<Atom>)
    decreases |atoms|
  {
    word > 0 && (atoms == [] ||
                 (CanTake(s, atoms[0]) && CanRun(word, limit, TakeAtom(word, limit, s, atoms[0]), atoms[1..])))
  }

  function Run(word: nat, limit: nat, s: Fine, atoms: seq<Atom>): Fine
    requires CanRun(word, limit, s, atoms)
    decreases |atoms|
  {
    if atoms == [] then s else Run(word, limit, TakeAtom(word, limit, s, atoms[0]), atoms[1..])
  }

  /** The steps of the atomic queue. */
  datatype Op = Reserve(size: nat) | LatchOp | PopOp | ReleaseOp(reader: nat)

  function Apply(limit: nat, c: Coarse, op: Op): Coarse {
    match op
    case Reserve(n) => ReserveAndSend(limit, c, n)
    case LatchOp => c.(overflowed := true)
    case PopOp => if c.queue == [] then c else c.(queue := c.queue[1..], popped := c.popped + [c.queue[0]])
    case ReleaseOp(i) =>
      if i < |c.popped| && c.popped[i] <= c.buffered
      then c.(buffered := c.buffered - c.popped[i], popped := Without(c.popped, i))
      else c
  }

  function ApplyAll(limit: nat, c: Coarse, ops: seq<Op>): Coarse
    decreases |ops|
  {
    if ops == [] then c else ApplyAll(limit, Apply(limit, c, ops[0]), ops[1..])
  }

  /** The one atomic-queue step an atom stands for, if any: `reserve` takes effect at the load that
      decides it. */
  function OpsOf(s: Fine, a: Atom): seq<Op>
    requires CanTake(s, a)
  {
    match a
    case LoadOverflowed(n) => if s.overflowed then [Reserve(n)] else []
    case LoadBuffered => [Reserve(s.pump.size)]
    case Latch => [LatchOp]
    case Pop => [PopOp]
    case Release(i) => [ReleaseOp(i)]
    case _ => []
  }

  function RunOps(word: nat, limit: nat, s: Fine, atoms: seq<Atom>): seq<Op>
    requires CanRun(word, limit, s, atoms)
    decreases |atoms|
  {
    if atoms == [] then []
    else OpsOf(s, atoms[0]) + RunOps(word, limit, TakeAtom(word, limit, s, atoms[0]), atoms[1..])
  }

  /** Each atom is its step of the atomic queue: releases that land between the load and the
      `fetch_add` cannot invalidate the decision, because only this task adds. */
  lemma {:induction false} AtomRefines(word: nat, limit: nat, s: Fine, a: Atom)
    requires limit < word - 1 && CanTake(s, a) && FineInv(limit, s)
    ensures FineInv(limit, TakeAtom(word, limit, s, a))
    ensures Abstract(TakeAtom(word, limit, s, a)) == ApplyAll(limit, Abstract(s), OpsOf(s, a))
  {
    AtomAccounted(word, limit, s, a);
    match a
    case Pop => PopRefines(word, limit, s);
    case Release(i) => ReleaseRefines(word, limit, s, i);
    case _ => ReserveRefines(word, limit, s, a);
    hide TakeAtom, Abstract, ApplyAll, OpsOf;
  }

  lemma ApplyOne(limit: nat, c: Coarse, op: Op)
    ensures ApplyAll(limit, c, [op]) == Apply(limit, c, op) && ApplyAll(limit, c, []) == c
  {
    assert [op][1..] == [];
  }

  lemma PopRefines(word: nat, limit: nat, s: Fine)
    requires word > 0 && s.queue != []
    ensures Abstract(TakeAtom(word, limit, s, Pop)) == ApplyAll(limit, Abstract(s), [PopOp])
  {
    ApplyOne(limit, Abstract(s), PopOp);
    assert forall n: nat :: (s.queue + [n])[1..] == s.queue[1..] + [n];
  }

  lemma ReleaseRefines(word: nat, limit: nat, s: Fine, i: nat)
    requires limit < word - 1 && i < |s.popped| && FineInv(limit, s)
    ensures Abstract(TakeAtom(word, limit, s, Release(i))) == ApplyAll(limit, Abstract(s), [ReleaseOp(i)])
  {
    AtomAccounted(word, limit, s, Release(i));
    ApplyOne(limit, Abstract(s), ReleaseOp(i));
    hide WrappingSub, ApplyAll;
    assert s.popped[i] <= s.buffered;
  }

  /** The reserving task's own atoms. */
  lemma ReserveRefines(word: nat, limit: nat, s: Fine, a: Atom)
    requires limit < word - 1 && CanTake(s, a) && FineInv(limit, s) && !a.Pop? && !a.Release?
    ensures Abstract(TakeAtom(word, limit, s, a)) == ApplyAll(limit, Abstract(s), OpsOf(s, a))
  {
    AtomAccounted(word, limit, s, a);
    hide WrappingAdd;
    if OpsOf(s, a) != [] {
      ApplyOne(limit, Abstract(s), OpsOf(s, a)[0]);
      assert OpsOf(s, a) == [OpsOf(s, a)[0]];
    }
  }

  ghost predicate FineInv(limit: nat, s: Fine) {
    && Accounted(limit, s)
    && (!s.pump.Idle? ==> !s.overflowed)
  }

  lemma {:induction false} ApplyAllConcat(limit: nat, c: Coarse, a: seq<Op>, b: seq<Op>)
    ensures ApplyAll(limit, c, a + b) == ApplyAll(limit, ApplyAll(limit, c, a), b)
    decreases |a|
  {
    if a == [] {
      assert a + b == b;
    } else {
      assert (a + b)[0] == a[0] && (a + b)[1..] == a[1..] + b;
      ApplyAllConcat(limit, Apply(limit, c, a[0]), a[1..], b);
    }
  }

  /** For every interleaving of the one reserving task with any readers: the counter is exactly what is
      charged and within the bound, and the run is a run of whole `reserve` steps. */
  lemma {:induction false} RunRefines(word: nat, limit: nat, s: Fine, atoms: seq<Atom>)
    requires limit < word - 1 && FineInv(limit, s) && CanRun(word, limit, s, atoms)
    ensures FineInv(limit, Run(word, limit, s, atoms))
    ensures Abstract(Run(word, limit, s, atoms))
         == ApplyAll(limit, Abstract(s), RunOps(word, limit, s, atoms))
    decreases |atoms|
  {
    hide TakeAtom, CanTake, FineInv, Abstract, OpsOf;
    if atoms != [] {
      AtomRefines(word, limit, s, atoms[0]);
      var t := TakeAtom(word, limit, s, atoms[0]);
      RunRefines(word, limit, t, atoms[1..]);
      ApplyAllConcat(limit, Abstract(s), OpsOf(s, atoms[0]), RunOps(word, limit, t, atoms[1..]));
    }
  }
}
