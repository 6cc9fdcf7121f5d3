/**
 * The writing side of a bulk Channel: how a message is cut into transfers, and where every OUT slot is.
 * Each method is a step that may happen between any two others (src/transport/channel.cpp).
 */
module BulkWriter {
  import opened Common
  import opened IndexRing
  import BulkReader

  // ----- Messages --------------------------------------------------------------------------------

  datatype Framing = Framing(maxPacket: nat, transferPackets: nat, zeroLengthTermination: bool)

  predicate FramingOk(f: Framing) {
    f.maxPacket > 0 && f.transferPackets > 0
  }

  /** The most one transfer carries: a whole number of packets. */
  function Most(f: Framing): (bytes: nat)
    requires FramingOk(f)
    ensures bytes > 0
  {
    BulkReader.Times(1, f.transferPackets, f.maxPacket);
    f.transferPackets * f.maxPacket
  }

  /** A zero-length packet is due after a message of a nonzero whole number of packets. */
  predicate NeedsZeroLength(f: Framing, length: nat)
    requires FramingOk(f)
  {
    f.zeroLengthTermination && length != 0 && length % f.maxPacket == 0
  }

  function Chunks(f: Framing, data: seq<Byte>): seq<seq<Byte>>
    requires FramingOk(f)
    decreases |data|
  {
    if |data| == 0 then [] else if |data| <= Most(f) then [data] else [data[..Most(f)]] + Chunks(f, data[Most(f)..])
  }

  /** What is still to send: the rest of the data, and the zero-length packet if it is still due. */
  function Remaining(f: Framing, rest: seq<Byte>, zeroLength: bool): seq<seq<Byte>>
    requires FramingOk(f)
  {
    Chunks(f, rest) + if zeroLength then [[]] else []
  }

  /** The transfers of one message. */
  function Message(f: Framing, data: seq<Byte>): seq<seq<Byte>>
    requires FramingOk(f)
  {
    Remaining(f, data, NeedsZeroLength(f, |data|))
  }

  function Flatten(transfers: seq<seq<Byte>>): seq<Byte> {
    if |transfers| == 0 then [] else Flatten(transfers[..|transfers| - 1]) + transfers[|transfers| - 1]
  }

  /** A receiver sees the end of a message in a transfer that ends with a short packet (USB 2.0 section 5.8.3). */
  predicate EndsShort(f: Framing, transfer: seq<Byte>)
    requires FramingOk(f)
  {
    |transfer| == 0 || |transfer| % f.maxPacket != 0
  }

  lemma {:induction false} FlattenAppend(a: seq<seq<Byte>>, b: seq<seq<Byte>>)
    ensures Flatten(a + b) == Flatten(a) + Flatten(b)
  {
    if |b| == 0 {
      assert a + b == a;
    } else {
      FlattenAppend(a, b[..|b| - 1]);
      assert (a + b)[..|a + b| - 1] == a + b[..|b| - 1];
    }
  }

  lemma FlattenOne(transfer: seq<Byte>)
    ensures Flatten([transfer]) == transfer
  {
    assert [transfer][..0] == [];
  }

  lemma {:induction false} ChunksCarry(f: Framing, data: seq<Byte>)
    requires FramingOk(f)
    ensures Flatten(Chunks(f, data)) == data
    decreases |data|
  {
    if |data| > Most(f) {
      ChunksCarry(f, data[Most(f)..]);
      FlattenAppend([data[..Most(f)]], Chunks(f, data[Most(f)..]));
      FlattenOne(data[..Most(f)]);
    } else if |data| > 0 {
      FlattenOne(data);
    }
  }

  lemma WholeMost(f: Framing, n: nat)
    requires FramingOk(f)
    ensures Most(f) % f.maxPacket == 0 && (n + Most(f)) % f.maxPacket == n % f.maxPacket
  {
    Shifted(n, f.maxPacket, f.transferPackets);
    Shifted(0, f.maxPacket, f.transferPackets);
  }

  lemma {:induction false} Shifted(n: nat, m: nat, times: nat)
    requires m > 0
    ensures (n + times * m) % m == n % m
  {
    if times == 0 {
    } else {
      Shifted(n, m, times - 1);
      assert times * m == (times - 1) * m + m;
      OneTurn(n + (times - 1) * m, m);
    }
  }

  lemma OneTurn(x: nat, m: nat)
    requires m > 0
    ensures (x + m) % m == x % m
  {
    QuotientStep(x, m);
    assert x == m * (x / m) + x % m;
    assert x + m == m * ((x + m) / m) + (x + m) % m;
    assert m * (x / m + 1) == m * (x / m) + m;
  }

  /** Every chunk but the last is full; the last is as short as the data is beyond whole packets. */
  lemma {:induction false} ChunksShape(f: Framing, data: seq<Byte>)
    requires FramingOk(f)
    ensures var chunks := Chunks(f, data);
            && (|chunks| == 0 <==> |data| == 0)
            && (forall k :: 0 <= k < |chunks| ==> 0 < |chunks[k]| <= Most(f))
            && (forall k :: 0 <= k < |chunks| - 1 ==> |chunks[k]| == Most(f))
            && (|chunks| > 0 ==> |chunks[|chunks| - 1]| % f.maxPacket == |data| % f.maxPacket)
    decreases |data|
  {
    hide Most;
    if |data| > Most(f) {
      ChunksShape(f, data[Most(f)..]);
      WholeMost(f, |data| - Most(f));
    }
  }

  /** The transfers of a message carry its data, and nothing is empty but the closing packet. */
  lemma MessageCarries(f: Framing, data: seq<Byte>)
    requires FramingOk(f)
    ensures Flatten(Message(f, data)) == data
    ensures forall k :: 0 <= k < |Message(f, data)| ==>
              && |Message(f, data)[k]| <= Most(f)
              && (|Message(f, data)[k]| == 0 <==> k == |Message(f, data)| - 1 && NeedsZeroLength(f, |data|))
  {
    hide Chunks;
    ChunksCarry(f, data);
    ChunksShape(f, data);
    FlattenOne([]);
    FlattenAppend(Chunks(f, data), [[]]);
    FlattenAppend(Chunks(f, data), []);
    assert Chunks(f, data) + [] == Chunks(f, data);
  }

  /**
   * A message ends where the receiver sees it end: no transfer before the last is short, and the last one is,
   * exactly when termination is enabled or the data itself does not fill whole packets.
   */
  lemma MessageEndsOnce(f: Framing, data: seq<Byte>)
    requires FramingOk(f) && |data| > 0
    ensures var m := Message(f, data);
            && |m| > 0 && (forall k :: 0 <= k < |m| - 1 ==> !EndsShort(f, m[k]))
            && (EndsShort(f, m[|m| - 1]) <==> f.zeroLengthTermination || |data| % f.maxPacket != 0)
  {
    hide Chunks, Most;
    ChunksShape(f, data);
    WholeMost(f, 0);
    var chunks := Chunks(f, data);
    if NeedsZeroLength(f, |data|) {
      assert Message(f, data)[|chunks|] == [];
    } else {
      assert Message(f, data) == chunks;
    }
  }

  lemma NextChunk(f: Framing, rest: seq<Byte>, zeroLength: bool)
    requires FramingOk(f) && (|rest| > 0 || zeroLength)
    ensures var chunk := rest[..Min(Most(f), |rest|)];
            var next := rest[|chunk|..];
            Remaining(f, rest, zeroLength) == [chunk] + Remaining(f, next, if |chunk| == 0 then false else zeroLength)
  {
    if |rest| == 0 {
      assert Chunks(f, rest) == [] && rest[0..] == rest;
    } else if |rest| <= Most(f) {
      assert rest[..|rest|] == rest && rest[|rest|..] == [];
    }
  }

  // ----- Slots -----------------------------------------------------------------------------------

  /** Every slot number below n occurs exactly once. */
  ghost predicate Exactly(s: seq<nat>, n: nat) {
    forall i: nat :: multiset(s)[i] == if i < n then 1 else 0
  }

  lemma SameExactly(a: seq<nat>, b: seq<nat>, n: nat)
    requires multiset(a) == multiset(b) && Exactly(a, n)
    ensures Exactly(b, n)
  {
  }

  lemma ExactlyBounds(s: seq<nat>, n: nat)
    requires Exactly(s, n)
    ensures |s| <= n && forall k :: 0 <= k < |s| ==> s[k] < n
  {
    forall k | 0 <= k < |s|
      ensures s[k] < n
    {
      assert s[k] in multiset(s);
    }
    assert BulkReader.Once(s) by {
      forall i: nat
        ensures multiset(s)[i] <= 1
      {
        assert multiset(s)[i] == if i < n then 1 else 0;
      }
    }
    BulkReader.Pigeons(s, n);
  }

  function Optional(slot: Option<nat>): seq<nat> {
    if slot.Some? then [slot.value] else []
  }

  lemma NoneExactly()
    ensures Exactly([], 0)
  {
  }

  lemma OneMoreExactly(s: seq<nat>, n: nat)
    requires Exactly(s, n)
    ensures Exactly(s + [n], n + 1)
  {
    forall i: nat
      ensures multiset(s + [n])[i] == if i < n + 1 then 1 else 0
    {
      assert multiset(s)[i] == if i < n then 1 else 0;
      assert multiset(s + [n]) == multiset(s) + multiset{n};
    }
  }

  /** Every OUT slot is in the ring, spare, in flight, or held by the call that runs: in exactly one of them. */
  ghost predicate Placed(n: nat, free: seq<nat>, spare: Option<nat>, flying: seq<nat>, held: Option<nat>) {
    Exactly(free + Optional(spare) + flying + Optional(held), n)
  }

  lemma PlacedBounds(n: nat, free: seq<nat>, spare: Option<nat>, flying: seq<nat>, held: Option<nat>)
    requires Placed(n, free, spare, flying, held)
    ensures |free| + |flying| <= n && (spare.Some? ==> spare.value < n) && (|free| > 0 ==> free[0] < n)
  {
    hide Exactly;
    var all := free + Optional(spare) + flying + Optional(held);
    ExactlyBounds(all, n);
    if |free| > 0 {
      assert all[0] == free[0];
    }
    if spare.Some? {
      assert all[|free|] == spare.value;
    }
  }

  /** A transfer lands: its slot is free. */
  lemma PlacedFree(n: nat, free: seq<nat>, spare: Option<nat>, flying: seq<nat>, held: Option<nat>, k: nat)
    requires Placed(n, free, spare, flying, held) && k < |flying|
    ensures Placed(n, free + [flying[k]], spare, flying[..k] + flying[k + 1..], held)
  {
    hide Exactly, Optional;
    assert flying == flying[..k] + [flying[k]] + flying[k + 1..];
    SameExactly(free + Optional(spare) + flying + Optional(held),
                (free + [flying[k]]) + Optional(spare) + (flying[..k] + flying[k + 1..]) + Optional(held), n);
  }

  lemma PlacedSpare(n: nat, free: seq<nat>, flying: seq<nat>, slot: nat)
    ensures Placed(n, free, Some(slot), flying, None) <==> Placed(n, free, None, flying, Some(slot))
  {
    hide Exactly;
    var a, b := free + [slot] + flying + [], free + [] + flying + [slot];
    assert multiset(a) == multiset(b);
    if Exactly(a, n) {
      SameExactly(a, b, n);
    }
    if Exactly(b, n) {
      SameExactly(b, a, n);
    }
  }

  lemma PlacedTaken(n: nat, free: seq<nat>, flying: seq<nat>)
    requires Placed(n, free, None, flying, None) && |free| > 0
    ensures Placed(n, free[1..], None, flying, Some(free[0]))
  {
    hide Exactly;
    assert free == [free[0]] + free[1..];
    SameExactly(free + [] + flying + [], free[1..] + [] + flying + [free[0]], n);
  }

  lemma PlacedFlying(n: nat, free: seq<nat>, flying: seq<nat>, slot: nat)
    requires Placed(n, free, None, flying, Some(slot))
    ensures Placed(n, free, None, flying + [slot], None)
  {
    hide Exactly;
    assert free + [] + flying + [slot] == free + [] + (flying + [slot]) + [];
  }

  /** One OUT transfer ends: which of those in flight, and how. */
  datatype Ending = Ending(which: nat, result: ResultCode)

  /** A wait for a slot: transfers that end, and the event pump's answer. */
  datatype Wait = Wait(endings: seq<Ending>, pumped: ResultCode)

  /** A submit: transfers that end before it, and libusb's answer. When the list ends, nothing goes wrong any more. */
  datatype Try = Try(endings: seq<Ending>, answer: ResultCode)

  function TryAt(tries: seq<Try>, k: nat): Try {
    if k < |tries| then tries[k] else Try([], Ok)
  }

  class Writer {
    const framing: Framing
    const slotCount: nat
    const freeOut: Indexes
    var spare: Option<nat>
    var flying: seq<nat>
    var lost: bool
    var writeError: ResultCode
    ghost var wire: seq<seq<Byte>>

    ghost predicate RingOk()
      reads freeOut, freeOut.slots
    {
      freeOut.Valid() && slotCount <= freeOut.slots.Length
    }

    /** Every slot is free, the spare, in flight, or the one in the writer's hand. */
    ghost predicate Holds(held: Option<nat>)
      reads `spare, `flying, freeOut, freeOut.slots
    {
      FramingOk(framing) && RingOk() && Placed(slotCount, freeOut.queue, spare, flying, held)
    }

    ghost predicate Valid()
      reads `spare, `flying, freeOut, freeOut.slots
    {
      Holds(None)
    }

    /** A ring with room for every slot, and with every slot in it. */
    static method FullRing(slotCount: nat) returns (ring: Indexes)
      requires slotCount <= 0x8000_0000
      ensures fresh(ring) && fresh(ring.slots) && ring.Valid() && slotCount <= ring.slots.Length
      ensures Exactly(ring.queue, slotCount)
    {
      hide Exactly, Indexes.Valid;
      ring := new Indexes(slotCount);
      NoneExactly();
      var k := 0;
      while k < slotCount
        invariant k <= slotCount <= ring.slots.Length && ring.Valid() && |ring.queue| == k
        invariant Exactly(ring.queue, k)
        modifies ring, ring.slots
      {
        OneMoreExactly(ring.queue, k);
        var pushed := ring.Push(k);
        k := k + 1;
      }
    }

    constructor (framing: Framing, slotCount: nat)
      requires FramingOk(framing) && 0 < slotCount <= 0x8000_0000
      ensures Valid() && fresh(freeOut) && fresh(freeOut.slots) && this.framing == framing
              && this.slotCount == slotCount
      ensures wire == [] && !lost && spare.None?
    {
      hide Exactly, Indexes.Valid;
      var ring := FullRing(slotCount);
      freeOut := ring;
      this.framing, this.slotCount := framing, slotCount;
      spare, flying, lost, writeError, wire := None, [], false, Ok, [];
      new;
      assert freeOut.queue + Optional(None) + [] + Optional(None) == freeOut.queue;
    }

    /**
     * The callback of an OUT transfer: the first error is kept, a lost device shows, the slot is free again. The
     * push never fails.
     */
    method Callback(e: Ending, ghost held: Option<nat>)
      requires Holds(held) && e.which < |flying|
      modifies `flying, `lost, `writeError, freeOut, freeOut.slots
      ensures Holds(held) && freeOut.queue == old(freeOut.queue) + [old(flying)[e.which]]
      ensures writeError == (if old(writeError) == Ok then e.result else old(writeError))
    {
      hide Placed, Indexes.Valid;
      var slot := flying[e.which];
      PlacedBounds(slotCount, freeOut.queue, spare, flying, held);
      PlacedFree(slotCount, freeOut.queue, spare, flying, held, e.which);
      if e.result != Ok {
        if writeError == Ok {
          writeError := e.result;
        }
        if e.result == ErrNoDevice {
          lost := true;
        }
      }
      flying := flying[..e.which] + flying[e.which + 1..];
      var pushed := freeOut.Push(slot);
      assert pushed;
    }

    method Callbacks(endings: seq<Ending>, ghost held: Option<nat>)
      requires Holds(held)
      modifies `flying, `lost, `writeError, freeOut, freeOut.slots
      ensures Holds(held)
    {
      var k := 0;
      while k < |endings|
        invariant Holds(held)
      {
        if endings[k].which < |flying| {
          Callback(endings[k], held);
        }
        k := k + 1;
      }
    }

    /** The next free slot comes into the writer's hand, if there is one. */
    method PopFree() returns (popped: Option<nat>)
      requires Valid() && spare.None?
      modifies freeOut
      ensures popped.None? <==> old(freeOut.queue) == []
      ensures popped.None? ==> freeOut.queue == []
      ensures if popped.None? then Valid() else Holds(popped) && popped.value < slotCount
    {
      hide Placed, Indexes.Valid;
      PlacedBounds(slotCount, freeOut.queue, spare, flying, None);
      if |freeOut.queue| > 0 {
        PlacedTaken(slotCount, freeOut.queue, flying);
      }
      popped := freeOut.Pop();
    }

    /** The spare slot, or the next free one, waiting for it as long as there is time. */
    method Obtain(waits: seq<Wait>, from: nat) returns (result: ResultCode, slot: nat, next: nat)
      requires Valid() && from <= |waits|
      modifies `flying, `lost, `writeError, `spare, freeOut, freeOut.slots
      ensures from <= next <= |waits|
      ensures if result == Ok then Holds(Some(slot)) && spare.None? && slot < slotCount else Valid()
      ensures old(spare.Some? || freeOut.queue != []) ==> result == Ok && next == from
      ensures result != Ok ==>
                || (lost && result == ErrNoDevice)
                || (result == ErrTimeout && next == |waits| && spare.None? && freeOut.queue == [])
                || (from < next && result == waits[next - 1].pumped)
    {
      hide Placed, Indexes.Valid;
      slot, next := 0, from;
      if spare.Some? {
        PlacedBounds(slotCount, freeOut.queue, spare, flying, None);
        slot := spare.value;
        PlacedSpare(slotCount, freeOut.queue, flying, slot);
        spare := None;
        return Ok, slot, next;
      }
      var popped: Option<nat> := PopFree();
      while popped.None?
        invariant spare.None? && from <= next <= |waits|
        invariant if popped.None? then Valid() && freeOut.queue == [] else Holds(popped) && popped.value < slotCount
        invariant old(spare.Some? || freeOut.queue != []) ==> popped.Some? && next == from
        decreases |waits| - next, popped.None?
      {
        if lost {
          return ErrNoDevice, slot, next;
        }
        if next == |waits| {
          return ErrTimeout, slot, next;
        }
        Callbacks(waits[next].endings, None);
        var pumped := waits[next].pumped;
        next := next + 1;
        if pumped != Ok {
          return pumped, slot, next;
        }
        popped := PopFree();
      }
      return Ok, popped.value, next;
    }

    /** One transfer goes out, or its slot is kept as the spare. */
    method SubmitOut(slot: nat, chunk: seq<Byte>, answer: ResultCode) returns (result: ResultCode)
      requires Holds(Some(slot)) && spare.None?
      modifies `flying, `spare, `lost, `wire
      ensures Valid() && result == (if old(lost) then ErrNoDevice else answer)
      ensures wire == if result == Ok then old(wire) + [chunk] else old(wire)
      ensures result == Ok ==> flying == old(flying) + [slot] && spare.None?
      ensures result != Ok ==> spare == Some(slot) && flying == old(flying)
      ensures lost == (old(lost) || result == ErrNoDevice)
    {
      hide Placed, Indexes.Valid;
      result := if lost then ErrNoDevice else answer;
      if result != Ok {
        PlacedSpare(slotCount, freeOut.queue, flying, slot);
        spare := Some(slot);
        if result == ErrNoDevice {
          lost := true;
        }
        return;
      }
      PlacedFlying(slotCount, freeOut.queue, flying, slot);
      flying := flying + [slot];
      wire := wire + [chunk];
    }

    lemma Framed()
      requires Valid()
      ensures FramingOk(framing)
    {
      hide Placed, Indexes.Valid;
    }

    /** Why a write may stop early: a loss, the time, the event pump, or libusb. */
    ghost predicate Because(result: ResultCode, waits: seq<Wait>, waited: nat, answer: ResultCode)
      reads `lost, `spare, freeOut
    {
      || (lost && result == ErrNoDevice)
      || (result == ErrTimeout && waited == |waits| && spare.None? && freeOut.queue == [])
      || (0 < waited <= |waits| && result == waits[waited - 1].pumped)
      || result == answer
    }

    /** One turn of a write: a slot, what happens meanwhile, and the transfer. */
    method SendNext(data: seq<Byte>, written: nat, waits: seq<Wait>, from: nat, attempt: Try)
      returns (result: ResultCode, chunk: seq<Byte>, next: nat)
      requires Valid() && written <= |data| && from <= |waits|
      modifies `flying, `spare, `lost, `writeError, `wire, freeOut, freeOut.slots
      ensures Valid() && from <= next <= |waits| && chunk == data[written..][..Min(Most(framing), |data| - written)]
      ensures wire == if result == Ok then old(wire) + [chunk] else old(wire)
      ensures result != Ok ==> Because(result, waits, next, attempt.answer)
      ensures old(spare.Some? || freeOut.queue != []) ==> next == from
    {
      hide Placed, Indexes.Valid, Writer.Valid, Most;
      Framed();
      chunk := data[written..][..Min(Most(framing), |data| - written)];
      var slot: nat;
      result, slot, next := Obtain(waits, from);
      if result != Ok {
        return;
      }
      Callbacks(attempt.endings, Some(slot));
      result := SubmitOut(slot, chunk, attempt.answer);
    }

    /**
     * `write`: on every return exactly the first `written` bytes have been submitted, in order and framed as
     * the beginning of the message; a success has sent the whole message. It stops early only on a loss, an earlier
     * error, a refusal, or when all the time was used and no slot was free.
     */
    method Write(data: seq<Byte>, waits: seq<Wait>, tries: seq<Try>)
      returns (result: ResultCode, written: nat, ghost waited: nat)
      requires Valid()
      modifies this, freeOut, freeOut.slots
      ensures Valid() && old(wire) <= wire && written <= |data| && waited <= |waits|
      ensures var sent := wire[|old(wire)|..];
              sent <= Message(framing, data) && Flatten(sent) == data[..written]
              && (result == Ok <==> sent == Message(framing, data) && old(writeError) == Ok && !old(lost))
              && (result != Ok && !old(lost) && old(writeError) == Ok ==>
                    Because(result, waits, waited, TryAt(tries, |sent|).answer))
      ensures old(lost) ==> result == ErrNoDevice && wire == old(wire)
      ensures !old(lost) && old(writeError) != Ok ==> result == old(writeError) && writeError == Ok && wire == old(wire)
    {
      hide Placed, Indexes.Valid, Writer.Valid, Writer.Holds, Progress, Message, Flatten, Most, NeedsZeroLength;
      Framed();
      written, waited := 0, 0;
      assert wire[|wire|..] == [];
      ProgressStart(framing, data);
      ProgressSaid(framing, data, 0, NeedsZeroLength(framing, |data|), []);
      if lost {
        return ErrNoDevice, written, waited;
      }
      var earlier := writeError;
      writeError := Ok;
      if earlier != Ok {
        return earlier, written, waited;
      }
      var zeroLengthPacket := NeedsZeroLength(framing, |data|);
      var k, submits := 0, 0;
      ghost var sent: seq<seq<Byte>> := [];
      while written < |data| || zeroLengthPacket
        invariant Valid() && written <= |data| && k == waited <= |waits| && submits == |sent|
        invariant wire == old(wire) + sent && wire[|old(wire)|..] == sent
        invariant Progress(framing, data, written, zeroLengthPacket, sent)
        decreases |data| - written, zeroLengthPacket
      {
        ProgressSaid(framing, data, written, zeroLengthPacket, sent);
        var submitted, chunk, next := SendNext(data, written, waits, k, TryAt(tries, submits));
        k, waited := next, next;
        if submitted != Ok {
          return submitted, written, waited;
        }
        ProgressStep(framing, data, written, zeroLengthPacket, sent);
        sent := sent + [chunk];
        submits := submits + 1;
        if |chunk| == 0 {
          zeroLengthPacket := false;
        }
        written := written + |chunk|;
      }
      ProgressSaid(framing, data, written, zeroLengthPacket, sent);
      return Ok, written, waited;
    }
  }

  /** The transfers sent carry the first `written` bytes, and what remains completes the message. */
  predicate Progress(f: Framing, data: seq<Byte>, written: nat, zeroLength: bool, sent: seq<seq<Byte>>)
    requires FramingOk(f) && written <= |data|
  {
    Flatten(sent) == data[..written] && sent + Remaining(f, data[written..], zeroLength) == Message(f, data)
  }

  lemma ProgressStart(f: Framing, data: seq<Byte>)
    requires FramingOk(f)
    ensures Progress(f, data, 0, NeedsZeroLength(f, |data|), [])
  {
    hide Remaining;
    assert data[0..] == data;
  }

  lemma ProgressStep(f: Framing, data: seq<Byte>, written: nat, zeroLength: bool, sent: seq<seq<Byte>>)
    requires FramingOk(f) && written <= |data| && Progress(f, data, written, zeroLength, sent)
             && (written < |data| || zeroLength)
    ensures var chunk := data[written..][..Min(Most(f), |data| - written)];
            && Progress(f, data, written + |chunk|, if |chunk| == 0 then false else zeroLength, sent + [chunk])
            && (|chunk| == 0 <==> written == |data|)
  {
    hide Remaining, Message, Most;
    var rest := data[written..];
    var chunk := rest[..Min(Most(f), |rest|)];
    NextChunk(f, rest, zeroLength);
    FlattenAppend(sent, [chunk]);
    FlattenOne(chunk);
    assert data[..written] + chunk == data[..written + |chunk|];
    assert rest[|chunk|..] == data[written + |chunk|..];
    var after := Remaining(f, rest[|chunk|..], if |chunk| == 0 then false else zeroLength);
    assert (sent + [chunk]) + after == sent + ([chunk] + after);
  }

  /** What has been sent is a prefix of the message, and all of it exactly when nothing is left to send. */
  lemma ProgressSaid(f: Framing, data: seq<Byte>, written: nat, zeroLength: bool, sent: seq<seq<Byte>>)
    requires FramingOk(f) && written <= |data| && Progress(f, data, written, zeroLength, sent)
    ensures sent <= Message(f, data) && Flatten(sent) == data[..written]
    ensures sent == Message(f, data) <==> written == |data| && !zeroLength
  {
    hide Message, Most;
  }
}
