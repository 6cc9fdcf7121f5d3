/**
 * The reading side of a bulk Channel. Each method is a step that may happen between any two others; what
 * `Valid` says therefore holds in every interleaving of the reader with the USB callbacks: no byte is lost, and
 * while the Channel streams no slot is (src/transport/channel.cpp).
 */
module BulkReader {
  import opened Common
  import opened IndexRing

  /** How an IN transfer ended, and the bytes it brought. */
  datatype Landing = Landing(result: ResultCode, payload: seq<Byte>)

  /** A submitted IN transfer: its slot and the length asked for. */
  datatype Flight = Flight(slot: nat, length: nat)

  function SlotsOf(flights: seq<Flight>): (slots: seq<nat>)
    ensures |slots| == |flights|
  {
    seq(|flights|, k requires 0 <= k < |flights| => flights[k].slot)
  }

  /** What a landed transfer adds to the stream: only completed transfers carry data. */
  function BytesOf(l: Landing): seq<Byte> {
    if l.result == Ok then l.payload else []
  }

  /** The bytes of ready slots, in ring order. */
  function ReadyBytes(ready: seq<nat>, landings: seq<Landing>): seq<Byte> {
    if |ready| == 0 then []
    else
      (if ready[0] < |landings| then BytesOf(landings[ready[0]]) else []) + ReadyBytes(ready[1..], landings)
  }

  predicate Below(s: seq<nat>, n: nat) {
    forall k :: 0 <= k < |s| ==> s[k] < n
  }

  /** No number occurs twice. */
  ghost predicate Once(s: seq<nat>) {
    forall i: nat :: multiset(s)[i] <= 1
  }

  lemma FewerOnce(s: seq<nat>, i: nat, t: seq<nat>, n: nat)
    requires Once(s) && Below(s, n) && multiset(s) == multiset(t) + multiset{i}
    ensures Once(t) && Below(t, n) && i !in t
  {
    forall j: nat
      ensures multiset(t)[j] <= 1 && (j == i ==> multiset(t)[j] == 0)
    {
      assert multiset(s)[j] <= 1;
    }
    forall k | 0 <= k < |t|
      ensures t[k] < n
    {
      assert t[k] in multiset(t);
      assert t[k] in multiset(s);
      assert t[k] in s;
    }
    assert i !in multiset(t);
  }

  /** Numbers below n that occur once are at most n. */
  lemma {:induction false} Pigeons(s: seq<nat>, n: nat)
    requires Once(s) && Below(s, n)
    ensures |s| <= n
  {
    hide Once;
    if |s| == 0 {
    } else {
      assert s[0] < n;
      if k :| 0 <= k < |s| && s[k] == n - 1 {
        var rest := s[..k] + s[k + 1..];
        assert s == s[..k] + [s[k]] + s[k + 1..];
        var last: nat := n - 1;
        assert multiset(s) == multiset(rest) + multiset{last};
        FewerOnce(s, last, rest, n);
        Pigeons(rest, n - 1);
      } else {
        Pigeons(s, n - 1);
      }
    }
  }

  /** As many numbers below n as there are, each once: all of them. */
  lemma {:induction false} NoneMissing(s: seq<nat>, n: nat)
    requires Once(s) && Below(s, n) && |s| == n
    ensures forall i :: 0 <= i < n ==> i in s
  {
    hide Once;
    if n == 0 {
    } else {
      var last: nat := n - 1;
      if last !in s {
        Pigeons(s, last);
        assert false;
      } else {
        var k :| 0 <= k < |s| && s[k] == last;
        var rest := s[..k] + s[k + 1..];
        assert s == s[..k] + [s[k]] + s[k + 1..];
        assert multiset(s) == multiset(rest) + multiset{last};
        FewerOnce(s, last, rest, n);
        BelowLast(rest, last);
        NoneMissing(rest, last);
        forall i | 0 <= i < n
          ensures i in s
        {
          if i != last {
            assert i in rest;
          }
        }
      }
    }
  }

  lemma BelowLast(s: seq<nat>, last: nat)
    requires Below(s, last + 1) && last !in s
    ensures Below(s, last)
  {
  }

  lemma {:induction false} ReadyAppend(ready: seq<nat>, i: nat, landings: seq<Landing>)
    requires i < |landings|
    ensures ReadyBytes(ready + [i], landings) == ReadyBytes(ready, landings) + BytesOf(landings[i])
  {
    hide BytesOf;
    if |ready| == 0 {
      assert (ready + [i])[1..] == [];
    } else {
      ReadyAppend(ready[1..], i, landings);
      assert (ready + [i])[1..] == ready[1..] + [i] && (ready + [i])[0] == ready[0];
      var first := if ready[0] < |landings| then BytesOf(landings[ready[0]]) else [];
      assert ReadyBytes(ready, landings) == first + ReadyBytes(ready[1..], landings);
      assert ReadyBytes(ready + [i], landings) == first + ReadyBytes(ready[1..] + [i], landings);
    }
  }

  /** A landing in a slot that is not ready changes nothing for the ready ones. */
  lemma {:induction false} ReadyElsewhere(ready: seq<nat>, landings: seq<Landing>, i: nat, l: Landing)
    requires i < |landings| && i !in ready
    ensures ReadyBytes(ready, landings[i := l]) == ReadyBytes(ready, landings)
  {
    if |ready| == 0 {
    } else {
      ReadyElsewhere(ready[1..], landings, i, l);
    }
  }

  /** Rounded up to whole packets. */
  function WholePackets(wanted: nat, maxPacket: nat): nat
    requires maxPacket > 0
  {
    CeilDiv(wanted, maxPacket) * maxPacket
  }

  lemma Times(a: nat, b: nat, m: nat)
    requires a <= b
    ensures a * m <= b * m
  {
  }

  /** The length of a request: whole packets, enough for the caller, and no more than a buffer holds. */
  lemma RequestLength(wanted: nat, transferPackets: nat, maxPacket: nat)
    requires maxPacket > 0 && 0 < wanted <= transferPackets * maxPacket
    ensures wanted <= WholePackets(wanted, maxPacket) <= transferPackets * maxPacket
  {
    hide CeilDiv;
    var n := CeilDiv(wanted, maxPacket);
    CeilingBound(wanted, maxPacket, n);
    CeilingBound(wanted, maxPacket, transferPackets);
    Times(n, transferPackets, maxPacket);
  }

  // ----- The state -------------------------------------------------------------------------------

  datatype Setup = Setup(slotCount: nat, ringSize: nat, maxPacket: nat, transferPackets: nat, requestReads: bool)

  predicate SetupOk(c: Setup) {
    0 < c.slotCount <= c.ringSize && c.maxPacket > 0 && c.transferPackets > 0 && (c.requestReads ==> c.slotCount == 1)
  }

  function TransferBytes(c: Setup): nat {
    c.transferPackets * c.maxPacket
  }

  /** `arrived` and `delivered` record the bytes of completed transfers, and those handed to the caller. */
  datatype Reading = Reading(landings: seq<Landing>, flights: seq<Flight>, ready: seq<nat>, current: Option<nat>,
                             offset: nat,
                             pending: bool, lost: bool, arrived: seq<Byte>, delivered: seq<Byte>)

  /** Every slot that is somewhere: in flight, in the ring, or being read. */
  function Places(r: Reading): seq<nat> {
    SlotsOf(r.flights) + r.ready + if r.current.Some? then [r.current.value] else []
  }

  /** The unread bytes of the slot being read. */
  function Rest(r: Reading): seq<Byte> {
    if r.current.Some? && r.current.value < |r.landings| && r.offset <= |r.landings[r.current.value].payload|
    then r.landings[r.current.value].payload[r.offset..] else []
  }

  ghost predicate PlacesOk(c: Setup, r: Reading) {
    |r.landings| == c.slotCount && Once(Places(r)) && Below(Places(r), c.slotCount)
  }

  /** A whole number of packets, at least one, that fits the buffer; a streaming Channel fills the buffer. */
  predicate LengthOk(c: Setup, length: nat)
    requires c.maxPacket > 0
  {
    && 0 < length <= TransferBytes(c) && length == WholePackets(length, c.maxPacket)
    && (!c.requestReads ==> length == TransferBytes(c))
  }

  predicate FlightsOk(c: Setup, r: Reading)
    requires c.maxPacket > 0
  {
    forall k :: 0 <= k < |r.flights| ==> LengthOk(c, r.flights[k].length)
  }

  predicate CurrentOk(r: Reading) {
    r.current.Some? ==>
      && r.current.value < |r.landings| && r.landings[r.current.value].result == Ok
      && r.offset < |r.landings[r.current.value].payload|
  }

  /** In request mode the one transfer is in flight or landed exactly while a request is pending. */
  predicate PendingOk(c: Setup, r: Reading) {
    if c.requestReads then r.pending <==> |r.flights| + |r.ready| > 0 else !r.pending
  }

  /** No byte that arrived is lost, repeated or out of order. */
  predicate StreamOk(r: Reading) {
    r.arrived == r.delivered + Rest(r) + ReadyBytes(r.ready, r.landings)
  }

  /** While a streaming Channel is not lost, every slot is somewhere. */
  predicate AllPlaced(c: Setup, r: Reading) {
    !c.requestReads && !r.lost ==> |Places(r)| == c.slotCount
  }

  /** The ring brings data before it brings an error. */
  predicate FirstData(ready: seq<nat>, landings: seq<Landing>) {
    && |ready| > 0 && ready[0] < |landings| && landings[ready[0]].result == Ok
    && (landings[ready[0]].payload != [] || FirstData(ready[1..], landings))
  }

  /** There is something to read. */
  predicate HasData(r: Reading) {
    r.current.Some? || FirstData(r.ready, r.landings)
  }

  ghost predicate ReadingOk(c: Setup, r: Reading) {
    SetupOk(c) && PlacesOk(c, r) && FlightsOk(c, r) && CurrentOk(r) && PendingOk(c, r) && StreamOk(r)
  }

  // ----- Steps -----------------------------------------------------------------------------------

  /** The callback of the oldest IN transfer: the slot goes into the ring, if the ring has room. */
  function Landed(c: Setup, r: Reading, l: Landing): Reading
    requires |r.flights| > 0
  {
    var i := r.flights[0].slot;
    if i >= |r.landings| then r
    else r.(landings := r.landings[i := l], flights := r.flights[1..], ready := if |r.ready| < c.ringSize then
            r.ready + [i] else r.ready,
            arrived := r.arrived + BytesOf(l))
  }

  function Sent(c: Setup, r: Reading, i: nat, length: nat): Reading {
    r.(flights := r.flights + [Flight(i, length)], pending := c.requestReads)
  }

  /** `count` bytes of the slot being read go to the caller; an empty slot is let go. */
  function Copied(r: Reading, count: nat): Reading
    requires CurrentOk(r) && r.current.Some? && count <= |Rest(r)|
  {
    r.(offset := r.offset + count, delivered := r.delivered + Rest(r)[..count], current := if count == |Rest(r)| then
       None else r.current)
  }

  /** The oldest ready slot leaves the ring; with data it becomes the slot being read. */
  function Popped(r: Reading): Reading
    requires |r.ready| > 0
  {
    var i := r.ready[0];
    if i < |r.landings| && BytesOf(r.landings[i]) != []
    then r.(ready := r.ready[1..], pending := false, current := Some(i), offset := 0)
    else r.(ready := r.ready[1..], pending := false)
  }

  /** An emptied slot of a streaming Channel goes out again, unless the Channel is lost; a refusal loses it. */
  function Resubmitted(c: Setup, r: Reading, i: nat, answer: ResultCode): Reading {
    if c.requestReads || r.lost then r
    else if answer != Ok then r.(lost := true)
    else Sent(c, r, i, TransferBytes(c))
  }

  /** What reading `count` bytes of the current slot leaves. */
  function AfterCopy(c: Setup, r: Reading, count: nat, answer: ResultCode): Reading
    requires CurrentOk(r) && r.current.Some? && count <= |Rest(r)|
  {
    if count == |Rest(r)| then Resubmitted(c, Copied(r, count), r.current.value, answer) else Copied(r, count)
  }

  /** What taking the oldest ready slot answers and leaves: a failed transfer loses the Channel. */
  function Taken(c: Setup, r: Reading, answer: ResultCode): (ResultCode, Reading)
    requires |r.ready| > 0 && r.ready[0] < |r.landings|
  {
    var i := r.ready[0];
    var landing := r.landings[i];
    if landing.result != Ok then (if r.lost then ErrNoDevice else landing.result, Popped(r).(lost := true))
    else (Ok, if landing.payload != [] then Popped(r) else Resubmitted(c, Popped(r), i, answer))
  }

  lemma LandedPlaces(c: Setup, r: Reading, l: Landing)
    requires SetupOk(c) && PlacesOk(c, r) && |r.flights| > 0
    ensures PlacesOk(c, Landed(c, r, l)) && |Places(Landed(c, r, l))| == |Places(r)|
    ensures multiset(Places(Landed(c, r, l))) == multiset(Places(r))
    ensures |r.ready| < c.ringSize && r.flights[0].slot < |r.landings|
    ensures r.flights[0].slot !in r.ready && r.current != Some(r.flights[0].slot)
  {
    hide BytesOf, Once, Below;
    var i := r.flights[0].slot;
    var rest, now := SlotsOf(r.flights[1..]), if r.current.Some? then [r.current.value] else [];
    assert SlotsOf(r.flights) == [i] + rest;
    assert Places(r) == [i] + rest + r.ready + now;
    Pigeons(Places(r), c.slotCount);
    FirstLeaves(i, rest, r.ready, now, c.slotCount);
    SameMembers(Places(r), rest + (r.ready + [i]) + now, c.slotCount);
    assert Places(Landed(c, r, l)) == rest + (r.ready + [i]) + now;
  }

  /** The first place goes to the end of the ring. */
  lemma FirstLeaves(i: nat, rest: seq<nat>, ready: seq<nat>, now: seq<nat>, n: nat)
    requires Once([i] + rest + ready + now) && Below([i] + rest + ready + now, n)
    ensures i < n && i !in ready && i !in now
    ensures multiset(rest + (ready + [i]) + now) == multiset([i] + rest + ready + now)
  {
    var all := [i] + rest + ready + now;
    assert all[0] == i;
    assert multiset(all)[i] == 1 + multiset(rest)[i] + multiset(ready)[i] + multiset(now)[i];
  }

  lemma SameMembers(a: seq<nat>, b: seq<nat>, n: nat)
    requires multiset(a) == multiset(b)
    ensures Once(a) ==> Once(b)
    ensures Below(a, n) ==> Below(b, n)
  {
    forall k | 0 <= k < |b|
      ensures Below(a, n) ==> b[k] < n
    {
      assert b[k] in multiset(b);
      assert b[k] in a;
    }
  }

  lemma LandedStream(c: Setup, r: Reading, l: Landing)
    requires SetupOk(c) && StreamOk(r) && CurrentOk(r) && |r.flights| > 0 && |r.ready| < c.ringSize
    requires var i := r.flights[0].slot; i < |r.landings| && i !in r.ready && r.current != Some(i)
    ensures var n := Landed(c, r, l); StreamOk(n) && CurrentOk(n)
  {
    hide ReadyBytes, BytesOf;
    var i := r.flights[0].slot;
    ReadyElsewhere(r.ready, r.landings, i, l);
    ReadyAppend(r.ready, i, r.landings[i := l]);
  }

  lemma LandedKeeps(c: Setup, r: Reading, l: Landing)
    requires ReadingOk(c, r) && |r.flights| > 0
    ensures ReadingOk(c, Landed(c, r, l)) && (AllPlaced(c, r) ==> AllPlaced(c, Landed(c, r, l)))
    ensures HasData(r) ==> HasData(Landed(c, r, l))
  {
    hide PlacesOk, StreamOk, CurrentOk, BytesOf, Places, FirstData;
    LandedPlaces(c, r, l);
    LandedStream(c, r, l);
    DataStays(r.ready, r.flights[0].slot, r.landings, l);
  }

  /** A landing at the end of the ring does not touch the data at its front. */
  lemma {:induction false} DataStays(ready: seq<nat>, i: nat, landings: seq<Landing>, l: Landing)
    requires i < |landings| && i !in ready
    ensures FirstData(ready, landings) ==> FirstData(ready + [i], landings[i := l])
  {
    if |ready| == 0 {
    } else {
      DataStays(ready[1..], i, landings, l);
      assert (ready + [i])[1..] == ready[1..] + [i];
    }
  }

  lemma SentPlaces(c: Setup, r: Reading, i: nat, length: nat)
    requires PlacesOk(c, r) && i < c.slotCount && i !in Places(r)
    ensures PlacesOk(c, Sent(c, r, i, length)) && |Places(Sent(c, r, i, length))| == |Places(r)| + 1
  {
    hide Once, Below;
    var n := Sent(c, r, i, length);
    var now := if r.current.Some? then [r.current.value] else [];
    assert SlotsOf(n.flights) == SlotsOf(r.flights) + [i];
    assert Places(n) == SlotsOf(r.flights) + [i] + r.ready + now;
    assert multiset(Places(n)) == multiset(Places(r) + [i]);
    AddedOnce(Places(r), i, c.slotCount);
    SameMembers(Places(r) + [i], Places(n), c.slotCount);
  }

  lemma SentKeeps(c: Setup, r: Reading, i: nat, length: nat)
    requires ReadingOk(c, r) && i < c.slotCount && i !in Places(r) && LengthOk(c, length)
    ensures ReadingOk(c, Sent(c, r, i, length)) && |Places(Sent(c, r, i, length))| == |Places(r)| + 1
  {
    hide ReadyBytes, LengthOk, PlacesOk, Places;
    SentPlaces(c, r, i, length);
  }

  /** An emptied slot goes out again: no slot is lost unless the Channel is. */
  lemma ResubmittedKeeps(c: Setup, r: Reading, i: nat, answer: ResultCode)
    requires ReadingOk(c, r) && i < c.slotCount && i !in Places(r)
    requires !c.requestReads && !r.lost ==> |Places(r)| + 1 == c.slotCount
    ensures var n := Resubmitted(c, r, i, answer); ReadingOk(c, n) && AllPlaced(c, n)
  {
    hide ReadingOk, Places, Sent;
    if !c.requestReads && !r.lost {
      if answer != Ok {
        LostKeeps(c, r);
      } else {
        assert SetupOk(c) by { SlotCount(c, r); }
        BufferLength(c);
        SentKeeps(c, r, i, TransferBytes(c));
      }
    }
  }

  lemma AddedOnce(s: seq<nat>, i: nat, n: nat)
    requires Once(s) && Below(s, n) && i !in s && i < n
    ensures Once(s + [i]) && Below(s + [i], n)
  {
    assert multiset(s + [i]) == multiset(s) + multiset{i};
    assert i !in multiset(s);
  }

  lemma CopiedPlaces(c: Setup, r: Reading, count: nat)
    requires PlacesOk(c, r) && CurrentOk(r) && r.current.Some? && count <= |Rest(r)|
    ensures PlacesOk(c, Copied(r, count))
    ensures count == |Rest(r)| ==> r.current.value !in Places(Copied(r, count))
    ensures |Places(r)| == |Places(Copied(r, count))| + if count == |Rest(r)| then 1 else 0
  {
    hide Once, Below;
    var n := Copied(r, count);
    if count == |Rest(r)| {
      assert Places(r) == Places(n) + [r.current.value];
      assert multiset(Places(r)) == multiset(Places(n)) + multiset{r.current.value};
      FewerOnce(Places(r), r.current.value, Places(n), c.slotCount);
    } else {
      assert Places(n) == Places(r);
    }
  }

  lemma CopiedRest(r: Reading, count: nat)
    requires CurrentOk(r) && r.current.Some? && count <= |Rest(r)|
    ensures Rest(Copied(r, count)) == Rest(r)[count..] && CurrentOk(Copied(r, count))
  {
  }

  lemma Regrouped(given: seq<Byte>, rest: seq<Byte>, count: nat, more: seq<Byte>)
    requires count <= |rest|
    ensures given + rest + more == given + rest[..count] + rest[count..] + more
  {
    assert rest == rest[..count] + rest[count..];
  }

  lemma CopiedKeeps(c: Setup, r: Reading, count: nat)
    requires ReadingOk(c, r) && r.current.Some? && count <= |Rest(r)|
    ensures ReadingOk(c, Copied(r, count))
    ensures count == |Rest(r)| ==> r.current.value !in Places(Copied(r, count))
    ensures |Places(r)| == |Places(Copied(r, count))| + if count == |Rest(r)| then 1 else 0
  {
    hide ReadyBytes, PlacesOk, Places, Rest, CurrentOk;
    CopiedPlaces(c, r, count);
    CopiedRest(r, count);
    Regrouped(r.delivered, Rest(r), count, ReadyBytes(r.ready, r.landings));
  }

  lemma AfterCopyKeeps(c: Setup, r: Reading, count: nat, answer: ResultCode)
    requires ReadingOk(c, r) && AllPlaced(c, r) && r.current.Some? && count <= |Rest(r)|
    ensures ReadingOk(c, AfterCopy(c, r, count, answer)) && AllPlaced(c, AfterCopy(c, r, count, answer))
  {
    hide ReadingOk, Places, Rest, CurrentOk, Resubmitted;
    CurrentShape(c, r);
    CopiedKeeps(c, r, count);
    if count == |Rest(r)| {
      ResubmittedKeeps(c, Copied(r, count), r.current.value, answer);
    }
  }

  lemma PoppedPlaces(c: Setup, r: Reading)
    requires PlacesOk(c, r) && |r.ready| > 0 && r.current.None?
    ensures PlacesOk(c, Popped(r)) && r.ready[0] < |r.landings| && |r.flights| + |r.ready| <= c.slotCount
    ensures Popped(r).current.None? ==> r.ready[0] !in Places(Popped(r))
    ensures |Places(r)| == |Places(Popped(r))| + if Popped(r).current.None? then 1 else 0
  {
    hide BytesOf, Once, Below;
    var n, i := Popped(r), r.ready[0];
    var flying := SlotsOf(r.flights);
    assert r.ready == [i] + r.ready[1..];
    assert Places(r) == flying + r.ready;
    Pigeons(Places(r), c.slotCount);
    assert multiset(Places(r)) == multiset(flying + r.ready[1..]) + multiset{i};
    FewerOnce(Places(r), i, flying + r.ready[1..], c.slotCount);
    FirstReady(Places(r), |r.flights|, i, c.slotCount);
    if n.current.Some? {
      assert Places(n) == flying + r.ready[1..] + [i];
      assert multiset(Places(n)) == multiset(Places(r));
      SameMembers(Places(r), Places(n), c.slotCount);
    } else {
      assert Places(n) == flying + r.ready[1..];
    }
  }

  lemma FirstReady(s: seq<nat>, k: nat, i: nat, n: nat)
    requires k < |s| && s[k] == i && Below(s, n)
    ensures i < n
  {
  }

  lemma PoppedStream(r: Reading)
    requires StreamOk(r) && |r.ready| > 0 && r.current.None? && r.ready[0] < |r.landings|
    ensures StreamOk(Popped(r)) && CurrentOk(Popped(r))
  {
    hide BytesOf;
    var i := r.ready[0];
    if BytesOf(r.landings[i]) != [] {
      FullPayload(r.landings[i]);
    }
  }

  lemma PoppedKeeps(c: Setup, r: Reading)
    requires ReadingOk(c, r) && |r.ready| > 0 && r.current.None?
    ensures ReadingOk(c, Popped(r))
    ensures Popped(r).current.None? ==> r.ready[0] !in Places(Popped(r))
    ensures |Places(r)| == |Places(Popped(r))| + if Popped(r).current.None? then 1 else 0
    ensures r.ready[0] < |r.landings|
  {
    hide BytesOf, PlacesOk, StreamOk, CurrentOk, Places;
    PoppedPlaces(c, r);
    PoppedStream(r);
  }

  /** Taking the oldest ready slot keeps every slot somewhere, and reaches the data that the ring brings first. */
  lemma TakenKeeps(c: Setup, r: Reading, answer: ResultCode)
    requires ReadingOk(c, r) && AllPlaced(c, r) && |r.ready| > 0 && r.current.None?
    ensures r.ready[0] < |r.landings|
    ensures var (result, n) := Taken(c, r, answer);
            ReadingOk(c, n) && AllPlaced(c, n) && (HasData(r) ==> result == Ok && HasData(n))
  {
    hide ReadingOk, Places, Resubmitted, ReadyBytes;
    PoppedKeeps(c, r);
    SlotCount(c, r);
    var i := r.ready[0];
    var landing := r.landings[i];
    if landing.result != Ok {
      LostKeeps(c, Popped(r));
    } else if landing.payload != [] {
      FullPayload(landing);
    } else {
      ResubmittedKeeps(c, Popped(r), i, answer);
      ResubmittedData(c, Popped(r), i, answer);
    }
  }

  lemma ResubmittedData(c: Setup, r: Reading, i: nat, answer: ResultCode)
    ensures HasData(Resubmitted(c, r, i, answer)) == HasData(r)
  {
  }

  lemma FullPayload(l: Landing)
    requires BytesOf(l) != []
    ensures l.result == Ok && |l.payload| > 0 && BytesOf(l) == l.payload == l.payload[0..]
  {
  }

  lemma LostKeeps(c: Setup, r: Reading)
    requires ReadingOk(c, r)
    ensures ReadingOk(c, r.(lost := true))
  {
    hide ReadyBytes;
    assert Places(r.(lost := true)) == Places(r);
  }

  /**
   * At every time the caller has a prefix of what arrived, and all the rest is still there: the unread tail of
   * the slot being read, then the ready slots in ring order. A transfer in flight never uses a slot that holds
   * bytes, and in request mode one slot at most is anywhere at all.
   */
  lemma OneStream(c: Setup, r: Reading)
    requires ReadingOk(c, r)
    ensures r.delivered <= r.arrived && r.arrived[|r.delivered|..] == Rest(r) + ReadyBytes(r.ready, r.landings)
    ensures forall f :: f in r.flights ==> f.slot !in r.ready && Some(f.slot) != r.current && LengthOk(c, f.length)
    ensures c.requestReads ==> |r.flights| + |r.ready| + (if r.current.Some? then 1 else 0) <= 1
    ensures |r.flights| <= c.slotCount
  {
    hide ReadyBytes, Rest;
    Pigeons(Places(r), c.slotCount);
    var elsewhere := r.ready + if r.current.Some? then [r.current.value] else [];
    assert Places(r) == SlotsOf(r.flights) + elsewhere;
    forall f | f in r.flights
      ensures f.slot !in elsewhere
    {
      var k :| 0 <= k < |r.flights| && r.flights[k] == f;
      Apart(SlotsOf(r.flights), elsewhere, SlotsOf(r.flights)[k]);
    }
  }

  /** While a streaming Channel is not lost, every slot is in exactly one place: in flight, ready, or being read. */
  lemma NoSlotIsLost(c: Setup, r: Reading, i: nat)
    requires ReadingOk(c, r) && AllPlaced(c, r) && !c.requestReads && !r.lost && i < c.slotCount
    ensures (if i in SlotsOf(r.flights) then 1 else 0) + (if i in r.ready then 1 else 0)
            + (if r.current == Some(i) then 1 else 0) == 1
    ensures multiset(Places(r))[i] == 1
  {
    hide ReadyBytes, Rest, LengthOk;
    NoneMissing(Places(r), c.slotCount);
    var now := if r.current.Some? then [r.current.value] else [];
    assert i in Places(r);
    assert multiset(Places(r))[i] <= 1;
    assert multiset(Places(r)) == multiset(SlotsOf(r.flights)) + multiset(r.ready) + multiset(now);
    assert i in SlotsOf(r.flights) <==> multiset(SlotsOf(r.flights))[i] > 0;
    assert i in r.ready <==> multiset(r.ready)[i] > 0;
    assert i in now <==> multiset(now)[i] > 0;
  }

  lemma Apart(a: seq<nat>, b: seq<nat>, i: nat)
    requires Once(a + b) && i in a
    ensures i !in b
  {
    assert multiset(a + b) == multiset(a) + multiset(b);
    assert multiset(a)[i] >= 1 && multiset(a + b)[i] <= 1;
    assert multiset(b)[i] == 0;
  }

  // ----- Lengths ---------------------------------------------------------------------------------

  lemma WholeIsWhole(packets: nat, maxPacket: nat)
    requires maxPacket > 0
    ensures WholePackets(packets * maxPacket, maxPacket) == packets * maxPacket
  {
    hide CeilDiv;
    CeilingBound(packets * maxPacket, maxPacket, packets);
    if packets > 0 {
      CeilingBound(packets * maxPacket, maxPacket, packets - 1);
      assert (packets - 1) * maxPacket == packets * maxPacket - maxPacket;
    }
  }

  lemma BufferLength(c: Setup)
    requires SetupOk(c)
    ensures LengthOk(c, TransferBytes(c))
  {
    hide WholePackets;
    WholeIsWhole(c.transferPackets, c.maxPacket);
    assert c.transferPackets * c.maxPacket > 0;
  }

  lemma RequestOk(c: Setup, capacity: nat)
    requires SetupOk(c) && c.requestReads && capacity > 0
    ensures TransferBytes(c) > 0
    ensures var length := WholePackets(Min(capacity, TransferBytes(c)), c.maxPacket);
            LengthOk(c, length) && length >= Min(capacity, TransferBytes(c))
  {
    hide CeilDiv;
    BufferLength(c);
    RequestLength(Min(capacity, TransferBytes(c)), c.transferPackets, c.maxPacket);
    WholeIsWhole(CeilDiv(Min(capacity, TransferBytes(c)), c.maxPacket), c.maxPacket);
  }

  // ----- The object ------------------------------------------------------------------------------

  /**
   * What happens around one look at the ring: landings before it and between its halves, whether something else loses
   * the Channel, and libusb's answer to a submit. When the list ends, nothing more happens.
   */
  datatype Look = Look(before: seq<Landing>, losing: bool, between: seq<Landing>, answer: ResultCode)

  const QUIET := Look([], false, [], Ok)

  function LookAt(looks: seq<Look>, k: nat): Look {
    if k < |looks| then looks[k] else QUIET
  }

  class Reader {
    const setup: Setup
    const readyIn: Indexes
    var landings: seq<Landing>
    var flights: seq<Flight>
    var current: Option<nat>
    var offset: nat
    var requestPending: bool
    var lost: bool
    ghost var arrived: seq<Byte>
    ghost var delivered: seq<Byte>

    ghost function Value(): Reading
      reads this, readyIn
    {
      Reading(landings, flights, readyIn.queue, current, offset, requestPending, lost, arrived, delivered)
    }

    ghost predicate RingOk()
      reads readyIn, readyIn.slots
    {
      readyIn.Valid() && readyIn.slots.Length == setup.ringSize
    }

    /** While the Channel is being opened, slots may still be nowhere. */
    ghost predicate Sound()
      reads this, readyIn, readyIn.slots
    {
      RingOk() && ReadingOk(setup, Value())
    }

    ghost predicate Valid()
      reads this, readyIn, readyIn.slots
    {
      Sound() && AllPlaced(setup, Value())
    }

    /** The ring gets room for every slot. */
    constructor (slotCount: nat, maxPacket: nat, transferPackets: nat, requestReads: bool)
      requires 0 < slotCount <= 0x8000_0000 && maxPacket > 0 && transferPackets > 0 && (requestReads ==> slotCount == 1)
      ensures Sound() && fresh(readyIn) && fresh(readyIn.slots) && arrived == [] && !lost
      ensures flights == [] && readyIn.queue == [] && current == None
      ensures setup == Setup(slotCount, readyIn.slots.Length, maxPacket, transferPackets, requestReads)
    {
      var ring := new Indexes(slotCount);
      readyIn := ring;
      setup := Setup(slotCount, ring.slots.Length, maxPacket, transferPackets, requestReads);
      landings, flights, current, offset := seq(slotCount, _ => Landing(Ok, [])), [], None, 0;
      requestPending, lost, arrived, delivered := false, false, [], [];
      new;
      assert Places(Value()) == [];
    }

    /** The callback of the oldest IN transfer, which libusb completes in submission order: its push never fails. */
    method Callback(l: Landing)
      requires Sound() && |flights| > 0
      modifies `landings, `flights, `arrived, readyIn, readyIn.slots
      ensures Sound() && Value() == Landed(setup, old(Value()), l)
      ensures old(Valid()) ==> Valid()
      ensures old(HasData(Value())) ==> HasData(Value())
      ensures multiset(Places(Value())) == old(multiset(Places(Value()))) && Rest(Value()) == old(Rest(Value()))
      ensures readyIn.queue == old(readyIn.queue) + [old(flights[0]).slot] && arrived == old(arrived) + BytesOf(l)
    {
      hide ReadyBytes, BytesOf, Once, Indexes.Valid, HasData, Places, AllPlaced;
      LandedPlaces(setup, Value(), l);
      LandedKeeps(setup, Value(), l);
      var i := flights[0].slot;
      landings := landings[i := l];
      arrived := arrived + BytesOf(l);
      flights := flights[1..];
      var pushed := readyIn.Push(i);
      assert pushed;
    }

    method Callbacks(landed: seq<Landing>)
      requires Sound()
      modifies `landings, `flights, `arrived, readyIn, readyIn.slots
      ensures Sound() && old(arrived) <= arrived && (old(Valid()) ==> Valid())
      ensures old(HasData(Value())) ==> HasData(Value())
      ensures multiset(Places(Value())) == old(multiset(Places(Value()))) && Rest(Value()) == old(Rest(Value()))
      ensures landed == [] ==> Value() == old(Value())
    {
      hide Indexes.Valid, ReadingOk, HasData, Places, Rest, AllPlaced, Landed;
      var k := 0;
      while k < |landed| && |flights| > 0
        invariant Sound() && old(arrived) <= arrived && (old(Valid()) ==> Valid())
        invariant old(HasData(Value())) ==> HasData(Value())
        invariant multiset(Places(Value())) == old(multiset(Places(Value()))) && Rest(Value()) == old(Rest(Value()))
        invariant |landed| == 0 ==> Value() == old(Value())
      {
        Callback(landed[k]);
        k := k + 1;
      }
    }

    /** `submit_in`: a lost Channel submits nothing, and a refusal loses it. */
    method SubmitIn(i: nat, length: nat, answer: ResultCode) returns (result: ResultCode)
      requires Sound() && i < setup.slotCount && i !in Places(Value()) && LengthOk(setup, length)
      modifies `flights, `lost, `requestPending
      ensures Sound() && result == if old(lost) then ErrNoDevice else answer
      ensures result == Ok ==> Value() == Sent(setup, old(Value()), i, length)
      ensures result != Ok ==> Value() == old(Value()).(lost := true)
    {
      hide Indexes.Valid, ReadingOk, Places, LengthOk;
      if lost {
        LostKeeps(setup, Value());
        return ErrNoDevice;
      }
      if answer != Ok {
        LostKeeps(setup, Value());
        lost := true;
        return answer;
      }
      SentKeeps(setup, Value(), i, length);
      flights := flights + [Flight(i, length)];
      requestPending := setup.requestReads;
      return Ok;
    }

    /** `lose`: the flag; the cancelled transfers then land one by one. */
    method Lose()
      requires Sound()
      modifies `lost
      ensures Valid() && Value() == old(Value()).(lost := true)
    {
      hide ReadingOk, Indexes.Valid;
      LostKeeps(setup, Value());
      lost := true;
    }

    /**
     * The submits of `Channel::open`: every slot of a streaming Channel goes out, and none of one that reads on
     * request. A refusal fails the open while nothing is in flight; later it loses the Channel, as reads will say.
     */
    method SubmitAll(looks: seq<Look>) returns (result: ResultCode)
      requires Sound() && flights == [] && readyIn.queue == [] && current == None && !lost
      modifies `landings, `flights, `arrived, `lost, `requestPending, readyIn, readyIn.slots
      ensures Valid()
      ensures setup.requestReads || (forall k :: 0 <= k < setup.slotCount ==> LookAt(looks, k).answer == Ok) ==>
                result == Ok && !lost
      ensures result != Ok ==> lost && flights == [] && exists k :: 0 <= k < |looks| && result == looks[k].answer
    {
      hide Indexes.Valid, ReadingOk, Places, LengthOk, TransferBytes;
      SlotCount(setup, Value());
      Nowhere(Value());
      if setup.requestReads {
        return Ok;
      }
      var i := 0;
      while i < setup.slotCount
        invariant i <= setup.slotCount && Sound() && !lost
        invariant |Places(Value())| == i && Below(Places(Value()), i)
      {
        ghost var placed := Places(Value());
        Callbacks(LookAt(looks, i).before);
        SameMembers(placed, Places(Value()), i);
        NotYet(placed, Places(Value()), i);
        BufferLength(setup);
        ghost var before := Value();
        var submitted := SubmitIn(i, TransferBytes(setup), LookAt(looks, i).answer);
        if submitted != Ok {
          return if |flights| == 0 then submitted else Ok;
        }
        SentPlaced(setup, before, i, TransferBytes(setup));
        i := i + 1;
      }
      return Ok;
    }

    /** `Channel::open`, from the slots on. */
    static method Open(slotCount: nat, maxPacket: nat, transferPackets: nat, requestReads: bool, looks: seq<Look>)
      returns (result: ResultCode, reader: Reader?)
      requires 0 < slotCount <= 0x8000_0000 && maxPacket > 0 && transferPackets > 0
      ensures result == Ok <==> reader != null
      ensures reader != null ==>
                && reader.Valid() && fresh(reader) && reader.delivered == []
                && reader.setup.requestReads == requestReads
                && reader.setup.slotCount == if requestReads then 1 else slotCount
      ensures requestReads || (forall k :: 0 <= k < slotCount ==> LookAt(looks, k).answer == Ok) ==>
                reader != null && !reader.lost
    {
      var slots := if requestReads then 1 else slotCount;
      reader := new Reader(slots, maxPacket, transferPackets, requestReads);
      result := reader.SubmitAll(looks);
      if result != Ok {
        reader := null;
      }
    }

    /** An emptied slot of a streaming Channel goes out again; whether that worked is for later reads to find out. */
    method GoAgain(i: nat, answer: ResultCode)
      requires Sound() && i < setup.slotCount && i !in Places(Value())
      modifies `flights, `lost, `requestPending
      ensures Sound() && Value() == Resubmitted(setup, old(Value()), i, answer)
    {
      hide Indexes.Valid, ReadingOk, Places, LengthOk, TransferBytes;
      SlotCount(setup, Value());
      if !setup.requestReads {
        BufferLength(setup);
        var submitted := SubmitIn(i, TransferBytes(setup), answer);
      }
    }

    /** Bytes of the slot being read; when it is empty its transfer goes out again. */
    method CopyCurrent(capacity: nat, answer: ResultCode) returns (bytes: seq<Byte>)
      requires Valid() && current.Some? && capacity > 0
      modifies `flights, `lost, `requestPending, `offset, `current, `delivered
      ensures Valid() && |bytes| == Min(capacity, |old(Rest(Value()))|) > 0 && bytes == old(Rest(Value()))[..|bytes|]
      ensures delivered == old(delivered) + bytes
      ensures CurrentOk(old(Value())) && Value() == AfterCopy(setup, old(Value()), |bytes|, answer)
    {
      hide Indexes.Valid, ReadingOk, ReadyBytes, PlacesOk, LengthOk, Places, TransferBytes, AllPlaced, Resubmitted;
      CurrentShape(setup, Value());
      var i := current.value;
      var available := |landings[i].payload| - offset;
      var copied := Min(available, capacity);
      bytes := landings[i].payload[offset..offset + copied];
      ghost var rest := Rest(Value());
      assert |rest| == available && bytes == rest[..copied];
      CopiedKeeps(setup, Value(), copied);
      AfterCopyKeeps(setup, Value(), copied, answer);
      offset := offset + copied;
      delivered := delivered + bytes;
      if copied == available {
        current := None;
        GoAgain(i, answer);
      }
    }

    /** The oldest ready slot is taken: data to read, nothing (its transfer goes out again), or an error. */
    method TakeReady(answer: ResultCode) returns (result: ResultCode)
      requires Valid() && current.None? && |readyIn.queue| > 0
      modifies `flights, `lost, `requestPending, `current, `offset, readyIn
      ensures old(readyIn.queue[0]) < |old(landings)| && (result, Value()) == Taken(setup, old(Value()), answer)
      ensures Valid() && (old(HasData(Value())) ==> result == Ok && HasData(Value()))
      ensures readyIn.queue == old(readyIn.queue)[1..] && (result != Ok ==> lost)
    {
      hide Indexes.Valid, ReadingOk, ReadyBytes, PlacesOk, LengthOk, Places, TransferBytes, AllPlaced, HasData,
           Resubmitted;
      TakenKeeps(setup, Value(), answer);
      PoppedKeeps(setup, Value());
      SlotCount(setup, Value());
      var popped := readyIn.Pop();
      var i := popped.value;
      requestPending := false;
      var landing := landings[i];
      if landing.result == Ok {
        if |landing.payload| > 0 {
          current, offset := Some(i), 0;
        } else {
          GoAgain(i, answer);
        }
        return Ok;
      }
      var alreadyLost := lost;
      if !alreadyLost {
        Lose();
      }
      return if alreadyLost then ErrNoDevice else landing.result;
    }

    /** Request mode: the one transfer goes out, sized for this read. */
    method Request(capacity: nat, answer: ResultCode) returns (result: ResultCode)
      requires Valid() && setup.requestReads && !requestPending && current.None? && capacity > 0
      modifies `flights, `lost, `requestPending
      ensures Valid() && result == if old(lost) then ErrNoDevice else answer
      ensures result == Ok ==>
                requestPending && |flights| == 1 && flights[0].length >= Min(capacity, TransferBytes(setup))
      ensures result != Ok ==> lost && !requestPending
    {
      hide Indexes.Valid, ReadyBytes, Once, LengthOk, WholePackets;
      RequestOk(setup, capacity);
      var wanted := Min(capacity, TransferBytes(setup));
      assert Places(Value()) == [];
      result := SubmitIn(0, WholePackets(wanted, setup.maxPacket), answer);
    }

    /** The first look of a round: data, or an error of a request that did not go out. */
    method TryCurrent(capacity: nat, look: Look) returns (result: ResultCode, bytes: seq<Byte>)
      requires Valid() && capacity > 0
      modifies this, readyIn, readyIn.slots
      ensures Valid() && delivered == old(delivered) + bytes && old(arrived) <= arrived
      ensures bytes != [] ==> result == Ok && |bytes| <= capacity
      ensures bytes == [] ==> current.None? && (result != Ok ==> lost)
      ensures bytes == [] && look.before == [] ==> readyIn.queue == old(readyIn.queue)
      ensures bytes == [] && old(HasData(Value())) ==> result == Ok && HasData(Value())
      ensures old(current).Some? ==> |bytes| == Min(capacity, |old(Rest(Value()))|) > 0
    {
      hide Indexes.Valid, ReadingOk, HasData, Rest, Places, AllPlaced, AfterCopy;
      bytes := [];
      Callbacks(look.before);
      if look.losing {
        LostLeaves(Value());
        Lose();
      }
      if current.Some? {
        bytes := CopyCurrent(capacity, look.answer);
        return Ok, bytes;
      }
      if setup.requestReads && !requestPending {
        NothingRequested(setup, Value());
        result := Request(capacity, look.answer);
        return;
      }
      return Ok, bytes;
    }

    /**
     * `read`: `waits` are the answers of the waits that there is time for. What it returns is the next part of the
     * stream, at once when there is data; an error or a timeout returns nothing and loses nothing, and a timeout means
     * that every wait was used and nothing was ready in the end.
     */
    method Read(capacity: nat, looks: seq<Look>, waits: seq<ResultCode>)
      returns (result: ResultCode, bytes: seq<Byte>, ghost waited: nat)
      requires Valid()
      modifies this, readyIn, readyIn.slots
      ensures Valid() && delivered == old(delivered) + bytes && old(arrived) <= arrived
      ensures (result == Ok <==> bytes != []) && |bytes| <= capacity
      ensures capacity > 0 && old(HasData(Value())) ==> result == Ok && waited == 0
      ensures capacity > 0 && old(current).Some? ==> |bytes| == Min(capacity, |old(Rest(Value()))|)
      ensures capacity > 0 && result != Ok && !lost ==>
                || (waited < |waits| && result == waits[waited])
                || (result == ErrTimeout && waited == |waits| && readyIn.queue == [] && current.None?)
    {
      hide Indexes.Valid, ReadingOk, HasData, Rest, Places, AllPlaced, Taken;
      bytes, waited := [], 0;
      if capacity == 0 {
        return ErrParam, bytes, waited;
      }
      var k, left := 0, waits;
      while true
        invariant Valid() && delivered == old(delivered) && old(arrived) <= arrived && bytes == []
        invariant waited <= |waits| && left == waits[waited..]
        invariant old(HasData(Value())) ==> HasData(Value()) && waited == 0
        invariant old(current).Some? ==> current.Some? && Rest(Value()) == old(Rest(Value()))
        decreases if k < |looks| then |looks| - k else 0, |readyIn.queue| + |left|
      {
        var look := LookAt(looks, k);
        k := k + 1;
        result, bytes := TryCurrent(capacity, look);
        if bytes != [] || result != Ok {
          return;
        }
        Callbacks(look.between);
        NothingReady(Value());
        var empty := readyIn.Empty();
        if !empty {
          result := TakeReady(look.answer);
          if result != Ok {
            return;
          }
        } else if lost {
          return ErrNoDevice, bytes, waited;
        } else if |left| == 0 {
          return ErrTimeout, bytes, waited;
        } else if left[0] != Ok {
          return left[0], bytes, waited;
        } else {
          left := left[1..];
          waited := waited + 1;
        }
      }
    }
  }

  lemma NothingRequested(c: Setup, r: Reading)
    requires ReadingOk(c, r) && c.requestReads && !r.pending && r.current.None?
    ensures !HasData(r)
  {
  }

  lemma NothingReady(r: Reading)
    requires r.current.None?
    ensures r.ready == [] ==> !HasData(r)
  {
  }

  lemma LostLeaves(r: Reading)
    ensures HasData(r.(lost := true)) == HasData(r) && Rest(r.(lost := true)) == Rest(r)
  {
  }

  lemma Nowhere(r: Reading)
    requires r.flights == [] && r.ready == [] && r.current == None
    ensures Places(r) == []
  {
  }

  lemma NotYet(a: seq<nat>, b: seq<nat>, i: nat)
    requires multiset(a) == multiset(b) && Below(a, i)
    ensures |b| == |a| && i !in b
  {
    assert |multiset(a)| == |a| && |multiset(b)| == |b|;
    forall k | 0 <= k < |b|
      ensures b[k] != i
    {
      assert b[k] in multiset(b);
      assert b[k] in a;
    }
  }

  lemma SentPlaced(c: Setup, r: Reading, i: nat, length: nat)
    requires Below(Places(r), i)
    ensures |Places(Sent(c, r, i, length))| == |Places(r)| + 1 && Below(Places(Sent(c, r, i, length)), i + 1)
  {
    var n := Sent(c, r, i, length);
    var now := if r.current.Some? then [r.current.value] else [];
    assert Places(r) == SlotsOf(r.flights) + r.ready + now;
    assert SlotsOf(n.flights) == SlotsOf(r.flights) + [i];
    assert Places(n) == SlotsOf(r.flights) + [i] + r.ready + now;
    forall k | 0 <= k < |Places(n)|
      ensures Places(n)[k] < i + 1
    {
      if Places(n)[k] != i {
        assert Places(n)[k] in Places(r);
      }
    }
  }

  lemma CurrentShape(c: Setup, r: Reading)
    requires ReadingOk(c, r) && r.current.Some?
    ensures SetupOk(c) && CurrentOk(r) && r.current.value < |r.landings| == c.slotCount
    ensures Rest(r) == r.landings[r.current.value].payload[r.offset..]
  {
    hide Once, ReadyBytes;
  }

  lemma SlotCount(c: Setup, r: Reading)
    requires ReadingOk(c, r)
    ensures SetupOk(c) && |r.landings| == c.slotCount
  {
  }
}
