/**
 * The single-producer single-consumer ring of a Channel: unsigned counters that wrap, a power-of-two number
 * of cells, and the four atomic steps of each side (src/transport/channel.cpp).
 */
module IndexRing {
  import opened Common
  import opened BitMath

  const WORD := 64

  /** Numbers of a `size_t`. */
  const WRAP: int := 0x1_0000_0000_0000_0000

  /** A counter holds a count without its multiples of 2^64. */
  function Wrapped(count: nat): nat {
    count % WRAP
  }

  /** Unsigned subtraction. */
  function Distance(tail: nat, head: nat): nat {
    (tail - head) % WRAP
  }

  /** `counter & (size - 1)` for a size of 2^exponent. */
  function Cell(counter: nat, exponent: nat): nat {
    Mask(counter, exponent)
  }

  // ----- Arithmetic ------------------------------------------------------------------------------

  lemma {:induction false} MaskDrops(rest: nat, times: nat, e: nat, t: nat)
    requires e <= t
    ensures Mask(rest + Pow2(t) * times, e) == Mask(rest, e)
    decreases e
  {
    if e == 0 {
    } else {
      Halved(rest, Pow2(t - 1) * times);
      assert Pow2(t) * times == 2 * (Pow2(t - 1) * times);
      MaskDrops(rest / 2, times, e - 1, t - 1);
    }
  }

  lemma Halved(rest: nat, x: nat)
    ensures (rest + 2 * x) % 2 == rest % 2 && (rest + 2 * x) / 2 == rest / 2 + x
  {
  }

  /** A wrapped counter names the same cell as the count. */
  lemma CellWraps(count: nat, e: nat)
    requires e <= WORD
    ensures Cell(Wrapped(count), e) == Cell(count, e)
  {
    Pow2Values();
    MaskDrops(Wrapped(count), count / WRAP, e, WORD);
  }

  /** Counts less than one turn apart name different cells. */
  lemma {:induction false} CellsDiffer(a: nat, b: nat, e: nat)
    requires a < b < a + Pow2(e)
    ensures Cell(a, e) != Cell(b, e)
    decreases e
  {
    if e > 0 && a % 2 == b % 2 {
      CellsDiffer(a / 2, b / 2, e - 1);
    }
  }

  lemma CellInside(count: nat, e: nat)
    ensures Cell(count, e) < Pow2(e)
  {
    MaskBound(count, e);
  }

  lemma WrapIs(count: nat, times: nat, rest: nat)
    requires count == WRAP * times + rest && rest < WRAP
    ensures Wrapped(count) == rest
  {
  }

  lemma DistanceIs(count: nat, more: nat)
    requires more < WRAP
    ensures Distance(Wrapped(count + more), Wrapped(count)) == more
  {
    var times, rest := count / WRAP, count % WRAP;
    if rest + more < WRAP {
      WrapIs(count + more, times, rest + more);
    } else {
      WrapIs(count + more, times + 1, rest + more - WRAP);
    }
  }

  lemma NextIs(count: nat)
    ensures Wrapped(Wrapped(count) + 1) == Wrapped(count + 1)
  {
    var times, rest := count / WRAP, count % WRAP;
    if rest + 1 < WRAP {
      WrapIs(count + 1, times, rest + 1);
    } else {
      WrapIs(count + 1, times + 1, 0);
    }
  }

  lemma SizeFits(e: nat)
    requires e <= 32
    ensures Pow2(e) < WRAP
  {
    Pow2Values();
    Pow2Monotone(e, 32);
  }

  // ----- Two threads, step by step ---------------------------------------------------------------

  /** Where the one thread that pushes is; `tail` and `value` are its own copies. */
  datatype Producer = Resting | LoadedTail(value: nat, tail: nat) | SawRoom(value: nat, tail: nat) | Stored(value: nat,
      tail: nat)

  /** Where the one thread that pops is. */
  datatype Consumer = Waiting | LoadedHead(head: nat) | SawValue(head: nat) | Fetched(value: nat, head: nat)

  /** `pushed` and `popped` record the values whose push or pop has taken effect. */
  datatype Ring = Ring(exponent: nat, cells: seq<nat>, head: nat, tail: nat, producer: Producer, consumer: Consumer,
                       pushed: seq<nat>, popped: seq<nat>)

  datatype Turn = Push(value: nat) | Produce | Consume

  function NewRing(exponent: nat): Ring {
    Ring(exponent, seq(Pow2(exponent), _ => 0), 0, 0, Resting, Waiting, [], [])
  }

  /** `Push` begins a push, `Produce` takes its next step. */
  function ProduceStep(r: Ring): Ring {
    match r.producer
    case Resting => r
    case LoadedTail(value, tail) =>
      if Distance(tail, r.head) == |r.cells| then r.(producer := Resting) else r.(producer := SawRoom(value, tail))
    case SawRoom(value, tail) =>
      var cell := Cell(tail, r.exponent);
      if cell >= |r.cells| then r else r.(cells := r.cells[cell := value], producer := Stored(value, tail))
    case Stored(value, tail) => r.(tail := Wrapped(tail + 1), producer := Resting, pushed := r.pushed + [value])
  }

  function ConsumeStep(r: Ring): Ring {
    match r.consumer
    case Waiting => r.(consumer := LoadedHead(r.head))
    case LoadedHead(head) => if head == r.tail then r.(consumer := Waiting) else r.(consumer := SawValue(head))
    case SawValue(head) =>
      var cell := Cell(head, r.exponent);
      if cell >= |r.cells| then r else r.(consumer := Fetched(r.cells[cell], head))
    case Fetched(value, head) => r.(head := Wrapped(head + 1), consumer := Waiting, popped := r.popped + [value])
  }

  function TakeTurn(r: Ring, t: Turn): Ring {
    match t
    case Push(value) => if r.producer.Resting? then r.(producer := LoadedTail(value, r.tail)) else r
    case Produce => ProduceStep(r)
    case Consume => ConsumeStep(r)
  }

  function Interleave(r: Ring, turns: seq<Turn>): Ring {
    if |turns| == 0 then r else TakeTurn(Interleave(r, turns[..|turns| - 1]), turns[|turns| - 1])
  }

  // ----- The queue it refines --------------------------------------------------------------------

  /** The values pushed and not popped, in order. */
  function Queue(r: Ring): seq<nat>
    requires |r.popped| <= |r.pushed|
  {
    r.pushed[|r.popped|..]
  }

  predicate CellsHold(r: Ring) {
    forall k :: |r.popped| <= k < |r.pushed| ==>
        Cell(k, r.exponent) < |r.cells| && r.cells[Cell(k, r.exponent)] == r.pushed[k]
  }

  predicate ProducerOk(r: Ring) {
    match r.producer
    case Resting => true
    case LoadedTail(_, tail) => tail == r.tail
    case SawRoom(_, tail) => tail == r.tail && |r.pushed| - |r.popped| < |r.cells|
    case Stored(value, tail) =>
      tail == r.tail && |r.pushed| - |r.popped| < |r.cells| && Cell(|r.pushed|, r.exponent) < |r.cells|
      && r.cells[Cell(|r.pushed|, r.exponent)] == value
  }

  predicate ConsumerOk(r: Ring) {
    match r.consumer
    case Waiting => true
    case LoadedHead(head) => head == r.head
    case SawValue(head) => head == r.head && |r.popped| < |r.pushed|
    case Fetched(value, head) => head == r.head && |r.popped| < |r.pushed| && value == r.pushed[|r.popped|]
  }

  predicate RingOk(r: Ring) {
    && r.exponent <= 32 && |r.cells| == Pow2(r.exponent)
    && |r.popped| <= |r.pushed| <= |r.popped| + |r.cells| && r.popped == r.pushed[..|r.popped|]
    && r.head == Wrapped(|r.popped|) && r.tail == Wrapped(|r.pushed|)
    && CellsHold(r) && ProducerOk(r) && ConsumerOk(r)
  }

  /** What the producer reads is the number of values in the queue, whatever the counters show. */
  lemma RoomIsRoom(r: Ring)
    requires RingOk(r)
    ensures Distance(r.tail, r.head) == |Queue(r)| && (r.head == r.tail <==> |Queue(r)| == 0)
  {
    hide CellsHold, ProducerOk, ConsumerOk, Wrapped, Distance;
    SizeFits(r.exponent);
    DistanceIs(|r.popped|, |r.pushed| - |r.popped|);
    DistanceIs(|r.popped|, 0);
  }

  lemma StoreKeeps(r: Ring)
    requires RingOk(r) && r.producer.SawRoom?
    ensures RingOk(ProduceStep(r))
  {
    hide Wrapped, Cell;
    var n := |r.pushed|;
    CellWraps(n, r.exponent);
    CellInside(n, r.exponent);
    var next := ProduceStep(r);
    forall k | |r.popped| <= k < n
      ensures Cell(k, r.exponent) < |next.cells| && next.cells[Cell(k, r.exponent)] == next.pushed[k]
    {
      CellsDiffer(k, n, r.exponent);
    }
  }

  lemma PublishKeeps(r: Ring)
    requires RingOk(r) && r.producer.Stored?
    ensures RingOk(ProduceStep(r)) && Queue(ProduceStep(r)) == Queue(r) + [r.producer.value]
  {
    hide Wrapped, Cell;
    NextIs(|r.pushed|);
    var next := ProduceStep(r);
    assert next.popped == next.pushed[..|next.popped|];
  }

  lemma LookKeeps(r: Ring)
    requires RingOk(r) && r.producer.LoadedTail?
    ensures RingOk(ProduceStep(r))
    ensures ProduceStep(r).producer.Resting? <==> |Queue(r)| == |r.cells|
  {
    hide Wrapped, Distance, Cell;
    RoomIsRoom(r);
  }

  lemma ConsumeKeeps(r: Ring)
    requires RingOk(r)
    ensures RingOk(ConsumeStep(r))
    ensures r.consumer.LoadedHead? ==> (ConsumeStep(r).consumer.Waiting? <==> |Queue(r)| == 0)
    ensures r.consumer.Fetched? ==> Queue(r) == [r.consumer.value] + Queue(ConsumeStep(r))
  {
    hide Wrapped, Cell, Distance;
    RoomIsRoom(r);
    if r.consumer.SawValue? {
      CellWraps(|r.popped|, r.exponent);
    } else if r.consumer.Fetched? {
      NextIs(|r.popped|);
      assert r.pushed[..|r.popped| + 1] == r.popped + [r.consumer.value];
    }
  }

  lemma TurnKeeps(r: Ring, t: Turn)
    requires RingOk(r)
    ensures RingOk(TakeTurn(r, t))
  {
    hide ProduceStep, ConsumeStep, Wrapped, Cell;
    match t
    case Push(_) =>
    case Produce =>
      match r.producer {
        case Resting => RestingStays(r);
        case LoadedTail(_, _) => LookKeeps(r);
        case SawRoom(_, _) => StoreKeeps(r);
        case Stored(_, _) => PublishKeeps(r);
      }
    case Consume => ConsumeKeeps(r);
  }

  lemma RestingStays(r: Ring)
    requires r.producer.Resting?
    ensures ProduceStep(r) == r
  {
  }

  lemma NewRingOk(exponent: nat)
    requires exponent <= 32
    ensures RingOk(NewRing(exponent))
  {
  }

  lemma {:induction false} InterleaveKeeps(exponent: nat, turns: seq<Turn>)
    requires exponent <= 32
    ensures RingOk(Interleave(NewRing(exponent), turns))
  {
    hide RingOk, TakeTurn;
    if |turns| == 0 {
      NewRingOk(exponent);
    } else {
      InterleaveKeeps(exponent, turns[..|turns| - 1]);
      TurnKeeps(Interleave(NewRing(exponent), turns[..|turns| - 1]), turns[|turns| - 1]);
    }
  }

  /**
   * The ring is a bounded queue however long it runs: in every interleaving the values popped are the values
   * pushed, in order, and never more than the cells hold are in between.
   */
  lemma PopsInOrder(exponent: nat, turns: seq<Turn>)
    requires exponent <= 32
    ensures var r := Interleave(NewRing(exponent), turns);
            |r.popped| <= |r.pushed| && r.popped == r.pushed[..|r.popped|] && |r.pushed| - |r.popped| <= Pow2(exponent)
  {
    hide CellsHold, ProducerOk, ConsumerOk, Interleave;
    InterleaveKeeps(exponent, turns);
    SameExponent(exponent, turns);
  }

  /** A push is refused exactly when the queue is full as it looks, a pop exactly when it is empty as it looks. */
  lemma RefusalsAreExact(exponent: nat, turns: seq<Turn>)
    requires exponent <= 32
    ensures var r := Interleave(NewRing(exponent), turns);
            && |r.popped| <= |r.pushed|
            && (r.producer.LoadedTail? ==> (TakeTurn(r, Produce).producer.Resting? <==> |Queue(r)| == Pow2(exponent)))
            && (r.consumer.LoadedHead? ==> (TakeTurn(r, Consume).consumer.Waiting? <==> |Queue(r)| == 0))
  {
    hide CellsHold, ProducerOk, ConsumerOk, Interleave, ProduceStep, ConsumeStep, RingOk;
    InterleaveKeeps(exponent, turns);
    var r := Interleave(NewRing(exponent), turns);
    OkShape(r);
    SameExponent(exponent, turns);
    ConsumeKeeps(r);
    if r.producer.LoadedTail? {
      LookKeeps(r);
    }
  }

  lemma OkShape(r: Ring)
    requires RingOk(r)
    ensures |r.popped| <= |r.pushed| && |r.cells| == Pow2(r.exponent)
  {
  }

  lemma {:induction false} SameExponent(exponent: nat, turns: seq<Turn>)
    ensures Interleave(NewRing(exponent), turns).exponent == exponent
  {
    if |turns| == 0 {
    } else {
      SameExponent(exponent, turns[..|turns| - 1]);
    }
  }

  // ----- The object ------------------------------------------------------------------------------

  class Indexes {
    const slots: array<nat>
    ghost const exponent: nat
    var head: nat
    var tail: nat
    ghost var popped: nat
    ghost var queue: seq<nat>

    /** The counters and cells show the queue. */
    ghost predicate Valid()
      reads this, slots
    {
      && exponent <= 32 && slots.Length == Pow2(exponent) && |queue| <= slots.Length
      && head == Wrapped(popped) && tail == Wrapped(popped + |queue|)
      && forall c :: popped <= c < popped + |queue| ==>
           Cell(c, exponent) < slots.Length && slots[Cell(c, exponent)] == queue[c - popped]
    }

    /** `init`: the least power of two that holds the capacity. */
    constructor (capacity: nat)
      requires capacity <= 0x8000_0000
      ensures Valid() && fresh(slots) && queue == []
      ensures capacity <= slots.Length && (slots.Length == 1 || slots.Length < 2 * capacity)
    {
      var size, e := 1, 0;
      Pow2Values();
      while size < capacity
        invariant size == Pow2(e) && e <= 31 && (size == 1 || size < 2 * capacity)
        decreases 2 * capacity - size
      {
        if e == 31 {
          assert false;
        }
        size := 2 * size;
        e := e + 1;
      }
      slots := new nat[size](_ => 0);
      exponent, head, tail, popped, queue := e, 0, 0, 0, [];
    }

    /** `counter & mask_`. */
    method CellOf(counter: nat) returns (cell: nat)
      requires Valid()
      ensures cell == Cell(counter, exponent) < slots.Length
    {
      CellInside(counter, exponent);
      MaskIsRemainder(counter, exponent);
      cell := counter % slots.Length;
    }

    method Push(value: nat) returns (ok: bool)
      requires Valid()
      modifies `tail, `queue, slots
      ensures Valid()
      ensures ok <==> |old(queue)| < slots.Length
      ensures queue == if ok then old(queue) + [value] else old(queue)
    {
      hide Wrapped, Distance, Cell;
      SizeFits(exponent);
      DistanceIs(popped, |queue|);
      NextIs(popped + |queue|);
      if Distance(tail, head) == slots.Length {
        return false;
      }
      CellWraps(popped + |queue|, exponent);
      forall c | popped <= c < popped + |queue|
        ensures Cell(c, exponent) != Cell(popped + |queue|, exponent)
      {
        CellsDiffer(c, popped + |queue|, exponent);
      }
      var cell := CellOf(tail);
      slots[cell] := value;
      tail := Wrapped(tail + 1);
      queue := queue + [value];
      return true;
    }

    method Pop() returns (value: Option<nat>)
      requires Valid()
      modifies `head, `popped, `queue
      ensures Valid()
      ensures value == if |old(queue)| == 0 then None else Some(old(queue)[0])
      ensures queue == if |old(queue)| == 0 then [] else old(queue)[1..]
    {
      hide Wrapped, Distance, Cell;
      SizeFits(exponent);
      DistanceIs(popped, |queue|);
      DistanceIs(popped, 0);
      NextIs(popped);
      if head == tail {
        return None;
      }
      CellWraps(popped, exponent);
      var cell := CellOf(head);
      assert cell == Cell(popped, exponent);
      value := Some(slots[cell]);
      head := Wrapped(head + 1);
      popped := popped + 1;
      queue := queue[1..];
    }

    method Empty() returns (empty: bool)
      requires Valid()
      ensures empty <==> queue == []
    {
      hide Wrapped, Distance, Cell;
      SizeFits(exponent);
      DistanceIs(popped, |queue|);
      DistanceIs(popped, 0);
      empty := head == tail;
    }
  }

  /** Masking by 2^e - 1 is the remainder by 2^e. */
  lemma MaskIsRemainder(n: nat, e: nat)
    ensures Mask(n, e) == n % Pow2(e)
  {
    hide Mask, Pow2;
    var size := Pow2(e);
    var q, r := n / size, n % size;
    assert n == size * q + r;
    MaskDrops(r, q, e, e);
    MaskBound(r, e);
  }
}
