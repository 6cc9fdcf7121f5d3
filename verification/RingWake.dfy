/**
 * The ring and the waiter of a Channel together: a thread sleeps until there is an index to pop or the Channel is
 * lost, and every atomic step of ring and waiter may come between any two others (src/transport/channel.cpp).
 */
module RingWake {
  import I = IndexRing
  import W = WakeUp

  /** Publisher 0 is the callback thread, which also pushes; the others can only mark the Channel lost. */
  datatype Half = Half(ring: I.Ring, lost: bool, room: W.Room)

  datatype Event =
    | BeginPush(value: nat)
    | ProduceNext
    | ConsumeNext
    | MarkLost(p: nat)
    | Notify(p: nat)
    | WaiterNext(k: nat)
    | Deadline(k: nat)

  function NewHalf(exponent: nat, sleepers: nat, publishers: nat): Half {
    Half(I.NewRing(exponent), false, W.NewRoom(sleepers, publishers))
  }

  /** The predicate a thread waits for: the ring is not empty, or the Channel is lost. */
  predicate Satisfied(c: Half) {
    |c.ring.popped| < |c.ring.pushed| || c.lost
  }

  predicate Resting(c: Half, p: nat) {
    p < |c.room.publishers| && c.room.publishers[p].Idle?
  }

  /** A callback notifies after each push, unless it has just marked the Channel lost, and then after the push. */
  function Produced(c: Half): Half {
    var next := I.ProduceStep(c.ring);
    if !c.ring.producer.Stored? then c.(ring := next)
    else if Resting(c, 0) then c.(ring := next, room := W.Moved(c.room, W.PublisherMoves(0)))
    else if c.lost then c.(ring := next)
    else c
  }

  function Consumed(c: Half): Half {
    var next := c.(ring := I.ConsumeStep(c.ring));
    if Satisfied(next) then next else next.(room := W.Moved(c.room, W.Taken))
  }

  function Step(c: Half, e: Event): Half {
    match e
    case BeginPush(value) => c.(ring := I.TakeTurn(c.ring, I.Push(value)))
    case ProduceNext => Produced(c)
    case ConsumeNext => Consumed(c)
    case MarkLost(p) => if Resting(c, p) then c.(lost := true, room := W.Moved(c.room, W.PublisherMoves(p))) else c
    case Notify(p) =>
      if p < |c.room.publishers| && !Resting(c, p) then c.(room := W.Moved(c.room, W.PublisherMoves(p))) else c
    case WaiterNext(k) => c.(room := W.Moved(c.room, W.SleeperMoves(k)))
    case Deadline(k) => c.(room := W.Moved(c.room, W.Timeout(k)))
  }

  function Run(c: Half, events: seq<Event>): Half {
    if |events| == 0 then c else Step(Run(c, events[..|events| - 1]), events[|events| - 1])
  }

  // ----- The invariant ---------------------------------------------------------------------------

  /** The waiter's predicate is the ring's content, at every step of either. */
  predicate HalfOk(c: Half) {
    I.RingOk(c.ring) && W.RoomOk(c.room) && c.room.ready == Satisfied(c)
  }

  /** Only the last step of a push or of a pop changes what is in the ring. */
  lemma ProducerChanges(r: I.Ring)
    ensures var n := I.ProduceStep(r);
            n.popped == r.popped && |n.pushed| == |r.pushed| + if r.producer.Stored? then 1 else 0
  {
    hide I.Cell, I.Wrapped, I.Distance;
  }

  lemma ConsumerChanges(r: I.Ring)
    ensures var n := I.ConsumeStep(r);
            n.pushed == r.pushed && |n.popped| == |r.popped| + if r.consumer.Fetched? then 1 else 0
  {
    hide I.Cell, I.Wrapped;
  }

  /** What each move does to the predicate. */
  lemma MoveReady(r: W.Room, m: W.Move)
    ensures W.Moved(r, m).ready
            == if m.Taken? then false
               else r.ready || (m.PublisherMoves? && m.k < |r.publishers| && r.publishers[m.k].Idle?)
  {
  }

  lemma RingShape(r: I.Ring)
    requires I.RingOk(r)
    ensures |r.popped| <= |r.pushed|
  {
    hide I.CellsHold, I.ProducerOk, I.ConsumerOk;
  }

  lemma ProducedKeeps(c: Half)
    requires HalfOk(c)
    ensures HalfOk(Produced(c))
  {
    hide I.RingOk, W.RoomOk, I.ProduceStep, W.Moved;
    I.TurnKeeps(c.ring, I.Produce);
    assert I.TakeTurn(c.ring, I.Produce) == I.ProduceStep(c.ring);
    ProducerChanges(c.ring);
    RingShape(c.ring);
    W.MoveKeeps(c.room, W.PublisherMoves(0));
    MoveReady(c.room, W.PublisherMoves(0));
  }

  lemma ConsumedKeeps(c: Half)
    requires HalfOk(c)
    ensures HalfOk(Consumed(c))
  {
    hide I.RingOk, W.RoomOk, I.ConsumeStep, W.Moved;
    I.ConsumeKeeps(c.ring);
    ConsumerChanges(c.ring);
    W.MoveKeeps(c.room, W.Taken);
    MoveReady(c.room, W.Taken);
  }

  lemma RoomKeeps(c: Half, m: W.Move, lost: bool)
    requires HalfOk(c) && !m.Taken?
    requires m.PublisherMoves? && Resting(c, m.k) ==> lost
    requires lost ==> c.lost || (m.PublisherMoves? && Resting(c, m.k))
    requires c.lost ==> lost
    ensures HalfOk(c.(lost := lost, room := W.Moved(c.room, m)))
  {
    hide I.RingOk, W.RoomOk, W.Moved;
    W.MoveKeeps(c.room, m);
    MoveReady(c.room, m);
  }

  lemma StepKeeps(c: Half, e: Event)
    requires HalfOk(c)
    ensures HalfOk(Step(c, e))
  {
    hide HalfOk, W.Moved, Produced, Consumed;
    match e
    case BeginPush(value) => PushKeeps(c, value);
    case ProduceNext => ProducedKeeps(c);
    case ConsumeNext => ConsumedKeeps(c);
    case MarkLost(p) =>
      if Resting(c, p) {
        RoomKeeps(c, W.PublisherMoves(p), true);
      }
    case Notify(p) =>
      if p < |c.room.publishers| && !Resting(c, p) {
        RoomKeeps(c, W.PublisherMoves(p), c.lost);
      }
    case WaiterNext(k) => RoomKeeps(c, W.SleeperMoves(k), c.lost);
    case Deadline(k) => RoomKeeps(c, W.Timeout(k), c.lost);
  }

  lemma PushKeeps(c: Half, value: nat)
    requires HalfOk(c)
    ensures HalfOk(Step(c, BeginPush(value)))
  {
    hide I.RingOk, W.RoomOk;
    I.TurnKeeps(c.ring, I.Push(value));
  }

  lemma {:induction false} RunKeeps(exponent: nat, sleepers: nat, publishers: nat, events: seq<Event>)
    requires exponent <= 32
    ensures HalfOk(Run(NewHalf(exponent, sleepers, publishers), events))
  {
    hide Step, I.RingOk, W.RoomOk;
    if |events| == 0 {
      I.NewRingOk(exponent);
      W.NewRoomOk(sleepers, publishers);
    } else {
      RunKeeps(exponent, sleepers, publishers, events[..|events| - 1]);
      StepKeeps(Run(NewHalf(exponent, sleepers, publishers), events[..|events| - 1]), events[|events| - 1]);
    }
  }

  /**
   * Nobody sleeps over data: in every interleaving of pushes, pops, losses, notifications and waits, step by
   * atomic step, while a thread sleeps although an index is in the ring or the Channel is lost, some publisher
   * has yet to notify and cannot miss it.
   */
  lemma NobodySleepsOverData(exponent: nat, sleepers: nat, publishers: nat, events: seq<Event>, k: nat)
    requires exponent <= 32
    requires var c := Run(NewHalf(exponent, sleepers, publishers), events);
             k < |c.room.sleepers| && c.room.sleepers[k].Asleep? && (c.lost || |c.ring.pushed| > |c.ring.popped|)
    ensures var c := Run(NewHalf(exponent, sleepers, publishers), events);
            c.room.waiters > 0 && exists p: nat :: W.WillRouse(c.room, p, k)
  {
    hide Run, I.RingOk, W.RoomOk, W.WillRouse;
    RunKeeps(exponent, sleepers, publishers, events);
    W.SleeperIsSeen(Run(NewHalf(exponent, sleepers, publishers), events).room, k);
  }
}
