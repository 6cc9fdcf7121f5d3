/**
 * The Waiter of a Channel: threads that sleep until a predicate holds, and publishers that make it hold and
 * take the mutex only when somebody waits. Every step is one atomic access in the single total order of the
 * sequentially consistent accesses (src/transport/channel.cpp).
 */
module WakeUp {

  /**
   * A waiting thread: counted in `waiters_`, then holding the mutex, then decided to sleep because the
   * predicate was false, asleep (the mutex released), roused, and leaving.
   */
  datatype Sleeper = Outside | Counted | Checking | Unsatisfied | Asleep | Roused | Leaving

  /** A publishing thread: the predicate made true, the counter read as nonzero, the mutex held. */
  datatype Publisher = Idle | Published | Committed | Notifying

  datatype Owner = Nobody | SleeperHolds(k: nat) | PublisherHolds(k: nat)

  /** `ready` is the predicate: something to take, or the Channel lost. */
  datatype Room = Room(ready: bool, waiters: nat, owner: Owner, sleepers: seq<Sleeper>, publishers: seq<Publisher>)

  datatype Move = SleeperMoves(k: nat) | Timeout(k: nat) | PublisherMoves(k: nat) | Taken

  function NewRoom(sleepers: nat, publishers: nat): Room {
    Room(false, 0, Nobody, seq(sleepers, _ => Outside), seq(publishers, _ => Idle))
  }

  function Waking(s: Sleeper): Sleeper {
    if s.Asleep? then Roused else s
  }

  /** `notify_all`. */
  function RouseAll(sleepers: seq<Sleeper>): seq<Sleeper> {
    seq(|sleepers|, k requires 0 <= k < |sleepers| => Waking(sleepers[k]))
  }

  /** `wait_until`, one access at a time. */
  function SleeperStep(r: Room, k: nat): Room
    requires k < |r.sleepers|
  {
    match r.sleepers[k]
    case Outside => r.(waiters := r.waiters + 1, sleepers := r.sleepers[k := Counted])
    case Counted => if r.owner.Nobody? then r.(owner := SleeperHolds(k), sleepers := r.sleepers[k := Checking]) else r
    case Checking => r.(sleepers := r.sleepers[k := if r.ready then Leaving else Unsatisfied], owner := if r.ready then
                        Nobody else r.owner)
    case Unsatisfied => r.(owner := Nobody, sleepers := r.sleepers[k := Asleep])
    case Asleep => r
    case Roused => if r.owner.Nobody? then r.(owner := SleeperHolds(k), sleepers := r.sleepers[k := Checking]) else r
    case Leaving => r.(waiters := if r.waiters > 0 then r.waiters - 1 else 0, sleepers := r.sleepers[k := Outside])
  }

  /** A publisher stores, then runs `notify`. */
  function PublisherStep(r: Room, k: nat): Room
    requires k < |r.publishers|
  {
    match r.publishers[k]
    case Idle => r.(ready := true, publishers := r.publishers[k := Published])
    case Published => r.(publishers := r.publishers[k := if r.waiters != 0 then Committed else Idle])
    case Committed => if r.owner.Nobody? then r.(owner := PublisherHolds(k),
                                                 publishers := r.publishers[k := Notifying]) else r
    case Notifying => r.(owner := Nobody, publishers := r.publishers[k := Idle], sleepers := RouseAll(r.sleepers))
  }

  /** The deadline rouses a sleeper, and lets a checking thread leave with its predicate false. */
  function TimeoutStep(r: Room, k: nat): Room
    requires k < |r.sleepers|
  {
    if r.sleepers[k].Asleep? then r.(sleepers := r.sleepers[k := Roused])
    else if r.sleepers[k].Checking? then r.(sleepers := r.sleepers[k := Leaving], owner := Nobody)
    else r
  }

  /** `Taken` makes the predicate false again. */
  function Moved(r: Room, m: Move): Room {
    match m
    case SleeperMoves(k) => if k < |r.sleepers| then SleeperStep(r, k) else r
    case Timeout(k) => if k < |r.sleepers| then TimeoutStep(r, k) else r
    case PublisherMoves(k) => if k < |r.publishers| then PublisherStep(r, k) else r
    case Taken => r.(ready := false)
  }

  function MovedAll(r: Room, moves: seq<Move>): Room {
    if |moves| == 0 then r else Moved(MovedAll(r, moves[..|moves| - 1]), moves[|moves| - 1])
  }

  // ----- The invariant ---------------------------------------------------------------------------

  function Inside(sleepers: seq<Sleeper>): nat {
    if |sleepers| == 0 then 0
    else Inside(sleepers[..|sleepers| - 1]) + if sleepers[|sleepers| - 1].Outside? then 0 else 1
  }

  lemma {:induction false} InsideUpdate(sleepers: seq<Sleeper>, k: nat, s: Sleeper)
    requires k < |sleepers|
    ensures Inside(sleepers[k := s]) + (if sleepers[k].Outside? then 0 else 1) == Inside(sleepers) + if s.Outside? then
            0 else 1
  {
    var n := |sleepers| - 1;
    if k < n {
      InsideUpdate(sleepers[..n], k, s);
      assert sleepers[k := s][..n] == sleepers[..n][k := s];
    } else {
      assert sleepers[k := s][..n] == sleepers[..n];
    }
  }

  lemma {:induction false} InsideMember(sleepers: seq<Sleeper>, k: nat)
    requires k < |sleepers| && !sleepers[k].Outside?
    ensures Inside(sleepers) > 0
  {
    if k < |sleepers| - 1 {
      InsideMember(sleepers[..|sleepers| - 1], k);
    }
  }

  lemma {:induction false} InsideRoused(sleepers: seq<Sleeper>)
    ensures Inside(RouseAll(sleepers)) == Inside(sleepers)
  {
    if |sleepers| == 0 {
    } else {
      var n := |sleepers| - 1;
      InsideRoused(sleepers[..n]);
      assert RouseAll(sleepers)[..n] == RouseAll(sleepers[..n]);
    }
  }

  /** The mutex has one owner, and the owner knows. */
  predicate OwnerOk(r: Room) {
    && (forall k :: 0 <= k < |r.sleepers| ==> (r.sleepers[k].Checking? || r.sleepers[k].Unsatisfied? <==>
                                               r.owner == SleeperHolds(k)))
    && (forall k :: 0 <= k < |r.publishers| ==> (r.publishers[k].Notifying? <==> r.owner == PublisherHolds(k)))
  }

  /** Somebody has made the predicate true and is still going to look for sleepers, or to wake them. */
  predicate WillNotify(p: Publisher) {
    !p.Idle?
  }

  predicate SomeoneWillNotify(r: Room) {
    exists k :: 0 <= k < |r.publishers| && WillNotify(r.publishers[k])
  }

  predicate Unwarned(s: Sleeper) {
    s.Unsatisfied? || s.Asleep?
  }

  predicate RoomOk(r: Room) {
    && r.waiters == Inside(r.sleepers) && OwnerOk(r)
    && (r.ready && (exists k :: 0 <= k < |r.sleepers| && Unwarned(r.sleepers[k])) ==> SomeoneWillNotify(r))
  }

  lemma SleeperKeeps(r: Room, k: nat)
    requires RoomOk(r) && k < |r.sleepers|
    ensures RoomOk(SleeperStep(r, k))
  {
    hide Inside;
    var n := SleeperStep(r, k);
    InsideUpdate(r.sleepers, k, n.sleepers[k]);
    InsideUpdate(r.sleepers, k, r.sleepers[k]);
    assert r.sleepers[k := r.sleepers[k]] == r.sleepers;
    if !r.sleepers[k].Outside? {
      InsideMember(r.sleepers, k);
    }
    if n.ready && exists j :: 0 <= j < |n.sleepers| && Unwarned(n.sleepers[j]) {
      var j :| 0 <= j < |n.sleepers| && Unwarned(n.sleepers[j]);
      assert Unwarned(r.sleepers[j]);
    }
  }

  lemma PublisherKeeps(r: Room, k: nat)
    requires RoomOk(r) && k < |r.publishers|
    ensures RoomOk(PublisherStep(r, k))
  {
    hide Inside;
    var n := PublisherStep(r, k);
    match r.publishers[k]
    case Idle => assert WillNotify(n.publishers[k]);
    case Published =>
      if r.waiters == 0 {
        forall j | 0 <= j < |r.sleepers|
          ensures r.sleepers[j].Outside?
        {
          if !r.sleepers[j].Outside? {
            InsideMember(r.sleepers, j);
          }
        }
      } else {
        assert WillNotify(n.publishers[k]);
      }
    case Committed => assert WillNotify(n.publishers[k]);
    case Notifying =>
      InsideRoused(r.sleepers);
      forall j | 0 <= j < |n.sleepers|
        ensures !Unwarned(n.sleepers[j])
      {
        assert r.owner == PublisherHolds(k);
      }
  }

  lemma MoveKeeps(r: Room, m: Move)
    requires RoomOk(r)
    ensures RoomOk(Moved(r, m))
  {
    hide SleeperStep, PublisherStep, TimeoutStep;
    match m
    case SleeperMoves(k) =>
      if k < |r.sleepers| {
        SleeperKeeps(r, k);
      }
    case Timeout(k) =>
      if k < |r.sleepers| {
        TimeoutKeeps(r, k);
      }
    case PublisherMoves(k) =>
      if k < |r.publishers| {
        PublisherKeeps(r, k);
      }
    case Taken =>
  }

  lemma TimeoutKeeps(r: Room, k: nat)
    requires RoomOk(r) && k < |r.sleepers|
    ensures RoomOk(TimeoutStep(r, k))
  {
    hide Inside;
    var n := TimeoutStep(r, k);
    InsideUpdate(r.sleepers, k, n.sleepers[k]);
    InsideUpdate(r.sleepers, k, r.sleepers[k]);
    assert r.sleepers[k := r.sleepers[k]] == r.sleepers;
    if n.ready && exists j :: 0 <= j < |n.sleepers| && Unwarned(n.sleepers[j]) {
      var j :| 0 <= j < |n.sleepers| && Unwarned(n.sleepers[j]);
      assert Unwarned(r.sleepers[j]);
    }
  }

  lemma {:induction false} NobodyInside(count: nat)
    ensures Inside(seq(count, _ => Outside)) == 0
  {
    if count == 0 {
    } else {
      NobodyInside(count - 1);
      assert seq(count, _ => Outside)[..count - 1] == seq(count - 1, _ => Outside);
    }
  }

  lemma {:induction false} RunKeeps(sleepers: nat, publishers: nat, moves: seq<Move>)
    ensures RoomOk(MovedAll(NewRoom(sleepers, publishers), moves))
  {
    hide Moved, RoomOk;
    if |moves| == 0 {
      NewRoomOk(sleepers, publishers);
    } else {
      RunKeeps(sleepers, publishers, moves[..|moves| - 1]);
      MoveKeeps(MovedAll(NewRoom(sleepers, publishers), moves[..|moves| - 1]), moves[|moves| - 1]);
    }
  }

  lemma NewOwner(sleepers: nat, publishers: nat)
    ensures OwnerOk(NewRoom(sleepers, publishers))
  {
  }

  /** The publisher cannot miss the sleeper: it reads a nonzero count, and rouses everybody. */
  predicate WillRouse(r: Room, p: nat, k: nat) {
    && p < |r.publishers| && !r.publishers[p].Idle?
    && (r.publishers[p].Published? ==> Moved(r, PublisherMoves(p)).publishers[p].Committed?)
    && (r.publishers[p].Notifying? ==>
          k < |Moved(r, PublisherMoves(p)).sleepers| && Moved(r, PublisherMoves(p)).sleepers[k].Roused?)
  }

  lemma SleeperIsSeen(r: Room, k: nat)
    requires RoomOk(r) && k < |r.sleepers| && r.sleepers[k].Asleep? && r.ready
    ensures r.waiters > 0 && exists p: nat :: WillRouse(r, p, k)
  {
    hide Inside, OwnerOk;
    InsideMember(r.sleepers, k);
    assert Unwarned(r.sleepers[k]);
    var p :| 0 <= p < |r.publishers| && WillNotify(r.publishers[p]);
    assert WillRouse(r, p, k);
  }

  /**
   * No wake-up is lost: in every interleaving, while a thread sleeps although its predicate holds, some
   * publisher has yet to notify; and that publisher cannot miss the sleeper, who is counted.
   */
  lemma NoLostWakeUp(sleepers: nat, publishers: nat, moves: seq<Move>, k: nat)
    requires var r := MovedAll(NewRoom(sleepers, publishers), moves);
             k < |r.sleepers| && r.sleepers[k].Asleep? && r.ready
    ensures var r := MovedAll(NewRoom(sleepers, publishers), moves);
            r.waiters > 0 && exists p: nat :: WillRouse(r, p, k)
  {
    hide MovedAll, RoomOk, WillRouse;
    RunKeeps(sleepers, publishers, moves);
    SleeperIsSeen(MovedAll(NewRoom(sleepers, publishers), moves), k);
  }

  lemma NewRoomOk(sleepers: nat, publishers: nat)
    ensures RoomOk(NewRoom(sleepers, publishers))
  {
    hide Inside, OwnerOk;
    NobodyInside(sleepers);
    NewOwner(sleepers, publishers);
  }
}
