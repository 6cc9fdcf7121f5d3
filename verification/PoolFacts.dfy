/** What every reachable pool satisfies: the free stack, the reservation counters, and the life of every acquisition. */
module PoolFacts {
  import opened Common
  import opened PoolModel

  // ----- Counting --------------------------------------------------------------------------------

  datatype Test = IsFree | IsCounted | Uses(token: nat) | Charges(token: nat) | Holds(acquisition: nat)

  predicate Passes(s: Slot, test: Test) {
    match test
    case IsFree => s.state.Free?
    case IsCounted => s.counted
    case Uses(token) => s.reservation == Some(token)
    case Charges(token) => s.counted && s.reservation == Some(token)
    case Holds(acquisition) => s.acquisition == Some(acquisition)
  }

  function One(b: bool): nat {
    if b then 1 else 0
  }

  function Count(slots: seq<Slot>, test: Test): nat {
    if |slots| == 0 then 0 else Count(slots[..|slots| - 1], test) + One(Passes(slots[|slots| - 1], test))
  }

  lemma {:induction false} CountUpdate(slots: seq<Slot>, i: nat, s: Slot, test: Test)
    requires i < |slots|
    ensures Count(slots[i := s], test) + One(Passes(slots[i], test)) == Count(slots, test) + One(Passes(s, test))
  {
    hide Passes;
    var n := |slots| - 1;
    if i < n {
      CountUpdate(slots[..n], i, s, test);
      assert slots[i := s][..n] == slots[..n][i := s];
    } else {
      assert slots[i := s][..n] == slots[..n];
    }
  }

  lemma {:induction false} CountWeaker(slots: seq<Slot>, a: Test, b: Test)
    requires forall s :: Passes(s, a) ==> Passes(s, b)
    ensures Count(slots, a) <= Count(slots, b)
  {
    hide Passes;
    if |slots| == 0 {
    } else {
      CountWeaker(slots[..|slots| - 1], a, b);
    }
  }

  lemma {:induction false} CountNone(slots: seq<Slot>, test: Test)
    requires forall i :: 0 <= i < |slots| ==> !Passes(slots[i], test)
    ensures Count(slots, test) == 0
  {
    hide Passes;
    if |slots| == 0 {
    } else {
      CountNone(slots[..|slots| - 1], test);
    }
  }

  lemma {:induction false} CountMember(slots: seq<Slot>, i: nat, test: Test)
    requires i < |slots| && Passes(slots[i], test)
    ensures Count(slots, test) > 0
  {
    hide Passes;
    if i < |slots| - 1 {
      CountMember(slots[..|slots| - 1], i, test);
    }
  }

  lemma {:induction false} CountDisjoint(slots: seq<Slot>, a: Test, b: Test)
    requires forall i :: 0 <= i < |slots| ==> !(Passes(slots[i], a) && Passes(slots[i], b))
    ensures Count(slots, a) + Count(slots, b) <= |slots|
  {
    hide Passes;
    if |slots| == 0 {
    } else {
      CountDisjoint(slots[..|slots| - 1], a, b);
    }
  }

  lemma {:induction false} CountAll(slots: seq<Slot>, test: Test)
    requires Count(slots, test) == |slots|
    ensures forall i :: 0 <= i < |slots| ==> Passes(slots[i], test)
  {
    hide Passes;
    if |slots| == 0 {
    } else {
      CountBound(slots[..|slots| - 1], test);
      CountAll(slots[..|slots| - 1], test);
    }
  }

  lemma {:induction false} CountBound(slots: seq<Slot>, test: Test)
    ensures Count(slots, test) <= |slots|
  {
    hide Passes;
    if |slots| == 0 {
    } else {
      CountBound(slots[..|slots| - 1], test);
    }
  }

  function SumCapacity(reservations: seq<Reservation>): nat {
    if |reservations| == 0 then 0
    else SumCapacity(reservations[..|reservations| - 1]) + reservations[|reservations| - 1].capacity
  }

  /** The places of every reservation that are not in use by its own. */
  function SumUnfilled(reservations: seq<Reservation>, slots: seq<Slot>): int {
    if |reservations| == 0 then 0
    else
      var last := reservations[|reservations| - 1];
      SumUnfilled(reservations[..|reservations| - 1], slots) + last.capacity - Count(slots, Charges(last.token))
  }

  // ----- The invariant ---------------------------------------------------------------------------

  /** The free stack is exactly the free slots, without repeats. */
  predicate StackOk(p: Pool) {
    && (forall k :: 0 <= k < |p.freeStack| ==> p.freeStack[k] < |p.slots| && p.slots[p.freeStack[k]].state.Free?)
    && (forall j, k :: 0 <= j < k < |p.freeStack| ==> p.freeStack[j] != p.freeStack[k])
    && (forall i :: 0 <= i < |p.slots| && p.slots[i].state.Free? ==> i in p.freeStack)
    && |p.freeStack| == Count(p.slots, IsFree) && p.outstanding == |p.slots| - |p.freeStack|
  }

  predicate SlotOk(s: Slot) {
    && (s.state.Free? ==> s.acquisition.None? && s.reservation.None? && !s.counted)
    && (!s.state.Free? ==> s.acquisition.Some?)
    && (s.counted ==> s.reservation.Some?)
  }

  predicate SlotsOk(p: Pool) {
    forall i :: 0 <= i < |p.slots| ==> SlotOk(p.slots[i])
  }

  predicate ReservationOk(r: Reservation, slots: seq<Slot>) {
    r.hidId != 0 && r.inUse == Count(slots, Uses(r.token)) && Count(slots, Charges(r.token)) <= r.capacity
  }

  predicate ReservationsOk(p: Pool) {
    && (forall j :: 0 <= j < |p.reservations| ==>
        p.reservations[j].token < p.nextToken && ReservationOk(p.reservations[j], p.slots))
    && (forall j, k :: 0 <= j < k < |p.reservations| ==> p.reservations[j].token != p.reservations[k].token)
    && (forall i :: 0 <= i < |p.slots| && p.slots[i].reservation.Some? ==>
          IndexOf(p.reservations, p.slots[i].reservation.value) < |p.reservations|)
  }

  predicate TotalsOk(p: Pool) {
    && p.reservedTotal == SumCapacity(p.reservations) < |p.slots|
    && p.unfilled == SumUnfilled(p.reservations, p.slots)
    && p.unfilled + Count(p.slots, IsCounted) == p.reservedTotal
  }

  function OwedIds(owed: seq<Notice>): seq<nat> {
    seq(|owed|, k requires 0 <= k < |owed| => owed[k].acquisition)
  }

  /** How often an acquisition is held, owed a callback, called back, or abandoned. */
  function Lives(p: Pool, a: nat): nat {
    Count(p.slots, Holds(a)) + multiset(OwedIds(p.owed))[a] + multiset(p.fired)[a] + multiset(p.abandoned)[a]
  }

  /** Every acquisition is in exactly one place, and its slot went back exactly when it is not held any more. */
  ghost predicate LivesOk(p: Pool) {
    && p.callbacksActive == |p.owed| + p.ran
    && forall a: nat ::
         Lives(p, a) == One(a < p.nextAcquisition)
             && multiset(p.returned)[a] + Count(p.slots, Holds(a)) == One(a < p.nextAcquisition)
  }

  ghost predicate PoolOk(p: Pool) {
    StackOk(p) && SlotsOk(p) && ReservationsOk(p) && TotalsOk(p) && LivesOk(p)
  }

  // ----- Reservations, one at a time -------------------------------------------------------------

  lemma IndexIs(reservations: seq<Reservation>, j: nat)
    requires j < |reservations|
    requires forall i, k :: 0 <= i < k < |reservations| ==> reservations[i].token != reservations[k].token
    ensures IndexOf(reservations, reservations[j].token) == j
  {
  }

  lemma IndexExists(reservations: seq<Reservation>, token: nat)
    ensures IndexOf(reservations, token) < |reservations| <==>
            exists k :: 0 <= k < |reservations| && reservations[k].token == token
  {
  }

  /** The same tokens in the same places are found in the same places. */
  lemma IndexSame(a: seq<Reservation>, b: seq<Reservation>, token: nat)
    requires |a| == |b| && forall k :: 0 <= k < |a| ==> a[k].token == b[k].token
    ensures IndexOf(a, token) == IndexOf(b, token)
  {
  }

  lemma {:induction false} SumSame(a: seq<Reservation>, b: seq<Reservation>, slots: seq<Slot>)
    requires |a| == |b| && forall k :: 0 <= k < |a| ==> a[k].token == b[k].token && a[k].capacity == b[k].capacity
    ensures SumCapacity(a) == SumCapacity(b) && SumUnfilled(a, slots) == SumUnfilled(b, slots)
  {
    hide Count;
    if |a| == 0 {
    } else {
      SumSame(a[..|a| - 1], b[..|b| - 1], slots);
    }
  }

  /** A slot that changes charges nobody but its reservations of before and after. */
  lemma {:induction false} SumAfter(rs: seq<Reservation>, slots: seq<Slot>, i: nat, s: Slot)
    requires i < |slots| && forall j, k :: 0 <= j < k < |rs| ==> rs[j].token != rs[k].token
    ensures SumUnfilled(rs, slots[i := s])
            == SumUnfilled(rs, slots) + One(ChargesOne(slots[i], rs)) - One(ChargesOne(s, rs))
  {
    hide Count, Passes;
    if |rs| == 0 {
    } else {
      var init, last := rs[..|rs| - 1], rs[|rs| - 1];
      SumAfter(init, slots, i, s);
      CountUpdate(slots, i, s, Charges(last.token));
      ChargesLast(slots[i], rs);
      ChargesLast(s, rs);
    }
  }

  predicate ChargesOne(s: Slot, rs: seq<Reservation>) {
    s.counted && s.reservation.Some? && IndexOf(rs, s.reservation.value) < |rs|
  }

  lemma ChargesLast(s: Slot, rs: seq<Reservation>)
    requires |rs| > 0 && forall j, k :: 0 <= j < k < |rs| ==> rs[j].token != rs[k].token
    ensures One(ChargesOne(s, rs)) == One(ChargesOne(s, rs[..|rs| - 1])) + One(Passes(s, Charges(rs[|rs| - 1].token)))
  {
    if s.reservation.Some? {
      var token := s.reservation.value;
      assert IndexOf(rs[..|rs| - 1], token) < |rs| - 1 ==>
          rs[IndexOf(rs[..|rs| - 1], token)].token != rs[|rs| - 1].token;
    }
  }

  lemma {:induction false} SumRemove(rs: seq<Reservation>, j: nat, slots: seq<Slot>)
    requires j < |rs|
    ensures SumCapacity(rs[..j] + rs[j + 1..]) == SumCapacity(rs) - rs[j].capacity
    ensures SumUnfilled(rs[..j] + rs[j + 1..], slots) == SumUnfilled(rs, slots) - rs[j].capacity
            + Count(slots, Charges(rs[j].token))
  {
    hide Count;
    var n := |rs| - 1;
    if j == n {
      assert rs[..j] + rs[j + 1..] == rs[..n];
    } else {
      SumRemove(rs[..n], j, slots);
      var shorter := rs[..j] + rs[j + 1..];
      assert shorter[..n - 1] == rs[..n][..j] + rs[..n][j + 1..] && shorter[n - 1] == rs[n];
    }
  }

  lemma {:induction false} UnfilledNonNegative(rs: seq<Reservation>, slots: seq<Slot>)
    requires forall k :: 0 <= k < |rs| ==> ReservationOk(rs[k], slots)
    ensures SumUnfilled(rs, slots) >= 0
  {
    hide Count;
    if |rs| == 0 {
    } else {
      assert ReservationOk(rs[|rs| - 1], slots);
      UnfilledNonNegative(rs[..|rs| - 1], slots);
    }
  }
}
