/**
 * Runs of the transfer pool: every interleaving of the critical sections keeps the free stack and the
 * reservation counters exact, calls every acquisition back at most once, and stays drained once it is.
 */
module PoolRun {
  import opened Common
  import opened PoolModel
  import opened PoolFacts

  // ----- A slot goes back ------------------------------------------------------------------------

  lemma PutBackSlots(p: Pool, i: nat)
    requires i < |p.slots|
    ensures var r, was := PutBack(p, i), p.slots[i];
            && r.slots == p.slots[i := r.slots[i]]
            && r.slots[i] == was.(state := Free, acquisition := None, reportId := 0, reportLength := 0,
                                  counted := false,
                                  reservation := None)
            && r.freeStack == p.freeStack + [i] && r.reservedTotal == p.reservedTotal && r.nextToken == p.nextToken
            && r.outstanding == (if p.outstanding > 0 then p.outstanding - 1 else p.outstanding)
            && r.nextAcquisition == p.nextAcquisition && r.fired == p.fired && r.abandoned == p.abandoned
               && r.owed == p.owed
            && r.ran == p.ran && r.callbacksActive == p.callbacksActive
            && r.returned == p.returned + (if was.acquisition.Some? then [was.acquisition.value] else [])
            && r.present == p.present && r.closing == p.closing && r.maximumReport == p.maximumReport
               && r.latched == p.latched
  {
    hide IndexOf;
  }

  lemma PutBackStack(p: Pool, i: nat)
    requires StackOk(p) && i < |p.slots| && !p.slots[i].state.Free?
    ensures StackOk(PutBack(p, i))
  {
    hide PutBack, Count;
    PutBackSlots(p, i);
    var r := PutBack(p, i);
    CountUpdate(p.slots, i, r.slots[i], IsFree);
    CountBound(p.slots, IsFree);
    NotAllFree(p, i);
    forall k | 0 <= k < |r.slots| && r.slots[k].state.Free?
      ensures k in r.freeStack
    {
      if k != i {
        assert p.slots[k].state.Free?;
      }
    }
  }

  lemma NotAllFree(p: Pool, i: nat)
    requires i < |p.slots| && !p.slots[i].state.Free?
    ensures Count(p.slots, IsFree) < |p.slots|
  {
    hide Count;
    CountBound(p.slots, IsFree);
    if Count(p.slots, IsFree) == |p.slots| {
      CountAll(p.slots, IsFree);
    }
  }

  lemma PutBackSlotsOk(p: Pool, i: nat)
    requires SlotsOk(p) && i < |p.slots|
    ensures SlotsOk(PutBack(p, i))
  {
    hide PutBack;
    PutBackSlots(p, i);
  }

  /** The slot's reservation is found, and in use. */
  lemma OwnReservation(p: Pool, i: nat)
    requires ReservationsOk(p) && i < |p.slots| && p.slots[i].reservation.Some?
    ensures var j := IndexOf(p.reservations, p.slots[i].reservation.value);
            && j < |p.reservations| && p.reservations[j].inUse > 0
            && PutBack(p, i).reservations == p.reservations[j :=
                                                            p.reservations[j].(inUse := p.reservations[j].inUse - 1)]
            && PutBack(p, i).unfilled == p.unfilled + One(p.slots[i].counted)
  {
    hide Count;
    var j := IndexOf(p.reservations, p.slots[i].reservation.value);
    assert ReservationOk(p.reservations[j], p.slots);
    CountMember(p.slots, i, Uses(p.reservations[j].token));
  }

  lemma NoReservation(p: Pool, i: nat)
    requires i < |p.slots| && p.slots[i].reservation.None?
    ensures PutBack(p, i).reservations == p.reservations && PutBack(p, i).unfilled == p.unfilled
  {
  }

  /** What a slot that lets go does to one reservation's counts. */
  lemma LetGo(slots: seq<Slot>, i: nat, s: Slot, token: nat)
    requires i < |slots| && s.reservation.None? && !s.counted
    ensures Count(slots[i := s], Uses(token)) == Count(slots, Uses(token)) - One(slots[i].reservation == Some(token))
    ensures Count(slots[i := s], Charges(token)) <= Count(slots, Charges(token))
  {
    hide Count;
    CountUpdate(slots, i, s, Uses(token));
    CountUpdate(slots, i, s, Charges(token));
  }

  lemma PutBackReservations(p: Pool, i: nat)
    requires ReservationsOk(p) && i < |p.slots|
    ensures ReservationsOk(PutBack(p, i))
  {
    hide PutBack, Count, IndexOf;
    PutBackSlots(p, i);
    var r := PutBack(p, i);
    if p.slots[i].reservation.Some? {
      OwnReservation(p, i);
    } else {
      NoReservation(p, i);
    }
    forall j | 0 <= j < |r.reservations|
      ensures r.reservations[j].token < r.nextToken && ReservationOk(r.reservations[j], r.slots)
    {
      assert ReservationOk(p.reservations[j], p.slots);
      LetGo(p.slots, i, r.slots[i], p.reservations[j].token);
      if p.slots[i].reservation == Some(p.reservations[j].token) {
        IndexIs(p.reservations, j);
      }
    }
    forall k | 0 <= k < |r.slots| && r.slots[k].reservation.Some?
      ensures IndexOf(r.reservations, r.slots[k].reservation.value) < |r.reservations|
    {
      IndexSame(p.reservations, r.reservations, r.slots[k].reservation.value);
    }
  }

  lemma PutBackTotals(p: Pool, i: nat)
    requires ReservationsOk(p) && SlotsOk(p) && TotalsOk(p) && i < |p.slots|
    ensures TotalsOk(PutBack(p, i))
  {
    hide PutBack, Count, IndexOf, SumCapacity, SumUnfilled, ReservationOk;
    PutBackSlots(p, i);
    var r := PutBack(p, i);
    assert SlotOk(p.slots[i]);
    if p.slots[i].reservation.Some? {
      OwnReservation(p, i);
    } else {
      NoReservation(p, i);
    }
    CountUpdate(p.slots, i, r.slots[i], IsCounted);
    SumAfter(p.reservations, p.slots, i, r.slots[i]);
    SumSame(p.reservations, r.reservations, r.slots);
  }

  // ----- Lives -----------------------------------------------------------------------------------

  lemma SlotHolds(slots: seq<Slot>, i: nat, s: Slot, a: nat)
    requires i < |slots|
    ensures Count(slots[i := s], Holds(a)) + One(slots[i].acquisition == Some(a)) == Count(slots, Holds(a))
            + One(s.acquisition == Some(a))
  {
    hide Count;
    CountUpdate(slots, i, s, Holds(a));
  }

  lemma OwedAppend(owed: seq<Notice>, n: Notice)
    ensures OwedIds(owed + [n]) == OwedIds(owed) + [n.acquisition]
  {
  }

  lemma OneMore(ids: seq<nat>, id: nat, a: nat)
    ensures multiset(ids + [id])[a] == multiset(ids)[a] + One(a == id)
  {
  }

  lemma LatchKeeps(p: Pool, result: ResultCode, native: int)
    ensures var r := Latch(p, result, native); r == p.(present := r.present, latched := r.latched)
  {
  }

  lemma FinishLives(p: Pool, i: nat, result: ResultCode, native: int)
    requires LivesOk(p) && i < |p.slots| && p.slots[i].acquisition.Some?
    ensures LivesOk(Finish(p, i, result, native))
  {
    hide PutBack, Count, OwedIds, Latch;
    var a0 := p.slots[i].acquisition.value;
    var n := Notice(a0, result, native);
    var noted := p.(owed := p.owed + [n], callbacksActive := p.callbacksActive + 1);
    LatchKeeps(noted, result, native);
    PutBackSlots(Latch(noted, result, native), i);
    OwedAppend(p.owed, n);
    var r := Finish(p, i, result, native);
    forall a: nat
      ensures Lives(r, a) == One(a < r.nextAcquisition)
      ensures multiset(r.returned)[a] + Count(r.slots, Holds(a)) == One(a < r.nextAcquisition)
    {
      assert Lives(p, a) == One(a < p.nextAcquisition);
      SlotHolds(p.slots, i, r.slots[i], a);
      OneMore(OwedIds(p.owed), a0, a);
      OneMore(p.returned, a0, a);
    }
  }

  lemma AbandonLives(p: Pool, i: nat)
    requires LivesOk(p) && i < |p.slots| && p.slots[i].state.Prepared? && p.slots[i].acquisition.Some?
    ensures LivesOk(Abandon(p, i))
  {
    hide PutBack, Count, OwedIds;
    PutBackSlots(p, i);
    var r := Abandon(p, i);
    forall a: nat
      ensures Lives(r, a) == One(a < r.nextAcquisition)
      ensures multiset(r.returned)[a] + Count(r.slots, Holds(a)) == One(a < r.nextAcquisition)
    {
      assert Lives(p, a) == One(a < p.nextAcquisition);
      SlotHolds(p.slots, i, r.slots[i], a);
    }
  }

  lemma DeliverLives(p: Pool, k: nat)
    requires LivesOk(p)
    ensures LivesOk(Deliver(p, k))
  {
    hide Count;
    if k < |p.owed| {
      var r := Deliver(p, k);
      var ids := OwedIds(p.owed);
      assert OwedIds(r.owed) == ids[..k] + ids[k + 1..];
      assert ids == ids[..k] + [ids[k]] + ids[k + 1..];
      forall a: nat
        ensures Lives(r, a) == One(a < r.nextAcquisition)
      {
        assert Lives(p, a) == One(a < p.nextAcquisition);
      }
    }
  }

  // ----- Finishing a slot ------------------------------------------------------------------------

  lemma FinishKeeps(p: Pool, i: nat, result: ResultCode, native: int)
    requires PoolOk(p) && i < |p.slots| && !p.slots[i].state.Free?
    ensures PoolOk(Finish(p, i, result, native))
  {
    hide PutBack, StackOk, ReservationsOk, TotalsOk, LivesOk;
    assert SlotOk(p.slots[i]);
    var n := Notice(p.slots[i].acquisition.value, result, native);
    var noted := Latch(p.(owed := p.owed + [n], callbacksActive := p.callbacksActive + 1), result, native);
    SameCounters(p, noted);
    PutBackStack(noted, i);
    PutBackSlotsOk(noted, i);
    PutBackReservations(noted, i);
    PutBackTotals(noted, i);
    FinishLives(p, i, result, native);
  }

  lemma SameCounters(p: Pool, r: Pool)
    requires r.slots == p.slots && r.freeStack == p.freeStack && r.reservations == p.reservations
             && r.outstanding == p.outstanding
    requires r.reservedTotal == p.reservedTotal && r.unfilled == p.unfilled && r.nextToken == p.nextToken
    ensures StackOk(p) ==> StackOk(r)
    ensures SlotsOk(p) ==> SlotsOk(r)
    ensures ReservationsOk(p) ==> ReservationsOk(r)
    ensures TotalsOk(p) ==> TotalsOk(r)
  {
    hide Count, IndexOf, SumCapacity, SumUnfilled;
  }

  lemma AbandonKeeps(p: Pool, i: nat)
    requires PoolOk(p)
    ensures PoolOk(Abandon(p, i))
  {
    hide PutBack, StackOk, ReservationsOk, TotalsOk, LivesOk;
    if i < |p.slots| && p.slots[i].state.Prepared? {
      assert SlotOk(p.slots[i]);
      PutBackStack(p, i);
      PutBackSlotsOk(p, i);
      PutBackReservations(p, i);
      PutBackTotals(p, i);
      SameCounters(PutBack(p, i), Abandon(p, i));
      AbandonLives(p, i);
    }
  }

  /** A slot in use changes its label only. */
  lemma RelabelKeeps(p: Pool, i: nat, s: Slot)
    requires PoolOk(p) && i < |p.slots| && !p.slots[i].state.Free? && !s.state.Free?
    requires s.acquisition == p.slots[i].acquisition && s.counted == p.slots[i].counted
             && s.reservation == p.slots[i].reservation
    ensures PoolOk(p.(slots := p.slots[i := s]))
  {
    hide Count, IndexOf, SumCapacity, SumUnfilled, OwedIds;
    var r := p.(slots := p.slots[i := s]);
    assert SlotOk(p.slots[i]);
    forall test
      ensures Count(r.slots, test) == Count(p.slots, test)
    {
      CountUpdate(p.slots, i, s, test);
    }
    forall j | 0 <= j < |p.reservations|
      ensures ReservationOk(r.reservations[j], r.slots)
    {
      assert ReservationOk(p.reservations[j], p.slots);
    }
    SumAfter(p.reservations, p.slots, i, s);
    forall a: nat
      ensures Lives(r, a) == One(a < r.nextAcquisition)
      ensures multiset(r.returned)[a] + Count(r.slots, Holds(a)) == One(a < r.nextAcquisition)
    {
      assert Lives(p, a) == One(a < p.nextAcquisition);
    }
  }

  lemma SubmitKeeps(p: Pool, i: nat, samePayload: bool, length: nat, reportId: nat, status: int, mapped: ResultCode)
    requires PoolOk(p)
    ensures PoolOk(Submit(p, i, samePayload, length, reportId, status, mapped).1)
  {
    hide PoolOk, Finish;
    if i < |p.slots| && p.slots[i].state.Prepared? {
      var named := p.(slots := p.slots[i := p.slots[i].(reportId := reportId)]);
      RelabelKeeps(p, i, named.slots[i]);
      if !samePayload || length != named.slots[i].reportLength || length == 0 || length > p.maximumReport
          || reportId > 255 {
        FinishKeeps(named, i, ErrParam, ERROR_INVALID_PARAM);
      } else if p.closing || !p.present {
        FinishKeeps(named, i, if p.present then ErrIo else ErrNoDevice, if p.closing then TRANSFER_CANCELLED
                    else ERROR_NO_DEVICE);
      } else {
        RelabelKeeps(named, i, named.slots[i].(state := Submitted));
        if status != 0 {
          FinishKeeps(named.(slots := named.slots[i := named.slots[i].(state := Submitted)]), i, mapped, status);
        }
      }
    }
  }

  // ----- Taking a slot ---------------------------------------------------------------------------

  predicate TakesTop(p: Pool, i: nat) {
    i < |p.slots| && |p.freeStack| > 0 && i == p.freeStack[|p.freeStack| - 1]
  }

  lemma TakeStack(p: Pool, i: nat, hidId: nat, token: Option<nat>, length: nat, filling: bool)
    requires StackOk(p) && TakesTop(p, i)
    ensures StackOk(Take(p, i, hidId, token, length, filling))
  {
    hide Count, IndexOf;
    var r := Take(p, i, hidId, token, length, filling);
    CountUpdate(p.slots, i, r.slots[i], IsFree);
    forall k | 0 <= k < |r.slots| && r.slots[k].state.Free?
      ensures k in r.freeStack
    {
      assert k in p.freeStack && k != i;
    }
  }

  /** What a taken slot does to one reservation's counts. */
  lemma TakeCounts(slots: seq<Slot>, i: nat, s: Slot, token: nat)
    requires i < |slots| && slots[i].reservation.None?
    ensures Count(slots[i := s], Uses(token)) == Count(slots, Uses(token)) + One(s.reservation == Some(token))
    ensures Count(slots[i := s], Charges(token)) == Count(slots, Charges(token))
            + One(s.counted && s.reservation == Some(token))
  {
    hide Count;
    CountUpdate(slots, i, s, Uses(token));
    CountUpdate(slots, i, s, Charges(token));
  }

  lemma ChargedIsUsed(slots: seq<Slot>, token: nat)
    ensures Count(slots, Charges(token)) <= Count(slots, Uses(token))
  {
    CountWeaker(slots, Charges(token), Uses(token));
  }

  /** Only an acquisition within its reservation's capacity is counted against it. */
  predicate FillsOwn(p: Pool, token: Option<nat>, filling: bool) {
    && (token.Some? ==> IndexOf(p.reservations, token.value) < |p.reservations|)
    && (filling ==> token.Some? && var r := p.reservations[IndexOf(p.reservations, token.value)]; r.inUse < r.capacity)
  }

  lemma TakeReservations(p: Pool, i: nat, hidId: nat, token: Option<nat>, length: nat, filling: bool)
    requires StackOk(p) && SlotsOk(p) && ReservationsOk(p) && TakesTop(p, i) && FillsOwn(p, token, filling)
    ensures ReservationsOk(Take(p, i, hidId, token, length, filling))
  {
    hide Count, IndexOf, StackOk;
    assert p.slots[i].reservation.None? by {
      TopIsFree(p, i);
    }
    var r := Take(p, i, hidId, token, length, filling);
    forall j | 0 <= j < |r.reservations|
      ensures r.reservations[j].token < r.nextToken && ReservationOk(r.reservations[j], r.slots)
    {
      assert ReservationOk(p.reservations[j], p.slots);
      TakeCounts(p.slots, i, r.slots[i], p.reservations[j].token);
      ChargedIsUsed(p.slots, p.reservations[j].token);
      IndexIs(p.reservations, j);
    }
    forall k | 0 <= k < |r.slots| && r.slots[k].reservation.Some?
      ensures IndexOf(r.reservations, r.slots[k].reservation.value) < |r.reservations|
    {
      IndexSame(p.reservations, r.reservations, r.slots[k].reservation.value);
    }
  }

  lemma TopIsFree(p: Pool, i: nat)
    requires StackOk(p) && SlotsOk(p) && TakesTop(p, i)
    ensures p.slots[i].state.Free? && p.slots[i].reservation.None? && !p.slots[i].counted
            && p.slots[i].acquisition.None?
  {
    hide Count;
    assert SlotOk(p.slots[i]);
  }

  lemma TakeTotals(p: Pool, i: nat, hidId: nat, token: Option<nat>, length: nat, filling: bool)
    requires StackOk(p) && SlotsOk(p) && ReservationsOk(p) && TotalsOk(p) && TakesTop(p, i)
             && FillsOwn(p, token, filling)
    ensures TotalsOk(Take(p, i, hidId, token, length, filling))
  {
    hide Count, IndexOf, SumCapacity, SumUnfilled, StackOk, SlotsOk, ReservationOk;
    TopIsFree(p, i);
    var r := Take(p, i, hidId, token, length, filling);
    CountUpdate(p.slots, i, r.slots[i], IsCounted);
    SumAfter(p.reservations, p.slots, i, r.slots[i]);
    SumSame(p.reservations, r.reservations, r.slots);
  }

  lemma TakeLives(p: Pool, i: nat, hidId: nat, token: Option<nat>, length: nat, filling: bool)
    requires LivesOk(p) && TakesTop(p, i) && p.slots[i].acquisition.None?
    ensures LivesOk(Take(p, i, hidId, token, length, filling))
  {
    hide Count, IndexOf, OwedIds;
    var r := Take(p, i, hidId, token, length, filling);
    forall a: nat
      ensures Lives(r, a) == One(a < r.nextAcquisition)
      ensures multiset(r.returned)[a] + Count(r.slots, Holds(a)) == One(a < r.nextAcquisition)
    {
      assert Lives(p, a) == One(a < p.nextAcquisition);
      SlotHolds(p.slots, i, r.slots[i], a);
    }
  }

  lemma AcquireKeeps(p: Pool, hidId: nat, token: Option<nat>, length: nat)
    requires PoolOk(p)
    ensures PoolOk(Acquire(p, hidId, token, length).1)
    ensures Acquire(p, hidId, token, length).0 != ErrInternal
  {
    hide Take, StackOk, SlotsOk, ReservationsOk, TotalsOk, LivesOk, IndexOf;
    var (result, r, i) := Acquire(p, hidId, token, length);
    TopExists(p);
    if result == Ok {
      var j := if token.Some? then IndexOf(p.reservations, token.value) else |p.reservations|;
      var filling := token.Some? && p.reservations[j].inUse < p.reservations[j].capacity;
      TopIsFree(p, i);
      TakeStack(p, i, hidId, token, length, filling);
      TakeSlots(p, i, hidId, token, length, filling);
      TakeReservations(p, i, hidId, token, length, filling);
      TakeTotals(p, i, hidId, token, length, filling);
      TakeLives(p, i, hidId, token, length, filling);
    }
  }

  lemma TopExists(p: Pool)
    requires StackOk(p)
    ensures |p.freeStack| > 0 ==> TakesTop(p, p.freeStack[|p.freeStack| - 1])
  {
  }

  lemma TakeSlots(p: Pool, i: nat, hidId: nat, token: Option<nat>, length: nat, filling: bool)
    requires SlotsOk(p) && TakesTop(p, i) && FillsOwn(p, token, filling)
    ensures SlotsOk(Take(p, i, hidId, token, length, filling))
  {
    hide IndexOf;
  }

  // ----- Reservations come and go ----------------------------------------------------------------

  /** A token nobody has yet is used by no slot. */
  lemma FreshToken(p: Pool)
    requires ReservationsOk(p)
    ensures Count(p.slots, Uses(p.nextToken)) == 0 && Count(p.slots, Charges(p.nextToken)) == 0
  {
    hide Count, ReservationOk;
    CountNone(p.slots, Uses(p.nextToken));
    CountNone(p.slots, Charges(p.nextToken));
  }

  lemma IndexAppend(rs: seq<Reservation>, r: Reservation, token: nat)
    ensures IndexOf(rs, token) < |rs| ==> IndexOf(rs + [r], token) < |rs| + 1
  {
    IndexExists(rs, token);
    IndexExists(rs + [r], token);
    if IndexOf(rs, token) < |rs| {
      assert (rs + [r])[IndexOf(rs, token)].token == token;
    }
  }

  lemma AddReservations(p: Pool, hidId: nat, count: nat)
    requires ReservationsOk(p) && hidId != 0
    ensures ReservationsOk(p.(reservations := p.reservations + [Reservation(p.nextToken, hidId, count, 0)],
                              nextToken := p.nextToken + 1))
  {
    hide Count, IndexOf;
    var added := Reservation(p.nextToken, hidId, count, 0);
    var r := p.(reservations := p.reservations + [added], nextToken := p.nextToken + 1);
    FreshToken(p);
    forall j | 0 <= j < |r.reservations|
      ensures r.reservations[j].token < r.nextToken && ReservationOk(r.reservations[j], r.slots)
    {
      if j < |p.reservations| {
        assert ReservationOk(p.reservations[j], p.slots);
      }
    }
    forall k | 0 <= k < |r.slots| && r.slots[k].reservation.Some?
      ensures IndexOf(r.reservations, r.slots[k].reservation.value) < |r.reservations|
    {
      IndexAppend(p.reservations, added, r.slots[k].reservation.value);
    }
  }

  lemma AddTotals(p: Pool, hidId: nat, count: nat)
    requires ReservationsOk(p) && TotalsOk(p) && p.reservedTotal + count < |p.slots|
    ensures TotalsOk(p.(reservations := p.reservations + [Reservation(p.nextToken, hidId, count, 0)],
                        reservedTotal := p.reservedTotal + count, unfilled := p.unfilled + count))
  {
    hide Count, ReservationsOk;
    FreshToken(p);
    var more := p.reservations + [Reservation(p.nextToken, hidId, count, 0)];
    assert more[..|p.reservations|] == p.reservations;
  }

  /** What an accepted reservation changes. */
  lemma SetResult(p: Pool, hidId: nat, count: nat)
    ensures var (result, r) := SetReservation(p, hidId, count);
            if result == Ok then
              && hidId != 0
              && r == p.(reservations := p.reservations + [Reservation(p.nextToken, hidId, count, 0)],
                         nextToken := p.nextToken + 1,
                         reservedTotal := p.reservedTotal + count, unfilled := p.unfilled + count)
              && (p.reservedTotal < |p.slots| ==> p.reservedTotal + count < |p.slots|)
            else r == p
  {
  }

  lemma SetKeeps(p: Pool, hidId: nat, count: nat)
    requires PoolOk(p)
    ensures PoolOk(SetReservation(p, hidId, count).1)
  {
    hide Count, StackOk, LivesOk, SlotsOk, ReservationsOk, SetReservation, SumUnfilled, SumCapacity;
    var (result, r) := SetReservation(p, hidId, count);
    SetResult(p, hidId, count);
    if result == Ok {
      AddReservations(p, hidId, count);
      SameReservations(p.(reservations := r.reservations, nextToken := r.nextToken), r);
      AddTotals(p, hidId, count);
      SameLives(p, r);
    }
  }

  lemma SameReservations(p: Pool, r: Pool)
    requires ReservationsOk(p) && r.slots == p.slots && r.reservations == p.reservations && r.nextToken == p.nextToken
    ensures ReservationsOk(r)
  {
  }

  lemma SameLives(p: Pool, r: Pool)
    requires StackOk(p) && SlotsOk(p) && LivesOk(p)
    requires r.slots == p.slots && r.freeStack == p.freeStack && r.outstanding == p.outstanding
    requires r.callbacksActive == p.callbacksActive && r.owed == p.owed && r.ran == p.ran && r.fired == p.fired
    requires r.abandoned == p.abandoned && r.returned == p.returned && r.nextAcquisition == p.nextAcquisition
    ensures StackOk(r) && SlotsOk(r) && LivesOk(r)
  {
    hide Count, OwedIds;
    forall a: nat
      ensures Lives(r, a) == One(a < r.nextAcquisition)
    {
      assert Lives(p, a) == One(a < p.nextAcquisition);
    }
  }

  lemma IndexRemove(rs: seq<Reservation>, j: nat, token: nat)
    requires j < |rs| && token != rs[j].token
    ensures var rest := rs[..j] + rs[j + 1..]; IndexOf(rs, token) < |rs| ==> IndexOf(rest, token) < |rest|
  {
    var rest := rs[..j] + rs[j + 1..];
    var k := IndexOf(rs, token);
    IndexExists(rest, token);
    if k < |rs| {
      assert rest[if k < j then k else k - 1] == rs[k];
    }
  }

  /** A reservation that nothing uses is not charged either. */
  lemma UnusedToken(p: Pool, j: nat)
    requires ReservationsOk(p) && j < |p.reservations| && p.reservations[j].inUse == 0
    ensures Count(p.slots, Charges(p.reservations[j].token)) == 0
    ensures forall i :: 0 <= i < |p.slots| ==> p.slots[i].reservation != Some(p.reservations[j].token)
  {
    hide Count, IndexOf;
    var token := p.reservations[j].token;
    assert ReservationOk(p.reservations[j], p.slots);
    ChargedIsUsed(p.slots, token);
    forall i | 0 <= i < |p.slots|
      ensures p.slots[i].reservation != Some(token)
    {
      if p.slots[i].reservation == Some(token) {
        CountMember(p.slots, i, Uses(token));
      }
    }
  }

  lemma ClearKeeps(p: Pool, token: nat)
    requires PoolOk(p)
    ensures PoolOk(ClearReservation(p, token).1)
  {
    hide Count, IndexOf, StackOk, LivesOk, SlotsOk, SumCapacity, SumUnfilled;
    var (result, r) := ClearReservation(p, token);
    if result == Ok {
      var j := IndexOf(p.reservations, token);
      UnusedToken(p, j);
      SumRemove(p.reservations, j, p.slots);
      forall k | 0 <= k < |r.reservations|
        ensures r.reservations[k].token < r.nextToken && ReservationOk(r.reservations[k], r.slots)
      {
        assert ReservationOk(p.reservations[if k < j then k else k + 1], p.slots);
      }
      forall k | 0 <= k < |r.slots| && r.slots[k].reservation.Some?
        ensures IndexOf(r.reservations, r.slots[k].reservation.value) < |r.reservations|
      {
        IndexRemove(p.reservations, j, r.slots[k].reservation.value);
      }
      assert StackOk(r) && SlotsOk(r) && LivesOk(r) by {
        SameLives(p, r);
      }
    }
  }

  // ----- Every run -------------------------------------------------------------------------------

  lemma FlagsKeep(p: Pool, r: Pool)
    requires PoolOk(p) && r == p.(present := r.present, closing := r.closing, latched := r.latched)
    ensures PoolOk(r)
  {
    hide StackOk, SlotsOk, LivesOk, ReservationsOk, TotalsOk;
    SameCounters(p, r);
    SameLives(p, r);
  }

  lemma LeaveKeeps(p: Pool)
    requires PoolOk(p)
    ensures PoolOk(Leave(p))
  {
    hide StackOk, SlotsOk, ReservationsOk, TotalsOk, Count, OwedIds;
    SameCounters(p, Leave(p));
    forall a: nat
      ensures Lives(Leave(p), a) == One(a < p.nextAcquisition)
    {
      assert Lives(p, a) == One(a < p.nextAcquisition);
    }
  }

  lemma DeliverKeeps(p: Pool, k: nat)
    requires PoolOk(p)
    ensures PoolOk(Deliver(p, k))
  {
    hide StackOk, SlotsOk, ReservationsOk, TotalsOk, LivesOk;
    SameCounters(p, Deliver(p, k));
    DeliverLives(p, k);
  }

  lemma StepKeeps(p: Pool, a: Act)
    requires PoolOk(p)
    ensures PoolOk(Step(p, a))
  {
    hide PoolOk, Acquire, Submit, Finish, Abandon, Deliver, Leave, SetReservation, ClearReservation;
    match a
    case AcquireAct(hidId, token, length) => AcquireKeeps(p, hidId, token, length);
    case SubmitAct(i, samePayload, length, reportId, status, mapped) =>
        SubmitKeeps(p, i, samePayload, length, reportId, status, mapped);
    case FinishedAct(i, result, native) =>
      if i < |p.slots| && p.slots[i].state.Submitted? {
        FinishKeeps(p, i, result, native);
      }
    case AbandonAct(i) => AbandonKeeps(p, i);
    case CloseAct => FlagsKeep(p, p.(closing := true));
    case CancelAct(i) =>
      if i < |p.slots| && p.slots[i].state.Prepared? {
        FinishKeeps(p, i, ErrIo, TRANSFER_CANCELLED);
      }
    case DeliverAct(k) => DeliverKeeps(p, k);
    case LeaveAct => LeaveKeeps(p);
    case SetAct(hidId, count) => SetKeeps(p, hidId, count);
    case ClearAct(token) => ClearKeeps(p, token);
    case GoneAct => FlagsKeep(p, Step(p, GoneAct));
  }

  lemma {:induction false} AllFree(count: nat)
    ensures Count(seq(count, _ => EMPTY_SLOT), IsFree) == count
  {
    if count == 0 {
    } else {
      AllFree(count - 1);
      assert seq(count, _ => EMPTY_SLOT)[..count - 1] == seq(count - 1, _ => EMPTY_SLOT);
    }
  }

  lemma NewOk(count: nat, maximumReport: nat)
    requires count > 0
    ensures PoolOk(NewPool(count, maximumReport))
  {
    hide Count;
    var p := NewPool(count, maximumReport);
    AllFree(count);
    CountNone(p.slots, IsCounted);
    forall i | 0 <= i < count
      ensures i in p.freeStack
    {
      assert p.freeStack[i] == i;
    }
    forall a: nat
      ensures Lives(p, a) == 0 && Count(p.slots, Holds(a)) == 0
    {
      CountNone(p.slots, Holds(a));
      assert OwedIds([]) == [];
    }
  }

  lemma {:induction false} RunKeeps(p: Pool, acts: seq<Act>)
    requires PoolOk(p)
    ensures PoolOk(Run(p, acts))
  {
    hide PoolOk, Step;
    if |acts| == 0 {
    } else {
      RunKeeps(p, acts[..|acts| - 1]);
      StepKeeps(Run(p, acts[..|acts| - 1]), acts[|acts| - 1]);
    }
  }

  // ----- Exactly one callback --------------------------------------------------------------------

  /**
   * In every interleaving each acquisition is either still held by one slot, or owed its callback, or called
   * back once, or abandoned and never called back; and its slot went back once, and only when not held.
   */
  lemma OneCallback(count: nat, maximumReport: nat, acts: seq<Act>, a: nat)
    requires count > 0
    ensures var p := Run(NewPool(count, maximumReport), acts);
            var held, owed := Count(p.slots, Holds(a)), multiset(OwedIds(p.owed))[a];
            var fired, abandoned, returned := multiset(p.fired)[a], multiset(p.abandoned)[a], multiset(p.returned)[a];
            && (a < p.nextAcquisition ==> held + owed + fired + abandoned == 1 && returned + held == 1)
            && (a >= p.nextAcquisition ==> held == owed == fired == abandoned == returned == 0)
  {
    hide Count, NewPool, Run, OwedIds, StackOk, SlotsOk, ReservationsOk, TotalsOk;
    NewOk(count, maximumReport);
    RunKeeps(NewPool(count, maximumReport), acts);
    var p := Run(NewPool(count, maximumReport), acts);
    assert Lives(p, a) == One(a < p.nextAcquisition);
  }

  // ----- Draining --------------------------------------------------------------------------------

  /** Closed and drained: no slot in use and no callback due. */
  predicate Over(p: Pool) {
    && p.closing && Drained(p) && |p.owed| == 0 && p.ran == 0
    && forall i :: 0 <= i < |p.slots| ==> p.slots[i].state.Free?
  }

  lemma DrainedIsOver(p: Pool)
    requires PoolOk(p) && p.closing && Drained(p)
    ensures Over(p)
  {
    hide SlotsOk, ReservationsOk, TotalsOk, Count, Lives;
    CountAll(p.slots, IsFree);
  }

  lemma OverStays(p: Pool, a: Act)
    requires Over(p)
    ensures Over(Step(p, a)) && Step(p, a).fired == p.fired
  {
    hide Finish, PutBack, Take;
  }

  lemma {:induction false} OverForever(p: Pool, acts: seq<Act>)
    requires Over(p)
    ensures Over(Run(p, acts)) && Run(p, acts).fired == p.fired
  {
    hide Over, Step;
    if |acts| == 0 {
    } else {
      OverForever(p, acts[..|acts| - 1]);
      OverStays(Run(p, acts[..|acts| - 1]), acts[|acts| - 1]);
    }
  }

  /** Once closing is set and the pool reads drained, it stays drained and no callback ever runs again. */
  lemma DrainIsStable(p: Pool, acts: seq<Act>)
    requires PoolOk(p) && p.closing && Drained(p)
    ensures Drained(Run(p, acts)) && Run(p, acts).closing && Run(p, acts).fired == p.fired
  {
    hide PoolOk, Run;
    DrainedIsOver(p);
    OverForever(p, acts);
  }

  // ----- Refused submits -------------------------------------------------------------------------

  lemma StaysOpen(p: Pool, a: Act)
    requires !p.closing && !a.CloseAct?
    ensures !Step(p, a).closing
  {
    hide Acquire, Submit, Finish, Abandon, SetReservation, ClearReservation;
    match a
    case AcquireAct(hidId, token, length) => AcquireFlag(p, hidId, token, length);
    case SubmitAct(i, samePayload, length, reportId, status, mapped) =>
        SubmitFlag(p, i, samePayload, length, reportId, status, mapped);
    case FinishedAct(i, result, native) =>
      if i < |p.slots| {
        FinishFlag(p, i, result, native);
      }
    case AbandonAct(i) => AbandonFlag(p, i);
    case CancelAct(i) =>
      if i < |p.slots| {
        FinishFlag(p, i, ErrIo, TRANSFER_CANCELLED);
      }
    case SetAct(hidId, count) => SetResult(p, hidId, count);
    case ClearAct(token) => ClearFlag(p, token);
    case _ =>
  }

  lemma FinishFlag(p: Pool, i: nat, result: ResultCode, native: int)
    requires i < |p.slots|
    ensures var r := Finish(p, i, result, native);
            && r.closing == p.closing && r.maximumReport == p.maximumReport
            && r.owed == p.owed + if p.slots[i].acquisition.Some?
                                  then [Notice(p.slots[i].acquisition.value, result, native)] else []
  {
    hide PutBack, Latch;
    var slot := p.slots[i];
    var noted :=
      if slot.acquisition.Some?
      then p.(owed := p.owed + [Notice(slot.acquisition.value, result, native)],
              callbacksActive := p.callbacksActive + 1)
      else p;
    LatchKeeps(noted, result, native);
    PutBackSlots(Latch(noted, result, native), i);
  }

  lemma SubmitFlag(p: Pool, i: nat, samePayload: bool, length: nat, reportId: nat, status: int, mapped: ResultCode)
    ensures var r := Submit(p, i, samePayload, length, reportId, status, mapped).1;
            r.closing == p.closing && r.maximumReport == p.maximumReport
  {
    hide Finish;
    if i < |p.slots| && p.slots[i].state.Prepared? {
      var named := p.(slots := p.slots[i := p.slots[i].(reportId := reportId)]);
      FinishFlag(named, i, ErrParam, ERROR_INVALID_PARAM);
      FinishFlag(named, i, if p.present then ErrIo else ErrNoDevice, if p.closing then TRANSFER_CANCELLED
                 else ERROR_NO_DEVICE);
      FinishFlag(named.(slots := named.slots[i := named.slots[i].(state := Submitted)]), i, mapped, status);
    }
  }

  lemma AcquireFlag(p: Pool, hidId: nat, token: Option<nat>, length: nat)
    ensures var r := Acquire(p, hidId, token, length).1; r.closing == p.closing && r.maximumReport == p.maximumReport
  {
    hide IndexOf;
  }

  lemma AbandonFlag(p: Pool, i: nat)
    ensures Abandon(p, i).closing == p.closing && Abandon(p, i).maximumReport == p.maximumReport
  {
    hide PutBack;
    if i < |p.slots| {
      PutBackSlots(p, i);
    }
  }

  lemma ClearFlag(p: Pool, token: nat)
    ensures var r := ClearReservation(p, token).1; r.closing == p.closing && r.maximumReport == p.maximumReport
  {
    hide IndexOf;
  }

  lemma {:induction false} OpenUntilClosed(p: Pool, acts: seq<Act>)
    requires !p.closing && forall a :: a in acts ==> !a.CloseAct?
    ensures !Run(p, acts).closing
  {
    hide Step;
    if |acts| == 0 {
    } else {
      OpenUntilClosed(p, acts[..|acts| - 1]);
      StaysOpen(Run(p, acts[..|acts| - 1]), acts[|acts| - 1]);
    }
  }

  /**
   * Unless the Device is closed between an acquire and its submit, a submit that is refused tells its callback a
   * negative status: it can never be taken for a report that may have arrived.
   */
  lemma RefusalIsNegative(p: Pool, hidId: nat, token: Option<nat>, asked: nat, acts: seq<Act>, i: nat,
                          samePayload: bool, length: nat,
                          reportId: nat, status: int, mapped: ResultCode)
    requires Acquire(p, hidId, token, asked).0 == Ok && (forall a :: a in acts ==> !a.CloseAct?) && status <= 0
    ensures var q := Run(Acquire(p, hidId, token, asked).1, acts);
            var r := Submit(q, i, samePayload, length, reportId, status, mapped).1;
            q.owed <= r.owed && forall k :: |q.owed| <= k < |r.owed| ==> r.owed[k].native < 0
  {
    hide Run, Finish, Acquire;
    AcquiredOpen(p, hidId, token, asked);
    OpenUntilClosed(Acquire(p, hidId, token, asked).1, acts);
    var q := Run(Acquire(p, hidId, token, asked).1, acts);
    if i < |q.slots| && q.slots[i].state.Prepared? {
      var named := q.(slots := q.slots[i := q.slots[i].(reportId := reportId)]);
      FinishFlag(named, i, ErrParam, ERROR_INVALID_PARAM);
      FinishFlag(named, i, if q.present then ErrIo else ErrNoDevice, ERROR_NO_DEVICE);
      FinishFlag(named.(slots := named.slots[i := named.slots[i].(state := Submitted)]), i, mapped, status);
    }
  }

  lemma AcquiredOpen(p: Pool, hidId: nat, token: Option<nat>, length: nat)
    requires Acquire(p, hidId, token, length).0 == Ok
    ensures !p.closing && !Acquire(p, hidId, token, length).1.closing
  {
    hide IndexOf;
  }
}
