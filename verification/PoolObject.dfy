/**
 * The transfer pool of a Device as an object: each method is one critical section (or the delivery that
 * follows it) and takes a step of the run that the pool has made so far (src/transport/transport.cpp).
 */
module PoolObject {
  import opened Common
  import opened PoolModel
  import opened PoolFacts
  import opened PoolRun

  /** In no run does an unsigned counter of the pool wrap. */
  lemma CountersNeverWrap(p: Pool)
    requires PoolOk(p)
    ensures 0 <= p.unfilled <= p.reservedTotal < |p.slots| && 0 <= p.outstanding <= |p.slots|
            && p.callbacksActive >= |p.owed|
    ensures p.outstanding == 0 <==> |p.freeStack| == |p.slots|
  {
    hide SlotsOk, SumCapacity, Lives, Count;
    CountBound(p.slots, IsFree);
    UnfilledNonNegative(p.reservations, p.slots);
  }

  lemma RunSnoc(p: Pool, acts: seq<Act>, a: Act)
    ensures Run(p, acts + [a]) == Step(Run(p, acts), a)
  {
    assert (acts + [a])[..|acts|] == acts;
  }

  /** Letting go of a reservation touches nothing else. */
  lemma ReleaseParts(p: Pool, i: nat)
    requires i < |p.slots|
    ensures var r := Release(p, i); r == p.(reservations := r.reservations, unfilled := r.unfilled)
  {
    hide IndexOf;
  }

  class TransferPool {
    const slots: array<Slot>
    const maximumReport: nat
    var freeStack: seq<nat>
    var reservations: seq<Reservation>
    var reservedTotal: int
    var unfilled: int
    var outstanding: int
    var callbacksActive: int
    var latched: ResultCode
    var present: bool
    var closing: bool
    var nextToken: nat  // stands for the address of the next reservation
    var nextAcquisition: nat  // stands for the next user pointer and callback
    ghost var owed: seq<Notice>
    ghost var ran: nat
    ghost var fired: seq<nat>
    ghost var abandoned: seq<nat>
    ghost var returned: seq<nat>
    ghost var history: seq<Act>

    ghost function Value(): Pool
      reads this, slots
    {
      Pool(slots[..], freeStack, reservations, reservedTotal, unfilled, outstanding, callbacksActive, latched, present,
           closing,
           maximumReport, nextToken, nextAcquisition, owed, ran, fired, abandoned, returned)
    }

    /** The pool is where the run of its history ends. */
    ghost predicate Valid()
      reads this, slots
    {
      slots.Length > 0 && Value() == Run(NewPool(slots.Length, maximumReport), history)
    }

    constructor (count: nat, maximumReport: nat)
      requires count > 0
      ensures Valid() && fresh(slots) && slots.Length == count && this.maximumReport == maximumReport && history == []
    {
      slots := new Slot[count](_ => EMPTY_SLOT);
      this.maximumReport := maximumReport;
      freeStack, reservations := seq(count, k => k), [];
      reservedTotal, unfilled, outstanding, callbacksActive := 0, 0, 0, 0;
      latched, present, closing := Ok, true, false;
      nextToken, nextAcquisition, owed, ran, fired, abandoned, returned, history := 0, 0, [], 0, [], [], [], [];
      new;
      assert slots[..] == seq(count, _ => EMPTY_SLOT);
      assert seq(count, k => k) == NewPool(count, maximumReport).freeStack;
    }

    /** What every run keeps, and how the run goes on. */
    lemma Next(a: Act)
      requires Valid()
      ensures PoolOk(Value())
      ensures Run(NewPool(slots.Length, maximumReport), history + [a]) == Step(Value(), a)
    {
      hide NewPool, Step, PoolOk;
      NewOk(slots.Length, maximumReport);
      RunKeeps(NewPool(slots.Length, maximumReport), history);
      RunSnoc(NewPool(slots.Length, maximumReport), history, a);
    }

    /** The place of a reservation, or their number. */
    method FindReservation(token: nat) returns (j: nat)
      ensures j == IndexOf(reservations, token)
    {
      j := 0;
      while j < |reservations| && reservations[j].token != token
        invariant j <= |reservations| && forall k :: 0 <= k < j ==> reservations[k].token != token
      {
        j := j + 1;
      }
    }

    // ----- Finishing -----------------------------------------------------------------------------

    /** `release_reservation_locked`. */
    method ReleaseReservation(i: nat)
      requires i < slots.Length
      modifies `reservations, `unfilled, slots
      ensures Value() == Release(old(Value()),
                                 i).(slots := old(slots[..])[i :=
                                                             old(slots[i]).(counted := false, reservation := None)])
    {
      hide IndexOf;
      var slot := slots[i];
      if slot.reservation.Some? {
        var j := FindReservation(slot.reservation.value);
        if j < |reservations| && reservations[j].inUse > 0 {
          reservations := reservations[j := reservations[j].(inUse := reservations[j].inUse - 1)];
          if slot.counted {
            unfilled := unfilled + 1;
          }
        }
      }
      slots[i] := slot.(counted := false, reservation := None);
    }

    method ReturnSlot(i: nat)
      requires i < slots.Length
      modifies `reservations, `unfilled, slots, `outstanding, `freeStack, `returned
      ensures Value() == PutBack(old(Value()), i)
    {
      hide IndexOf, Release;
      ReleaseParts(Value(), i);
      ghost var given := if slots[i].acquisition.Some? then [slots[i].acquisition.value] else [];
      ReleaseReservation(i);
      returned := returned + given;
      slots[i] := slots[i].(state := Free, acquisition := None, reportId := 0, reportLength := 0);
      if outstanding > 0 {
        outstanding := outstanding - 1;
      }
      freeStack := freeStack + [i];
    }

    /** `latch_locked`. */
    method LatchError(result: ResultCode, native: int)
      modifies `present, `latched
      ensures Value() == Latch(old(Value()), result, native)
    {
      if result == Ok || (closing && native == TRANSFER_CANCELLED) {
        return;
      }
      if result == ErrNoDevice {
        present := false;
        latched := ErrNoDevice;
      } else if latched == Ok {
        latched := result;
      }
    }

    /** `finish_locked`. */
    method FinishSlot(i: nat, result: ResultCode, native: int) returns (notice: Option<Notice>)
      requires i < slots.Length
      modifies `reservations, `unfilled, slots, `outstanding, `freeStack, `returned, `present, `latched, `owed,
               `callbacksActive
      ensures Value() == Finish(old(Value()), i, result, native)
      ensures notice == if old(slots[i]).acquisition.Some? then
              Some(Notice(old(slots[i]).acquisition.value, result, native)) else None
    {
      hide PutBack, Latch;
      notice := None;
      if slots[i].acquisition.Some? {
        notice := Some(Notice(slots[i].acquisition.value, result, native));
        owed := owed + [notice.value];
        callbacksActive := callbacksActive + 1;
      }
      LatchError(result, native);
      ReturnSlot(i);
    }

    /** `transfer_finished`, up to the delivery. */
    method TransferFinished(i: nat, result: ResultCode, native: int) returns (notice: Option<Notice>)
      requires Valid() && i < slots.Length
      modifies this, slots
      ensures Valid() && history == old(history) + [FinishedAct(i, result, native)]
      ensures notice.Some? <==> old(slots[i]).state.Submitted?
      ensures notice.Some? ==> Some(notice.value.acquisition) == old(slots[i]).acquisition
    {
      hide Run, NewPool, Finish, StackOk, ReservationsOk, TotalsOk, LivesOk;
      Next(FinishedAct(i, result, native));
      assert SlotOk(slots[i]);
      history := history + [FinishedAct(i, result, native)];
      if !slots[i].state.Submitted? {
        return None;
      }
      notice := FinishSlot(i, result, native);
    }

    /** `submit_prepared`, up to the delivery. */
    method SubmitPrepared(i: nat, samePayload: bool, length: nat, reportId: nat, status: int, mapped: ResultCode)
      returns (result: ResultCode, notice: Option<Notice>)
      requires Valid() && i < slots.Length
      modifies this, slots
      ensures Valid() && history == old(history) + [SubmitAct(i, samePayload, length, reportId, status, mapped)]
      ensures result == Submit(old(Value()), i, samePayload, length, reportId, status, mapped).0
    {
      hide Run, NewPool, Finish, PoolOk;
      Next(SubmitAct(i, samePayload, length, reportId, status, mapped));
      history := history + [SubmitAct(i, samePayload, length, reportId, status, mapped)];
      notice := None;
      if slots[i].state.Prepared? {
        slots[i] := slots[i].(reportId := reportId);
      }
      if !slots[i].state.Prepared? || !samePayload || length != slots[i].reportLength || length == 0
          || length > maximumReport
         || reportId > 255
      {
        if slots[i].state.Prepared? {
          notice := FinishSlot(i, ErrParam, ERROR_INVALID_PARAM);
        }
        return ErrParam, notice;
      }
      if closing || !present {
        result := if present then ErrIo else ErrNoDevice;
        var native := if closing then TRANSFER_CANCELLED else ERROR_NO_DEVICE;
        notice := FinishSlot(i, result, native);
        return;
      }
      slots[i] := slots[i].(state := Submitted);
      result := Ok;
      if status != 0 {
        result := mapped;
        notice := FinishSlot(i, result, status);
      }
    }

    /** `abandon`. */
    method AbandonSlot(i: nat)
      requires Valid() && i < slots.Length
      modifies this, slots
      ensures Valid() && history == old(history) + [AbandonAct(i)]
    {
      hide Run, NewPool, PutBack, PoolOk;
      Next(AbandonAct(i));
      history := history + [AbandonAct(i)];
      if !slots[i].state.Prepared? {
        return;
      }
      ghost var given := if slots[i].acquisition.Some? then [slots[i].acquisition.value] else [];
      ReturnSlot(i);
      abandoned := abandoned + given;
    }

    // ----- Acquiring -----------------------------------------------------------------------------

    /** `acquire`. */
    method AcquireSlot(hidId: nat, token: Option<nat>, length: nat) returns (result: ResultCode, i: nat)
      requires Valid()
      modifies this, slots
      ensures Valid() && history == old(history) + [AcquireAct(hidId, token, length)]
      ensures result == Acquire(old(Value()), hidId, token, length).0
      ensures result == Ok ==> i < slots.Length && old(slots[i]).state.Free? && slots[i].state.Prepared?
    {
      hide Run, NewPool, IndexOf, Take, SlotsOk, ReservationsOk, TotalsOk, LivesOk, Count;
      Next(AcquireAct(hidId, token, length));
      history := history + [AcquireAct(hidId, token, length)];
      i := 0;
      if hidId == 0 || length == 0 || length > maximumReport {
        result := if length > 65535 then ErrOverflow else ErrParam;
        return;
      }
      var j := |reservations|;
      if token.Some? {
        j := FindReservation(token.value);
      }
      if token.Some? && (j == |reservations| || reservations[j].hidId != hidId) {
        return ErrParam, i;
      }
      if !present {
        return ErrNoDevice, i;
      }
      if closing {
        return ErrIo, i;
      }
      if |freeStack| == 0 {
        return ErrBusy, i;
      }
      var fillingOwnReservation := token.Some? && reservations[j].inUse < reservations[j].capacity;
      if !fillingOwnReservation && |freeStack| <= unfilled {
        return ErrBusy, i;
      }
      i := freeStack[|freeStack| - 1];
      TakeSlot(i, hidId, token, j, length, fillingOwnReservation);
      result := Ok;
    }

    method TakeSlot(i: nat, hidId: nat, token: Option<nat>, j: nat, length: nat, filling: bool)
      requires |freeStack| > 0 && i < slots.Length && (filling ==> token.Some?)
      requires j == (if token.Some? then IndexOf(reservations, token.value) else |reservations|)
               && (token.Some? ==> j < |reservations|)
      modifies `freeStack, slots, `nextAcquisition, `reservations, `unfilled, `outstanding
      ensures Value() == Take(old(Value()), i, hidId, token, length, filling)
      ensures slots[i].state.Prepared?
    {
      hide IndexOf;
      freeStack := freeStack[..|freeStack| - 1];
      slots[i] := slots[i].(state := Prepared, acquisition := Some(nextAcquisition), hidId := hidId, reportId := 0,
                            reportLength := length, counted := filling, reservation := token);
      nextAcquisition := nextAcquisition + 1;
      if token.Some? {
        reservations := reservations[j := reservations[j].(inUse := reservations[j].inUse + 1)];
        if filling {
          unfilled := unfilled - 1;
        }
      }
      outstanding := outstanding + 1;
    }

    // ----- Callbacks -----------------------------------------------------------------------------

    /** The k-th owed callback runs, outside the lock. */
    method RunCallback(ghost k: nat)
      requires Valid() && k < |owed|
      modifies `fired, `owed, `ran, `history
      ensures Valid() && history == old(history) + [DeliverAct(k)]
      ensures fired == old(fired) + [old(owed[k]).acquisition] && ran == old(ran) + 1
    {
      hide Run, NewPool, PoolOk;
      Next(DeliverAct(k));
      history := history + [DeliverAct(k)];
      fired, owed, ran := fired + [owed[k].acquisition], owed[..k] + owed[k + 1..], ran + 1;
    }

    /** A callback that has run is counted off. */
    method LeaveCallback()
      requires Valid() && ran > 0
      modifies `ran, `callbacksActive, `history
      ensures Valid() && history == old(history) + [LeaveAct]
    {
      hide Run, NewPool, PoolOk;
      Next(LeaveAct);
      history := history + [LeaveAct];
      ran := ran - 1;
      if callbacksActive > 0 {
        callbacksActive := callbacksActive - 1;
      }
    }

    /** `deliver_terminal` for the k-th owed notice: the callback runs, then the count comes down. */
    method DeliverTerminal(ghost k: nat)
      requires Valid() && k < |owed|
      modifies `fired, `owed, `ran, `callbacksActive, `history
      ensures Valid() && history == old(history) + [DeliverAct(k), LeaveAct]
      ensures fired == old(fired) + [old(owed[k]).acquisition]
    {
      hide Run, NewPool, PoolOk, Valid;
      RunCallback(k);
      LeaveCallback();
      assert history == old(history) + [DeliverAct(k), LeaveAct];
    }

    // ----- Closing -------------------------------------------------------------------------------

    /** One round of `cancel_all`: the slot's callback, if it was prepared, has run when it returns. */
    method CancelOne(i: nat)
      requires Valid() && i < slots.Length
      modifies this, slots
      ensures Valid() && old(history) <= history && closing == old(closing)
      ensures forall k :: 0 <= k < slots.Length ==>
                slots[k].state == if k == i && old(slots[k]).state.Prepared? then Free else old(slots[k]).state
    {
      hide Run, NewPool, Finish, StackOk, ReservationsOk, TotalsOk, LivesOk;
      Next(CancelAct(i));
      assert SlotOk(slots[i]);
      ghost var was := Value();
      history := history + [CancelAct(i)];
      if slots[i].state.Prepared? {
        var notice := FinishSlot(i, ErrIo, TRANSFER_CANCELLED);
        FinishFreesOnly(was, i);
        DeliverTerminal(|was.owed|);
      }
    }

    /** `cancel_all`: afterwards no slot is prepared and none ever will be. */
    method CancelAll()
      requires Valid()
      modifies this, slots
      ensures Valid() && old(history) <= history && closing
      ensures forall k :: 0 <= k < slots.Length ==> !slots[k].state.Prepared?
    {
      hide Run, NewPool, PoolOk;
      Next(CloseAct);
      history := history + [CloseAct];
      closing := true;
      var i := 0;
      while i < slots.Length
        invariant i <= slots.Length && Valid() && old(history) <= history && closing
        invariant forall k :: 0 <= k < i ==> !slots[k].state.Prepared?
      {
        CancelOne(i);
        i := i + 1;
      }
    }

    /** `drained`: once true after closing it stays true, and nothing is called back any more. */
    method IsDrained() returns (result: bool)
      requires Valid()
      ensures result == (outstanding == 0 && callbacksActive == 0)
      ensures result && closing ==>
                forall acts :: Drained(Run(Value(), acts)) && Run(Value(), acts).fired == fired
    {
      hide Run, NewPool, PoolOk;
      Next(CloseAct);
      result := outstanding == 0 && callbacksActive == 0;
      if result && closing {
        forall acts
          ensures Drained(Run(Value(), acts)) && Run(Value(), acts).fired == fired
        {
          DrainIsStable(Value(), acts);
        }
      }
    }

    // ----- Reservations --------------------------------------------------------------------------

    /** `set_reservation`. */
    method Reserve(hidId: nat, count: nat) returns (result: ResultCode, token: nat)
      requires Valid()
      modifies this
      ensures Valid() && history == old(history) + [SetAct(hidId, count)]
      ensures result == SetReservation(old(Value()), hidId, count).0 && token == old(nextToken)
    {
      hide Run, NewPool, PoolOk;
      Next(SetAct(hidId, count));
      history := history + [SetAct(hidId, count)];
      token := nextToken;
      if hidId == 0 {
        return ErrParam, token;
      }
      if !present {
        return ErrNoDevice, token;
      }
      if closing {
        return ErrIo, token;
      }
      var duplicate := exists k :: 0 <= k < |reservations| && reservations[k].hidId == hidId;
      if duplicate || (count > 0 && (count >= slots.Length || reservedTotal >= slots.Length - count)) {
        return ErrParam, token;
      }
      reservations := reservations + [Reservation(nextToken, hidId, count, 0)];
      nextToken := nextToken + 1;
      reservedTotal := reservedTotal + count;
      unfilled := unfilled + count;
      return Ok, token;
    }

    /** `clear_reservation`. */
    method Unreserve(token: nat) returns (result: ResultCode)
      requires Valid()
      modifies this
      ensures Valid() && history == old(history) + [ClearAct(token)]
      ensures result == ClearReservation(old(Value()), token).0
    {
      hide Run, NewPool, IndexOf, PoolOk;
      Next(ClearAct(token));
      history := history + [ClearAct(token)];
      var j := FindReservation(token);
      if j == |reservations| {
        return ErrParam;
      }
      if reservations[j].inUse != 0 {
        return ErrBusy;
      }
      reservedTotal := reservedTotal - reservations[j].capacity;
      unfilled := unfilled - reservations[j].capacity;
      reservations := reservations[..j] + reservations[j + 1..];
      return Ok;
    }
  }

  lemma FinishFreesOnly(p: Pool, i: nat)
    requires i < |p.slots| && p.slots[i].acquisition.Some?
    ensures var r := Finish(p, i, ErrIo, TRANSFER_CANCELLED);
            && |r.slots| == |p.slots| && r.slots[i].state.Free? && r.closing == p.closing
            && (forall k :: 0 <= k < |p.slots| && k != i ==> r.slots[k] == p.slots[k])
            && |r.owed| == |p.owed| + 1 && r.callbacksActive == p.callbacksActive + 1
  {
    hide PutBack, Latch;
    var noted := p.(owed := p.owed + [Notice(p.slots[i].acquisition.value, ErrIo, TRANSFER_CANCELLED)],
                    callbacksActive := p.callbacksActive + 1);
    LatchKeeps(noted, ErrIo, TRANSFER_CANCELLED);
    PutBackSlots(Latch(noted, ErrIo, TRANSFER_CANCELLED), i);
  }
}
