/**
 * What the caller of the transfer pool is told: exactly when an acquisition is granted, how the end of a transfer is
 * reported, and which error the pool goes on showing (src/transport/transport.cpp).
 */
module PoolOutcome {
  import opened Common
  import opened PoolModel
  import opened PoolFacts
  import opened PoolRun

  // ----- Grants ----------------------------------------------------------------------------------

  function FreeSlots(p: Pool): nat {
    Count(p.slots, IsFree)
  }

  /** Slots that reservations may still claim. */
  function Promised(p: Pool): int {
    SumUnfilled(p.reservations, p.slots)
  }

  /** The Node's reservation has a place left: fewer slots are in use under it than it reserves. */
  predicate HasOwnPlace(p: Pool, token: nat) {
    exists j :: 0 <= j < |p.reservations| && p.reservations[j].token == token
                && Count(p.slots, Uses(token)) < p.reservations[j].capacity
  }

  /** The reservation named, if one is named, is the Node's. */
  predicate Owns(p: Pool, hidId: nat, token: Option<nat>) {
    token.Some? ==>
      exists j :: 0 <= j < |p.reservations| && p.reservations[j].token == token.value
                  && p.reservations[j].hidId == hidId
  }

  predicate ProperLength(p: Pool, length: nat) {
    0 < length <= p.maximumReport
  }

  lemma FindsReservation(p: Pool, token: nat, j: nat)
    requires ReservationsOk(p) && j < |p.reservations| && p.reservations[j].token == token
    ensures IndexOf(p.reservations, token) == j && p.reservations[j].inUse == Count(p.slots, Uses(token))
  {
    hide Count;
    IndexIs(p.reservations, j);
    assert ReservationOk(p.reservations[j], p.slots);
  }

  lemma OwnsExactly(p: Pool, hidId: nat, token: Option<nat>)
    requires ReservationsOk(p)
    ensures var j := if token.Some? then IndexOf(p.reservations, token.value) else |p.reservations|;
            && (Owns(p, hidId, token) <==>
                  !(token.Some? && (j == |p.reservations| || p.reservations[j].hidId != hidId)))
            && (token.Some? && j < |p.reservations| ==>
                  (HasOwnPlace(p, token.value) <==> p.reservations[j].inUse < p.reservations[j].capacity))
  {
    hide Count, IndexOf;
    if token.Some? {
      var j := IndexOf(p.reservations, token.value);
      if j < |p.reservations| {
        FindsReservation(p, token.value, j);
      }
      forall k | 0 <= k < |p.reservations| && p.reservations[k].token == token.value
        ensures k == j
      {
        FindsReservation(p, token.value, k);
      }
    }
  }

  /**
   * A proper request of an open pool is granted exactly when a slot is free and either the Node's own reservation has
   * a place left, or more slots are free than reservations may still claim.
   */
  lemma GrantIsExact(p: Pool, hidId: nat, token: Option<nat>, length: nat)
    requires PoolOk(p)
    ensures Acquire(p, hidId, token, length).0
            == if hidId == 0 || !ProperLength(p, length) then if length > 65535 then ErrOverflow else ErrParam
               else if !Owns(p, hidId, token) then ErrParam
               else if !p.present then ErrNoDevice
               else if p.closing then ErrIo
               else if FreeSlots(p) > 0
                       && ((token.Some? && HasOwnPlace(p, token.value)) || FreeSlots(p) > Promised(p)) then Ok
               else ErrBusy
  {
    hide Count, IndexOf, Take, SumUnfilled, SumCapacity, Owns, HasOwnPlace, SlotsOk, LivesOk;
    OwnsExactly(p, hidId, token);
    if |p.freeStack| > 0 {
      TopExists(p);
    }
  }

  /** A grant takes a free slot for a new acquisition, and touches no other. */
  lemma GrantTakesOne(p: Pool, hidId: nat, token: Option<nat>, length: nat)
    requires PoolOk(p) && Acquire(p, hidId, token, length).0 == Ok
    ensures var (_, q, i) := Acquire(p, hidId, token, length);
            && i < |p.slots| && p.slots[i].state.Free? && q.slots == p.slots[i := q.slots[i]]
            && q.slots[i].state.Prepared? && q.slots[i].acquisition == Some(p.nextAcquisition)
            && q.slots[i].hidId == hidId && q.slots[i].reportLength == length
            && FreeSlots(q) == FreeSlots(p) - 1
  {
    hide Count, IndexOf, SumUnfilled, SumCapacity, LivesOk, ReservationOk;
    var (_, q, i) := Acquire(p, hidId, token, length);
    TopIsFree(p, i);
    CountUpdate(p.slots, i, q.slots[i], IsFree);
  }

  /**
   * A Node may reserve once, and only as long as one slot of the pool stays unreserved; a Node that reserves nothing
   * is always accepted.
   */
  lemma ReservingIsExact(p: Pool, hidId: nat, count: nat)
    requires PoolOk(p)
    ensures SetReservation(p, hidId, count).0
            == if hidId == 0 then ErrParam
               else if !p.present then ErrNoDevice
               else if p.closing then ErrIo
               else if (exists k :: 0 <= k < |p.reservations| && p.reservations[k].hidId == hidId)
                       || (count > 0 && SumCapacity(p.reservations) + count >= |p.slots|) then ErrParam
               else Ok
  {
    hide StackOk, SlotsOk, ReservationsOk, LivesOk, SumUnfilled, Count;
  }

  /** A reservation can be given back exactly when no slot is in use under it. */
  lemma ClearingIsExact(p: Pool, token: nat, j: nat)
    requires PoolOk(p) && j < |p.reservations| && p.reservations[j].token == token
    ensures ClearReservation(p, token).0 == if Count(p.slots, Uses(token)) == 0 then Ok else ErrBusy
    ensures Count(p.slots, Uses(token)) == 0 ==>
              ClearReservation(p, token).1.reservations == p.reservations[..j] + p.reservations[j + 1..]
  {
    hide StackOk, SlotsOk, TotalsOk, LivesOk, Count;
    FindsReservation(p, token, j);
  }

  // ----- Ends ------------------------------------------------------------------------------------

  /** Slot `i` is with libusb, and nothing else has changed for anyone. */
  predicate WentOut(p: Pool, q: Pool, i: nat) {
    && |q.slots| == |p.slots| && i < |p.slots| && q.slots == p.slots[i := q.slots[i]] && q.slots[i].state.Submitted?
    && q.owed == p.owed
  }

  /** Slot `i` is free, and its owner is owed `result`. */
  predicate GaveBack(p: Pool, q: Pool, i: nat, result: ResultCode) {
    && |q.slots| == |p.slots| && i < |p.slots| && q.slots == p.slots[i := q.slots[i]] && q.slots[i].state.Free?
    && |q.owed| == |p.owed| + 1 && q.owed[..|p.owed|] == p.owed
    && Some(q.owed[|p.owed|].acquisition) == p.slots[i].acquisition && q.owed[|p.owed|].result == result
  }

  /** The slot is free again, its owner is owed the result, and no other slot or callback is touched. */
  lemma EndIsReported(p: Pool, i: nat, result: ResultCode, native: int)
    requires PoolOk(p) && i < |p.slots| && p.slots[i].state.Submitted?
    ensures var q := Finished(p, i, result, native);
            && GaveBack(p, q, i, result) && q.owed[|p.owed|].native == native
            && q.fired == p.fired && q.abandoned == p.abandoned
  {
    hide PutBack, Count, IndexOf;
    assert SlotOk(p.slots[i]);
    FinishParts(p, i, result, native);
  }

  lemma FinishParts(p: Pool, i: nat, result: ResultCode, native: int)
    requires i < |p.slots|
    ensures var q := Finish(p, i, result, native);
            && q.slots == p.slots[i := q.slots[i]] && q.slots[i].state.Free? && q.slots[i].acquisition.None?
            && q.fired == p.fired && q.abandoned == p.abandoned
            && q.owed == (if p.slots[i].acquisition.Some?
                          then p.owed + [Notice(p.slots[i].acquisition.value, result, native)] else p.owed)
            && q.latched == Latch(p, result, native).latched && q.present == Latch(p, result, native).present
            && q.closing == p.closing
  {
    hide PutBack, IndexOf, Latch;
    var slot := p.slots[i];
    var noted :=
      if slot.acquisition.Some?
      then p.(owed := p.owed + [Notice(slot.acquisition.value, result, native)],
              callbacksActive := p.callbacksActive + 1)
      else p;
    LatchParts(p, noted, result, native);
    PutBackSlots(Latch(noted, result, native), i);
  }

  lemma LatchParts(p: Pool, noted: Pool, result: ResultCode, native: int)
    requires noted == p.(owed := noted.owed, callbacksActive := noted.callbacksActive)
    ensures var r := Latch(p, result, native);
            Latch(noted, result, native) == noted.(latched := r.latched, present := r.present)
  {
  }

  /**
   * A prepared transfer goes out exactly when it still is what was acquired, the pool is open, and libusb takes it;
   * otherwise its owner is owed the very result that the caller gets, and the slot is free.
   */
  lemma SubmitIsReported(p: Pool, i: nat, samePayload: bool, length: nat, reportId: nat, status: int,
                         mapped: ResultCode)
    requires PoolOk(p) && i < |p.slots| && p.slots[i].state.Prepared? && (status != 0 ==> mapped != Ok)
    ensures var (result, q) := Submit(p, i, samePayload, length, reportId, status, mapped);
            && (result == Ok <==>
                  && samePayload && length == p.slots[i].reportLength && ProperLength(p, length) && reportId <= 255
                  && !p.closing && p.present && status == 0)
            && if result == Ok then WentOut(p, q, i) else GaveBack(p, q, i, result)
  {
    hide Finish, Count, IndexOf, StackOk, ReservationsOk, TotalsOk, LivesOk;
    assert SlotOk(p.slots[i]);
    var named := p.(slots := p.slots[i := p.slots[i].(reportId := reportId)]);
    var sent := named.(slots := named.slots[i := named.slots[i].(state := Submitted)]);
    FinishParts(named, i, ErrParam, ERROR_INVALID_PARAM);
    FinishParts(named, i, if p.present then ErrIo else ErrNoDevice,
                if p.closing then TRANSFER_CANCELLED else ERROR_NO_DEVICE);
    FinishParts(sent, i, mapped, status);
  }

  // ----- The error shown -------------------------------------------------------------------------

  /** The end of a transfer that says something is wrong; a cancellation by the close does not. */
  predicate IsError(closing: bool, n: Notice) {
    n.result != Ok && !(closing && n.native == TRANSFER_CANCELLED)
  }

  /** What one critical section may do to the error that the pool shows. */
  predicate Shows(p: Pool, q: Pool, gone: bool) {
    && (p.latched != Ok ==> q.latched == p.latched || q.latched == ErrNoDevice)
    && (p.latched == ErrNoDevice ==> q.latched == ErrNoDevice)
    && (q.latched != p.latched ==>
          gone || (|q.owed| > 0 && IsError(p.closing, q.owed[|q.owed| - 1])
                   && q.latched == q.owed[|q.owed| - 1].result))
    && (gone ==> q.latched == ErrNoDevice)
    && (p.owed < q.owed ==> !IsError(p.closing, q.owed[|q.owed| - 1]) || q.latched != Ok)
    && (p.owed < q.owed && q.owed[|q.owed| - 1].result == ErrNoDevice && IsError(p.closing, q.owed[|q.owed| - 1]) ==>
          q.latched == ErrNoDevice)
  }

  lemma FinishShows(p: Pool, i: nat, result: ResultCode, native: int)
    requires i < |p.slots| && p.slots[i].acquisition.Some?
    ensures Shows(p, Finish(p, i, result, native), false)
  {
    hide Finish;
    FinishParts(p, i, result, native);
  }

  lemma SameShows(p: Pool, q: Pool)
    requires q.latched == p.latched && |q.owed| <= |p.owed|
    ensures Shows(p, q, false)
  {
  }

  lemma SubmitShows(p: Pool, i: nat, samePayload: bool, length: nat, reportId: nat, status: int, mapped: ResultCode)
    requires SlotsOk(p)
    ensures Shows(p, Submit(p, i, samePayload, length, reportId, status, mapped).1, false)
  {
    hide Finish, Shows;
    SameShows(p, p);
    if i < |p.slots| && p.slots[i].state.Prepared? {
      assert SlotOk(p.slots[i]);
      var named := p.(slots := p.slots[i := p.slots[i].(reportId := reportId)]);
      var sent := named.(slots := named.slots[i := named.slots[i].(state := Submitted)]);
      SameShows(p, sent);
      FinishShows(named, i, ErrParam, ERROR_INVALID_PARAM);
      FinishShows(named, i, if p.present then ErrIo else ErrNoDevice,
                  if p.closing then TRANSFER_CANCELLED else ERROR_NO_DEVICE);
      FinishShows(sent, i, mapped, status);
      ShowsFrom(p, named, Submit(p, i, samePayload, length, reportId, status, mapped).1);
      ShowsFrom(p, sent, Submit(p, i, samePayload, length, reportId, status, mapped).1);
    }
  }

  lemma ShowsFrom(p: Pool, r: Pool, q: Pool)
    requires r.latched == p.latched && r.owed == p.owed && r.closing == p.closing
    ensures Shows(r, q, false) <==> Shows(p, q, false)
  {
  }

  /** Any other section ends no transfer and shows nothing new. */
  lemma QuietShows(p: Pool, a: Act)
    requires a.AcquireAct? || a.AbandonAct? || a.CloseAct? || a.DeliverAct? || a.LeaveAct? || a.SetAct? || a.ClearAct?
    ensures Shows(p, Step(p, a), false)
  {
    hide Shows, IndexOf, PutBack, SumCapacity;
    if a.AbandonAct? && a.slot < |p.slots| {
      PutBackSlots(p, a.slot);
    }
    SameShows(p, Step(p, a));
  }

  /**
   * Every critical section: the first error that ends a transfer shows, and stays, until the device is lost; an end
   * without an error, or cancelled by the close, shows nothing.
   */
  lemma ErrorsShow(p: Pool, a: Act)
    requires PoolOk(p)
    ensures Shows(p, Step(p, a), a.GoneAct?)
  {
    hide StackOk, ReservationsOk, TotalsOk, LivesOk, SlotOk, Shows, Finish, Submit, Acquire, Abandon, SetReservation,
         ClearReservation;
    match a
    case SubmitAct(i, same, length, id, status, mapped) => SubmitShows(p, i, same, length, id, status, mapped);
    case FinishedAct(i, result, native) => EndShows(p, i, result, native);
    case CancelAct(i) => EndShows(p, i, ErrIo, TRANSFER_CANCELLED);
    case GoneAct => GoneShows(p);
    case _ => QuietShows(p, a);
  }

  lemma EndShows(p: Pool, i: nat, result: ResultCode, native: int)
    requires SlotsOk(p)
    ensures Shows(p, p, false)
    ensures i < |p.slots| && !p.slots[i].state.Free? ==> Shows(p, Finish(p, i, result, native), false)
  {
    hide Finish, Shows;
    SameShows(p, p);
    if i < |p.slots| && !p.slots[i].state.Free? {
      assert SlotOk(p.slots[i]);
      FinishShows(p, i, result, native);
    }
  }

  lemma GoneShows(p: Pool)
    ensures Shows(p, Step(p, GoneAct), true)
  {
  }

  /** An error that shows once shows forever, and only the loss of the device takes its place. */
  lemma {:induction false} ErrorStays(p: Pool, acts: seq<Act>)
    requires PoolOk(p) && p.latched != Ok
    ensures Run(p, acts).latched == p.latched || Run(p, acts).latched == ErrNoDevice
    ensures p.latched == ErrNoDevice ==> Run(p, acts).latched == ErrNoDevice
  {
    hide PoolOk, Step;
    if |acts| == 0 {
    } else {
      ErrorStays(p, acts[..|acts| - 1]);
      RunKeeps(p, acts[..|acts| - 1]);
      ErrorsShow(Run(p, acts[..|acts| - 1]), acts[|acts| - 1]);
    }
  }
}
