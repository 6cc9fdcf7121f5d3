/**
 * What a reservation is worth: exactly when the pool grants every Node its reserved transfers, now and along
 * every later run, and what a new reservation does to that (src/transport/transport.cpp).
 */
module PoolGuarantee {
  import opened Common
  import opened PoolModel
  import opened PoolFacts
  import opened PoolRun

  // ----- The library's own account ---------------------------------------------------------------

  /** Free slots that a full claim of every reservation would still lack. */
  function Shortfall(p: Pool): nat {
    Max(0, p.unfilled - |p.freeStack|)
  }

  /** The places still owed to reservations are fewer than the slots that are free or used by no reservation. */
  lemma UnfilledIsBounded(p: Pool)
    requires PoolOk(p)
    ensures p.unfilled == SumUnfilled(p.reservations, p.slots)
    ensures p.unfilled < |p.freeStack| + (p.outstanding - Count(p.slots, IsCounted))
  {
    hide Count, SumCapacity, SumUnfilled, ReservationsOk, LivesOk, SlotsOk;
  }

  lemma PutBackShortfall(p: Pool, i: nat)
    requires i < |p.slots| && SlotOk(p.slots[i])
    ensures Shortfall(PutBack(p, i)) <= Shortfall(p)
  {
    hide IndexOf;
  }

  lemma FinishShortfall(p: Pool, i: nat, result: ResultCode, native: int)
    requires i < |p.slots| && SlotOk(p.slots[i])
    ensures Shortfall(Finish(p, i, result, native)) <= Shortfall(p)
  {
    hide PutBack, Latch;
    var slot := p.slots[i];
    var noted :=
      if slot.acquisition.Some?
      then p.(owed := p.owed + [Notice(slot.acquisition.value, result, native)],
              callbacksActive := p.callbacksActive + 1)
      else p;
    LatchKeeps(noted, result, native);
    PutBackShortfall(Latch(noted, result, native), i);
  }

  lemma SubmitShortfall(p: Pool, i: nat, samePayload: bool, length: nat, reportId: nat, status: int, mapped: ResultCode)
    requires SlotsOk(p)
    ensures Shortfall(Submit(p, i, samePayload, length, reportId, status, mapped).1) <= Shortfall(p)
  {
    hide Finish;
    if i < |p.slots| && p.slots[i].state.Prepared? {
      assert SlotOk(p.slots[i]);
      var named := p.(slots := p.slots[i := p.slots[i].(reportId := reportId)]);
      FinishShortfall(named, i, ErrParam, ERROR_INVALID_PARAM);
      FinishShortfall(named, i, if p.present then ErrIo else ErrNoDevice, if p.closing then TRANSFER_CANCELLED
                      else ERROR_NO_DEVICE);
      FinishShortfall(named.(slots := named.slots[i := named.slots[i].(state := Submitted)]), i, mapped, status);
    }
  }

  lemma ClearShortfall(p: Pool, token: nat)
    ensures Shortfall(ClearReservation(p, token).1) <= Shortfall(p)
  {
    hide IndexOf;
  }

  lemma AcquireShortfall(p: Pool, hidId: nat, token: Option<nat>, length: nat)
    ensures Shortfall(Acquire(p, hidId, token, length).1) <= Shortfall(p)
  {
    hide IndexOf;
  }

  /** Nothing but a new reservation makes the shortfall larger. */
  lemma StepShortfall(p: Pool, a: Act)
    requires PoolOk(p) && !a.SetAct?
    ensures Shortfall(Step(p, a)) <= Shortfall(p)
  {
    hide Acquire, Submit, Finish, PutBack, ClearReservation, StackOk, ReservationsOk, TotalsOk, LivesOk, SlotOk,
         Shortfall;
    match a
    case AcquireAct(hidId, token, length) => AcquireShortfall(p, hidId, token, length);
    case SubmitAct(i, samePayload, length, reportId, status, mapped) =>
        SubmitShortfall(p, i, samePayload, length, reportId, status, mapped);
    case FinishedAct(i, result, native) =>
      if i < |p.slots| {
        FinishShortfall(p, i, result, native);
      }
    case AbandonAct(i) =>
      if i < |p.slots| {
        PutBackShortfall(p, i);
        SameShortfall(PutBack(p, i), Abandon(p, i), p);
      }
    case CancelAct(i) =>
      if i < |p.slots| {
        FinishShortfall(p, i, ErrIo, TRANSFER_CANCELLED);
      }
    case ClearAct(token) => ClearShortfall(p, token);
    case _ => SameShortfall(p, Step(p, a), p);
  }

  lemma SameShortfall(p: Pool, r: Pool, q: Pool)
    ensures r.unfilled == p.unfilled && r.freeStack == p.freeStack ==> Shortfall(r) == Shortfall(p)
  {
  }

  lemma {:induction false} ShortfallOnlyShrinks(p: Pool, acts: seq<Act>)
    requires PoolOk(p) && forall a :: a in acts ==> !a.SetAct?
    ensures Shortfall(Run(p, acts)) <= Shortfall(p)
  {
    hide PoolOk, Step, Shortfall;
    if |acts| == 0 {
    } else {
      ShortfallOnlyShrinks(p, acts[..|acts| - 1]);
      RunKeeps(p, acts[..|acts| - 1]);
      StepShortfall(Run(p, acts[..|acts| - 1]), acts[|acts| - 1]);
    }
  }

  /** A well-formed request of a Node that has not used up its reservation. */
  predicate OwnRequest(p: Pool, hidId: nat, token: nat, length: nat) {
    var j := IndexOf(p.reservations, token);
    && hidId != 0 && 0 < length <= p.maximumReport && j < |p.reservations| && p.reservations[j].hidId == hidId
    && p.reservations[j].inUse < p.reservations[j].capacity
  }

  lemma {:induction false} UnfilledAtLeast(rs: seq<Reservation>, slots: seq<Slot>, j: nat)
    requires j < |rs| && forall k :: 0 <= k < |rs| ==> ReservationOk(rs[k], slots)
    ensures SumUnfilled(rs, slots) >= rs[j].capacity - Count(slots, Charges(rs[j].token)) >= 0
  {
    hide Count;
    var n := |rs| - 1;
    assert ReservationOk(rs[n], slots) && ReservationOk(rs[j], slots);
    if j < n {
      UnfilledAtLeast(rs[..n], slots, j);
    } else {
      UnfilledNonNegative(rs[..n], slots);
    }
  }

  /** Without a shortfall an open, present Device gives a Node its reserved slot: never BUSY. */
  lemma ReservedSlotIsFree(p: Pool, hidId: nat, token: nat, length: nat)
    requires PoolOk(p) && Shortfall(p) == 0 && p.present && !p.closing && OwnRequest(p, hidId, token, length)
    ensures Acquire(p, hidId, Some(token), length).0 == Ok
  {
    hide Count, StackOk, SlotsOk, LivesOk, IndexOf, Take, SumCapacity;
    var j := IndexOf(p.reservations, token);
    assert ReservationOk(p.reservations[j], p.slots);
    ChargedIsUsed(p.slots, p.reservations[j].token);
    UnfilledAtLeast(p.reservations, p.slots, j);
    TopExists(p);
  }

  /** The guarantee holds along every run that makes no new reservation. */
  lemma GuaranteePersists(p: Pool, acts: seq<Act>, hidId: nat, token: nat, length: nat)
    requires PoolOk(p) && Shortfall(p) == 0 && forall a :: a in acts ==> !a.SetAct?
    ensures var q := Run(p, acts);
            q.present && !q.closing && OwnRequest(q, hidId, token, length) ==>
                Acquire(q, hidId, Some(token), length).0 == Ok
  {
    hide PoolOk, Run, OwnRequest, Acquire;
    ShortfallOnlyShrinks(p, acts);
    RunKeeps(p, acts);
    var q := Run(p, acts);
    if q.present && !q.closing && OwnRequest(q, hidId, token, length) {
      ReservedSlotIsFree(q, hidId, token, length);
    }
  }

  // ----- Claims ----------------------------------------------------------------------------------

  /** The transfers that a Node may still ask for out of its reservation. */
  function Claim(r: Reservation): nat {
    if r.inUse < r.capacity then r.capacity - r.inUse else 0
  }

  function Claims(rs: seq<Reservation>): nat {
    if |rs| == 0 then 0 else Claims(rs[..|rs| - 1]) + Claim(rs[|rs| - 1])
  }

  lemma {:induction false} ClaimsUpdate(rs: seq<Reservation>, j: nat, r: Reservation)
    requires j < |rs|
    ensures Claims(rs[j := r]) + Claim(rs[j]) == Claims(rs) + Claim(r)
  {
    hide Claim;
    var n := |rs| - 1;
    if j < n {
      ClaimsUpdate(rs[..n], j, r);
      assert rs[j := r][..n] == rs[..n][j := r];
    } else {
      assert rs[j := r][..n] == rs[..n];
    }
  }

  lemma {:induction false} ClaimsRemove(rs: seq<Reservation>, j: nat)
    requires j < |rs|
    ensures Claims(rs[..j] + rs[j + 1..]) == Claims(rs) - Claim(rs[j])
  {
    hide Claim;
    var n := |rs| - 1;
    if j == n {
      assert rs[..j] + rs[j + 1..] == rs[..n];
    } else {
      ClaimsRemove(rs[..n], j);
      var shorter := rs[..j] + rs[j + 1..];
      assert shorter[..n - 1] == rs[..n][..j] + rs[..n][j + 1..] && shorter[n - 1] == rs[n];
    }
  }

  lemma {:induction false} ClaimIncluded(rs: seq<Reservation>, j: nat)
    requires j < |rs|
    ensures Claim(rs[j]) <= Claims(rs)
  {
    hide Claim;
    if j < |rs| - 1 {
      ClaimIncluded(rs[..|rs| - 1], j);
    }
  }

  lemma {:induction false} SomeClaim(rs: seq<Reservation>) returns (j: nat)
    requires Claims(rs) > 0
    ensures j < |rs| && Claim(rs[j]) > 0
  {
    hide Claim;
    if Claim(rs[|rs| - 1]) > 0 {
      j := |rs| - 1;
    } else {
      j := SomeClaim(rs[..|rs| - 1]);
    }
  }

  /** The library's account never falls short of the claims: a counted transfer is one in use. */
  lemma {:induction false} ClaimsAtMost(rs: seq<Reservation>, slots: seq<Slot>)
    requires forall k :: 0 <= k < |rs| ==> ReservationOk(rs[k], slots)
    ensures Claims(rs) <= SumUnfilled(rs, slots)
  {
    hide Count;
    if |rs| == 0 {
    } else {
      var n := |rs| - 1;
      assert ReservationOk(rs[n], slots);
      ChargedIsUsed(slots, rs[n].token);
      ClaimsAtMost(rs[..n], slots);
    }
  }

  /** Free slots beyond the claims, or short of them. */
  function Slack(p: Pool): int {
    |p.freeStack| - Claims(p.reservations)
  }

  // ----- No step breaks a promise ----------------------------------------------------------------

  lemma PutBackSlack(p: Pool, i: nat)
    requires i < |p.slots|
    ensures Slack(PutBack(p, i)) >= Slack(p)
  {
    hide IndexOf, Claims;
    var slot := p.slots[i];
    var j := if slot.reservation.Some? then IndexOf(p.reservations, slot.reservation.value) else |p.reservations|;
    if j < |p.reservations| && p.reservations[j].inUse > 0 {
      ClaimsUpdate(p.reservations, j, p.reservations[j].(inUse := p.reservations[j].inUse - 1));
    }
  }

  lemma FinishSlack(p: Pool, i: nat, result: ResultCode, native: int)
    requires i < |p.slots|
    ensures Slack(Finish(p, i, result, native)) >= Slack(p)
  {
    hide PutBack, Latch;
    var slot := p.slots[i];
    var noted :=
      if slot.acquisition.Some?
      then p.(owed := p.owed + [Notice(slot.acquisition.value, result, native)],
              callbacksActive := p.callbacksActive + 1)
      else p;
    LatchKeeps(noted, result, native);
    PutBackSlack(Latch(noted, result, native), i);
  }

  lemma SubmitSlack(p: Pool, i: nat, samePayload: bool, length: nat, reportId: nat, status: int, mapped: ResultCode)
    ensures Slack(Submit(p, i, samePayload, length, reportId, status, mapped).1) >= Slack(p)
  {
    hide Finish, Claims;
    if i < |p.slots| && p.slots[i].state.Prepared? {
      var named := p.(slots := p.slots[i := p.slots[i].(reportId := reportId)]);
      FinishSlack(named, i, ErrParam, ERROR_INVALID_PARAM);
      FinishSlack(named, i, if p.present then ErrIo else ErrNoDevice, if p.closing then TRANSFER_CANCELLED
                  else ERROR_NO_DEVICE);
      FinishSlack(named.(slots := named.slots[i := named.slots[i].(state := Submitted)]), i, mapped, status);
    }
  }

  lemma ClearSlack(p: Pool, token: nat)
    ensures Slack(ClearReservation(p, token).1) >= Slack(p)
  {
    hide IndexOf, Claims, Claim;
    var j := IndexOf(p.reservations, token);
    if j < |p.reservations| {
      ClaimsRemove(p.reservations, j);
    }
  }

  /** A transfer out of the Node's own reservation uses up a claim. */
  lemma FillingSlack(p: Pool, hidId: nat, token: nat, length: nat)
    requires OwnRequest(p, hidId, token, length) && Acquire(p, hidId, Some(token), length).0 == Ok
    ensures var q := Acquire(p, hidId, Some(token), length).1;
            && Slack(q) == Slack(p) && |q.freeStack| == |p.freeStack| - 1
            && q.present && !q.closing && q.maximumReport == p.maximumReport
  {
    hide IndexOf, Claims;
    var j := IndexOf(p.reservations, token);
    ClaimsUpdate(p.reservations, j, p.reservations[j].(inUse := p.reservations[j].inUse + 1));
  }

  /** Any other transfer is given only while the free slots exceed the account. */
  lemma OtherSlack(p: Pool, hidId: nat, token: Option<nat>, length: nat)
    requires PoolOk(p) && Acquire(p, hidId, token, length).0 == Ok
             && !(token.Some? && OwnRequest(p, hidId, token.value, length))
    ensures Slack(Acquire(p, hidId, token, length).1) >= 0
  {
    hide IndexOf, Claims, Count, SumUnfilled, SumCapacity, StackOk, SlotsOk, LivesOk;
    ClaimsAtMost(p.reservations, p.slots);
    if token.Some? {
      var j := IndexOf(p.reservations, token.value);
      ClaimsUpdate(p.reservations, j, p.reservations[j].(inUse := p.reservations[j].inUse + 1));
    }
  }

  lemma AcquireSlack(p: Pool, hidId: nat, token: Option<nat>, length: nat)
    requires PoolOk(p) && Slack(p) >= 0
    ensures Slack(Acquire(p, hidId, token, length).1) >= 0
  {
    hide PoolOk, OwnRequest, Slack;
    if Acquire(p, hidId, token, length).0 == Ok {
      if token.Some? && OwnRequest(p, hidId, token.value, length) {
        FillingSlack(p, hidId, token.value, length);
      } else {
        OtherSlack(p, hidId, token, length);
      }
    } else {
      RefusedAcquire(p, hidId, token, length);
    }
  }

  lemma RefusedAcquire(p: Pool, hidId: nat, token: Option<nat>, length: nat)
    requires Acquire(p, hidId, token, length).0 != Ok
    ensures Acquire(p, hidId, token, length).1 == p
  {
    hide IndexOf, Take;
  }

  lemma StepSlack(p: Pool, a: Act)
    requires PoolOk(p) && Slack(p) >= 0 && !a.SetAct?
    ensures Slack(Step(p, a)) >= 0
  {
    hide Acquire, Submit, Finish, PutBack, ClearReservation, PoolOk, Slack;
    match a
    case AcquireAct(hidId, token, length) => AcquireSlack(p, hidId, token, length);
    case SubmitAct(i, samePayload, length, reportId, status, mapped) =>
        SubmitSlack(p, i, samePayload, length, reportId, status, mapped);
    case FinishedAct(i, result, native) =>
      if i < |p.slots| {
        FinishSlack(p, i, result, native);
      }
    case AbandonAct(i) =>
      if i < |p.slots| {
        PutBackSlack(p, i);
        SameSlack(PutBack(p, i), Abandon(p, i));
      }
    case CancelAct(i) =>
      if i < |p.slots| {
        FinishSlack(p, i, ErrIo, TRANSFER_CANCELLED);
      }
    case ClearAct(token) => ClearSlack(p, token);
    case _ => SameSlack(p, Step(p, a));
  }

  lemma SameSlack(p: Pool, r: Pool)
    ensures r.reservations == p.reservations && r.freeStack == p.freeStack ==> Slack(r) == Slack(p)
  {
  }

  lemma {:induction false} RunSlack(p: Pool, acts: seq<Act>)
    requires PoolOk(p) && Slack(p) >= 0 && forall a :: a in acts ==> !a.SetAct?
    ensures Slack(Run(p, acts)) >= 0
  {
    hide PoolOk, Step, Slack;
    if |acts| == 0 {
    } else {
      RunSlack(p, acts[..|acts| - 1]);
      RunKeeps(p, acts[..|acts| - 1]);
      StepSlack(Run(p, acts[..|acts| - 1]), acts[|acts| - 1]);
    }
  }

  // ----- The guarantee, exactly ------------------------------------------------------------------

  /** Along every run without a new reservation a present, open Device grants every Node its reserved transfers. */
  ghost predicate Guaranteed(p: Pool) {
    forall acts: seq<Act>, hidId: nat, token: nat, length: nat ::
      (forall a :: a in acts ==> !a.SetAct?) && Granting(Run(p, acts)) && OwnRequest(Run(p, acts), hidId, token, length)
      ==> Acquire(Run(p, acts), hidId, Some(token), length).0 == Ok
  }

  predicate Granting(p: Pool) {
    p.present && !p.closing
  }

  /** While the claims do not exceed the free slots, a claim is granted. */
  lemma ClaimIsGranted(p: Pool, hidId: nat, token: nat, length: nat)
    requires PoolOk(p) && Slack(p) >= 0 && Granting(p) && OwnRequest(p, hidId, token, length)
    ensures Acquire(p, hidId, Some(token), length).0 == Ok
  {
    hide IndexOf, Claims, Count, SlotsOk, ReservationsOk, TotalsOk, LivesOk, Take;
    ClaimIncluded(p.reservations, IndexOf(p.reservations, token));
    TopExists(p);
  }

  lemma ClaimsHonoured(p: Pool)
    requires PoolOk(p) && Slack(p) >= 0
    ensures Guaranteed(p)
  {
    hide PoolOk, Slack, Run, OwnRequest, Acquire, Granting;
    forall acts: seq<Act>, hidId: nat, token: nat, length: nat |
      (forall a :: a in acts ==> !a.SetAct?) && Granting(Run(p, acts)) && OwnRequest(Run(p, acts), hidId, token, length)
      ensures Acquire(Run(p, acts), hidId, Some(token), length).0 == Ok
    {
      RunSlack(p, acts);
      RunKeeps(p, acts);
      ClaimIsGranted(Run(p, acts), hidId, token, length);
    }
  }

  /** A claim that is still open can be asked for. */
  lemma OpenClaim(p: Pool) returns (hidId: nat, token: nat)
    requires PoolOk(p) && Claims(p.reservations) > 0 && p.maximumReport > 0
    ensures OwnRequest(p, hidId, token, 1)
  {
    hide Claims, Count, StackOk, SlotsOk, TotalsOk, LivesOk, IndexOf;
    var j := SomeClaim(p.reservations);
    hidId, token := p.reservations[j].hidId, p.reservations[j].token;
    assert ReservationOk(p.reservations[j], p.slots);
    IndexIs(p.reservations, j);
  }

  lemma GrantedWhileFree(p: Pool, hidId: nat, token: nat)
    requires PoolOk(p) && Granting(p) && OwnRequest(p, hidId, token, 1) && |p.freeStack| > 0
    ensures Acquire(p, hidId, Some(token), 1).0 == Ok
  {
    hide IndexOf, Count, SlotsOk, ReservationsOk, TotalsOk, LivesOk, Take;
    TopExists(p);
  }

  lemma RunAfter(p: Pool, a: Act, acts: seq<Act>)
    ensures Run(p, [a] + acts) == Run(Step(p, a), acts)
    decreases |acts|
  {
    hide Step;
    if |acts| == 0 {
      assert ([a] + acts)[..0] == [] && [a] + acts == [a];
    } else {
      RunAfter(p, a, acts[..|acts| - 1]);
      assert ([a] + acts)[..|acts|] == [a] + acts[..|acts| - 1];
    }
  }

  /** Otherwise the Nodes only have to ask for what they were promised, one after another, until one is refused. */
  lemma {:induction false} BrokenPromise(p: Pool) returns (acts: seq<Act>, hidId: nat, token: nat)
    requires PoolOk(p) && Slack(p) < 0 && Granting(p) && p.maximumReport > 0
    ensures forall a :: a in acts ==> a.AcquireAct? && a.own.Some?
    ensures var q := Run(p, acts);
            Granting(q) && OwnRequest(q, hidId, token, 1) && Acquire(q, hidId, Some(token), 1).0 == ErrBusy
    decreases |p.freeStack|
  {
    hide PoolOk, OwnRequest, Claims, Run, Acquire, Slack;
    assert Claims(p.reservations) > |p.freeStack| by { SlackIs(p); }
    hidId, token := OpenClaim(p);
    if |p.freeStack| == 0 {
      acts := [];
      NothingRun(p);
      NothingFree(p, hidId, token);
    } else {
      var first := AcquireAct(hidId, Some(token), 1);
      GrantedWhileFree(p, hidId, token);
      FillingSlack(p, hidId, token, 1);
      StepKeeps(p, first);
      var q := Step(p, first);
      var rest: seq<Act>;
      rest, hidId, token := BrokenPromise(q);
      acts := [first] + rest;
      RunAfter(p, first, rest);
    }
  }

  lemma SlackIs(p: Pool)
    ensures Slack(p) == |p.freeStack| - Claims(p.reservations)
  {
  }

  lemma NothingRun(p: Pool)
    ensures Run(p, []) == p
  {
  }

  lemma NothingFree(p: Pool, hidId: nat, token: nat)
    requires Granting(p) && OwnRequest(p, hidId, token, 1) && |p.freeStack| == 0
    ensures Acquire(p, hidId, Some(token), 1).0 == ErrBusy
  {
    hide IndexOf, Take;
  }

  /** The guarantee holds exactly while the open claims do not exceed the free slots. */
  lemma GuaranteeIsExact(p: Pool)
    requires PoolOk(p) && Granting(p) && p.maximumReport > 0
    ensures Guaranteed(p) <==> Claims(p.reservations) <= |p.freeStack|
  {
    hide PoolOk, Run, OwnRequest, Acquire, Granting, Claims;
    if Slack(p) >= 0 {
      ClaimsHonoured(p);
    } else {
      var acts, hidId, token := BrokenPromise(p);
      assert !Guaranteed(p);
    }
  }

  /** A new reservation leaves the guarantee exactly when the free slots that nobody can claim cover it. */
  lemma NewReservationIsHonoured(p: Pool, hidId: nat, count: nat)
    requires PoolOk(p) && SetReservation(p, hidId, count).0 == Ok && p.maximumReport > 0
    ensures Guaranteed(SetReservation(p, hidId, count).1) <==> count <= |p.freeStack| - Claims(p.reservations)
  {
    hide PoolOk, Guaranteed, Claims;
    var q := SetReservation(p, hidId, count).1;
    SetKeeps(p, hidId, count);
    assert q.reservations[..|p.reservations|] == p.reservations;
    ClaimsAppend(p.reservations, Reservation(p.nextToken, hidId, count, 0));
    GuaranteeIsExact(q);
  }

  lemma ClaimsAppend(rs: seq<Reservation>, r: Reservation)
    ensures Claims(rs + [r]) == Claims(rs) + Claim(r)
  {
    assert (rs + [r])[..|rs|] == rs;
  }
}
