/**
 * The account that the pool keeps is exactly what its Nodes may claim, as long as every Node has one transfer
 * at a time, which is how the API uses the pool (src/api/c_api.cpp, src/transport/transport.cpp).
 */
module PoolAccount {
  import opened Common
  import opened PoolModel
  import opened PoolFacts
  import opened PoolRun
  import opened PoolGuarantee

  /** Every reservation is used once at most, and the unfilled total is the open claims. */
  predicate Exact(p: Pool) {
    (forall j :: 0 <= j < |p.reservations| ==> p.reservations[j].inUse <= 1) && p.unfilled == Claims(p.reservations)
  }

  /** A Node asks for a transfer only while it has none (`transfer_inflight` in `aoahid_node_submit`). */
  predicate OneEach(p: Pool, a: Act) {
    a.AcquireAct? && a.own.Some? ==>
      var j := IndexOf(p.reservations, a.own.value); j < |p.reservations| ==> p.reservations[j].inUse == 0
  }

  predicate OneEachRun(p: Pool, acts: seq<Act>) {
    |acts| == 0 || (OneEachRun(p, acts[..|acts| - 1]) && OneEach(Run(p, acts[..|acts| - 1]), acts[|acts| - 1]))
  }

  // ----- Counts ----------------------------------------------------------------------------------

  lemma {:induction false} CountStrict(slots: seq<Slot>, i: nat, a: Test, b: Test)
    requires i < |slots| && (forall s :: Passes(s, a) ==> Passes(s, b)) && Passes(slots[i], b) && !Passes(slots[i], a)
    ensures Count(slots, a) < Count(slots, b)
  {
    hide Passes;
    var n := |slots| - 1;
    if i < n {
      CountStrict(slots[..n], i, a, b);
    } else {
      CountWeaker(slots[..n], a, b);
    }
  }

  /** Where the sums agree, every reservation's claim agrees with its account. */
  lemma {:induction false} TermsAgree(rs: seq<Reservation>, slots: seq<Slot>, j: nat)
    requires (forall k :: 0 <= k < |rs| ==> ReservationOk(rs[k], slots)) && j < |rs|
             && Claims(rs) == SumUnfilled(rs, slots)
    ensures Claim(rs[j]) == rs[j].capacity - Count(slots, Charges(rs[j].token))
  {
    hide Count;
    var n := |rs| - 1;
    assert ReservationOk(rs[n], slots);
    ChargedIsUsed(slots, rs[n].token);
    ClaimsAtMost(rs[..n], slots);
    if j < n {
      TermsAgree(rs[..n], slots, j);
    }
  }

  /** The one transfer of a Node is counted exactly when the Node has reserved any. */
  lemma OneIsCounted(p: Pool, i: nat)
    requires ReservationsOk(p) && TotalsOk(p) && Exact(p) && i < |p.slots| && p.slots[i].reservation.Some?
    ensures var j := IndexOf(p.reservations, p.slots[i].reservation.value);
            j < |p.reservations| && p.reservations[j].inUse == 1
                && (p.slots[i].counted <==> p.reservations[j].capacity > 0)
  {
    hide Count, IndexOf, Claims, SumUnfilled, SumCapacity;
    OwnReservation(p, i);
    var j := IndexOf(p.reservations, p.slots[i].reservation.value);
    var token := p.reservations[j].token;
    assert ReservationOk(p.reservations[j], p.slots);
    TermsAgree(p.reservations, p.slots, j);
    if p.slots[i].counted {
      CountMember(p.slots, i, Charges(token));
    } else {
      CountStrict(p.slots, i, Charges(token), Uses(token));
    }
  }

  // ----- Steps -----------------------------------------------------------------------------------

  lemma PutBackExact(p: Pool, i: nat)
    requires ReservationsOk(p) && TotalsOk(p) && Exact(p) && i < |p.slots|
    ensures Exact(PutBack(p, i))
  {
    hide PutBack, IndexOf, Claims, ReservationsOk, TotalsOk;
    if p.slots[i].reservation.Some? {
      OwnReservation(p, i);
      OneIsCounted(p, i);
      var j := IndexOf(p.reservations, p.slots[i].reservation.value);
      ClaimsUpdate(p.reservations, j, p.reservations[j].(inUse := 0));
    } else {
      NoReservation(p, i);
    }
  }

  lemma FinishExact(p: Pool, i: nat, result: ResultCode, native: int)
    requires ReservationsOk(p) && TotalsOk(p) && Exact(p) && i < |p.slots|
    ensures Exact(Finish(p, i, result, native))
  {
    hide PutBack, Latch, Count, IndexOf, Claims, ReservationOk, SumCapacity, SumUnfilled;
    var slot := p.slots[i];
    var noted :=
      if slot.acquisition.Some?
      then p.(owed := p.owed + [Notice(slot.acquisition.value, result, native)],
              callbacksActive := p.callbacksActive + 1)
      else p;
    LatchKeeps(noted, result, native);
    PutBackExact(Latch(noted, result, native), i);
  }

  lemma SameExact(p: Pool, r: Pool)
    requires Exact(p) && r.reservations == p.reservations && r.unfilled == p.unfilled
    ensures Exact(r)
  {
  }

  lemma SubmitExact(p: Pool, i: nat, samePayload: bool, length: nat, reportId: nat, status: int, mapped: ResultCode)
    requires PoolOk(p) && Exact(p)
    ensures Exact(Submit(p, i, samePayload, length, reportId, status, mapped).1)
  {
    hide Finish, Exact, StackOk, SlotsOk, ReservationsOk, TotalsOk, LivesOk;
    if i < |p.slots| && p.slots[i].state.Prepared? {
      var named := p.(slots := p.slots[i := p.slots[i].(reportId := reportId)]);
      RelabelKeeps(p, i, named.slots[i]);
      SameExact(p, named);
      if !samePayload || length != named.slots[i].reportLength || length == 0 || length > p.maximumReport
          || reportId > 255 {
        FinishExact(named, i, ErrParam, ERROR_INVALID_PARAM);
      } else if p.closing || !p.present {
        FinishExact(named, i, if p.present then ErrIo else ErrNoDevice, if p.closing then TRANSFER_CANCELLED
                    else ERROR_NO_DEVICE);
      } else {
        var sent := named.(slots := named.slots[i := named.slots[i].(state := Submitted)]);
        RelabelKeeps(named, i, sent.slots[i]);
        SameExact(named, sent);
        if status != 0 {
          FinishExact(sent, i, mapped, status);
        }
      }
    }
  }

  lemma AcquireExact(p: Pool, hidId: nat, token: Option<nat>, length: nat)
    requires Exact(p) && OneEach(p, AcquireAct(hidId, token, length))
    ensures Exact(Acquire(p, hidId, token, length).1)
  {
    hide IndexOf, Claims;
    if Acquire(p, hidId, token, length).0 == Ok && token.Some? {
      var j := IndexOf(p.reservations, token.value);
      ClaimsUpdate(p.reservations, j, p.reservations[j].(inUse := 1));
    }
  }

  lemma SetExact(p: Pool, hidId: nat, count: nat)
    requires Exact(p)
    ensures Exact(SetReservation(p, hidId, count).1)
  {
    hide Claims, SetReservation;
    SetResult(p, hidId, count);
    ClaimsAppend(p.reservations, Reservation(p.nextToken, hidId, count, 0));
  }

  lemma ClearExact(p: Pool, token: nat)
    requires Exact(p)
    ensures Exact(ClearReservation(p, token).1)
  {
    hide IndexOf, Claims;
    var j := IndexOf(p.reservations, token);
    if ClearReservation(p, token).0 == Ok {
      ClaimsRemove(p.reservations, j);
    }
  }

  lemma StepExact(p: Pool, a: Act)
    requires PoolOk(p) && Exact(p) && OneEach(p, a)
    ensures Exact(Step(p, a))
  {
    hide Exact, OneEach, Acquire, Submit, Finish, PutBack, SetReservation, ClearReservation, StackOk, SlotsOk,
         ReservationsOk, TotalsOk,
         LivesOk;
    match a
    case AcquireAct(hidId, token, length) => AcquireExact(p, hidId, token, length);
    case SubmitAct(i, samePayload, length, reportId, status, mapped) =>
        SubmitExact(p, i, samePayload, length, reportId, status, mapped);
    case FinishedAct(i, result, native) =>
      if i < |p.slots| {
        FinishExact(p, i, result, native);
      }
    case AbandonAct(i) =>
      if i < |p.slots| {
        PutBackExact(p, i);
        if p.slots[i].state.Prepared? {
          SameExact(PutBack(p, i), Abandon(p, i));
        }
      }
    case CancelAct(i) =>
      if i < |p.slots| {
        FinishExact(p, i, ErrIo, TRANSFER_CANCELLED);
      }
    case SetAct(hidId, count) => SetExact(p, hidId, count);
    case ClearAct(token) => ClearExact(p, token);
    case _ => SameExact(p, Step(p, a));
  }

  lemma {:induction false} RunExact(p: Pool, acts: seq<Act>)
    requires PoolOk(p) && Exact(p) && OneEachRun(p, acts)
    ensures Exact(Run(p, acts))
  {
    hide PoolOk, Exact, OneEach, Step;
    if |acts| == 0 {
    } else {
      RunExact(p, acts[..|acts| - 1]);
      RunKeeps(p, acts[..|acts| - 1]);
      StepExact(Run(p, acts[..|acts| - 1]), acts[|acts| - 1]);
    }
  }

  /**
   * While every Node has one transfer at a time, the pool's own numbers decide: the guarantee holds exactly
   * without a shortfall, and survives a new reservation exactly when free slots not promised yet cover it.
   */
  lemma AccountDecides(count: nat, maximumReport: nat, acts: seq<Act>, hidId: nat, more: nat)
    requires count > 0 && maximumReport > 0 && OneEachRun(NewPool(count, maximumReport), acts)
    requires Granting(Run(NewPool(count, maximumReport), acts))
    ensures var p := Run(NewPool(count, maximumReport), acts);
            && (Guaranteed(p) <==> Shortfall(p) == 0)
            && (SetReservation(p, hidId, more).0 == Ok ==>
                  (Guaranteed(SetReservation(p, hidId, more).1) <==> more <= |p.freeStack| - p.unfilled))
  {
    hide PoolOk, Guaranteed, Granting, NewPool, Run, Claims, SetReservation, OneEachRun;
    var blank, p := NewPool(count, maximumReport), Run(NewPool(count, maximumReport), acts);
    NewOk(count, maximumReport);
    NewExact(count, maximumReport);
    RunKeeps(blank, acts);
    RunExact(blank, acts);
    SameLimit(blank, acts);
    GuaranteeIsExact(p);
    if SetReservation(p, hidId, more).0 == Ok {
      NewReservationIsHonoured(p, hidId, more);
    }
  }

  lemma NewExact(count: nat, maximumReport: nat)
    ensures Exact(NewPool(count, maximumReport)) && NewPool(count, maximumReport).maximumReport == maximumReport
  {
  }

  lemma StepLimit(p: Pool, a: Act)
    ensures Step(p, a).maximumReport == p.maximumReport
  {
    hide Acquire, Submit, Finish, Abandon, SetReservation, ClearReservation;
    match a
    case AcquireAct(hidId, token, length) => AcquireFlag(p, hidId, token, length);
    case SubmitAct(i, samePayload, length, reportId, status, mapped) =>
      SubmitFlag(p, i, samePayload, length, reportId, status, mapped);
    case FinishedAct(i, result, native) =>
      if i < |p.slots| {
        FinishFlag(p, i, result, native);
      }
    case AbandonAct(i) => AbandonFlag(p, i);
    case CancelAct(i) =>
      if i < |p.slots| {
        FinishFlag(p, i, ErrIo, TRANSFER_CANCELLED);
      }
    case SetAct(hidId, count) => SetResult(p, hidId, count);
    case ClearAct(token) => ClearFlag(p, token);
    case _ =>
  }

  lemma {:induction false} SameLimit(p: Pool, acts: seq<Act>)
    ensures Run(p, acts).maximumReport == p.maximumReport
  {
    hide Step;
    if |acts| == 0 {
    } else {
      SameLimit(p, acts[..|acts| - 1]);
      StepLimit(Run(p, acts[..|acts| - 1]), acts[|acts| - 1]);
    }
  }

  // ----- A promise that cannot be kept -----------------------------------------------------------

  /** Two Nodes that reserve nothing take both slots; then a third one reserves a transfer. */
  function Late(): seq<Act> {
    [SetAct(1, 0), SetAct(2, 0), AcquireAct(1, Some(0), 8), AcquireAct(2, Some(1), 8), SetAct(7, 1)]
  }

  /** What the run has left of the pool that matters to the next reservation. */
  predicate Left(p: Pool, free: seq<nat>, rs: seq<Reservation>) {
    && Granting(p) && |p.slots| == 2 && p.maximumReport == 8 && p.freeStack == free && p.reservations == rs
    && p.reservedTotal == 0 == p.unfilled && p.nextToken == 2
  }

  lemma NodesOpen()
    ensures Left(Step(Step(NewPool(2, 8), SetAct(1, 0)), SetAct(2, 0)), [0, 1],
                 [Reservation(0, 1, 0, 0), Reservation(1, 2, 0, 0)])
  {
    assert NewPool(2, 8).freeStack == [0, 1];
  }

  lemma NodeTakes(p: Pool, free: seq<nat>, rs: seq<Reservation>, j: nat)
    requires Left(p, free, rs) && j < |rs| == 2 && rs[0].token != rs[1].token && rs[j].hidId != 0 && rs[j].capacity == 0
    requires |free| > 0 && free[|free| - 1] < 2
    ensures Left(Step(p, AcquireAct(rs[j].hidId, Some(rs[j].token), 8)), free[..|free| - 1],
                 rs[j := rs[j].(inUse := rs[j].inUse + 1)])
  {
    hide IndexOf;
    IndexIs(rs, j);
  }

  lemma ThirdReserves(p: Pool, rs: seq<Reservation>)
    requires Left(p, [], rs) && |rs| == 2 && rs[0].token == 0 && rs[1].token == 1 && rs[0].hidId != 7
             && rs[1].hidId != 7
    ensures var q := Step(p, SetAct(7, 1));
            OwnRequest(q, 7, 2, 8) && Granting(q) && Acquire(q, 7, Some(2), 8).0 == ErrBusy
  {
    hide IndexOf, Take;
    var q := Step(p, SetAct(7, 1));
    assert q.reservations == rs + [Reservation(2, 7, 1, 0)];
    IndexIs(q.reservations, 2);
  }

  /** The reservation is accepted, and the first transfer asked of it is refused. */
  lemma LateReservation()
    ensures var p := Run(NewPool(2, 8), Late());
            OwnRequest(p, 7, 2, 8) && Granting(p) && Acquire(p, 7, Some(2), 8).0 == ErrBusy && !Guaranteed(p)
  {
    hide Run, Guaranteed, Step, Left, OwnRequest, Acquire, NewPool, Granting;
    var p, a := NewPool(2, 8), Late();
    RunOfFive(p, a);
    NodesOpen();
    var two, rs := Step(Step(p, a[0]), a[1]), [Reservation(0, 1, 0, 0), Reservation(1, 2, 0, 0)];
    NodeTakes(two, [0, 1], rs, 0);
    assert [0, 1][..1] == [0] && [0][..0] == [];
    var first, one := Step(two, a[2]), rs[0 := rs[0].(inUse := 1)];
    NodeTakes(first, [0], one, 1);
    ThirdReserves(Step(first, a[3]), one[1 := one[1].(inUse := 1)]);
    RefusedAtOnce(Run(p, a));
  }

  lemma RefusedAtOnce(p: Pool)
    requires OwnRequest(p, 7, 2, 8) && Granting(p) && Acquire(p, 7, Some(2), 8).0 == ErrBusy
    ensures !Guaranteed(p)
  {
    hide OwnRequest, Acquire;
    NothingRun(p);
    assert Acquire(Run(p, []), 7, Some(2), 8).0 != Ok;
  }

  lemma RunOfFive(p: Pool, acts: seq<Act>)
    requires |acts| == 5
    ensures Run(p, acts) == Step(Step(Step(Step(Step(p, acts[0]), acts[1]), acts[2]), acts[3]), acts[4])
  {
    hide Step;
    assert acts[..4][..3] == acts[..3] && acts[..3][..2] == acts[..2] && acts[..2][..1] == acts[..1]
        && acts[..1][..0] == [];
    assert Run(p, acts[..1]) == Step(p, acts[0]);
    assert Run(p, acts[..2]) == Step(Run(p, acts[..1]), acts[1]);
    assert Run(p, acts[..3]) == Step(Run(p, acts[..2]), acts[2]);
    assert Run(p, acts[..4]) == Step(Run(p, acts[..3]), acts[3]);
  }
}
