/**
 * The transfer pool of a Device as values: slots, the free stack, reservations, and what every critical
 * section does to them (src/transport/transport.cpp).
 */
module PoolModel {
  import opened Common

  // ----- State -----------------------------------------------------------------------------------

  datatype SlotState = Free | Prepared | Submitted

  /** `acquisition` stands for the user pointer and completion callback of one successful acquire. */
  datatype Slot = Slot(state: SlotState, acquisition: Option<nat>, hidId: nat, reportId: nat, reportLength: nat,
                       counted: bool,
                       reservation: Option<nat>)

  datatype Reservation = Reservation(token: nat, hidId: nat, capacity: nat, inUse: nat)

  datatype Notice = Notice(acquisition: nat, result: ResultCode, native: int)

  /**
   * `owed` are the callbacks that a critical section has decided on and that have not run yet, `ran` those
   * that have run and still have to leave. `fired`, `abandoned` and `returned` only record what happened.
   */
  datatype Pool = Pool(
    slots: seq<Slot>, freeStack: seq<nat>, reservations: seq<Reservation>, reservedTotal: int, unfilled: int,
        outstanding: int,
    callbacksActive: int, latched: ResultCode, present: bool, closing: bool, maximumReport: nat, nextToken: nat,
        nextAcquisition: nat,
    owed: seq<Notice>, ran: nat, fired: seq<nat>, abandoned: seq<nat>, returned: seq<nat>)

  const EMPTY_SLOT := Slot(Free, None, 0, 0, 0, false, None)

  // libusb's status numbers.
  const TRANSFER_CANCELLED := 3
  const ERROR_INVALID_PARAM := -2
  const ERROR_NO_DEVICE := -4

  function NewPool(count: nat, maximumReport: nat): Pool {
    Pool(seq(count, _ => EMPTY_SLOT), seq(count, k => k), [], 0, 0, 0, 0, Ok, true, false, maximumReport, 0, 0, [], 0,
         [], [], [])
  }

  // ----- Critical sections -----------------------------------------------------------------------

  function IndexOf(reservations: seq<Reservation>, token: nat): (j: nat)
    ensures j <= |reservations|
    ensures j < |reservations| ==> reservations[j].token == token
    ensures forall k :: 0 <= k < j ==> reservations[k].token != token
  {
    if |reservations| == 0 then 0
    else
      var j := IndexOf(reservations[..|reservations| - 1], token);
      if j < |reservations| - 1 then j
      else if reservations[|reservations| - 1].token == token then |reservations| - 1 else |reservations|
  }

  /** `release_reservation_locked`: the slot's own reservation gets its place back. */
  function Release(p: Pool, i: nat): Pool
    requires i < |p.slots|
  {
    var slot := p.slots[i];
    var j := if slot.reservation.Some? then IndexOf(p.reservations, slot.reservation.value) else |p.reservations|;
    if j < |p.reservations| && p.reservations[j].inUse > 0 then
      p.(reservations := p.reservations[j := p.reservations[j].(inUse := p.reservations[j].inUse - 1)],
         unfilled := if slot.counted then p.unfilled + 1 else p.unfilled)
    else p
  }

  /** What `finish_locked` and `abandon` have in common: the slot goes back on the free stack. */
  function PutBack(p: Pool, i: nat): Pool
    requires i < |p.slots|
  {
    var r := Release(p, i);
    r.(slots := p.slots[i := p.slots[i].(state := Free, acquisition := None, reportId := 0, reportLength := 0,
                                         counted := false,
                                         reservation := None)],
       outstanding := if p.outstanding > 0 then p.outstanding - 1 else p.outstanding,
       freeStack := p.freeStack + [i],
       returned := p.returned + if p.slots[i].acquisition.Some? then [p.slots[i].acquisition.value] else [])
  }

  /** `latch_locked`: a lost device always shows, any other error only when it is the first. */
  function Latch(p: Pool, result: ResultCode, native: int): Pool {
    if result == Ok || (p.closing && native == TRANSFER_CANCELLED) then p
    else if result == ErrNoDevice then p.(present := false, latched := ErrNoDevice)
    else if p.latched == Ok then p.(latched := result)
    else p
  }

  /** `finish_locked`. */
  function Finish(p: Pool, i: nat, result: ResultCode, native: int): Pool
    requires i < |p.slots|
  {
    var slot := p.slots[i];
    var noted :=
      if slot.acquisition.Some?
      then p.(owed := p.owed + [Notice(slot.acquisition.value, result, native)],
              callbacksActive := p.callbacksActive + 1)
      else p;
    PutBack(Latch(noted, result, native), i)
  }

  /** `acquire`: the result, the pool, and the slot taken. */
  function Acquire(p: Pool, hidId: nat, token: Option<nat>, length: nat): (ResultCode, Pool, nat) {
    var j := if token.Some? then IndexOf(p.reservations, token.value) else |p.reservations|;
    if hidId == 0 || length == 0 || length > p.maximumReport then
        (if length > 65535 then ErrOverflow else ErrParam, p, 0)
    else if token.Some? && (j == |p.reservations| || p.reservations[j].hidId != hidId) then (ErrParam, p, 0)
    else if !p.present then (ErrNoDevice, p, 0)
    else if p.closing then (ErrIo, p, 0)
    else if |p.freeStack| == 0 then (ErrBusy, p, 0)
    else
      var filling := token.Some? && p.reservations[j].inUse < p.reservations[j].capacity;
      var i := p.freeStack[|p.freeStack| - 1];
      if !filling && |p.freeStack| <= p.unfilled then (ErrBusy, p, 0)
      else if i >= |p.slots| then (ErrInternal, p, 0)
      else (Ok, Take(p, i, hidId, token, length, filling), i)
  }

  /** The slot on top of the free stack is prepared for its new owner. */
  function Take(p: Pool, i: nat, hidId: nat, token: Option<nat>, length: nat, filling: bool): Pool
    requires i < |p.slots| && |p.freeStack| > 0
  {
    var j := if token.Some? then IndexOf(p.reservations, token.value) else |p.reservations|;
    p.(slots := p.slots[i := p.slots[i].(state := Prepared, acquisition := Some(p.nextAcquisition), hidId := hidId,
                                         reportId := 0,
                                         reportLength := length, counted := filling, reservation := token)],
       freeStack := p.freeStack[..|p.freeStack| - 1],
       reservations := if j < |p.reservations| then
           p.reservations[j := p.reservations[j].(inUse := p.reservations[j].inUse + 1)]
                       else p.reservations,
       unfilled := if filling then p.unfilled - 1 else p.unfilled,
       outstanding := p.outstanding + 1,
       nextAcquisition := p.nextAcquisition + 1)
  }

  /** `submit_prepared`; `status` is libusb's answer and `mapped` its result code. */
  function Submit(p: Pool, i: nat, samePayload: bool, length: nat, reportId: nat, status: int,
                  mapped: ResultCode): (ResultCode, Pool) {
    if i >= |p.slots| then (ErrParam, p)
    else
      var named := if p.slots[i].state.Prepared? then p.(slots := p.slots[i := p.slots[i].(reportId := reportId)])
          else p;
      var slot := named.slots[i];
      if !slot.state.Prepared? then (ErrParam, named)
      else if !samePayload || length != slot.reportLength || length == 0 || length > p.maximumReport
          || reportId > 255 then
        (ErrParam, Finish(named, i, ErrParam, ERROR_INVALID_PARAM))
      else if p.closing || !p.present then
        var result := if p.present then ErrIo else ErrNoDevice;
        (result, Finish(named, i, result, if p.closing then TRANSFER_CANCELLED else ERROR_NO_DEVICE))
      else
        var sent := named.(slots := named.slots[i := slot.(state := Submitted)]);
        if status == 0 then (Ok, sent) else (mapped, Finish(sent, i, mapped, status))
  }

  /** `transfer_finished`: the USB callback of a slot. */
  function Finished(p: Pool, i: nat, result: ResultCode, native: int): Pool {
    if i < |p.slots| && p.slots[i].state.Submitted? then Finish(p, i, result, native) else p
  }

  /** `abandon`: the slot goes back without a callback. */
  function Abandon(p: Pool, i: nat): Pool {
    if i >= |p.slots| || !p.slots[i].state.Prepared? then p
    else
      var r := PutBack(p, i);
      r.(abandoned := p.abandoned + if p.slots[i].acquisition.Some? then [p.slots[i].acquisition.value] else [])
  }

  /** One round of the loop of `cancel_all`: a prepared slot is finished, a submitted one only asked to end. */
  function CancelSlot(p: Pool, i: nat): Pool {
    if i < |p.slots| && p.slots[i].state.Prepared? then Finish(p, i, ErrIo, TRANSFER_CANCELLED) else p
  }

  /** `deliver_terminal` outside the lock: the k-th owed callback runs. */
  function Deliver(p: Pool, k: nat): Pool {
    if k >= |p.owed| then p
    else p.(owed := p.owed[..k] + p.owed[k + 1..], ran := p.ran + 1, fired := p.fired + [p.owed[k].acquisition])
  }

  /** The end of `deliver_terminal`: the callback has left. */
  function Leave(p: Pool): Pool {
    if p.ran == 0 then p
    else p.(ran := p.ran - 1, callbacksActive := if p.callbacksActive > 0 then p.callbacksActive - 1
            else p.callbacksActive)
  }

  /** `set_reservation`: the result and the new pool; the new token is `nextToken`. */
  function SetReservation(p: Pool, hidId: nat, count: nat): (ResultCode, Pool) {
    if hidId == 0 then (ErrParam, p)
    else if !p.present then (ErrNoDevice, p)
    else if p.closing then (ErrIo, p)
    else if (exists k :: 0 <= k < |p.reservations| && p.reservations[k].hidId == hidId)
            || (count > 0 && (count >= |p.slots| || p.reservedTotal >= |p.slots| - count)) then (ErrParam, p)
    else
      (Ok, p.(reservations := p.reservations + [Reservation(p.nextToken, hidId, count, 0)],
              nextToken := p.nextToken + 1,
              reservedTotal := p.reservedTotal + count, unfilled := p.unfilled + count))
  }

  /** `clear_reservation`. */
  function ClearReservation(p: Pool, token: nat): (ResultCode, Pool) {
    var j := IndexOf(p.reservations, token);
    if j == |p.reservations| then (ErrParam, p)
    else if p.reservations[j].inUse != 0 then (ErrBusy, p)
    else
      (Ok, p.(reservations := p.reservations[..j] + p.reservations[j + 1..],
              reservedTotal := p.reservedTotal - p.reservations[j].capacity,
                  unfilled := p.unfilled - p.reservations[j].capacity))
  }

  /** `drained`. */
  predicate Drained(p: Pool) {
    p.outstanding == 0 && p.callbacksActive == 0
  }

  // ----- Runs ------------------------------------------------------------------------------------

  /** The critical sections and callbacks of all threads, in any order. */
  datatype Act =
    | AcquireAct(hidId: nat, own: Option<nat>, length: nat)
    | SubmitAct(slot: nat, samePayload: bool, length: nat, reportId: nat, status: int, mapped: ResultCode)
    | FinishedAct(slot: nat, result: ResultCode, native: int)
    | AbandonAct(slot: nat)
    | CloseAct
    | CancelAct(slot: nat)
    | DeliverAct(k: nat)
    | LeaveAct
    | SetAct(hidId: nat, count: nat)
    | ClearAct(token: nat)
    | GoneAct

  function Step(p: Pool, a: Act): Pool {
    match a
    case AcquireAct(hidId, own, length) => Acquire(p, hidId, own, length).1
    case SubmitAct(slot, samePayload, length, reportId, status, mapped) =>
      Submit(p, slot, samePayload, length, reportId, status, mapped).1
    case FinishedAct(slot, result, native) => Finished(p, slot, result, native)
    case AbandonAct(slot) => Abandon(p, slot)
    case CloseAct => p.(closing := true)
    case CancelAct(slot) => CancelSlot(p, slot)
    case DeliverAct(k) => Deliver(p, k)
    case LeaveAct => Leave(p)
    case SetAct(hidId, count) => SetReservation(p, hidId, count).1
    case ClearAct(token) => ClearReservation(p, token).1
    case GoneAct => p.(present := false, latched := ErrNoDevice)
  }

  function Run(p: Pool, acts: seq<Act>): Pool {
    if |acts| == 0 then p else Step(Run(p, acts[..|acts| - 1]), acts[|acts| - 1])
  }
}
