/**
 * A Context whose Devices hold their real transfer pools: every count on which the Context frees a Device is
 * the pool's own, so a freed Device is never called back (src/api/c_api.cpp, src/transport/transport.cpp).
 */
module DeviceDrain {
  import opened Common
  import G = ContextGraph
  import P = PoolModel
  import F = PoolFacts
  import R = PoolRun

  datatype System = System(graph: G.Graph, pools: seq<P.Pool>)

  const NEW_SYSTEM := System(G.NEW_GRAPH, [])

  /** Transfers of a pool that somebody still waits for: slots in use, and callbacks that have not left. */
  function Busy(p: P.Pool): int {
    p.outstanding + p.callbacksActive
  }

  // ----- Steps -----------------------------------------------------------------------------------

  /**
   * Opening brings a pool, cancelling closes it, and a step of a pool is told to the graph by what it does to
   * the pool's count. All other steps of the graph are its own.
   */
  datatype Act =
    | OpenDevice(count: nat, maximumReport: nat)
    | CancelAll(d: nat)
    | OfGraph(inner: G.Act)
    | OfPool(d: nat, act: P.Act)

  predicate GraphOnly(a: G.Act) {
    a.BeginClose? || a.FinishClose? || a.Reap? || a.Destroy? || a.AddChannel? || a.SendBulk? || a.BulkDone?
  }

  predicate Alive(g: G.Graph, d: nat) {
    d in g.devices || d in g.closing
  }

  /** What callers do needs a live Device; what libusb and the callbacks do may come at any time. */
  predicate Allowed(g: G.Graph, d: nat, a: P.Act) {
    && !a.CloseAct?
    && (a.AcquireAct? || a.SubmitAct? || a.AbandonAct? || a.CancelAct? || a.SetAct? || a.ClearAct? ==> Alive(g, d))
  }

  /** The graph hears of a pool's step as a report sent, a report done, or not at all. */
  function Told(g: G.Graph, d: nat, before: P.Pool, after: P.Pool): G.Graph {
    if Busy(after) > Busy(before) then G.Step(g, G.SendReport(d))
    else if Busy(after) < Busy(before) then G.Step(g, G.ReportDone(d))
    else g
  }

  function Step(s: System, a: Act): System {
    match a
    case OpenDevice(count, maximumReport) =>
      if count == 0 then s else System(G.Opened(s.graph), s.pools + [P.NewPool(count, maximumReport)])
    case CancelAll(d) =>
      if d in s.graph.closing && d < |s.pools|
      then System(G.Step(s.graph, G.Cancel(d)), s.pools[d := P.Step(s.pools[d], P.CloseAct)]) else s
    case OfGraph(b) => if GraphOnly(b) then s.(graph := G.Step(s.graph, b)) else s
    case OfPool(d, b) =>
      if d < |s.pools| && Allowed(s.graph, d, b)
      then System(Told(s.graph, d, s.pools[d], P.Step(s.pools[d], b)), s.pools[d := P.Step(s.pools[d], b)]) else s
  }

  function Run(s: System, acts: seq<Act>): System {
    if |acts| == 0 then s else Step(Run(s, acts[..|acts| - 1]), acts[|acts| - 1])
  }

  // ----- What a pool's step does to its count ----------------------------------------------------

  /** Whether a step may be told: by one at most, and up only for an acquire of an open pool. */
  predicate Counts(p: P.Pool, r: P.Pool, acquires: bool) {
    && r.closing == p.closing && Busy(p) - 1 <= Busy(r) <= Busy(p) + 1
    && (Busy(r) > Busy(p) ==> acquires && !p.closing)
  }

  lemma FinishCounts(p: P.Pool, i: nat, result: ResultCode, native: int)
    requires F.StackOk(p) && F.SlotsOk(p) && i < |p.slots| && !p.slots[i].state.Free?
    ensures var r := P.Finish(p, i, result, native); r.closing == p.closing && Busy(r) == Busy(p)
  {
    hide P.PutBack, P.Latch, F.Count;
    var slot := p.slots[i];
    assert F.SlotOk(slot);
    R.NotAllFree(p, i);
    var noted := p.(owed := p.owed + [P.Notice(slot.acquisition.value, result, native)],
                    callbacksActive := p.callbacksActive + 1);
    R.LatchKeeps(noted, result, native);
    R.PutBackSlots(P.Latch(noted, result, native), i);
  }

  lemma AbandonCounts(p: P.Pool, i: nat)
    requires F.StackOk(p) && F.SlotsOk(p)
    ensures Counts(p, P.Abandon(p, i), false)
  {
    hide P.PutBack, F.Count;
    if i < |p.slots| && p.slots[i].state.Prepared? {
      R.NotAllFree(p, i);
      R.PutBackSlots(p, i);
    }
  }

  lemma SubmitCounts(p: P.Pool, i: nat, samePayload: bool, length: nat, reportId: nat, status: int, mapped: ResultCode)
    requires F.PoolOk(p)
    ensures Counts(p, P.Submit(p, i, samePayload, length, reportId, status, mapped).1, false)
  {
    hide P.Finish, F.StackOk, F.SlotsOk, F.ReservationsOk, F.TotalsOk, F.LivesOk;
    if i < |p.slots| && p.slots[i].state.Prepared? {
      var named := p.(slots := p.slots[i := p.slots[i].(reportId := reportId)]);
      R.RelabelKeeps(p, i, named.slots[i]);
      var sent := named.(slots := named.slots[i := named.slots[i].(state := P.Submitted)]);
      R.RelabelKeeps(named, i, sent.slots[i]);
      FinishCounts(named, i, ErrParam, P.ERROR_INVALID_PARAM);
      FinishCounts(named, i, if p.present then ErrIo else ErrNoDevice, if p.closing then P.TRANSFER_CANCELLED
                   else P.ERROR_NO_DEVICE);
      FinishCounts(sent, i, mapped, status);
    }
  }

  lemma AcquireCounts(p: P.Pool, hidId: nat, token: Option<nat>, length: nat)
    ensures Counts(p, P.Acquire(p, hidId, token, length).1, true)
  {
    hide P.IndexOf;
  }

  lemma ClearCounts(p: P.Pool, token: nat)
    ensures Counts(p, P.ClearReservation(p, token).1, false)
  {
    hide P.IndexOf;
  }

  lemma StepCounts(p: P.Pool, a: P.Act)
    requires F.PoolOk(p) && !a.CloseAct?
    ensures Counts(p, P.Step(p, a), a.AcquireAct?)
  {
    hide P.Acquire, P.Submit, P.Finish, P.Abandon, P.SetReservation, P.ClearReservation, F.StackOk, F.SlotsOk,
         F.ReservationsOk,
         F.TotalsOk, F.LivesOk;
    match a
    case AcquireAct(hidId, token, length) => AcquireCounts(p, hidId, token, length);
    case SubmitAct(i, samePayload, length, reportId, status, mapped) =>
        SubmitCounts(p, i, samePayload, length, reportId, status, mapped);
    case FinishedAct(i, result, native) =>
      if i < |p.slots| && p.slots[i].state.Submitted? {
        FinishCounts(p, i, result, native);
      }
    case AbandonAct(i) => AbandonCounts(p, i);
    case CancelAct(i) =>
      if i < |p.slots| && p.slots[i].state.Prepared? {
        FinishCounts(p, i, ErrIo, P.TRANSFER_CANCELLED);
      }
    case SetAct(hidId, count) => R.SetResult(p, hidId, count);
    case ClearAct(token) => ClearCounts(p, token);
    case _ =>
  }

  lemma BusyIsNatural(p: P.Pool)
    requires F.PoolOk(p)
    ensures Busy(p) >= 0 && (P.Drained(p) <==> Busy(p) == 0)
  {
    hide F.Count, F.SlotsOk, F.ReservationsOk, F.TotalsOk;
    F.CountBound(p.slots, F.IsFree);
  }

  // ----- The invariant ---------------------------------------------------------------------------

  /** The graph's count of a Device is its pool's, and a pool is closing exactly when its Device is cancelled. */
  ghost predicate Linked(g: G.Graph, d: nat, p: P.Pool) {
    d < |g.traffic| && F.PoolOk(p) && g.traffic[d].own == Busy(p) && (p.closing <==> d in g.cancelled)
  }

  ghost predicate SystemOk(s: System) {
    && G.GraphOk(s.graph) && |s.pools| == |s.graph.traffic|
    && (forall d :: d in s.graph.cancelled ==> d < |s.pools|)
    && forall d :: 0 <= d < |s.pools| ==> Linked(s.graph, d, s.pools[d])
  }

  lemma PoolStepKeeps(s: System, d: nat, b: P.Act)
    requires SystemOk(s) && d < |s.pools| && Allowed(s.graph, d, b)
    ensures SystemOk(Step(s, OfPool(d, b)))
  {
    hide G.GraphOk, F.PoolOk, P.Step;
    var g, p := s.graph, s.pools[d];
    var r := P.Step(p, b);
    assert Linked(g, d, p);
    R.StepKeeps(p, b);
    StepCounts(p, b);
    BusyIsNatural(r);
    G.StepKeeps(g, G.SendReport(d));
    G.StepKeeps(g, G.ReportDone(d));
    var after := Step(s, OfPool(d, b));
    forall x | 0 <= x < |after.pools|
      ensures Linked(after.graph, x, after.pools[x])
    {
      assert Linked(g, x, s.pools[x]);
    }
  }

  lemma OpenKeeps(s: System, count: nat, maximumReport: nat)
    requires SystemOk(s) && count > 0
    ensures SystemOk(Step(s, OpenDevice(count, maximumReport)))
  {
    hide G.GraphOk, F.PoolOk;
    G.OpenOwned(s.graph);
    R.NewOk(count, maximumReport);
    var r := Step(s, OpenDevice(count, maximumReport));
    forall x | 0 <= x < |r.pools|
      ensures Linked(r.graph, x, r.pools[x])
    {
      if x < |s.pools| {
        assert Linked(s.graph, x, s.pools[x]);
      }
    }
  }

  lemma CancelKeeps(s: System, d: nat)
    requires SystemOk(s) && d in s.graph.closing && d < |s.pools|
    ensures SystemOk(Step(s, CancelAll(d)))
  {
    hide G.GraphOk, F.PoolOk;
    G.StepKeeps(s.graph, G.Cancel(d));
    assert Linked(s.graph, d, s.pools[d]);
    R.StepKeeps(s.pools[d], P.CloseAct);
    var r := Step(s, CancelAll(d));
    forall x | 0 <= x < |r.pools|
      ensures Linked(r.graph, x, r.pools[x])
    {
      assert Linked(s.graph, x, s.pools[x]);
    }
  }

  /** Steps of the graph alone leave the pools' counts and the cancelled Devices as they are. */
  lemma GraphSame(g: G.Graph, b: G.Act)
    requires GraphOnly(b)
    ensures var r := G.Step(g, b);
            && r.cancelled == g.cancelled && |r.traffic| == |g.traffic|
            && forall d :: 0 <= d < |g.traffic| ==> r.traffic[d].own == g.traffic[d].own
  {
    hide G.Without, G.Drained;
  }

  lemma GraphStepKeeps(s: System, b: G.Act)
    requires SystemOk(s) && GraphOnly(b)
    ensures SystemOk(Step(s, OfGraph(b)))
  {
    hide G.GraphOk, F.PoolOk, G.Step;
    G.StepKeeps(s.graph, b);
    GraphSame(s.graph, b);
    var r := Step(s, OfGraph(b));
    forall x | 0 <= x < |r.pools|
      ensures Linked(r.graph, x, r.pools[x])
    {
      assert Linked(s.graph, x, s.pools[x]);
    }
  }

  lemma StepKeeps(s: System, a: Act)
    requires SystemOk(s)
    ensures SystemOk(Step(s, a))
  {
    hide SystemOk, G.Step, P.Step, P.NewPool, Told, Allowed;
    match a
    case OpenDevice(count, maximumReport) =>
      if count > 0 {
        OpenKeeps(s, count, maximumReport);
      }
    case CancelAll(d) =>
      if d in s.graph.closing && d < |s.pools| {
        CancelKeeps(s, d);
      }
    case OfGraph(b) =>
      if GraphOnly(b) {
        GraphStepKeeps(s, b);
      }
    case OfPool(d, b) =>
      if d < |s.pools| && Allowed(s.graph, d, b) {
        PoolStepKeeps(s, d, b);
      }
  }

  lemma NewSystemOk()
    ensures SystemOk(NEW_SYSTEM)
  {
    G.NothingReserved();
  }

  lemma {:induction false} RunKeeps(acts: seq<Act>)
    ensures SystemOk(Run(NEW_SYSTEM, acts))
  {
    hide SystemOk, Step;
    if |acts| == 0 {
      NewSystemOk();
    } else {
      RunKeeps(acts[..|acts| - 1]);
      StepKeeps(Run(NEW_SYSTEM, acts[..|acts| - 1]), acts[|acts| - 1]);
    }
  }

  // ----- The theorem -----------------------------------------------------------------------------

  /**
   * Freeing is safe: in every interleaving of the Context's calls with all pools and their callbacks, a Device
   * that has been freed has a pool that is drained, and whatever happens to that pool afterwards, no callback
   * of it ever runs again.
   */
  lemma FreedIsSilent(acts: seq<Act>, d: nat, later: seq<P.Act>)
    requires d in Run(NEW_SYSTEM, acts).graph.freed
    ensures var s := Run(NEW_SYSTEM, acts);
            && d < |s.pools| && s.pools[d].closing && P.Drained(s.pools[d]) && G.Drained(s.graph, d)
            && P.Drained(P.Run(s.pools[d], later)) && P.Run(s.pools[d], later).fired == s.pools[d].fired
  {
    hide Run, G.Owned, F.PoolOk, P.Run, P.Drained;
    RunKeeps(acts);
    var s := Run(NEW_SYSTEM, acts);
    G.OwnedOnce(s.graph, d);
    assert Linked(s.graph, d, s.pools[d]);
    assert G.Drained(s.graph, d);
    BusyIsNatural(s.pools[d]);
    R.DrainIsStable(s.pools[d], later);
  }

  /** And the other way round: what the Context cannot free yet is owed a callback, by its pool or a Channel. */
  lemma ParkedIsOwed(acts: seq<Act>, d: nat)
    requires d in Run(NEW_SYSTEM, acts).graph.graveyard
    ensures var s := Run(NEW_SYSTEM, acts);
            && d < |s.pools| == |s.graph.traffic|
            && (G.Drained(s.graph, d) <==> P.Drained(s.pools[d]) && G.NoTransfers(s.graph.traffic[d].channels))
  {
    hide Run, F.PoolOk, P.Drained, G.NoTransfers;
    RunKeeps(acts);
    var s := Run(NEW_SYSTEM, acts);
    G.OwnedOnce(s.graph, d);
    assert Linked(s.graph, d, s.pools[d]);
    BusyIsNatural(s.pools[d]);
  }
}
