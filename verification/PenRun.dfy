/**
 * Pen tool changes: in runs without uncertain completions the target never sees Invert change while the pen
 * is in range, and an accepted tool change first takes the pen out of range.
 */
module PenRun {
  import opened Common
  import opened BitField
  import opened Factories
  import opened NodeModel
  import opened NodeFacts
  import opened NodeRun

  // ----- What the Node knows about the target ----------------------------------------------------

  /** The caller's accepted tool is not the one the target has in range. */
  predicate ToolChangePending(s: NodeState)
    requires s.PenState?
  {
    s.emitted.inRange && s.desired.eraser != s.emitted.eraser
  }

  /** `emitted` is what the target has: in or out of range, and in range also the tool and the position. */
  predicate EmittedIsLast(s: NodeState, last: Option<Image>)
    requires s.PenState?
  {
    && (last.None? ==> !s.emitted.inRange)
    && (last.Some? ==>
          && last.value.PenImage? && last.value.sample.inRange == s.emitted.inRange
          && (s.emitted.inRange ==>
                && last.value.sample.eraser == s.emitted.eraser
                && last.value.sample.x == s.emitted.x && last.value.sample.y == s.emitted.y))
  }

  /** A pending tool change is marked, and stops the pen from staying in range. */
  predicate ToolChangeMarked(s: NodeState)
    requires s.PenState?
  {
    && (ToolChangePending(s) ==> s.eraserPending)
    && (s.departing ==> ToolChangePending(s))
    && (ToolChangePending(s) && s.desired.inRange ==> s.departing)
  }

  predicate PenTracked(w: World) {
    w.node.state.PenState? && EmittedIsLast(w.node.state, w.target.last) && ToolChangeMarked(w.node.state)
  }

  // ----- Steps -----------------------------------------------------------------------------------

  lemma CallTracked(o: Options, s: NodeState, m: Mutation, last: Option<Image>)
    requires o.Pen? && s.PenState? && RightProfile(o, m) && EmittedIsLast(s, last) && ToolChangeMarked(s)
    ensures var r := EditOf(o, s, m).state; r.PenState? && EmittedIsLast(r, last) && ToolChangeMarked(r)
  {
    hide ValidPen, Differing;
  }

  lemma AppliedTracked(o: Options, s: NodeState, last: Option<Image>)
    requires o.Pen? && s.PenState? && EmittedIsLast(s, last) && ToolChangeMarked(s)
    ensures var n := Node(s, true, true, true, Ok, NOTHING_SUBMITTED, false);
            var r := Completed(n, Outcome(Ok, 0)).state;
            r.PenState? && EmittedIsLast(r, Some(PenImage(PenReport(o, s)))) && ToolChangeMarked(r)
  {
  }

  /** What a success does to the state of a pen does not depend on the rest of the Node. */
  lemma SuccessState(n: Node, c: Outcome)
    requires c.result == Ok && c.native >= 0 && n.state.PenState?
    ensures Completed(n, c).state
            == Completed(Node(n.state, true, true, true, Ok, NOTHING_SUBMITTED, false), Outcome(Ok, 0)).state
  {
  }

  lemma NotAppliedPen(n: Node, c: Outcome)
    requires !MayHaveApplied(c)
    ensures Completed(n, c).state == n.state
  {
  }

  lemma StampedPen(o: Options, s: NodeState, ticks: nat)
    requires s.PenState?
    ensures Stamped(o, s, ticks) == s
  {
  }

  lemma StepTracked(o: Options, w: World, e: Event)
    requires o.Pen? && Accepted(o) && Steady(o, w) && PenTracked(w) && CertainEvent(e)
    ensures PenTracked(Step(o, w, e))
  {
    hide Accepted, StateOk, EditOf, Completed, Refused, Stamped, EmittedIsLast, ToolChangeMarked, Sendable, Remembered,
         PenReport,
         AnyPressed;
    match e
    case Call(m) =>
      if RightProfile(o, m) {
        CallTracked(o, w.node.state, m, w.target.last);
      }
    case Submit(ticks) => StampedPen(o, w.node.state, ticks);
    case Reject(ticks, outcome) =>
      if Enabled(w, e) {
        RejectKeeps(o, w, ticks, outcome);
      }
    case Complete(outcome, applied) =>
      if Enabled(w, e) {
        if outcome.result == Ok {
          AppliedTracked(o, w.node.state, w.target.last);
          SuccessState(w.node, outcome);
        } else {
          NotAppliedPen(w.node, outcome);
        }
      }
    case Neutralize => NeutralizeTracked(o, w.node, w.target.last);
    case _ =>
  }

  lemma NeutralizeTracked(o: Options, n: Node, last: Option<Image>)
    requires n.state.PenState? && EmittedIsLast(n.state, last) && ToolChangeMarked(n.state)
    ensures var r := MakeNeutral(o, n).state; r.PenState? && EmittedIsLast(r, last) && ToolChangeMarked(r)
  {
  }

  lemma {:induction false} RunTracked(o: Options, events: seq<Event>)
    requires o.Pen? && Accepted(o) && Certain(events)
    ensures PenTracked(RunAll(o, NewWorld(o), events))
  {
    hide Accepted, Step, Steady, CertainEvent;
    if |events| == 0 {
    } else {
      var prefix, e := events[..|events| - 1], events[|events| - 1];
      RunSteady(o, prefix);
      RunTracked(o, prefix);
      StepTracked(o, RunAll(o, NewWorld(o), prefix), e);
    }
  }

  // ----- Consecutive reports ---------------------------------------------------------------------

  /** The report that the last event of a run brings to the target, after the report that was there. */
  predicate AppliedNext(o: Options, events: seq<Event>, c: Outcome) {
    Accepted(o) && Enabled(RunAll(o, NewWorld(o), events), Complete(c, true))
  }

  function LastPen(t: Target): PenSample {
    if t.last.Some? && t.last.value.PenImage? then t.last.value.sample else NO_PEN
  }

  /** Two consecutive applied reports with the pen in range show the same tool. */
  lemma InvertIsStable(o: Options, events: seq<Event>, c: Outcome)
    requires o.Pen? && AppliedNext(o, events, c) && Certain(events) && c.result == Ok
    ensures var w := RunAll(o, NewWorld(o), events);
            var was, now := LastPen(w.target), LastPen(Step(o, w, Complete(c, true)).target);
            was.inRange && now.inRange ==> was.eraser == now.eraser
  {
    hide Accepted, StateOk, Sendable, Remembered, RunAll, NewWorld, Completed;
    RunSteady(o, events);
    RunTracked(o, events);
  }

  /** Without the tip down a report carries no pressure; with it down it carries some, when pressure is declared. */
  lemma PressureFollowsTip(o: Options, events: seq<Event>)
    requires o.Pen? && Accepted(o)
    ensures var sample := LastPen(RunAll(o, NewWorld(o), events).target);
            && (!sample.tip ==> sample.pressure == 0)
            && (sample.tip ==> sample.inRange && (o.pressure.Some? <==> sample.pressure > 0))
  {
    hide Accepted, RunAll, NewWorld;
    RunPressure(o, events);
  }

  predicate PressureOk(o: Options, sample: PenSample)
    requires o.Pen?
  {
    (!sample.tip ==> sample.pressure == 0) && (sample.tip ==>
                                               sample.inRange && (o.pressure.Some? <==> sample.pressure > 0))
  }

  lemma ReportPressure(o: Options, s: NodeState)
    requires o.Pen? && s.PenState? && StateOk(o, s)
    ensures PressureOk(o, PenReport(o, s))
  {
  }

  lemma {:induction false} RunPressure(o: Options, events: seq<Event>)
    requires o.Pen? && Accepted(o)
    ensures PressureOk(o, LastPen(RunAll(o, NewWorld(o), events).target))
  {
    hide Accepted, Enabled, StateOk, Sendable, Completed, Mutate, Launched, MakeNeutral, Refused, PenReport, NewNode,
         Remembered;
    if |events| == 0 {
    } else {
      var prefix := events[..|events| - 1];
      var w := RunAll(o, NewWorld(o), prefix);
      RunSteady(o, prefix);
      RunPressure(o, prefix);
      SteadyPen(o, w);
      ReportPressure(o, w.node.state);
      CompletionNeedsFlight(w, events[|events| - 1]);
    }
  }

  lemma SteadyPen(o: Options, w: World)
    requires o.Pen? && Steady(o, w)
    ensures w.node.state.PenState? && StateOk(o, w.node.state)
  {
    hide PenPlaces, FlightOk, Sendable;
  }

  lemma CompletionNeedsFlight(w: World, e: Event)
    ensures e.Complete? && Enabled(w, e) ==> w.node.inflight
  {
  }

  // ----- Where the pen leaves range --------------------------------------------------------------

  /** The caller's last word was that the pen departs (or the close said so). */
  predicate DepartedLast(o: Options, events: seq<Event>)
    requires Accepted(o)
  {
    if |events| == 0 then false
    else
      var prefix, e := events[..|events| - 1], events[|events| - 1];
      var w := RunAll(o, NewWorld(o), prefix);
      if e.Neutralize? && Enabled(w, e) then true
      else if e.Call? && Mutate(o, w.node, e.m).0 == Ok then e.m.DepartPen?
      else DepartedLast(o, prefix)
  }

  predicate DepartureOwed(s: NodeState, departedLast: bool)
    requires s.PenState?
  {
    ToolChangePending(s) ==> (s.departing <==> !departedLast)
  }

  lemma CallOwes(o: Options, s: NodeState, m: Mutation)
    requires o.Pen? && s.PenState? && RightProfile(o, m) && EditOf(o, s, m).result == Ok
    ensures EditOf(o, s, m).state.PenState? && DepartureOwed(EditOf(o, s, m).state, m.DepartPen?)
  {
    hide ValidPen, PenConflicts, Differing;
  }

  lemma SuccessOwesNothing(n: Node, c: Outcome)
    requires n.state.PenState? && c.result == Ok && c.native >= 0
    ensures Completed(n, c).state.PenState? && !ToolChangePending(Completed(n, c).state)
  {
  }

  lemma NeutralizeOwes(o: Options, n: Node)
    requires n.state.PenState?
    ensures MakeNeutral(o, n).state.PenState? && DepartureOwed(MakeNeutral(o, n).state, true)
  {
  }

  lemma StepOwes(o: Options, w: World, e: Event, departedLast: bool)
    requires o.Pen? && Accepted(o) && Steady(o, w) && w.node.state.PenState? && CertainEvent(e)
    requires DepartureOwed(w.node.state, departedLast)
    ensures var r := Step(o, w, e).node.state;
            r.PenState?
            && DepartureOwed(r, if e.Neutralize? && Enabled(w, e) then true
                                else if e.Call? && Mutate(o, w.node, e.m).0 == Ok then e.m.DepartPen?
                                else departedLast)
  {
    hide Accepted, StateOk, EditOf, Completed, Refused, Stamped, MakeNeutral, Sendable, Remembered, ImageOf, Receive;
    match e
    case Call(m) =>
      if Mutate(o, w.node, m).0 == Ok {
        CallOwes(o, w.node.state, m);
      }
    case Submit(ticks) => StampedPen(o, w.node.state, ticks);
    case Reject(ticks, outcome) =>
      if Enabled(w, e) {
        RejectKeeps(o, w, ticks, outcome);
      }
    case Complete(outcome, applied) =>
      if Enabled(w, e) {
        if outcome.result == Ok {
          SuccessOwesNothing(w.node, outcome);
        } else {
          NotAppliedPen(w.node, outcome);
        }
      }
    case Neutralize => NeutralizeOwes(o, w.node);
    case _ =>
  }

  lemma {:induction false} RunOwes(o: Options, events: seq<Event>)
    requires o.Pen? && Accepted(o) && Certain(events)
    ensures var s := RunAll(o, NewWorld(o), events).node.state; s.PenState? && DepartureOwed(s, DepartedLast(o, events))
  {
    hide Accepted, Step, Steady, CertainEvent, Enabled, Mutate;
    if |events| == 0 {
    } else {
      var prefix, e := events[..|events| - 1], events[|events| - 1];
      RunSteady(o, prefix);
      RunOwes(o, prefix);
      StepOwes(o, RunAll(o, NewWorld(o), prefix), e, DepartedLast(o, prefix));
    }
  }

  /**
   * After an accepted tool change the next applied report takes the pen out of range. It does so where the
   * target last had it exactly when the caller has not made the pen depart since, or did not move it.
   */
  lemma ToolChangeLeavesRange(o: Options, events: seq<Event>, c: Outcome)
    requires o.Pen? && AppliedNext(o, events, c) && Certain(events) && c.result == Ok
    requires var s := RunAll(o, NewWorld(o), events).node.state; s.PenState? && ToolChangePending(s)
    ensures var w := RunAll(o, NewWorld(o), events);
            var was, now := LastPen(w.target), LastPen(Step(o, w, Complete(c, true)).target);
            && was.inRange && !now.inRange && !now.tip
            && (now.x == was.x && now.y == was.y <==>
                  !DepartedLast(o, events) || (w.node.state.desired.x == was.x && w.node.state.desired.y == was.y))
  {
    hide Accepted, StateOk, Sendable, Remembered, RunAll, NewWorld, Completed, DepartedLast;
    RunSteady(o, events);
    RunTracked(o, events);
    RunOwes(o, events);
    PenTipsInRange(o, RunAll(o, NewWorld(o), events).node.state);
  }

  lemma PenTipsInRange(o: Options, s: NodeState)
    requires o.Pen? && StateOk(o, s)
    ensures s.PenState? && (s.desired.tip ==> s.desired.inRange)
  {
  }

  /** A departure is accepted while a tool change waits exactly when the changed sample was itself out of range. */
  lemma DepartWhileChanging(o: Options, s: NodeState)
    requires o.Pen? && s.PenState? && StateOk(o, s) && ToolChangeMarked(s) && ToolChangePending(s)
    ensures EditDepart(o, s).result == Ok <==> !s.desired.inRange && s.desired.barrels == {}
  {
  }

  // ----- The old position is not always kept -----------------------------------------------------

  const PLANE := IntegerField(0, 100, 8, NO_PHYSICAL)

  const STYLUS := Pen(ReportIdOption(0, 0), true, PLANE, PLANE, None, None, None, [], true, true)

  const PEN_NEAR := NO_PEN.(inRange := true, x := 10, y := 10)

  const ERASER_AWAY := NO_PEN.(eraser := true, x := 90, y := 90)

  const SUCCESS := Outcome(Ok, 0)

  function PenWorld(desired: PenSample, emitted: PenSample, changing: bool, departing: bool, dirty: bool,
                    sent: Option<Image>,
                    last: Option<Image>): World
  {
    World(Node(PenState(desired, emitted, {}, departing, changing, false, changing && emitted.inRange), dirty,
               sent.Some?, true, Ok,
               Submitted(0, 0, 0, 0, 0, false, sent.Some? && (desired.inRange || departing)), emitted.inRange),
          sent, Target(last, {}, 0))
  }

  lemma StylusAccepted()
    ensures Accepted(STYLUS) && PenWorld(NO_PEN, NO_PEN, false, false, false, None, None) == NewWorld(STYLUS)
  {
  }

  lemma PenComesNear()
    ensures Step(STYLUS, PenWorld(NO_PEN, NO_PEN, false, false, false, None, None), Call(UpdatePen(PEN_NEAR)))
            == PenWorld(PEN_NEAR, NO_PEN, true, false, true, None, None)
  {
    hide ImageOf, Launched, Completed, MakeNeutral, Refused, Receive;
  }

  lemma NearIsSent()
    ensures Step(STYLUS, PenWorld(PEN_NEAR, NO_PEN, true, false, true, None, None), Submit(0))
            == PenWorld(PEN_NEAR, NO_PEN, true, false, true, Some(PenImage(PEN_NEAR)), None)
  {
    hide Mutate, Completed, MakeNeutral, Refused, Receive;
  }

  lemma NearIsApplied()
    ensures Step(STYLUS, PenWorld(PEN_NEAR, NO_PEN, true, false, true, Some(PenImage(PEN_NEAR)), None),
                 Complete(SUCCESS, true))
            == PenWorld(PEN_NEAR, PEN_NEAR, false, false, false, None, Some(PenImage(PEN_NEAR)))
  {
    hide Mutate, Launched, MakeNeutral, Refused, ImageOf;
  }

  lemma EraserIsChosen()
    ensures Step(STYLUS, PenWorld(PEN_NEAR, PEN_NEAR, false, false, false, None, Some(PenImage(PEN_NEAR))),
                 Call(UpdatePen(ERASER_AWAY)))
            == PenWorld(ERASER_AWAY, PEN_NEAR, true, true, true, None, Some(PenImage(PEN_NEAR)))
  {
    hide ImageOf, Launched, Completed, MakeNeutral, Refused, Receive;
    assert Differing(PEN_NEAR.barrels, ERASER_AWAY.barrels) == {};
    var s := PenState(PEN_NEAR, PEN_NEAR, {}, false, false, false, false);
    assert ValidPen(STYLUS, ERASER_AWAY);
    assert EditPen(STYLUS, s, ERASER_AWAY).state == PenState(ERASER_AWAY, PEN_NEAR, {}, true, true, false, true);
  }

  lemma PenDeparts()
    ensures Step(STYLUS, PenWorld(ERASER_AWAY, PEN_NEAR, true, true, true, None, Some(PenImage(PEN_NEAR))),
                 Call(DepartPen))
            == PenWorld(ERASER_AWAY, PEN_NEAR, true, false, true, None, Some(PenImage(PEN_NEAR)))
  {
    hide ImageOf, Launched, Completed, MakeNeutral, Refused, Receive;
    assert Departed(ERASER_AWAY) == ERASER_AWAY;
    assert Differing(ERASER_AWAY.barrels, ERASER_AWAY.barrels) == {};
    var s := PenState(ERASER_AWAY, PEN_NEAR, {}, true, true, false, true);
    assert !PenConflicts(s, ERASER_AWAY);
    assert EditDepart(STYLUS, s).state == PenState(ERASER_AWAY, PEN_NEAR, {}, false, true, false, true);
  }

  const AWAY := NO_PEN.(x := 90, y := 90)

  lemma AwayIsSent()
    ensures Step(STYLUS, PenWorld(ERASER_AWAY, PEN_NEAR, true, false, true, None, Some(PenImage(PEN_NEAR))), Submit(0))
            == PenWorld(ERASER_AWAY, PEN_NEAR, true, false, true, Some(PenImage(AWAY)), Some(PenImage(PEN_NEAR)))
  {
    hide Mutate, Completed, MakeNeutral, Refused, Receive;
  }

  /** The pen is in range; the eraser is chosen with a sample out of range; then the pen departs. */
  function Stray(): seq<Event> {
    [Call(UpdatePen(PEN_NEAR)), Submit(0), Complete(SUCCESS, true), Call(UpdatePen(ERASER_AWAY)), Call(DepartPen),
     Submit(0)]
  }

  lemma RunOfSix(o: Options, w: World, e: seq<Event>)
    requires |e| == 6
    ensures RunAll(o, w, e) == Step(o, Step(o, Step(o, Step(o, Step(o, Step(o, w, e[0]), e[1]), e[2]), e[3]), e[4]),
                                    e[5])
  {
    hide Step;
    assert e[..1] == [] + [e[0]] && e[..2] == e[..1] + [e[1]] && e[..3] == e[..2] + [e[2]];
    assert e[..4] == e[..3] + [e[3]] && e[..5] == e[..4] + [e[4]] && e == e[..5] + [e[5]];
    RunSnoc(o, w, [], e[0]);
    RunSnoc(o, w, e[..1], e[1]);
    RunSnoc(o, w, e[..2], e[2]);
    RunSnoc(o, w, e[..3], e[3]);
    RunSnoc(o, w, e[..4], e[4]);
    RunSnoc(o, w, e[..5], e[5]);
  }

  /** The report that takes the pen out of range then says 90, 90 although the target has it at 10, 10. */
  lemma StrayDeparture()
    ensures Accepted(STYLUS) && Certain(Stray())
    ensures var w := RunAll(STYLUS, NewWorld(STYLUS), Stray());
            && Enabled(w, Complete(SUCCESS, true)) && w.node.state.PenState? && ToolChangePending(w.node.state)
            && LastPen(w.target) == PEN_NEAR && LastPen(Step(STYLUS, w, Complete(SUCCESS, true)).target) == AWAY
  {
    hide Accepted, NewWorld, RunAll, Mutate, Launched, MakeNeutral, Refused, ImageOf, Completed;
    StylusAccepted();
    RunOfSix(STYLUS, NewWorld(STYLUS), Stray());
    PenComesNear();
    NearIsSent();
    NearIsApplied();
    EraserIsChosen();
    PenDeparts();
    AwayIsSent();
    assert RunAll(STYLUS, NewWorld(STYLUS), Stray())
           == PenWorld(ERASER_AWAY, PEN_NEAR, true, false, true, Some(PenImage(AWAY)), Some(PenImage(PEN_NEAR))) by {
      hide Step, PenWorld;
    }
  }
}
