/**
 * No pen edge is lost: in runs without uncertain completions the changes of range, tip, tool and barrel
 * switches that the pen's settled reports carry are the changes the caller made, save at most the last one.
 */
module PenEdges {
  import opened Common
  import opened Factories
  import opened NodeModel
  import opened NodeFacts
  import opened NodeRun
  import EdgeRun
  import PenRun

  datatype PenControl = InRangeControl | TipControl | EraserControl | BarrelControl(k: nat)

  /** The value of a control as a report shows it: a pen out of range has no tool and no barrel switch. */
  function PenValue(p: PenSample, c: PenControl): int {
    match c
    case InRangeControl => EdgeRun.Number(p.inRange)
    case TipControl => EdgeRun.Number(p.tip)
    case EraserControl => EdgeRun.Number(p.inRange && p.eraser)
    case BarrelControl(k) => EdgeRun.Number(p.inRange && k in p.barrels)
  }

  function ValueOf(s: NodeState, c: PenControl): int {
    if s.PenState? then PenValue(s.desired, c) else 0
  }

  predicate AnyMark(s: NodeState)
    requires s.PenState?
  {
    s.rangePending || s.tipPending || s.eraserPending || s.barrelsPending != {}
  }

  // ----- Histories -------------------------------------------------------------------------------

  /** What a call asks of a control: a departure takes everything away. */
  function Argument(m: Mutation, c: PenControl): Option<int> {
    match m
    case UpdatePen(pen) => Some(PenValue(pen, c))
    case DepartPen => Some(0)
    case _ => None
  }

  /** What accepted calls asked of the control, one after the other, from rest. */
  function AcceptedValues(o: Options, events: seq<Event>, c: PenControl): (values: seq<int>)
    requires Accepted(o)
    ensures |values| > 0
  {
    if |events| == 0 then [0]
    else
      var prefix, e := events[..|events| - 1], events[|events| - 1];
      var w := RunAll(o, NewWorld(o), prefix);
      AcceptedValues(o, prefix, c)
      + if e.Call? && Mutate(o, w.node, e.m).0 == Ok && Argument(e.m, c).Some? then [Argument(e.m, c).value] else []
  }

  /** The event brings the target a report of the pen itself, not the one that takes a changed tool out of range. */
  predicate Settles(w: World, e: Event) {
    && Enabled(w, e) && e.Complete? && e.outcome.result == Ok && w.sent.Some? && w.sent.value.PenImage?
    && w.node.state.PenState? && !w.node.state.departing
  }

  /** The value in every settled report, from rest. */
  function SettledValues(o: Options, events: seq<Event>, c: PenControl): (values: seq<int>)
    requires Accepted(o)
    ensures |values| > 0
  {
    if |events| == 0 then [0]
    else
      var prefix, e := events[..|events| - 1], events[|events| - 1];
      var w := RunAll(o, NewWorld(o), prefix);
      SettledValues(o, prefix, c) + if Settles(w, e) then [PenValue(w.sent.value.sample, c)] else []
  }

  // ----- The invariant ---------------------------------------------------------------------------

  /** The settled reports lack the present value at most, and they lack nothing while no edge is marked. */
  predicate InStep(s: NodeState, c: PenControl, accepted: seq<int>, settled: seq<int>) {
    && s.PenState? && |accepted| > 0 && |settled| > 0 && accepted[|accepted| - 1] == ValueOf(s, c)
    && EdgeRun.Collapse(accepted) == EdgeRun.Collapse(settled + [ValueOf(s, c)])
    && (!AnyMark(s) ==> settled[|settled| - 1] == ValueOf(s, c))
  }

  /** A call changes a control only while no edge of the pen is marked, and then marks one. */
  lemma PenEdgeRule(o: Options, s: NodeState, m: Mutation, c: PenControl)
    requires o.Pen? && s.PenState? && RightProfile(o, m) && EditOf(o, s, m).result == Ok
    ensures var r := EditOf(o, s, m).state;
            && r.PenState? && (AnyMark(s) ==> AnyMark(r))
            && Argument(m, c) == Some(ValueOf(r, c))
            && (ValueOf(r, c) != ValueOf(s, c) ==> !AnyMark(s) && AnyMark(r))
  {
    hide ValidPen;
  }

  lemma CallInStep(s: NodeState, r: NodeState, c: PenControl, accepted: seq<int>, settled: seq<int>)
    requires InStep(s, c, accepted, settled) && r.PenState? && (AnyMark(s) ==> AnyMark(r))
    requires ValueOf(r, c) != ValueOf(s, c) ==> !AnyMark(s) && AnyMark(r)
    ensures InStep(r, c, accepted + [ValueOf(r, c)], settled)
  {
    hide ValueOf, AnyMark, EdgeRun.Collapse;
    EdgeRun.CollapseSnoc(accepted, ValueOf(r, c));
    EdgeRun.CollapseSnoc(settled, ValueOf(s, c));
    EdgeRun.CollapseSnoc(settled, ValueOf(r, c));
  }

  /** A settled report carries the present value, and spends every mark. */
  lemma ReportSettles(o: Options, n: Node, c: Outcome, control: PenControl)
    requires o.Pen? && n.state.PenState? && c.result == Ok && c.native >= 0
    ensures ImageOf(o, n.state) == Some(PenImage(PenReport(o, n.state)))
    ensures Completed(n, c).state.PenState? && ValueOf(Completed(n, c).state, control) == ValueOf(n.state, control)
    ensures !n.state.departing ==> PenValue(PenReport(o, n.state), control) == ValueOf(n.state, control)
    ensures n.state.departing ==> AnyMark(Completed(n, c).state) == AnyMark(n.state)
  {
  }

  lemma SettleInStep(s: NodeState, r: NodeState, c: PenControl, accepted: seq<int>, settled: seq<int>)
    requires InStep(s, c, accepted, settled) && r.PenState? && ValueOf(r, c) == ValueOf(s, c)
    ensures InStep(r, c, accepted, settled + [ValueOf(s, c)])
  {
    hide ValueOf, AnyMark, EdgeRun.Collapse;
    EdgeRun.CollapseSnoc(settled + [ValueOf(s, c)], ValueOf(s, c));
  }

  lemma SameInStep(s: NodeState, r: NodeState, c: PenControl, accepted: seq<int>, settled: seq<int>)
    requires InStep(s, c, accepted, settled) && r.PenState? && ValueOf(r, c) == ValueOf(s, c)
             && (AnyMark(s) ==> AnyMark(r))
    ensures InStep(r, c, accepted, settled)
  {
    hide ValueOf, AnyMark, EdgeRun.Collapse;
  }

  lemma StepInStep(o: Options, w: World, e: Event, c: PenControl, accepted: seq<int>, settled: seq<int>)
    requires o.Pen? && Accepted(o) && Steady(o, w) && !e.Neutralize? && CertainEvent(e)
    requires InStep(w.node.state, c, accepted, settled)
    ensures var r := Step(o, w, e).node.state;
            InStep(r, c,
                   accepted + (if e.Call? && Mutate(o, w.node, e.m).0 == Ok && Argument(e.m, c).Some?
                               then [Argument(e.m, c).value] else []),
                   settled + (if Settles(w, e) then [PenValue(w.sent.value.sample, c)] else []))
  {
    hide Accepted, StateOk, EditOf, Completed, Refused, Remembered, Sendable, ImageOf, Receive, Stamped, ValueOf,
         AnyMark, InStep,
         PenReport, PenValue;
    assert accepted + [] == accepted && settled + [] == settled;
    var s := w.node.state;
    assert s.PenState? by { KindOf(s, c, accepted, settled); }
    match e
    case Call(m) =>
      if Mutate(o, w.node, m).0 == Ok {
        PenEdgeRule(o, s, m, c);
        CallInStep(s, EditOf(o, s, m).state, c, accepted, settled);
      }
    case Submit(ticks) => PenRun.StampedPen(o, s, ticks);
    case Reject(ticks, outcome) =>
      if Enabled(w, e) {
        RejectKeeps(o, w, ticks, outcome);
      }
    case Complete(outcome, _) =>
      if Enabled(w, e) {
        if outcome.result == Ok {
          ReportSettles(o, w.node, outcome, c);
          if s.departing {
            SameInStep(s, Completed(w.node, outcome).state, c, accepted, settled);
          } else {
            SettleInStep(s, Completed(w.node, outcome).state, c, accepted, settled);
          }
        } else {
          PenRun.NotAppliedPen(w.node, outcome);
        }
      }
    case _ =>
  }

  lemma KindOf(s: NodeState, c: PenControl, accepted: seq<int>, settled: seq<int>)
    requires InStep(s, c, accepted, settled)
    ensures s.PenState?
  {
  }

  lemma StartInStep(o: Options, c: PenControl)
    requires o.Pen? && Accepted(o)
    ensures InStep(NewWorld(o).node.state, c, [0], [0])
  {
    hide Accepted, EdgeRun.Collapse;
    EdgeRun.CollapseSnoc([0], 0);
  }

  lemma {:induction false} HistoriesInStep(o: Options, events: seq<Event>, c: PenControl)
    requires o.Pen? && Accepted(o) && NoNeutralize(events) && Certain(events)
    ensures InStep(RunAll(o, NewWorld(o), events).node.state, c, AcceptedValues(o, events, c),
                   SettledValues(o, events, c))
  {
    hide Accepted, Step, Steady, CertainEvent, InStep, NewWorld, ValueOf, PenValue, Settles, Mutate;
    if |events| == 0 {
      StartInStep(o, c);
    } else {
      var prefix, e := events[..|events| - 1], events[|events| - 1];
      RunSteady(o, prefix);
      HistoriesInStep(o, prefix, c);
      StepInStep(o, RunAll(o, NewWorld(o), prefix), e, c, AcceptedValues(o, prefix, c), SettledValues(o, prefix, c));
    }
  }

  /**
   * No pen edge is lost: leaving out the reports that take a changed tool out of range, the changes the target
   * sees are the changes the caller made, in order, but for the last one; and that one only while it is marked.
   */
  lemma NoPenEdgeIsLost(o: Options, events: seq<Event>, c: PenControl)
    requires o.Pen? && Accepted(o) && NoNeutralize(events) && Certain(events)
    ensures var accepted, settled := EdgeRun.Collapse(AcceptedValues(o, events, c)),
            EdgeRun.Collapse(SettledValues(o, events, c));
            && |accepted| > 0 && (accepted == settled || accepted[..|accepted| - 1] == settled)
    ensures var s := RunAll(o, NewWorld(o), events).node.state;
            && s.PenState?
            && (!AnyMark(s) ==>
                  EdgeRun.Collapse(AcceptedValues(o, events, c)) == EdgeRun.Collapse(SettledValues(o, events, c)))
  {
    hide Accepted, ValueOf, PenValue, AnyMark, EdgeRun.Collapse, AcceptedValues, SettledValues, RunAll, NewWorld;
    HistoriesInStep(o, events, c);
    EdgeRun.CollapseSnoc(SettledValues(o, events, c), ValueOf(RunAll(o, NewWorld(o), events).node.state, c));
  }
}
