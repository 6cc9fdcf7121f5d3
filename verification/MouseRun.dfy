/**
 * Relative movement is conserved: what the caller gave is what is still pending plus what consumed
 * reports carried, on every axis, for every mix of completions.
 */
module MouseRun {
  import opened Common
  import opened Factories
  import opened NodeModel
  import opened NodeFacts
  import opened NodeRun

  datatype Direction = AlongX | AlongY | AlongWheel | AlongPan

  function Pending(s: NodeState, d: Direction): int {
    if !s.MouseState? then 0
    else match d
      case AlongX => s.dx
      case AlongY => s.dy
      case AlongWheel => s.wheel
      case AlongPan => s.pan
  }

  function Fragment(sent: Submitted, d: Direction): int {
    match d
    case AlongX => sent.dx
    case AlongY => sent.dy
    case AlongWheel => sent.wheel
    case AlongPan => sent.pan
  }

  function Given(m: Mutation, d: Direction): int {
    match m
    case Move(dx, dy) => if d.AlongX? then dx else if d.AlongY? then dy else 0
    case Scroll(wheel, pan) => if d.AlongWheel? then wheel else if d.AlongPan? then pan else 0
    case _ => 0
  }

  /** The declared field of a direction, if there is one. */
  function FieldAlong(o: Options, d: Direction): Option<IntegerField>
    requires o.Mouse?
  {
    match d
    case AlongX => Some(o.x)
    case AlongY => Some(o.y)
    case AlongWheel => o.wheel
    case AlongPan => o.pan
  }

  /** Movement that an accepted call adds. */
  function AcceptedDelta(o: Options, w: World, e: Event, d: Direction): int {
    if e.Call? && Mutate(o, w.node, e.m).0 == Ok then Given(e.m, d) else 0
  }

  /** The movement a report shows. */
  function Shown(image: Image, d: Direction): int {
    if !image.MouseImage? then 0
    else match d
      case AlongX => image.dx
      case AlongY => image.dy
      case AlongWheel => image.wheel
      case AlongPan => image.pan
  }

  /** Movement that a consumed report carried. */
  function ConsumedDelta(w: World, e: Event, d: Direction): int {
    if Enabled(w, e) && e.Complete? && MayHaveApplied(e.outcome) then Shown(w.sent.value, d) else 0
  }

  function AcceptedSum(o: Options, w: World, events: seq<Event>, d: Direction): int {
    if |events| == 0 then 0
    else
      var prefix := events[..|events| - 1];
      AcceptedSum(o, w, prefix, d) + AcceptedDelta(o, RunAll(o, w, prefix), events[|events| - 1], d)
  }

  function ConsumedSum(o: Options, w: World, events: seq<Event>, d: Direction): int {
    if |events| == 0 then 0
    else
      var prefix := events[..|events| - 1];
      ConsumedSum(o, w, prefix, d) + ConsumedDelta(RunAll(o, w, prefix), events[|events| - 1], d)
  }

  // ----- One step --------------------------------------------------------------------------------

  lemma CallMoves(o: Options, n: Node, m: Mutation, d: Direction)
    requires o.Mouse? && StateOk(o, n.state)
    ensures Pending(Mutate(o, n, m).1.state, d)
            == Pending(n.state, d) + if Mutate(o, n, m).0 == Ok then Given(m, d) else 0
  {
  }

  lemma CompletionMoves(n: Node, c: Outcome, d: Direction)
    requires n.state.MouseState?
    ensures Pending(Completed(n, c).state, d)
            == Pending(n.state, d) - if MayHaveApplied(c) then Fragment(n.submitted, d) else 0
  {
  }

  /** The report in flight shows what the Node remembers of it. */
  lemma RememberedIsShown(o: Options, w: World, d: Direction)
    requires o.Mouse? && Steady(o, w) && w.node.inflight
    ensures Shown(w.sent.value, d) == Fragment(w.node.submitted, d)
  {
    hide HasNonNeutral;
  }

  lemma StepMoves(o: Options, w: World, e: Event, d: Direction)
    requires o.Mouse? && Accepted(o) && Steady(o, w) && !e.Neutralize?
    ensures Pending(Step(o, w, e).node.state, d)
            == Pending(w.node.state, d) + AcceptedDelta(o, w, e, d) - ConsumedDelta(w, e, d)
  {
    hide Accepted, Mutate, Completed, Refused, FlightOk, Sendable;
    assert w.node.state.MouseState?;
    match e
    case Call(m) => CallMoves(o, w.node, m, d);
    case Complete(outcome, _) =>
      CompletionMoves(w.node, outcome, d);
      if Enabled(w, e) {
        RememberedIsShown(o, w, d);
      }
    case Reject(ticks, outcome) =>
      if Enabled(w, e) {
        RejectKeeps(o, w, ticks, outcome);
      }
    case _ =>
  }

  /** Pending movement plus what consumed reports carried is what accepted calls gave. */
  lemma {:induction false} MovementIsConserved(o: Options, events: seq<Event>, d: Direction)
    requires o.Mouse? && Accepted(o) && NoNeutralize(events)
    ensures var w := NewWorld(o);
            Pending(RunAll(o, w, events).node.state, d) + ConsumedSum(o, w, events, d) == AcceptedSum(o, w, events, d)
    ensures INT64_MIN <= Pending(RunAll(o, NewWorld(o), events).node.state, d) <= INT64_MAX
  {
    hide Accepted, Step, Enabled, AcceptedDelta, ConsumedDelta, FlightOk, Sendable;
    RunSteady(o, events);
    if |events| == 0 {
    } else {
      var prefix, e := events[..|events| - 1], events[|events| - 1];
      RunSteady(o, prefix);
      MovementIsConserved(o, prefix, d);
      StepMoves(o, RunAll(o, NewWorld(o), prefix), e, d);
    }
  }

  // ----- One fragment ----------------------------------------------------------------------------

  /** How far one report can move in the direction of `p`. */
  function Bound(f: IntegerField, p: int): int {
    var least: int := f.minimum;
    if p > 0 then f.maximum else -least
  }

  function Magnitude(p: int): nat {
    if p >= 0 then p else -p
  }

  /** The fragment is in range, points at zero, and never passes it. */
  lemma FragmentShrinks(f: IntegerField, p: int)
    requires StraddlesZero(f)
    ensures f.minimum <= Clamp(p, f) <= f.maximum
    ensures p == 0 ==> Clamp(p, f) == 0
    ensures p != 0 ==>
              && Magnitude(p - Clamp(p, f)) == Max(0, Magnitude(p) - Bound(f, p)) < Magnitude(p)
              && (p - Clamp(p, f) != 0 ==> (p > 0 <==> p - Clamp(p, f) > 0))
  {
  }

  /** A report's fragment along `d` is the pending movement cut to the field. */
  lemma SubmittedFragment(o: Options, s: NodeState, d: Direction)
    requires o.Mouse? && Accepted(o) && StateOk(o, s)
    ensures Fragment(Remembered(o, s), d)
            == if FieldAlong(o, d).Some? then Clamp(Pending(s, d), FieldAlong(o, d).value) else Pending(s, d)
    ensures FieldAlong(o, d).Some? ==> StraddlesZero(FieldAlong(o, d).value)
    ensures FieldAlong(o, d).None? ==> Pending(s, d) == 0
  {
    hide ValidField, HasNonNeutral;
  }

  /** Every consumed report brings every pending axis strictly closer to zero. */
  lemma ConsumedReportShrinks(o: Options, w: World, c: Outcome, applied: bool, d: Direction)
    requires o.Mouse? && Accepted(o) && Steady(o, w) && Enabled(w, Complete(c, applied)) && MayHaveApplied(c)
    ensures var before, after := Pending(w.node.state, d), Pending(Step(o, w, Complete(c, applied)).node.state, d);
            if before == 0 then after == 0
            else FieldAlong(o, d).Some? && Magnitude(after) == Max(0,
                                                                   Magnitude(before) - Bound(FieldAlong(o, d).value,
                                                                       before))
                 && Magnitude(after) < Magnitude(before)
  {
    hide Accepted, Completed, StateOk, Remembered, Sendable;
    MouseOnly(o, w.node.state);
    CompletionMoves(w.node, c, d);
    SubmittedFragment(o, w.node.state, d);
    if FieldAlong(o, d).Some? {
      FragmentShrinks(FieldAlong(o, d).value, Pending(w.node.state, d));
    }
  }

  lemma MouseOnly(o: Options, s: NodeState)
    requires o.Mouse? && StateOk(o, s)
    ensures s.MouseState?
  {
  }

  // ----- Draining --------------------------------------------------------------------------------

  /** Reports needed to bring one direction to zero. */
  function ReportsFor(o: Options, s: NodeState, d: Direction): nat
    requires o.Mouse? && Accepted(o)
  {
    var p := Pending(s, d);
    if p == 0 || FieldAlong(o, d).None? || Bound(FieldAlong(o, d).value, p) <= 0 then 0
    else CeilDiv(Magnitude(p), Bound(FieldAlong(o, d).value, p))
  }

  function ReportsNeeded(o: Options, s: NodeState): nat
    requires o.Mouse? && Accepted(o)
  {
    Max(Max(ReportsFor(o, s, AlongX), ReportsFor(o, s, AlongY)),
        Max(ReportsFor(o, s, AlongWheel), ReportsFor(o, s, AlongPan)))
  }

  /** One consumed report saves one report in every direction that still needs any. */
  lemma ReportSavesOne(o: Options, w: World, c: Outcome, applied: bool, d: Direction)
    requires o.Mouse? && Accepted(o) && Steady(o, w) && Enabled(w, Complete(c, applied)) && MayHaveApplied(c)
    ensures ReportsFor(o, Step(o, w, Complete(c, applied)).node.state, d)
            == Max(0, ReportsFor(o, w.node.state, d) - 1)
    ensures ReportsFor(o, w.node.state, d) == 0 <==> Pending(w.node.state, d) == 0
  {
    hide Accepted, StateOk, FlightOk, Sendable, Step, CeilDiv, Enabled;
    var before, after := Pending(w.node.state, d), Pending(Step(o, w, Complete(c, applied)).node.state, d);
    ConsumedReportShrinks(o, w, c, applied, d);
    SubmittedFragment(o, w.node.state, d);
    if before != 0 {
      var f := FieldAlong(o, d).value;
      CompletionMoves(w.node, c, d);
      FragmentShrinks(f, before);
      CeilingStep(Magnitude(before), Bound(f, before));
      SameSide(o, w, c, applied, d);
      ZeroCeiling(Bound(f, before));
    }
  }

  /** What is left points the same way, so its bound is the same. */
  lemma SameSide(o: Options, w: World, c: Outcome, applied: bool, d: Direction)
    requires o.Mouse? && Accepted(o) && Steady(o, w) && Enabled(w, Complete(c, applied)) && MayHaveApplied(c)
    requires FieldAlong(o, d).Some? && Pending(w.node.state, d) != 0
    ensures var before, after := Pending(w.node.state, d), Pending(Step(o, w, Complete(c, applied)).node.state, d);
            after != 0 ==> Bound(FieldAlong(o, d).value, after) == Bound(FieldAlong(o, d).value, before)
  {
    hide Accepted, Completed, StateOk, Remembered, Sendable;
    MouseOnly(o, w.node.state);
    CompletionMoves(w.node, c, d);
    SubmittedFragment(o, w.node.state, d);
    FragmentShrinks(FieldAlong(o, d).value, Pending(w.node.state, d));
  }

  /** A report sent and applied. */
  function SendOne(o: Options, w: World): World {
    Step(o, Step(o, w, Submit(0)), Complete(Outcome(Ok, 0), true))
  }

  function SendMany(o: Options, w: World, n: nat): World {
    if n == 0 then w else SendOne(o, SendMany(o, w, n - 1))
  }

  /** Ready to send, with nothing in the way. */
  predicate Sending(o: Options, w: World) {
    Steady(o, w) && !w.node.inflight && w.node.present && w.node.completion == Ok
  }

  lemma SendOneSaves(o: Options, w: World)
    requires o.Mouse? && Accepted(o) && Sending(o, w) && w.node.dirty
    ensures var r := SendOne(o, w);
            && Sending(o, r)
            && (forall d :: ReportsFor(o, r.node.state, d) == Max(0, ReportsFor(o, w.node.state, d) - 1))
            && (r.node.dirty <==> ReportsNeeded(o, r.node.state) > 0)
  {
    hide Accepted, StateOk, FlightOk, Remembered, Sendable, CeilDiv, ReportsFor, Completed, ImageOf, Receive;
    var mid := Step(o, w, Submit(0));
    var done := Outcome(Ok, 0);
    StepSteady(o, w, Submit(0));
    StepSteady(o, mid, Complete(done, true));
    MouseOnly(o, w.node.state);
    assert mid.node.state == w.node.state;
    forall d
      ensures ReportsFor(o, SendOne(o, w).node.state, d) == Max(0, ReportsFor(o, w.node.state, d) - 1)
      ensures ReportsFor(o, SendOne(o, w).node.state, d) == 0 <==> Pending(SendOne(o, w).node.state, d) == 0
    {
      ReportSavesOne(o, mid, done, true, d);
      NeedIffPending(o, SendOne(o, w).node.state, d);
    }
    CompletedMouse(mid.node, done);
    var r := SendOne(o, w).node.state;
    assert ReportsFor(o, r, AlongX) == 0 <==> Pending(r, AlongX) == 0;
    assert ReportsFor(o, r, AlongY) == 0 <==> Pending(r, AlongY) == 0;
    assert ReportsFor(o, r, AlongWheel) == 0 <==> Pending(r, AlongWheel) == 0;
    assert ReportsFor(o, r, AlongPan) == 0 <==> Pending(r, AlongPan) == 0;
  }

  lemma NeedIffPending(o: Options, s: NodeState, d: Direction)
    requires o.Mouse? && Accepted(o) && StateOk(o, s)
    ensures ReportsFor(o, s, d) == 0 <==> Pending(s, d) == 0
  {
    hide Accepted, StateOk, CeilDiv;
    SubmittedFragment(o, s, d);
    var p := Pending(s, d);
    if p != 0 {
      CeilingStep(Magnitude(p), Bound(FieldAlong(o, d).value, p));
    }
  }

  lemma CompletedMouse(n: Node, c: Outcome)
    requires n.state.MouseState? && c == Outcome(Ok, 0)
    ensures var r := Completed(n, c);
            && r.present == n.present && r.completion == Ok && r.state.MouseState?
            && (r.dirty <==> exists d :: Pending(r.state, d) != 0)
  {
    var r := Completed(n, c);
    assert r.dirty ==>
             || Pending(r.state, AlongX) != 0 || Pending(r.state, AlongY) != 0
             || Pending(r.state, AlongWheel) != 0 || Pending(r.state, AlongPan) != 0;
  }

  /** After `n` applied reports every direction needs `n` fewer; the mouse is clean exactly when none is needed. */
  lemma {:induction false} DrainCount(o: Options, w: World, n: nat)
    requires o.Mouse? && Accepted(o) && Sending(o, w) && w.node.dirty
             && 1 <= n <= Max(1, ReportsNeeded(o, w.node.state))
    ensures var r := SendMany(o, w, n);
            && Sending(o, r)
            && (forall d :: ReportsFor(o, r.node.state, d) == Max(0, ReportsFor(o, w.node.state, d) - n))
            && (r.node.dirty <==> n < ReportsNeeded(o, w.node.state))
  {
    hide Accepted, Steady, ReportsFor, SendOne;
    if n == 1 {
      assert SendMany(o, w, 0) == w;
      SendOneSaves(o, w);
    } else {
      DrainCount(o, w, n - 1);
      SendOneSaves(o, SendMany(o, w, n - 1));
    }
  }
}
