/**
 * Scan Time: zero in the first frame after inactivity, and from then on the elapsed ticks modulo the range, so that
 * the target can tell the time between frames (HID Usage Tables 1.7 section 16.5).
 */
module TouchTime {
  import opened Common
  import opened Factories
  import opened NodeModel
  import opened NodeFacts
  import opened NodeRun

  predicate OnlyCalls(events: seq<Event>) {
    forall e :: e in events ==> e.Call?
  }

  /** No contact down, no button pressed. */
  predicate Inactive(s: NodeState)
    requires s.TouchState?
  {
    !AnyPhase(s.contacts, Down) && !AnyPressed(s.buttons)
  }

  /** The next frame starts a new time base. */
  predicate NoBase(n: Node) {
    n.state.TouchState? && n.state.cursor == 0 && !n.state.epochActive
  }

  lemma CallKeepsBase(o: Options, n: Node, m: Mutation)
    requires o.Touch? && NoBase(n)
    ensures NoBase(Mutate(o, n, m).1)
  {
    hide FindSlot, ValidContact, Active;
  }

  lemma {:induction false} CallsKeepBase(o: Options, w: World, calls: seq<Event>)
    requires o.Touch? && NoBase(w.node) && OnlyCalls(calls)
    ensures NoBase(RunAll(o, w, calls).node)
  {
    hide Mutate, NoBase;
    if |calls| == 0 {
    } else {
      assert calls[|calls| - 1] in calls;
      CallsKeepBase(o, w, calls[..|calls| - 1]);
      CallKeepsBase(o, RunAll(o, w, calls[..|calls| - 1]).node, calls[|calls| - 1].m);
    }
  }

  lemma StillNone(contacts: seq<Contact>)
    requires !AnyPhase(contacts, Down)
    ensures !AnyPhase(Settled(FreeLifted(contacts)), Down) && !AnyPhase(FreeLifted(contacts), Down)
  {
    assert forall k :: 0 <= k < |contacts| ==> FreeLifted(contacts)[k].phase != Down;
  }

  /** A frame that ends with the surface inactive ends the time base. */
  lemma LastFrameEndsBase(n: Node, c: Outcome)
    requires n.state.TouchState? && Inactive(n.state) && n.submitted.finalPacket && c.result == Ok && c.native >= 0
    ensures NoBase(Completed(n, c))
  {
    hide FreeLifted, Settled, AnyPressed, AnyPhase;
    StillNone(n.state.contacts);
  }

  /** Whatever is called after the end of the last frame of an activity, the next frame is stamped zero. */
  lemma FirstFrameIsZero(o: Options, w: World, c: Outcome, calls: seq<Event>, ticks: nat)
    requires o.Touch? && Accepted(o) && o.scanTime.Some? && Steady(o, w) && w.node.inflight
    requires w.node.state.TouchState? && Inactive(w.node.state) && w.node.submitted.finalPacket
    requires c.result == Ok && c.native >= 0 && OnlyCalls(calls)
    ensures var r := RunAll(o, Step(o, w, Complete(c, true)), calls).node.state;
            r.TouchState? && Stamped(o, r, ticks).TouchState? && Stamped(o, r, ticks).scanTime == 0
  {
    hide Accepted, StateOk, FlightOk, Sendable, ImageOf, Completed, Inactive, OnlyCalls, Receive;
    LastFrameEndsBase(w.node, c);
    CallsKeepBase(o, Step(o, w, Complete(c, true)), calls);
    NonNegativeScan(o);
  }

  lemma NonNegativeScan(o: Options)
    requires o.Touch? && Accepted(o) && o.scanTime.Some?
    ensures o.scanTime.value.maximum >= 1
  {
    hide ValidField;
  }

  /** The same for the first frame of all. */
  lemma VeryFirstFrameIsZero(o: Options, calls: seq<Event>, ticks: nat)
    requires o.Touch? && Accepted(o) && o.scanTime.Some? && OnlyCalls(calls)
    ensures var r := RunAll(o, NewWorld(o), calls).node.state;
            r.TouchState? && Stamped(o, r, ticks).TouchState? && Stamped(o, r, ticks).scanTime == 0
  {
    hide Accepted, OnlyCalls;
    CallsKeepBase(o, NewWorld(o), calls);
    NonNegativeScan(o);
  }

  /** Between two frames on one time base the stamps differ by the elapsed ticks, modulo the field's range. */
  lemma ScanTimeTellsElapsed(o: Options, s: NodeState, r: NodeState, earlier: nat, later: nat)
    requires o.Touch? && Accepted(o) && o.scanTime.Some? && earlier <= later
    requires s.TouchState? && s.cursor == 0 && s.epochActive && r.TouchState? && r.cursor == 0 && r.epochActive
    ensures Stamped(o, s, earlier).TouchState? && Stamped(o, r, later).TouchState?
    ensures var modulus := o.scanTime.value.maximum + 1;
            modulus > 0 && (Stamped(o, r, later).scanTime - Stamped(o, s, earlier).scanTime) % modulus
                           == (later - earlier) % modulus
  {
    hide Accepted;
    NonNegativeScan(o);
    var m: nat := o.scanTime.value.maximum + 1;
    SameDifference(earlier, later, m);
  }

  lemma SameDifference(a: nat, b: nat, m: nat)
    requires m > 0
    ensures (b % m - a % m) % m == (b - a) % m
  {
    var d := (b - a) % m;
    var q := (b - a) / m - (b / m - a / m);
    assert b - a == m * ((b - a) / m) + d;
    assert b == m * (b / m) + b % m && a == m * (a / m) + a % m;
    assert b % m - a % m == m * q + d by {
      assert m * q == m * ((b - a) / m) - (m * (b / m) - m * (a / m));
    }
    MultiplePlus(m, q, d);
  }

  lemma MultiplePlus(m: nat, q: int, d: nat)
    requires m > 0 && d < m
    ensures (m * q + d) % m == d
  {
    var x := m * q + d;
    var k := x / m - q;
    assert x == m * (x / m) + x % m;
    assert m * k == d - x % m by {
      assert m * k == m * (x / m) - m * q;
    }
    MultipleAway(m, k);
  }
}
