/**
 * Nothing stays held after a successful close: over every run and every completion class, the bookkeeping
 * of what the target may hold never falls short (src/api/c_api.cpp, src/profiles/state.cpp).
 */
module CloseSafety {
  import opened Common
  import opened Factories
  import opened NodeModel
  import opened NodeFacts
  import opened NodeRun

  // ----- What the target may hold ----------------------------------------------------------------

  function LiveIds(contacts: seq<Contact>): set<nat> {
    set k | 0 <= k < |contacts| && !contacts[k].phase.Absent? :: contacts[k].sample.id
  }

  /** Contacts already sent as lifted in the open frame are no longer held. */
  predicate LiftsDelivered(contacts: seq<Contact>, cursor: nat, held: set<nat>) {
    var active := Active(contacts);
    forall i :: 0 <= i < cursor && i < |active| && active[i].phase.Up? ==> active[i].sample.id !in held
  }

  predicate TouchCovered(s: NodeState, dirty: bool, t: Target)
    requires s.TouchState?
  {
    && t.held <= LiveIds(s.contacts)
    && (s.cursor > 0 ==> dirty && t.expected == |Active(s.contacts)| - s.cursor)
    && LiftsDelivered(s.contacts, s.cursor, t.held)
  }

  /** Whatever the last applied report may have left held is remembered. */
  predicate Covered(o: Options, w: World) {
    && (w.target.last.Some? && !ImageNeutral(o, w.target.last.value) ==> w.node.emittedNonNeutral)
    && (w.node.state.TouchState? ==> TouchCovered(w.node.state, w.node.dirty, w.target))
    && (!w.node.state.TouchState? ==> w.target.held == {})
  }

  // ----- Active contacts, by slot ----------------------------------------------------------------

  lemma {:induction false} ActiveOf(contacts: seq<Contact>, k: nat)
    requires k < |contacts| && !contacts[k].phase.Absent?
    ensures contacts[k] in Active(contacts)
  {
    var n := |contacts| - 1;
    if k < n {
      ActiveOf(contacts[..n], k);
    }
  }

  /** Distinct live IDs make the active contacts distinct too. */
  lemma {:induction false} ActiveDistinct(contacts: seq<Contact>, i: nat, j: nat)
    requires DistinctIds(contacts) && i < j < |Active(contacts)|
    ensures Active(contacts)[i].sample.id != Active(contacts)[j].sample.id
  {
    var n := |contacts| - 1;
    if j < |Active(contacts[..n])| {
      ActiveDistinct(contacts[..n], i, j);
    } else {
      ActiveMembers(contacts[..n], i);
      var k :| 0 <= k < n && contacts[..n][k] == Active(contacts[..n])[i];
      assert contacts[k].sample.id != contacts[n].sample.id;
    }
  }

  // ----- A touch packet arrives ------------------------------------------------------------------

  /** Contacts in the packet that starts at the cursor. */
  function PacketSize(o: Options, s: NodeState): nat
    requires o.Touch? && s.TouchState?
  {
    Min(o.contactsPerReport, Unsent(o, s))
  }

  /** The places the target reads are the contacts of the packet. */
  lemma ReadPlaces(o: Options, s: NodeState, dirty: bool, t: Target)
    requires o.Touch? && StateOk(o, s) && TouchCovered(s, dirty, t) && |Active(s.contacts)| > 0
    ensures var read := ReadEntries(ImageOf(o, s).value, t.expected);
            && |read| == PacketSize(o, s)
            && forall k :: 0 <= k < |read| ==> read[k] == EntryOf(o, Active(s.contacts)[s.cursor + k])
  {
    hide Active, SamplesPlaced, DistinctIds, LiveIds, LiftsDelivered;
  }

  lemma TipIds(entries: seq<Entry>, tip: bool, id: nat)
    ensures id in IdsWithTip(entries, tip) <==>
            exists k :: 0 <= k < |entries| && entries[k].tip == tip && entries[k].id == id
  {
  }

  lemma {:induction false} ActiveIsLive(contacts: seq<Contact>, i: nat)
    requires i < |Active(contacts)|
    ensures Active(contacts)[i].sample.id in LiveIds(contacts)
  {
    ActiveMembers(contacts, i);
    var k :| 0 <= k < |contacts| && contacts[k] == Active(contacts)[i];
    assert contacts[k].sample.id in LiveIds(contacts);
  }

  /** An applied packet leaves only live contacts held, and none that it has lifted. */
  lemma PacketReceived(o: Options, s: NodeState, dirty: bool, t: Target)
    requires o.Touch? && StateOk(o, s) && TouchCovered(s, dirty, t) && |Active(s.contacts)| > 0
    ensures var after := Receive(t, ImageOf(o, s).value);
            && after.held <= LiveIds(s.contacts)
            && after.expected == |Active(s.contacts)| - s.cursor - PacketSize(o, s)
            && LiftsDelivered(s.contacts, s.cursor + PacketSize(o, s), after.held)
  {
    hide Active, SamplesPlaced, DistinctIds, LiveIds, IdsWithTip;
    var image, active := ImageOf(o, s).value, Active(s.contacts);
    var read := ReadEntries(image, t.expected);
    var after := Receive(t, image);
    ReadPlaces(o, s, dirty, t);
    forall id | id in after.held
      ensures id in LiveIds(s.contacts)
    {
      TipIds(read, true, id);
      if id !in t.held {
        var k :| 0 <= k < |read| && read[k].tip && read[k].id == id;
        ActiveIsLive(s.contacts, s.cursor + k);
      }
    }
    forall i | 0 <= i < s.cursor + |read| && i < |active| && active[i].phase.Up?
      ensures active[i].sample.id !in after.held
    {
      LiftedNotHeld(o, s, dirty, t, i);
    }
  }

  /** A lifted contact of this packet, or of an earlier one of the frame, is not held any more. */
  lemma LiftedNotHeld(o: Options, s: NodeState, dirty: bool, t: Target, i: nat)
    requires o.Touch? && StateOk(o, s) && TouchCovered(s, dirty, t)
    requires i < |Active(s.contacts)| && i < s.cursor + PacketSize(o, s) && Active(s.contacts)[i].phase.Up?
    ensures Active(s.contacts)[i].sample.id !in Receive(t, ImageOf(o, s).value).held
  {
    hide Active, SamplesPlaced, LiveIds, IdsWithTip;
    var active := Active(s.contacts);
    var read := ReadEntries(ImageOf(o, s).value, t.expected);
    var id := active[i].sample.id;
    ReadPlaces(o, s, dirty, t);
    TipIds(read, true, id);
    TipIds(read, false, id);
    forall k | 0 <= k < |read| && read[k].id == id
      ensures s.cursor + k == i
    {
      if s.cursor + k < i {
        ActiveDistinct(s.contacts, s.cursor + k, i);
      } else if i < s.cursor + k {
        ActiveDistinct(s.contacts, i, s.cursor + k);
      }
    }
    if i >= s.cursor {
      assert read[i - s.cursor] == EntryOf(o, active[i]);
    }
  }

  /** When the frame is complete, what is held is still down. */
  lemma FrameCompleted(contacts: seq<Contact>, held: set<nat>)
    requires held <= LiveIds(contacts) && LiftsDelivered(contacts, |Active(contacts)|, held)
    ensures held <= LiveIds(FreeLifted(contacts))
  {
    hide Active;
    forall id | id in held
      ensures id in LiveIds(FreeLifted(contacts))
    {
      var k :| 0 <= k < |contacts| && !contacts[k].phase.Absent? && contacts[k].sample.id == id;
      ActiveOf(contacts, k);
      var i :| 0 <= i < |Active(contacts)| && Active(contacts)[i] == contacts[k];
      assert FreeLifted(contacts)[k] == contacts[k];
    }
  }

  // ----- Completions -----------------------------------------------------------------------------

  /** A report of a state without anything held is a neutral report. */
  lemma NeutralStateNeutralImage(o: Options, s: NodeState)
    requires StateOk(o, s) && !HasNonNeutral(o, s)
    ensures ImageOf(o, s).Some? && ImageNeutral(o, ImageOf(o, s).value)
  {
    hide TouchOk, PenPlaces, PacketEntries;
    if s.KeyboardState? {
      CountZero(s.keys);
    }
  }

  lemma RememberedNonNeutral(o: Options, s: NodeState)
    ensures Remembered(o, s).nonNeutral == HasNonNeutral(o, s)
  {
    hide HasNonNeutral, Active;
  }

  /** What a completion does to the non-neutral flag. */
  lemma CompletedFlag(n: Node, c: Outcome)
    ensures Completed(n, c).emittedNonNeutral
            == if !MayHaveApplied(c) then n.emittedNonNeutral
               else if c.result == Ok then n.submitted.nonNeutral
               else n.emittedNonNeutral || n.submitted.nonNeutral
  {
    hide ConsumeEdges, Applied;
  }

  lemma CompletedKind(n: Node, c: Outcome)
    ensures Completed(n, c).state.TouchState? == n.state.TouchState?
  {
  }

  /** Consuming edges leaves phases, IDs and the cursor alone. */
  lemma EdgesKeepContacts(s: NodeState)
    requires s.TouchState?
    ensures var r := ConsumeEdges(s);
            && r.TouchState? && r.cursor == s.cursor && |r.contacts| == |s.contacts|
            && forall k :: 0 <= k < |s.contacts| ==>
                 r.contacts[k].phase == s.contacts[k].phase && r.contacts[k].sample == s.contacts[k].sample
  {
  }

  lemma SamePhasesSameIds(a: seq<Contact>, b: seq<Contact>)
    requires |a| == |b|
    requires forall k :: 0 <= k < |a| ==> a[k].phase.Absent? == b[k].phase.Absent? && a[k].sample.id == b[k].sample.id
    ensures LiveIds(a) == LiveIds(b)
  {
    forall id
      ensures id in LiveIds(a) <==> id in LiveIds(b)
    {
      if id in LiveIds(a) {
        var k :| 0 <= k < |a| && !a[k].phase.Absent? && a[k].sample.id == id;
        assert b[k].sample.id in LiveIds(b);
      }
      if id in LiveIds(b) {
        var k :| 0 <= k < |b| && !b[k].phase.Absent? && b[k].sample.id == id;
        assert a[k].sample.id in LiveIds(a);
      }
    }
  }

  lemma NoLiftsAtStart(contacts: seq<Contact>, held: set<nat>)
    ensures LiftsDelivered(contacts, 0, held)
  {
  }

  /** The touch part of a completion. */
  lemma TouchCompletedCovered(o: Options, n: Node, c: Outcome, applied: bool, t: Target)
    requires Accepted(o) && NodeOk(o, n) && n.inflight && n.state.TouchState? && Honest(c, applied)
    requires TouchCovered(n.state, n.dirty, t)
    ensures var r := Completed(n, c);
            var after := if applied then Receive(t, ImageOf(o, n.state).value) else t;
            ImageOf(o, n.state).Some? && TouchCovered(r.state, r.dirty, after)
  {
    hide Accepted, Active, LiveIds, LiftsDelivered, SamplesPlaced, DistinctIds, ConsumeEdges, Receive;
    assert o.Touch?;
    var s := n.state;
    var after := if applied then Receive(t, ImageOf(o, s).value) else t;
    if |Active(s.contacts)| > 0 {
      PacketReceived(o, s, n.dirty, t);
    } else {
      EmptyReceived(o, s, n.dirty, t);
    }
    if MayHaveApplied(c) {
      if c.result != Ok {
        var reset := s.(cursor := 0);
        EdgesKeepContacts(reset);
        SamePhasesSameIds(s.contacts, ConsumeEdges(reset).contacts);
        NoLiftsAtStart(ConsumeEdges(reset).contacts, after.held);
      } else if n.submitted.finalPacket {
        FinalPacketCovered(o, n, t);
      } else {
        NotFinalHasContacts(o, s);
      }
    }
  }

  lemma NotFinalHasContacts(o: Options, s: NodeState)
    requires o.Touch? && s.TouchState? && !Remembered(o, s).finalPacket
    ensures |Active(s.contacts)| > 0 && Remembered(o, s).touchCount == PacketSize(o, s)
  {
    hide Active;
  }

  lemma EmptyReceived(o: Options, s: NodeState, dirty: bool, t: Target)
    requires o.Touch? && StateOk(o, s) && TouchCovered(s, dirty, t) && |Active(s.contacts)| == 0
    ensures Receive(t, ImageOf(o, s).value).held <= LiveIds(s.contacts)
    ensures LiftsDelivered(s.contacts, 0, Receive(t, ImageOf(o, s).value).held)
  {
    hide Active, SamplesPlaced, DistinctIds, LiveIds;
    var image := ImageOf(o, s).value;
    assert forall k :: 0 <= k < |image.entries| ==> image.entries[k] == NO_ENTRY;
    assert IdsWithTip(ReadEntries(image, t.expected), true) == {};
  }

  lemma FinalPacketCovered(o: Options, n: Node, t: Target)
    requires Accepted(o) && NodeOk(o, n) && n.inflight && o.Touch? && n.state.TouchState? && n.submitted.finalPacket
    requires TouchCovered(n.state, n.dirty, t)
    ensures var r := ConsumeEdges(Applied(n.state, n.submitted).0);
            r.TouchState? && r.cursor == 0 && Receive(t, ImageOf(o, n.state).value).held <= LiveIds(r.contacts)
    ensures var r := ConsumeEdges(Applied(n.state, n.submitted).0);
            LiftsDelivered(r.contacts, 0, Receive(t, ImageOf(o, n.state).value).held)
  {
    hide Accepted, Active, LiveIds, LiftsDelivered, SamplesPlaced, DistinctIds, ConsumeEdges, Receive, AnyPhase,
         AnyPressed;
    var s := n.state;
    var after := Receive(t, ImageOf(o, s).value);
    var freed := Applied(s, n.submitted).0;
    EdgesKeepContacts(freed);
    SamePhasesSameIds(freed.contacts, ConsumeEdges(freed).contacts);
    NoLiftsAtStart(ConsumeEdges(freed).contacts, after.held);
    if |Active(s.contacts)| > 0 {
      PacketReceived(o, s, n.dirty, t);
      LiftsExtend(s.contacts, s.cursor + PacketSize(o, s), after.held);
    } else {
      EmptyReceived(o, s, n.dirty, t);
      LiftsExtend(s.contacts, 0, after.held);
    }
    FrameCompleted(s.contacts, after.held);
  }

  lemma LiftsExtend(contacts: seq<Contact>, cursor: nat, held: set<nat>)
    requires LiftsDelivered(contacts, cursor, held) && cursor >= |Active(contacts)|
    ensures LiftsDelivered(contacts, |Active(contacts)|, held)
  {
    hide Active;
  }

  // ----- The other steps -------------------------------------------------------------------------

  lemma EditKeepsKind(o: Options, s: NodeState, m: Mutation)
    requires StateOk(o, s) && RightProfile(o, m)
    ensures EditOf(o, s, m).state.TouchState? == s.TouchState?
  {
    hide TouchOk, PenPlaces, AllowedUsage, ValidContact, ValidPen, PenConflicts, EncodeDPad, FindSlot, Active;
  }

  /** A mutator of a touch Node leaves an open frame alone and forgets no live contact. */
  lemma TouchEditCovered(o: Options, s: NodeState, m: Mutation, dirty: bool, t: Target)
    requires o.Touch? && StateOk(o, s) && RightProfile(o, m) && TouchCovered(s, dirty, t)
             && EditOf(o, s, m).result == Ok
    ensures var e := EditOf(o, s, m); e.state.TouchState? && TouchCovered(e.state, dirty || e.touched, t)
  {
    hide SamplesPlaced, DistinctIds, Active, ValidContact;
    var r := EditOf(o, s, m).state;
    assert s.cursor == 0 && r.cursor == 0;
    forall id | id in t.held
      ensures id in LiveIds(r.contacts)
    {
      var k :| 0 <= k < |s.contacts| && !s.contacts[k].phase.Absent? && s.contacts[k].sample.id == id;
      assert !r.contacts[k].phase.Absent? && r.contacts[k].sample.id == id;
    }
  }

  lemma CallCovered(o: Options, w: World, m: Mutation)
    requires Accepted(o) && Steady(o, w) && Covered(o, w)
    ensures Covered(o, Step(o, w, Call(m)))
  {
    hide Accepted, StateOk, EditOf, TouchCovered, ImageNeutral, FlightOk;
    if RightProfile(o, m) && w.node.present && !w.node.inflight && EditOf(o, w.node.state, m).result == Ok {
      EditKeepsKind(o, w.node.state, m);
      if w.node.state.TouchState? {
        TouchIsTouch(o, w.node.state);
        TouchEditCovered(o, w.node.state, m, w.node.dirty, w.target);
      }
    }
  }

  lemma TouchIsTouch(o: Options, s: NodeState)
    requires StateOk(o, s) && s.TouchState?
    ensures o.Touch?
  {
  }

  lemma LaunchCovered(o: Options, w: World, ticks: nat)
    requires Covered(o, w)
    ensures Covered(o, Step(o, w, Submit(ticks)))
  {
    hide ImageNeutral, Remembered, ImageOf, LiftsDelivered, LiveIds, Active;
  }

  lemma CompleteCovered(o: Options, w: World, c: Outcome, applied: bool)
    requires Accepted(o) && Steady(o, w) && Covered(o, w) && Enabled(w, Complete(c, applied))
    ensures Covered(o, Step(o, w, Complete(c, applied)))
  {
    hide Accepted, StateOk, TouchCovered, Completed, Remembered, HasNonNeutral, ImageNeutral, ImageOf, Sendable;
    var n := w.node;
    CompletedFlag(n, c);
    CompletedKind(n, c);
    RememberedNonNeutral(o, n.state);
    if !HasNonNeutral(o, n.state) {
      NeutralStateNeutralImage(o, n.state);
    }
    ImageKind(o, n.state);
    if n.state.TouchState? {
      TouchCompletedCovered(o, n, c, applied, w.target);
    }
  }

  lemma ImageKind(o: Options, s: NodeState)
    ensures ImageOf(o, s).Some? ==> ImageOf(o, s).value.TouchImage? == s.TouchState?
  {
    hide PacketEntries, PenReport;
  }

  lemma NeutralizeCovered(o: Options, w: World)
    requires Covered(o, w) && Enabled(w, Neutralize)
    ensures Covered(o, Step(o, w, Neutralize))
  {
    hide ImageNeutral, LiveIds, Active, AnyPhase, AnyPressed, AxesNeutral;
    if w.node.state.TouchState? {
      SamePhasesSameIds(w.node.state.contacts, LiftAll(w.node.state.contacts));
    }
  }

  lemma StepCovered(o: Options, w: World, e: Event)
    requires Accepted(o) && Steady(o, w) && Covered(o, w)
    ensures Covered(o, Step(o, w, e))
  {
    hide Accepted, TouchCovered, ImageNeutral, Mutate, Launched, Completed, MakeNeutral, Receive, Refused, ImageOf,
         NodeOk;
    if Enabled(w, e) {
      match e
      case Call(m) => CallCovered(o, w, m);
      case Submit(ticks) => LaunchCovered(o, w, ticks);
      case Reject(ticks, outcome) => RejectCovered(o, w, ticks, outcome);
      case Complete(outcome, applied) => CompleteCovered(o, w, outcome, applied);
      case Collect =>
      case Neutralize => NeutralizeCovered(o, w);
      case Lose =>
    }
  }

  lemma RejectCovered(o: Options, w: World, ticks: nat, c: Outcome)
    requires Steady(o, w) && Covered(o, w) && Enabled(w, Reject(ticks, c))
    ensures Covered(o, Step(o, w, Reject(ticks, c)))
  {
    hide Covered, Refused, StateOk;
    RejectKeeps(o, w, ticks, c);
  }

  lemma NewCovered(o: Options)
    requires Accepted(o)
    ensures Covered(o, NewWorld(o))
  {
    hide Accepted, Active;
  }

  lemma {:induction false} RunCovered(o: Options, events: seq<Event>)
    requires Accepted(o)
    ensures Covered(o, RunAll(o, NewWorld(o), events))
  {
    hide Accepted, Steady, Step, NewWorld, Covered;
    if |events| == 0 {
      NewCovered(o);
    } else {
      RunSteady(o, events[..|events| - 1]);
      RunCovered(o, events[..|events| - 1]);
      StepCovered(o, RunAll(o, NewWorld(o), events[..|events| - 1]), events[|events| - 1]);
    }
  }

  // ----- The close -------------------------------------------------------------------------------

  /** Nothing of the neutralized Node's own state is held; a pen will not stop for a tool change. */
  predicate Quiet(o: Options, s: NodeState) {
    && !HasNonNeutral(o, s)
    && (s.MouseState? ==> s.dx == 0 && s.dy == 0 && s.wheel == 0 && s.pan == 0)
  }

  /** Between the neutralization and the end of a successful close. */
  predicate Closing(o: Options, w: World) {
    && Quiet(o, w.node.state)
    && (!w.node.inflight && !w.node.dirty ==> TargetNeutral(o, w.target))
  }

  lemma NeutralizedQuiet(o: Options, s: NodeState)
    requires Accepted(o) && StateOk(o, s)
    ensures Quiet(o, Neutralized(o, s).0)
  {
    hide Accepted, TouchOk, PenPlaces;
    match s
    case KeyboardState(keys, _, _, _, _) => NonePressed(|keys|);
    case MouseState(buttons, _, _, _, _, _) => NonePressed(|buttons|);
    case GamepadState(_, buttons, _, _, _, _) => NonePressed(|buttons|);
    case TouchState(_, buttons, _, _, _, _) => NonePressed(|buttons|);
    case _ =>
  }

  /** A Node with nothing to neutralize and nothing emitted has a neutral target already. */
  lemma NothingToNeutralize(o: Options, w: World)
    requires !o.Battery? && Covered(o, w) && !Neutralized(o, w.node.state).1 && !w.node.emittedNonNeutral
    ensures TargetNeutral(o, w.target)
  {
    hide ImageNeutral, AnyPressed, AxesNeutral, Active, LiftsDelivered;
    if w.node.state.TouchState? {
      forall k | 0 <= k < |w.node.state.contacts|
        ensures w.node.state.contacts[k].phase.Absent?
      {
      }
      assert LiveIds(w.node.state.contacts) == {};
    }
  }

  lemma CloseBegins(o: Options, w: World)
    requires Accepted(o) && !o.Battery? && Steady(o, w) && Covered(o, w) && Enabled(w, Neutralize)
    ensures Closing(o, Step(o, w, Neutralize))
  {
    hide Accepted, Covered, StateOk, Neutralized, Quiet, FlightOk, TargetNeutral;
    NeutralizedQuiet(o, w.node.state);
    if !Neutralized(o, w.node.state).1 && !w.node.emittedNonNeutral {
      NothingToNeutralize(o, w);
    }
  }

  lemma StampedQuiet(o: Options, s: NodeState, ticks: nat)
    requires Quiet(o, s)
    ensures Quiet(o, Stamped(o, s, ticks))
  {
    hide AnyPhase, AnyPressed, AxesNeutral;
  }

  lemma EdgesQuiet(o: Options, s: NodeState)
    requires Quiet(o, s)
    ensures Quiet(o, ConsumeEdges(s))
  {
    hide AxesNeutral;
  }

  /** A quiet Node's applied report leaves it quiet; only a touch frame may need more packets. */
  lemma AppliedQuiet(o: Options, s: NodeState, sent: Submitted)
    requires Quiet(o, s)
    ensures Quiet(o, Applied(s, sent).0)
    ensures Applied(s, sent).1 <==> s.TouchState? && !sent.finalPacket
    ensures s.TouchState? && sent.finalPacket ==> Applied(s, sent).2
  {
    hide AxesNeutral;
  }

  lemma QuietRemembersNothing(o: Options, s: NodeState)
    requires Accepted(o) && StateOk(o, s) && Quiet(o, s) && s.MouseState?
    ensures var sent := Remembered(o, s); sent.dx == 0 && sent.dy == 0 && sent.wheel == 0 && sent.pan == 0
  {
    hide ValidField, AnyPressed;
  }

  /** After the last packet of a quiet touch frame no contact is left. */
  lemma QuietFrameEnds(o: Options, s: NodeState, sent: Submitted, t: Target)
    requires Quiet(o, s) && s.TouchState? && sent.finalPacket
    requires t.held <= LiveIds(ConsumeEdges(Applied(s, sent).0).contacts)
    ensures t.held == {}
  {
    hide AnyPressed, ConsumeEdges;
    var freed := Applied(s, sent).0;
    EdgesKeepContacts(freed);
    var left := ConsumeEdges(freed).contacts;
    forall k | 0 <= k < |left|
      ensures left[k].phase.Absent?
    {
      assert !s.contacts[k].phase.Down?;
    }
    assert LiveIds(left) == {};
  }

  lemma CloseCompletes(o: Options, w: World, c: Outcome)
    requires Accepted(o) && Steady(o, w) && Covered(o, w) && Closing(o, w) && c.result == Ok
    requires Enabled(w, Complete(c, true))
    ensures Closing(o, Step(o, w, Complete(c, true)))
  {
    hide Accepted, StateOk, Quiet, Remembered, Applied, ConsumeEdges, HasNonNeutral, ImageNeutral, ImageOf, Sendable,
         Receive,
         TouchCovered;
    var n, r := w.node, Step(o, w, Complete(c, true));
    assert !HasNonNeutral(o, n.state) by {
      QuietHoldsNothing(o, n.state);
    }
    NeutralStateNeutralImage(o, n.state);
    AppliedQuiet(o, n.state, n.submitted);
    EdgesQuiet(o, Applied(n.state, n.submitted).0);
    CompleteCovered(o, w, c, true);
    ImageKind(o, n.state);
    LastReceived(w.target, w.sent.value);
    CompletedKind(n, c);
    if n.state.MouseState? {
      QuietRemembersNothing(o, n.state);
      EdgesQuiet(o, n.state);
    } else if n.state.TouchState? && n.submitted.finalPacket {
      HeldIsLive(r);
      QuietFrameEnds(o, n.state, n.submitted, r.target);
    }
  }

  lemma HeldIsLive(w: World)
    requires w.node.state.TouchState? && TouchCovered(w.node.state, w.node.dirty, w.target)
    ensures w.target.held <= LiveIds(w.node.state.contacts)
  {
  }

  lemma LastReceived(t: Target, image: Image)
    ensures Receive(t, image).last == Some(image)
    ensures !image.TouchImage? ==> Receive(t, image).held == t.held
  {
  }

  lemma QuietHoldsNothing(o: Options, s: NodeState)
    ensures Quiet(o, s) ==> !HasNonNeutral(o, s)
  {
  }

  /** What can happen between the neutralization and a close that returns OK: every report the link takes succeeds. */
  predicate CloseEvent(e: Event) {
    match e
    case Submit(_) => true
    case Reject(_, _) => true
    case Collect => true
    case Complete(outcome, applied) => outcome.result == Ok && applied
    case _ => false
  }

  lemma CloseReject(o: Options, w: World, ticks: nat, c: Outcome)
    requires Steady(o, w) && Enabled(w, Reject(ticks, c))
    ensures Step(o, w, Reject(ticks, c)) == w
  {
    hide NodeOk;
    RejectKeeps(o, w, ticks, c);
  }

  lemma CloseSteps(o: Options, w: World, e: Event)
    requires Accepted(o) && Steady(o, w) && Covered(o, w) && Closing(o, w) && CloseEvent(e)
    ensures Closing(o, Step(o, w, e))
  {
    hide Accepted, Steady, Covered, Quiet, TargetNeutral, Remembered, ImageOf, Completed, Receive;
    if Enabled(w, e) {
      match e
      case Submit(ticks) => StampedQuiet(o, w.node.state, ticks);
      case Reject(ticks, outcome) => CloseReject(o, w, ticks, outcome);
      case Complete(outcome, _) => CloseCompletes(o, w, outcome);
      case _ =>
    }
  }

  lemma {:induction false} CloseRun(o: Options, w: World, events: seq<Event>)
    requires Accepted(o) && Steady(o, w) && Covered(o, w) && Closing(o, w)
    requires forall k :: 0 <= k < |events| ==> CloseEvent(events[k])
    ensures var r := RunAll(o, w, events); Steady(o, r) && Covered(o, r) && Closing(o, r)
  {
    hide Accepted, Steady, Covered, Closing, Step;
    if |events| == 0 {
    } else {
      var before, e := RunAll(o, w, events[..|events| - 1]), events[|events| - 1];
      CloseRun(o, w, events[..|events| - 1]);
      StepSteady(o, before, e);
      StepCovered(o, before, e);
      CloseSteps(o, before, e);
    }
  }

  /**
   * Nothing stays held after close. Take any run with any completions, stop it where the close may
   * neutralize, and let the close's own reports all succeed until the Node is idle and clean, with the
   * device still there: then no target state consistent with the whole run holds anything.
   */
  lemma CloseLeavesNothingHeld(o: Options, history: seq<Event>, closing: seq<Event>)
    requires Accepted(o) && !o.Battery?
    requires Enabled(RunAll(o, NewWorld(o), history), Neutralize)
    requires forall k :: 0 <= k < |closing| ==> CloseEvent(closing[k])
    ensures var neutralized := Step(o, RunAll(o, NewWorld(o), history), Neutralize);
            var end := RunAll(o, neutralized, closing);
            !end.node.inflight && !end.node.dirty ==> TargetNeutral(o, end.target)
  {
    hide Accepted, Steady, Covered, Step, NewWorld, RunAll, TargetNeutral, Quiet;
    var before := RunAll(o, NewWorld(o), history);
    RunSteady(o, history);
    RunCovered(o, history);
    CloseBegins(o, before);
    StepSteady(o, before, Neutralize);
    StepCovered(o, before, Neutralize);
    CloseRun(o, Step(o, before, Neutralize), closing);
  }
}
