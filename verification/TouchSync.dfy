/**
 * A clean touch Node is in sync: in runs without uncertain completions, when nothing is left to send, the
 * target holds exactly the contacts that are down, as the last complete frame showed them.
 */
module TouchSync {
  import opened Common
  import opened Factories
  import opened NodeModel
  import opened NodeFacts
  import opened NodeRun
  import opened TouchRun
  import opened CloseSafety

  /** Contacts already sent as down in the open frame are held. */
  predicate DownsDelivered(contacts: seq<Contact>, cursor: nat, held: set<nat>) {
    var active := Active(contacts);
    forall i :: 0 <= i < cursor && i < |active| && active[i].phase.Down? ==> active[i].sample.id in held
  }

  /** What a complete frame leaves of the contacts it carried. */
  function AfterFrame(contacts: seq<Contact>): seq<Contact> {
    Settled(FreeLifted(contacts))
  }

  /** The Node's contacts and buttons are those of the last complete frame, or nothing at all before the first. */
  predicate ShownLast(s: NodeState, complete: seq<Frame>)
    requires s.TouchState?
  {
    if |complete| == 0 then (forall c :: c in s.contacts ==> c.phase.Absent?) && !AnyPressed(s.buttons)
    else
      var f := complete[|complete| - 1];
      && s.contacts == AfterFrame(f.contacts)
      && ShowsButtons(f, s.buttons)
  }

  predicate ShowsButtons(f: Frame, buttons: seq<bool>) {
    |f.packets| > 0 && f.packets[0].TouchImage? && f.packets[0].buttons == buttons
  }

  predicate Shown(w: World, complete: seq<Frame>)
    requires w.node.state.TouchState?
  {
    var s := w.node.state;
    && DownsDelivered(s.contacts, s.cursor, w.target.held)
    && (!w.node.dirty ==> ShownLast(s, complete) && LiveIds(s.contacts) <= w.target.held)
  }

  // ----- One packet ------------------------------------------------------------------------------

  /** A contact that is down in this packet, or was in an earlier one of the frame, is held. */
  lemma DownIsHeld(o: Options, s: NodeState, dirty: bool, t: Target, i: nat)
    requires o.Touch? && StateOk(o, s) && TouchCovered(s, dirty, t) && DownsDelivered(s.contacts, s.cursor, t.held)
    requires i < |Active(s.contacts)| && i < s.cursor + PacketSize(o, s) && Active(s.contacts)[i].phase.Down?
    ensures Active(s.contacts)[i].sample.id in Receive(t, ImageOf(o, s).value).held
  {
    hide Active, SamplesPlaced, LiveIds, IdsWithTip, LiftsDelivered;
    var active := Active(s.contacts);
    var read := ReadEntries(ImageOf(o, s).value, t.expected);
    var id := active[i].sample.id;
    ReadPlaces(o, s, dirty, t);
    TipIds(read, true, id);
    TipIds(read, false, id);
    if i >= s.cursor {
      assert read[i - s.cursor] == EntryOf(o, active[i]);
    } else {
      forall k | 0 <= k < |read|
        ensures read[k].id != id
      {
        ActiveDistinct(s.contacts, i, s.cursor + k);
      }
    }
  }

  lemma PacketDelivers(o: Options, s: NodeState, dirty: bool, t: Target)
    requires o.Touch? && StateOk(o, s) && TouchCovered(s, dirty, t) && DownsDelivered(s.contacts, s.cursor, t.held)
    ensures DownsDelivered(s.contacts, s.cursor + PacketSize(o, s), Receive(t, ImageOf(o, s).value).held)
  {
    hide TouchOk, Active, Receive, PacketEntries, TouchCovered, PacketSize;
    var after := Receive(t, ImageOf(o, s).value).held;
    forall i | 0 <= i < s.cursor + PacketSize(o, s) && i < |Active(s.contacts)| && Active(s.contacts)[i].phase.Down?
      ensures Active(s.contacts)[i].sample.id in after
    {
      DownIsHeld(o, s, dirty, t, i);
    }
  }

  /** When the frame is complete, what is live is held. */
  lemma FrameHeld(contacts: seq<Contact>, held: set<nat>)
    requires DownsDelivered(contacts, |Active(contacts)|, held)
    ensures LiveIds(AfterFrame(contacts)) <= held
  {
    hide Active;
    var after := AfterFrame(contacts);
    forall k | 0 <= k < |after| && !after[k].phase.Absent?
      ensures after[k].sample.id in held
    {
      ActiveOf(contacts, k);
      var i :| 0 <= i < |Active(contacts)| && Active(contacts)[i] == contacts[k];
    }
  }

  lemma Delivered(contacts: seq<Contact>, cursor: nat, held: set<nat>)
    requires DownsDelivered(contacts, cursor, held) && cursor >= |Active(contacts)|
    ensures DownsDelivered(contacts, |Active(contacts)|, held)
  {
    hide Active;
  }

  lemma NoDownsAtStart(contacts: seq<Contact>, held: set<nat>)
    ensures DownsDelivered(contacts, 0, held)
  {
  }

  /** The state after an applied packet. */
  lemma PacketState(n: Node, c: Outcome)
    requires n.state.TouchState? && c.result == Ok && c.native >= 0
    ensures var r := Completed(n, c);
            && r.state.TouchState? && r.state.buttons == n.state.buttons
            && (n.submitted.finalPacket ==> r.state.contacts == AfterFrame(n.state.contacts) && r.state.cursor == 0)
            && (!n.submitted.finalPacket ==>
                  r.dirty && r.state.contacts == n.state.contacts
                      && r.state.cursor == n.state.cursor + n.submitted.touchCount)
  {
    hide AnyPhase, AnyPressed;
  }

  lemma FinalReaches(o: Options, s: NodeState)
    requires o.Touch? && s.TouchState?
    ensures Remembered(o, s).touchCount == PacketSize(o, s)
    ensures Remembered(o, s).finalPacket <==> s.cursor + PacketSize(o, s) >= |Active(s.contacts)|
  {
    hide Active, HasNonNeutral;
  }

  lemma AppliedShown(o: Options, w: World, c: Outcome, watch: Watch)
    requires o.Touch? && Accepted(o) && Steady(o, w) && Covered(o, w) && w.node.state.TouchState?
    requires WatchOk(o, w.node.state, watch) && Shown(w, watch.complete) && Enabled(w, Complete(c, true))
             && c.result == Ok
    ensures var r := Step(o, w, Complete(c, true));
            r.node.state.TouchState? && Shown(r, WatchStep(o, w, Complete(c, true), watch).complete)
  {
    hide Accepted, StateOk, Completed, Remembered, WatchOk, Arrive, Receive, ImageOf, Sendable, CarriesAll,
         DownsDelivered,
         AfterFrame, LiveIds, Active, PacketSize, TouchCovered, PacketAt, PacketsAre;
    var s := w.node.state;
    var held := Receive(w.target, ImageOf(o, s).value).held;
    PacketState(w.node, c);
    FinalReaches(o, s);
    ArrivesNext(o, s, watch);
    PacketDelivers(o, s, w.node.dirty, w.target);
    if w.node.submitted.finalPacket {
      NextPacket(o, s, watch);
      FirstButtons(o, FrameSoFar(s, watch), ImageOf(o, s).value, s);
      Delivered(s.contacts, s.cursor + PacketSize(o, s), held);
      FrameHeld(s.contacts, held);
      NoDownsAtStart(AfterFrame(s.contacts), held);
    }
  }

  lemma FirstButtons(o: Options, f: Frame, image: Image, s: NodeState)
    requires o.Touch? && s.TouchState? && PacketsAre(o, f.(packets := f.packets + [image]), s.buttons, s.scanTime)
    ensures var first := (f.packets + [image])[0]; first.TouchImage? && first.buttons == s.buttons
  {
    var grown := f.(packets := f.packets + [image]);
    assert grown.packets[0] == PacketAt(o, f.contacts, s.buttons, s.scanTime, 0);
  }

  // ----- The other steps -------------------------------------------------------------------------

  /** A call that brings nothing new changes nothing at all. */
  lemma UntouchedTouch(o: Options, s: NodeState, m: Mutation)
    requires o.Touch? && s.TouchState? && RightProfile(o, m) && !EditOf(o, s, m).touched
    ensures EditOf(o, s, m).state == s
  {
    hide ValidContact, Active;
  }

  lemma CallShown(o: Options, w: World, m: Mutation, complete: seq<Frame>)
    requires o.Touch? && w.node.state.TouchState? && Shown(w, complete)
    ensures var r := Step(o, w, Call(m)); r.node.state.TouchState? && Shown(r, complete)
  {
    hide EditOf, Active, ShownLast, LiveIds, DownsDelivered;
    if Mutate(o, w.node, m).0 == Ok {
      var edit := EditOf(o, w.node.state, m);
      if FrameOpen(w.node.state) {
        MidFrameIsBusy(o, w.node, m);
      } else {
        EditKeepsCursor(o, w.node.state, m);
        NoDownsAtStart(edit.state.contacts, w.target.held);
        if !edit.touched {
          UntouchedTouch(o, w.node.state, m);
        }
      }
    }
  }

  lemma StampShown(o: Options, s: NodeState, ticks: nat)
    requires s.TouchState?
    ensures var r := Stamped(o, s, ticks);
            r.TouchState? && r.contacts == s.contacts && r.cursor == s.cursor && r.buttons == s.buttons
  {
  }

  lemma RefusedStaysDirty(n: Node, c: Outcome)
    requires !MayHaveApplied(c)
    ensures Completed(n, c).state == n.state && Completed(n, c).dirty
  {
  }

  lemma StepShown(o: Options, w: World, e: Event, watch: Watch)
    requires o.Touch? && Accepted(o) && Steady(o, w) && Covered(o, w) && w.node.state.TouchState?
    requires WatchOk(o, w.node.state, watch) && Shown(w, watch.complete) && !e.Neutralize? && CertainEvent(e)
    ensures var r := Step(o, w, e); r.node.state.TouchState? && Shown(r, WatchStep(o, w, e, watch).complete)
  {
    hide Accepted, Steady, Covered, WatchOk, Mutate, Completed, Refused, Remembered, Receive, Arrive, Stamped,
         ShownLast, LiveIds,
         DownsDelivered, ImageOf;
    match e
    case Call(m) => CallShown(o, w, m, watch.complete);
    case Submit(ticks) => StampShown(o, w.node.state, ticks);
    case Reject(ticks, outcome) =>
      if Enabled(w, e) {
        SteadyNode(o, w);
        RejectKeeps(o, w, ticks, outcome);
      }
    case Complete(outcome, applied) =>
      if Enabled(w, e) {
        if outcome.result == Ok {
          AppliedShown(o, w, outcome, watch);
        } else {
          RefusedStaysDirty(w.node, outcome);
        }
      }
    case _ =>
  }

  lemma SteadyNode(o: Options, w: World)
    requires Steady(o, w)
    ensures NodeOk(o, w.node)
  {
    hide NodeOk;
  }

  lemma NewShown(o: Options)
    requires o.Touch? && Accepted(o)
    ensures NewWorld(o).node.state.TouchState? && Shown(NewWorld(o), [])
  {
    hide Accepted, Active;
  }

  lemma {:induction false} RunShown(o: Options, events: seq<Event>)
    requires o.Touch? && Accepted(o) && NoNeutralize(events) && Certain(events)
    ensures var w := RunAll(o, NewWorld(o), events); w.node.state.TouchState? && Shown(w, Watched(o, events).complete)
  {
    hide Accepted, Step, WatchStep, WatchOk, NewWorld, Steady, Covered, CertainEvent, Shown;
    if |events| == 0 {
      NewShown(o);
    } else {
      var prefix, e := events[..|events| - 1], events[|events| - 1];
      RunSteady(o, prefix);
      RunCovered(o, prefix);
      RunWatched(o, prefix);
      RunShown(o, prefix);
      StepShown(o, RunAll(o, NewWorld(o), prefix), e, Watched(o, prefix));
    }
  }

  // ----- The theorem -----------------------------------------------------------------------------

  /** The contact as the target has it: its place in the last complete frame, with its Tip Switch. */
  predicate InFrame(o: Options, f: Frame, c: Contact)
    requires o.Touch?
  {
    |f.packets| > 0 && EntryOf(o, c) in Contents(f)
  }

  lemma DownWasCarried(o: Options, f: Frame, k: nat)
    requires o.Touch? && o.contactsPerReport > 0 && CarriesAll(o, f) && k < |f.contacts|
             && AfterFrame(f.contacts)[k].phase.Down?
    ensures InFrame(o, f, AfterFrame(f.contacts)[k])
  {
    hide Active, Contents, PacketsFor, CountOf;
    ActiveOf(f.contacts, k);
    var i :| 0 <= i < |Active(f.contacts)| && Active(f.contacts)[i] == f.contacts[k];
    assert Contents(f)[i] == EntryOf(o, f.contacts[k]);
  }

  /**
   * Without uncertain completions, a clean touch Node has no contact half lifted, the target holds exactly the
   * contacts that are down, and the last complete frame showed each of them where it is now, with these buttons.
   */
  lemma CleanTouchIsInSync(o: Options, events: seq<Event>)
    requires o.Touch? && Accepted(o) && NoNeutralize(events) && Certain(events)
    requires !RunAll(o, NewWorld(o), events).node.dirty
    ensures var w := RunAll(o, NewWorld(o), events);
            var s, complete := w.node.state, Watched(o, events).complete;
            && s.TouchState? && (forall c :: c in s.contacts ==> !c.phase.Up?)
            && w.target.held == LiveIds(s.contacts)
            && (if |complete| == 0 then !AnyPressed(s.buttons) else ShowsButtons(complete[|complete| - 1], s.buttons))
            && forall k :: 0 <= k < |s.contacts| && s.contacts[k].phase.Down? ==>
                 |complete| > 0 && InFrame(o, complete[|complete| - 1], s.contacts[k])
  {
    hide Accepted, RunAll, NewWorld, Watched, NoNeutralize, Certain, DownsDelivered, LiveIds, CarriesAll, InFrame,
         LiftsDelivered;
    RunShown(o, events);
    RunCovered(o, events);
    FramesAreWhole(o, events);
    var w := RunAll(o, NewWorld(o), events);
    var complete := Watched(o, events).complete;
    if |complete| > 0 {
      var f := complete[|complete| - 1];
      assert CarriesAll(o, f);
      forall k | 0 <= k < |w.node.state.contacts| && w.node.state.contacts[k].phase.Down?
        ensures InFrame(o, f, w.node.state.contacts[k])
      {
        DownWasCarried(o, f, k);
      }
    }
  }
}
