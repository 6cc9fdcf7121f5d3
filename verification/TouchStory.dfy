/**
 * The life of a contact as the target sees it: in runs without uncertain completions, every contact that
 * was placed is seen down in at least one complete frame and lifted in exactly one before its slot is free.
 */
module TouchStory {
  import opened Common
  import opened Factories
  import opened NodeModel
  import opened NodeFacts
  import opened NodeRun
  import opened TouchRun
  import CloseSafety

  /** Complete frames that showed the slot's present contact with and without its Tip Switch. */
  datatype Story = Story(down: nat, lifted: nat)

  predicate Shows(f: Frame, id: nat, tip: bool) {
    |f.packets| > 0 && exists j :: 0 <= j < |Contents(f)| && Contents(f)[j].id == id && Contents(f)[j].tip == tip
  }

  function Retold(story: Option<Story>, f: Frame, id: nat): Option<Story> {
    if story.None? then None
    else Some(Story(story.value.down + (if Shows(f, id, true) then 1 else 0),
                    story.value.lifted + (if Shows(f, id, false) then 1 else 0)))
  }

  /** The story of a slot starts when a contact is placed in it. */
  function Told(before: Contact, after: Contact, completed: seq<Frame>, story: Option<Story>): Option<Story> {
    if before.phase.Absent? then if after.phase.Absent? then story else Some(Story(0, 0))
    else if |completed| > 0 then Retold(story, completed[0], before.sample.id)
    else story
  }

  function SlotAt(s: NodeState, k: nat): Contact {
    if s.TouchState? && k < |s.contacts| then s.contacts[k] else Contact(Absent, NO_TOUCH, false)
  }

  /** The frames that one event completes. */
  function Completing(o: Options, w: World, e: Event, watch: Watch): seq<Frame>
    requires o.Touch? && Accepted(o)
  {
    var after := WatchStep(o, w, e, watch).complete;
    after[Min(|after|, |watch.complete|)..]
  }

  function StoryOf(o: Options, events: seq<Event>, k: nat): Option<Story>
    requires o.Touch? && Accepted(o)
  {
    if |events| == 0 then None
    else
      var prefix, e := events[..|events| - 1], events[|events| - 1];
      var w := RunAll(o, NewWorld(o), prefix);
      Told(SlotAt(w.node.state, k), SlotAt(Step(o, w, e).node.state, k), Completing(o, w, e, Watched(o, prefix)),
           StoryOf(o, prefix, k))
  }

  /** `pending` marks a contact whose placing, or lifting, no complete frame has shown yet. */
  predicate StoryOk(c: Contact, story: Option<Story>) {
    match c.phase
    case Absent => story.Some? ==> story.value.down >= 1 && story.value.lifted == 1
    case Down => story.Some? && story.value.lifted == 0 && (c.pending || story.value.down >= 1)
    case Up => story.Some? && story.value.lifted == 0 && c.pending && story.value.down >= 1
  }

  // ----- A frame shows each contact once ---------------------------------------------------------

  lemma FrameShows(o: Options, f: Frame, k: nat, tip: bool)
    requires o.Touch? && o.contactsPerReport > 0 && CarriesAll(o, f) && DistinctIds(f.contacts)
    requires k < |f.contacts| && !f.contacts[k].phase.Absent?
    ensures Shows(f, f.contacts[k].sample.id, tip) <==> f.contacts[k].phase.Down? == tip
  {
    hide Active, PacketsFor, Contents, DistinctIds, CountOf;
    var active := Active(f.contacts);
    CloseSafety.ActiveOf(f.contacts, k);
    var i :| 0 <= i < |active| && active[i] == f.contacts[k];
    assert Contents(f)[i] == EntryOf(o, active[i]);
    forall j | 0 <= j < |active| && active[j].sample.id == active[i].sample.id
      ensures j == i
    {
      if i < j {
        CloseSafety.ActiveDistinct(f.contacts, i, j);
      } else if j < i {
        CloseSafety.ActiveDistinct(f.contacts, j, i);
      }
    }
  }

  // ----- What an event does to one slot ----------------------------------------------------------

  /** A call leaves a slot alone, places a contact, updates one, or lifts one whose placing was shown. */
  lemma CallStory(o: Options, s: NodeState, m: Mutation, k: nat, story: Option<Story>)
    requires o.Touch? && StateOk(o, s) && RightProfile(o, m) && StoryOk(SlotAt(s, k), story)
    ensures StoryOk(SlotAt(EditOf(o, s, m).state, k), Told(SlotAt(s, k), SlotAt(EditOf(o, s, m).state, k), [], story))
  {
    hide Active, ValidContact, SamplesPlaced, DistinctIds;
  }

  /** The slot after a complete frame: a lifted contact is gone, a contact that is down has been shown. */
  lemma FrameSlots(n: Node, c: Outcome, k: nat)
    requires n.state.TouchState? && c.result == Ok && c.native >= 0 && n.submitted.finalPacket && k < |n.state.contacts|
    ensures var before, r := n.state.contacts[k], Completed(n, c).state;
            SlotAt(r, k) == before.(phase := if before.phase.Up? then Absent else before.phase, pending := false)
  {
    hide AnyPhase, AnyPressed;
  }

  lemma OpenSlots(n: Node, c: Outcome)
    requires n.state.TouchState? && c.result == Ok && c.native >= 0 && !n.submitted.finalPacket
    ensures Completed(n, c).state.TouchState? && Completed(n, c).state.contacts == n.state.contacts
  {
  }

  lemma ShownStory(o: Options, f: Frame, k: nat, story: Option<Story>)
    requires o.Touch? && o.contactsPerReport > 0 && CarriesAll(o, f) && DistinctIds(f.contacts)
    requires k < |f.contacts| && StoryOk(f.contacts[k], story)
    ensures var before := f.contacts[k];
            var after := before.(phase := if before.phase.Up? then Absent else before.phase, pending := false);
            StoryOk(after, Told(before, after, [f], story))
  {
    hide CarriesAll, DistinctIds, Shows;
    if !f.contacts[k].phase.Absent? {
      FrameShows(o, f, k, true);
      FrameShows(o, f, k, false);
    }
  }

  lemma CompleteStory(o: Options, w: World, c: Outcome, watch: Watch, k: nat, story: Option<Story>)
    requires o.Touch? && Accepted(o) && Steady(o, w) && w.node.state.TouchState? && WatchOk(o, w.node.state, watch)
    requires Enabled(w, Complete(c, true)) && c.result == Ok && StoryOk(SlotAt(w.node.state, k), story)
    ensures var r := Step(o, w, Complete(c, true)).node.state;
            StoryOk(SlotAt(r, k), Told(SlotAt(w.node.state, k), SlotAt(r, k),
                                       Completing(o, w, Complete(c, true), watch), story))
  {
    hide Accepted, StateOk, StoryOk, Told, Completed, Remembered, WatchOk, Arrive, Receive, ImageOf, Sendable,
         CarriesAll,
         DistinctIds, Active;
    var s := w.node.state;
    TouchShape(o, s);
    ArrivesNext(o, s, watch);
    AcceptedPackets(o);
    if w.node.submitted.finalPacket {
      GrownIsWhole(o, s, watch);
      NextPacket(o, s, watch);
      var so := FrameSoFar(s, watch);
      var grown := so.(packets := so.packets + [ImageOf(o, s).value]);
      WholeFrameCarriesAll(o, grown);
      assert Completing(o, w, Complete(c, true), watch) == [grown];
      if k < |s.contacts| {
        FrameSlots(w.node, c, k);
        ShownStory(o, grown, k, story);
      } else {
        CompletedSlots(w.node, c);
        StaysAbsent(story, [grown]);
      }
    } else {
      OpenSlots(w.node, c);
      assert Completing(o, w, Complete(c, true), watch) == [];
      Unchanged(SlotAt(s, k), story);
    }
  }

  lemma CompletedSlots(n: Node, c: Outcome)
    requires n.state.TouchState?
    ensures Completed(n, c).state.TouchState? && |Completed(n, c).state.contacts| == |n.state.contacts|
  {
    hide AnyPhase, AnyPressed;
  }

  lemma StaysAbsent(story: Option<Story>, frames: seq<Frame>)
    ensures var none := SlotAt(ToggleState(0, false), 0); Told(none, none, frames, story) == story
  {
  }

  lemma Unchanged(c: Contact, story: Option<Story>)
    requires StoryOk(c, story)
    ensures StoryOk(c, Told(c, c, [], story))
  {
  }

  lemma StampedSlots(o: Options, s: NodeState, ticks: nat, k: nat)
    ensures SlotAt(Stamped(o, s, ticks), k) == SlotAt(s, k)
  {
  }

  lemma QuietStep(o: Options, w: World, e: Event, watch: Watch)
    requires o.Touch? && Accepted(o) && !(Enabled(w, e) && e.Complete? && e.applied)
    ensures Completing(o, w, e, watch) == []
  {
    hide Accepted;
  }

  lemma StepStory(o: Options, w: World, e: Event, watch: Watch, k: nat, story: Option<Story>)
    requires o.Touch? && Accepted(o) && Steady(o, w) && w.node.state.TouchState? && WatchOk(o, w.node.state, watch)
    requires !e.Neutralize? && CertainEvent(e) && StoryOk(SlotAt(w.node.state, k), story)
    ensures var r := Step(o, w, e).node.state;
            StoryOk(SlotAt(r, k), Told(SlotAt(w.node.state, k), SlotAt(r, k), Completing(o, w, e, watch), story))
  {
    hide Accepted, StateOk, StoryOk, Told, Completed, Remembered, WatchOk, Receive, ImageOf, Sendable, EditOf, Refused,
         Stamped, SlotAt, Completing;
    Unchanged(SlotAt(w.node.state, k), story);
    if Enabled(w, e) && e.Complete? && e.applied {
      CompleteStory(o, w, e.outcome, watch, k, story);
    } else {
      QuietStep(o, w, e, watch);
      match e
      case Call(m) =>
        if RightProfile(o, m) {
          CallStory(o, w.node.state, m, k, story);
        }
      case Submit(ticks) => StampedSlots(o, w.node.state, ticks, k);
      case Reject(ticks, outcome) =>
        if Enabled(w, e) {
          RejectKeeps(o, w, ticks, outcome);
        }
      case Complete(outcome, _) =>
        if Enabled(w, e) {
          NotAppliedSame(w.node, outcome);
        }
      case _ =>
    }
  }

  /**
   * Every contact is seen: at any time, a slot in use has a story that fits its phase, and a slot that
   * was used and is free again had its contact shown down at least once and lifted exactly once.
   */
  lemma {:induction false} ContactsAreSeen(o: Options, events: seq<Event>, k: nat)
    requires o.Touch? && Accepted(o) && NoNeutralize(events) && Certain(events)
    ensures StoryOk(SlotAt(RunAll(o, NewWorld(o), events).node.state, k), StoryOf(o, events, k))
  {
    hide Accepted, Step, NewWorld, Steady, CertainEvent, WatchOk, StoryOk, SlotAt, Told, Completing, Watched;
    if |events| == 0 {
      NothingPlaced(o, k);
    } else {
      var prefix, e := events[..|events| - 1], events[|events| - 1];
      RunSteady(o, prefix);
      RunWatched(o, prefix);
      ContactsAreSeen(o, prefix, k);
      StepStory(o, RunAll(o, NewWorld(o), prefix), e, Watched(o, prefix), k, StoryOf(o, prefix, k));
    }
  }

  lemma NothingPlaced(o: Options, k: nat)
    requires o.Touch? && Accepted(o)
    ensures StoryOk(SlotAt(NewWorld(o).node.state, k), None)
  {
    hide Accepted;
  }

  /** At every time of every run the contacts in use carry distinct IDs and are at most the declared maximum. */
  lemma LiveContacts(o: Options, events: seq<Event>)
    requires o.Touch? && Accepted(o)
    ensures var s := RunAll(o, NewWorld(o), events).node.state;
            && s.TouchState? && |Active(s.contacts)| <= o.maximumContacts
            && forall j, k ::
                 0 <= j < k < |s.contacts| && !s.contacts[j].phase.Absent? && !s.contacts[k].phase.Absent? ==>
                   s.contacts[j].sample.id != s.contacts[k].sample.id
  {
    hide Accepted, StateOk, RunAll, Active, SamplesPlaced, FlightOk, Sendable;
    RunSteady(o, events);
    TouchShape(o, RunAll(o, NewWorld(o), events).node.state);
  }
}
