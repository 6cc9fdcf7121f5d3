/**
 * Touch frames: in runs without uncertain completions, the packets of a frame carry the contacts exactly
 * once and in slot order, and every contact is seen down and then lifted before its slot is free again.
 */
module TouchRun {
  import opened Common
  import opened Factories
  import opened NodeModel
  import opened NodeFacts
  import opened NodeRun

  // ----- Frames as the target receives them ------------------------------------------------------

  /** The packets of a frame, with the contacts the Node had when the first of them was applied. */
  datatype Frame = Frame(contacts: seq<Contact>, packets: seq<Image>)

  datatype Watch = Watch(open: Option<Frame>, complete: seq<Frame>)

  /** Packets that carry `count` contacts; a frame without contacts still takes one. */
  function PacketsFor(o: Options, count: nat): nat
    requires o.Touch? && o.contactsPerReport > 0
  {
    Max(1, CeilDiv(count, o.contactsPerReport))
  }

  function CountOf(image: Image): nat {
    if image.TouchImage? then image.count else 0
  }

  /** The target's view: a frame is complete once as many packets arrived as its Contact Count needs. */
  function Arrive(o: Options, watch: Watch, contacts: seq<Contact>, image: Image): Watch
    requires o.Touch? && o.contactsPerReport > 0
  {
    var frame := if watch.open.Some? then watch.open.value.(packets := watch.open.value.packets + [image])
        else Frame(contacts, [image]);
    if |frame.packets| >= PacketsFor(o, CountOf(frame.packets[0])) then Watch(None, watch.complete + [frame])
    else Watch(Some(frame), watch.complete)
  }

  function WatchStep(o: Options, w: World, e: Event, watch: Watch): Watch
    requires o.Touch? && Accepted(o)
  {
    if Enabled(w, e) && e.Complete? && e.applied && w.node.state.TouchState?
    then Arrive(o, watch, w.node.state.contacts, w.sent.value)
    else watch
  }

  function Watched(o: Options, events: seq<Event>): Watch
    requires o.Touch? && Accepted(o)
  {
    if |events| == 0 then Watch(None, [])
    else
      var prefix := events[..|events| - 1];
      WatchStep(o, RunAll(o, NewWorld(o), prefix), events[|events| - 1], Watched(o, prefix))
  }

  // ----- What a frame must be --------------------------------------------------------------------

  /** The first contact of packet `i`. */
  function Start(o: Options, i: nat): nat
    requires o.Touch?
  {
    i * o.contactsPerReport
  }

  /** Packet `i` of a frame: its share of the contacts, and the Contact Count in the first packet only. */
  function PacketAt(o: Options, contacts: seq<Contact>, buttons: seq<bool>, scanTime: nat, i: nat): Image
    requires o.Touch?
  {
    var active := Active(contacts);
    TouchImage(PacketEntries(o, active, Start(o, i)), buttons, scanTime, if i == 0 then |active| else 0)
  }

  predicate PacketsAre(o: Options, f: Frame, buttons: seq<bool>, scanTime: nat)
    requires o.Touch?
  {
    forall i :: 0 <= i < |f.packets| ==> f.packets[i] == PacketAt(o, f.contacts, buttons, scanTime, i)
  }

  /** An open frame is a prefix of the frame for the Node's present contacts, which stay as they are. */
  predicate OpenFrame(o: Options, s: NodeState, f: Frame)
    requires o.Touch? && s.TouchState?
  {
    && 0 < |f.packets| && f.contacts == s.contacts && PacketsAre(o, f, s.buttons, s.scanTime)
    && s.cursor == Start(o, |f.packets|) && 0 < s.cursor < |Active(s.contacts)|
  }

  /** A whole frame: the right number of packets, one Scan Time, the count first, every contact in its place. */
  ghost predicate WholeFrame(o: Options, f: Frame)
    requires o.Touch? && Accepted(o)
  {
    && |f.packets| == PacketsFor(o, |Active(f.contacts)|)
    && exists buttons: seq<bool>, scanTime: nat :: PacketsAre(o, f, buttons, scanTime)
  }

  ghost predicate WatchOk(o: Options, s: NodeState, watch: Watch)
    requires o.Touch? && Accepted(o) && s.TouchState?
  {
    && (if watch.open.Some? then OpenFrame(o, s, watch.open.value) else s.cursor == 0)
    && forall f :: f in watch.complete ==> WholeFrame(o, f)
  }

  // ----- One packet ------------------------------------------------------------------------------

  lemma StartNext(o: Options, i: nat)
    requires o.Touch?
    ensures Start(o, 0) == 0 && Start(o, i + 1) == Start(o, i) + o.contactsPerReport
  {
  }

  /** Packet `i` is the last exactly when the places up to its end hold every contact. */
  lemma LastPacket(o: Options, i: nat, count: nat)
    requires o.Touch? && o.contactsPerReport > 0
    ensures i + 1 >= PacketsFor(o, count) <==> Start(o, i) + o.contactsPerReport >= count
  {
    hide CeilDiv;
    CeilingBound(count, o.contactsPerReport, i + 1);
    StartNext(o, i);
  }

  lemma LastPacketIsFirstEnough(o: Options, i: nat, count: nat)
    requires o.Touch? && o.contactsPerReport > 0
    requires i > 0 ==> Start(o, i) < count
    requires Start(o, i) + o.contactsPerReport >= count
    ensures i + 1 == PacketsFor(o, count)
  {
    hide Start, PacketsFor;
    LastPacket(o, i, count);
    if i > 0 {
      LastPacket(o, i - 1, count);
      StartNext(o, i - 1);
    } else {
      AtLeastOnePacket(o, count);
    }
  }

  lemma AtLeastOnePacket(o: Options, count: nat)
    requires o.Touch? && o.contactsPerReport > 0
    ensures PacketsFor(o, count) >= 1
  {
  }

  lemma TouchShape(o: Options, s: NodeState)
    requires o.Touch? && Accepted(o) && StateOk(o, s)
    ensures s.TouchState? && TouchOk(o, s) && 1 <= o.contactsPerReport
  {
    hide TouchOk, ValidField;
  }

  /** The frame so far, as the cursor sees it. */
  function FrameSoFar(s: NodeState, watch: Watch): Frame
    requires s.TouchState?
  {
    if watch.open.Some? then watch.open.value else Frame(s.contacts, [])
  }

  lemma NextPacket(o: Options, s: NodeState, watch: Watch)
    requires o.Touch? && Accepted(o) && s.TouchState? && WatchOk(o, s, watch)
    ensures var f := FrameSoFar(s, watch);
            && f.contacts == s.contacts && s.cursor == Start(o, |f.packets|)
            && ImageOf(o, s) == Some(PacketAt(o, s.contacts, s.buttons, s.scanTime, |f.packets|))
            && PacketsAre(o, f.(packets := f.packets + [ImageOf(o, s).value]), s.buttons, s.scanTime)
  {
    hide Accepted, Active, PacketEntries, WholeFrame;
    StartNext(o, 0);
  }

  /** The Node calls a packet final exactly when the target's frame is complete. */
  lemma FinalMeansComplete(o: Options, s: NodeState, watch: Watch)
    requires o.Touch? && Accepted(o) && StateOk(o, s) && s.TouchState? && WatchOk(o, s, watch)
    ensures var f, sent := FrameSoFar(s, watch), Remembered(o, s);
            && (sent.finalPacket <==> |f.packets| + 1 >= PacketsFor(o, |Active(s.contacts)|))
            && (sent.finalPacket ==> |f.packets| + 1 == PacketsFor(o, |Active(s.contacts)|))
            && (!sent.finalPacket ==> s.cursor + sent.touchCount == Start(o, |f.packets| + 1) < |Active(s.contacts)|)
  {
    hide Accepted, Active, Start, PacketsFor, PacketsAre, WholeFrame, TouchOk, HasNonNeutral, StateOk;
    TouchShape(o, s);
    StartNext(o, 0);
    var f := FrameSoFar(s, watch);
    StartNext(o, |f.packets|);
    LastPacket(o, |f.packets|, |Active(s.contacts)|);
    if Start(o, |f.packets|) + o.contactsPerReport >= |Active(s.contacts)| {
      LastPacketIsFirstEnough(o, |f.packets|, |Active(s.contacts)|);
    }
  }

  /** The target reads the same Contact Count from the first packet. */
  lemma ArrivesNext(o: Options, s: NodeState, watch: Watch)
    requires o.Touch? && Accepted(o) && StateOk(o, s) && s.TouchState? && WatchOk(o, s, watch)
    ensures var f := FrameSoFar(s, watch);
            var grown := f.(packets := f.packets + [ImageOf(o, s).value]);
            ImageOf(o, s).Some?
            && Arrive(o, watch, s.contacts, ImageOf(o, s).value)
               == if Remembered(o, s).finalPacket then Watch(None, watch.complete + [grown])
                   else Watch(Some(grown), watch.complete)
  {
    hide Accepted, Active, Start, PacketsFor, PacketEntries, WholeFrame, Remembered, StateOk, ImageOf;
    TouchShape(o, s);
    NextPacket(o, s, watch);
    FinalMeansComplete(o, s, watch);
    var f := FrameSoFar(s, watch);
    var grown := f.(packets := f.packets + [ImageOf(o, s).value]);
    assert grown.packets[0] == PacketAt(o, s.contacts, s.buttons, s.scanTime, 0);
    assert watch.open.None? ==> grown.packets == [ImageOf(o, s).value];
  }

  lemma GrownIsWhole(o: Options, s: NodeState, watch: Watch)
    requires o.Touch? && Accepted(o) && StateOk(o, s) && s.TouchState? && WatchOk(o, s, watch)
             && Remembered(o, s).finalPacket
    ensures var f := FrameSoFar(s, watch);
            ImageOf(o, s).Some? && WholeFrame(o, f.(packets := f.packets + [ImageOf(o, s).value]))
  {
    hide Accepted, Active, Start, PacketsFor, PacketEntries, PacketsAre, Remembered, StateOk, ImageOf;
    TouchShape(o, s);
    NextPacket(o, s, watch);
    FinalMeansComplete(o, s, watch);
  }

  // ----- Steps -----------------------------------------------------------------------------------

  lemma PacketApplied(o: Options, n: Node, c: Outcome, watch: Watch)
    requires o.Touch? && Accepted(o) && NodeOk(o, n) && n.inflight && n.state.TouchState? && WatchOk(o, n.state, watch)
    requires c.result == Ok && c.native >= 0
    ensures var r := Completed(n, c).state;
            r.TouchState? && ImageOf(o, n.state).Some?
            && WatchOk(o, r, Arrive(o, watch, n.state.contacts, ImageOf(o, n.state).value))
  {
    hide Accepted, Active, Start, PacketsFor, PacketEntries, PacketsAre, Remembered, StateOk, ImageOf, WholeFrame,
         Arrive, AnyPhase,
         AnyPressed;
    var s := n.state;
    NextPacket(o, s, watch);
    ArrivesNext(o, s, watch);
    FinalMeansComplete(o, s, watch);
    if n.submitted.finalPacket {
      GrownIsWhole(o, s, watch);
    } else {
      AcceptedPackets(o);
      StartNext(o, |FrameSoFar(s, watch).packets|);
    }
  }

  /** A frame that is open refuses every change of its contacts and buttons. */
  lemma MidFrameIsBusy(o: Options, n: Node, m: Mutation)
    requires o.Touch? && n.state.TouchState? && FrameOpen(n.state) && RightProfile(o, m) && n.present
    ensures Mutate(o, n, m) == (ErrBusy, n)
  {
    hide FindSlot, ValidContact, Active;
  }

  /** Between frames a mutator leaves the cursor where it is. */
  lemma EditKeepsCursor(o: Options, s: NodeState, m: Mutation)
    requires o.Touch? && s.TouchState? && RightProfile(o, m)
    ensures EditOf(o, s, m).state.TouchState? && EditOf(o, s, m).state.cursor == s.cursor
  {
    hide FindSlot, ValidContact, Active;
  }

  lemma CallWatched(o: Options, w: World, m: Mutation, watch: Watch)
    requires o.Touch? && Accepted(o) && w.node.state.TouchState? && WatchOk(o, w.node.state, watch)
    ensures var r := Step(o, w, Call(m)).node.state; r.TouchState? && WatchOk(o, r, watch)
  {
    hide Accepted, Active, PacketsAre, WholeFrame, EditOf;
    if RightProfile(o, m) && w.node.present {
      if FrameOpen(w.node.state) {
        MidFrameIsBusy(o, w.node, m);
      } else {
        EditKeepsCursor(o, w.node.state, m);
      }
    }
  }

  lemma StampWatched(o: Options, s: NodeState, ticks: nat, watch: Watch)
    requires o.Touch? && Accepted(o) && s.TouchState? && WatchOk(o, s, watch)
    ensures Stamped(o, s, ticks).TouchState? && WatchOk(o, Stamped(o, s, ticks), watch)
  {
    hide Accepted, Active, PacketsAre, WholeFrame;
  }

  lemma NotAppliedSame(n: Node, c: Outcome)
    requires !MayHaveApplied(c)
    ensures Completed(n, c).state == n.state
  {
  }

  lemma StepWatched(o: Options, w: World, e: Event, watch: Watch)
    requires o.Touch? && Accepted(o) && Steady(o, w) && w.node.state.TouchState? && WatchOk(o, w.node.state, watch)
    requires !e.Neutralize? && CertainEvent(e)
    ensures var r := Step(o, w, e).node.state; r.TouchState? && WatchOk(o, r, WatchStep(o, w, e, watch))
  {
    hide Accepted, WatchOk, StateOk, ImageOf, Mutate, Completed, Refused, Remembered, Sendable, Receive, Arrive,
         Stamped;
    match e
    case Call(m) => CallWatched(o, w, m, watch);
    case Submit(ticks) => StampWatched(o, w.node.state, ticks, watch);
    case Reject(ticks, outcome) =>
      if Enabled(w, e) {
        RejectKeeps(o, w, ticks, outcome);
      }
    case Complete(outcome, applied) =>
      if Enabled(w, e) {
        if outcome.result == Ok {
          PacketApplied(o, w.node, outcome, watch);
        } else {
          NotAppliedSame(w.node, outcome);
        }
      }
    case _ =>
  }

  lemma NewWatched(o: Options)
    requires o.Touch? && Accepted(o)
    ensures NewWorld(o).node.state.TouchState? && WatchOk(o, NewWorld(o).node.state, Watch(None, []))
  {
    hide Accepted, WholeFrame;
  }

  lemma {:induction false} RunWatched(o: Options, events: seq<Event>)
    requires o.Touch? && Accepted(o) && NoNeutralize(events) && Certain(events)
    ensures var s := RunAll(o, NewWorld(o), events).node.state; s.TouchState? && WatchOk(o, s, Watched(o, events))
  {
    hide Accepted, Step, WatchStep, WatchOk, NewWorld, Steady, CertainEvent;
    if |events| == 0 {
      NewWatched(o);
    } else {
      var prefix, e := events[..|events| - 1], events[|events| - 1];
      RunSteady(o, prefix);
      RunWatched(o, prefix);
      StepWatched(o, RunAll(o, NewWorld(o), prefix), e, Watched(o, prefix));
    }
  }

  // ----- What a whole frame says -----------------------------------------------------------------

  function Places(packets: seq<Image>): seq<Entry> {
    if |packets| == 0 then []
    else
      var last := packets[|packets| - 1];
      Places(packets[..|packets| - 1]) + if last.TouchImage? then last.entries else []
  }

  /** What the target makes of a frame: the places its Contact Count covers. */
  function Contents(f: Frame): seq<Entry>
    requires |f.packets| > 0
  {
    var places := Places(f.packets);
    places[..Min(|places|, CountOf(f.packets[0]))]
  }

  lemma PlacesNext(o: Options, f: Frame, buttons: seq<bool>, scanTime: nat, n: nat)
    requires o.Touch? && PacketsAre(o, f, buttons, scanTime) && 0 < n <= |f.packets|
    ensures Places(f.packets[..n]) == Places(f.packets[..n - 1]) + PacketEntries(o, Active(f.contacts), Start(o, n - 1))
  {
    hide Active, PacketEntries, Start;
    assert f.packets[..n][..n - 1] == f.packets[..n - 1];
    assert f.packets[n - 1] == PacketAt(o, f.contacts, buttons, scanTime, n - 1);
  }

  predicate PlaceOf(o: Options, active: seq<Contact>, place: Entry, j: nat)
    requires o.Touch?
  {
    place == if j < |active| then EntryOf(o, active[j]) else NO_ENTRY
  }

  lemma PacketPlaces(o: Options, active: seq<Contact>, start: nat)
    requires o.Touch?
    ensures forall k :: 0 <= k < o.contactsPerReport ==>
            PlaceOf(o, active, PacketEntries(o, active, start)[k], start + k)
  {
    hide EntryOf;
  }

  /** The places of the first `n` packets, laid end to end. */
  lemma {:induction false} PlacesInOrder(o: Options, f: Frame, buttons: seq<bool>, scanTime: nat, n: nat)
    requires o.Touch? && PacketsAre(o, f, buttons, scanTime) && n <= |f.packets|
    ensures |Places(f.packets[..n])| == Start(o, n)
    ensures forall j :: 0 <= j < Start(o, n) ==> PlaceOf(o, Active(f.contacts), Places(f.packets[..n])[j], j)
  {
    hide Active, PlaceOf, Start, PacketEntries, PacketsAre;
    StartNext(o, 0);
    if n == 0 {
    } else {
      PlacesInOrder(o, f, buttons, scanTime, n - 1);
      StartNext(o, n - 1);
      PlacesNext(o, f, buttons, scanTime, n);
      var start, entries := Start(o, n - 1), PacketEntries(o, Active(f.contacts), Start(o, n - 1));
      PacketPlaces(o, Active(f.contacts), start);
      forall j | start <= j < Start(o, n)
        ensures PlaceOf(o, Active(f.contacts), Places(f.packets[..n])[j], j)
      {
        assert PlaceOf(o, Active(f.contacts), entries[j - start], start + (j - start));
      }
    }
  }

  /**
   * The contacts of a frame are the active contacts, each once and in slot order, in as few packets as
   * hold them, all with one Scan Time, and with their number in the first packet only.
   */
  predicate CarriesAll(o: Options, f: Frame)
    requires o.Touch? && o.contactsPerReport > 0
  {
    hide Active, Places, PacketsFor, CountOf;
    var active := Active(f.contacts);
    && |f.packets| == PacketsFor(o, |active|) > 0
    && |Contents(f)| == |active|
    && (forall j :: 0 <= j < |active| ==> Contents(f)[j] == EntryOf(o, active[j]))
    && forall i :: 0 <= i < |f.packets| ==>
         && f.packets[i].TouchImage? && f.packets[i].scanTime == f.packets[0].scanTime
         && f.packets[i].count == (if i == 0 then |active| else 0)
  }

  lemma WholeFrameCarriesAll(o: Options, f: Frame)
    requires o.Touch? && Accepted(o) && WholeFrame(o, f)
    ensures o.contactsPerReport > 0 && CarriesAll(o, f)
  {
    hide Accepted, Active, EntryOf, Start, PacketsFor, Places;
    var buttons: seq<bool>, scanTime: nat :| PacketsAre(o, f, buttons, scanTime);
    var n, count := |f.packets|, |Active(f.contacts)|;
    AcceptedPackets(o);
    AtLeastOnePacket(o, count);
    PlacesInOrder(o, f, buttons, scanTime, n);
    assert f.packets[..n] == f.packets;
    LastPacket(o, n - 1, count);
    StartNext(o, n - 1);
  }

  lemma AcceptedPackets(o: Options)
    requires o.Touch? && Accepted(o)
    ensures o.contactsPerReport > 0
  {
    hide ValidField;
  }

  /** Every frame that completes in a run is whole. */
  lemma FramesAreWhole(o: Options, events: seq<Event>)
    requires o.Touch? && Accepted(o) && NoNeutralize(events) && Certain(events)
    ensures o.contactsPerReport > 0 && forall f :: f in Watched(o, events).complete ==> CarriesAll(o, f)
  {
    hide Accepted, Watched, Certain, NoNeutralize, OpenFrame, RunAll, NewWorld, CarriesAll, WholeFrame;
    RunWatched(o, events);
    AcceptedPackets(o);
    forall f | f in Watched(o, events).complete
      ensures CarriesAll(o, f)
    {
      WholeFrameCarriesAll(o, f);
    }
  }
}
