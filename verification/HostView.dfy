/**
 * What a host that knows only the descriptor makes of a report: every field that it reads decodes to what the Node's
 * state says about the field's Usage in its collection (HID Usage Tables 1.7).
 */
module HostView {
  import opened Common
  import opened BitMath
  import opened BitField
  import opened BuilderFacts
  import opened HidWalk
  import opened ReportReader
  import opened Factories
  import opened GeneratedSpec
  import opened NodeModel
  import opened NodeFacts
  import opened NodeRun
  import opened CallEffects
  import opened Serialization
  import ReachableReports
  import SpecFields
  import SpecMeanings

  // ----- The host --------------------------------------------------------------------------------

  predicate Placed(report: seq<Byte>, f: ReadField) {
    0 < f.width <= 32 && f.offset + f.width <= 8 * |report|
  }

  /** The number at the field, signed exactly when the field's range goes below zero. */
  function HostNumber(report: seq<Byte>, f: ReadField): int
    requires Placed(report, f)
  {
    DecodeNumber(FieldNumber(report, f.offset, f.width), f.width, f.minimum < 0)
  }

  /** A number outside the range is no value (HID 1.11 section 5.10). */
  function HostReads(report: seq<Byte>, f: ReadField): Option<int>
    requires Placed(report, f)
  {
    var n := HostNumber(report, f);
    if f.minimum <= n <= f.maximum then Some(n) else None
  }

  // ----- What the state says about a Usage -------------------------------------------------------

  function Switched(on: bool): Option<int> {
    Some(if on then 1 else 0)
  }

  /** The value of the range that is nearest. */
  function Nearest(value: int, f: IntegerField): int {
    Max(f.minimum, Min(value, f.maximum))
  }

  function NearestOf(value: int, f: Option<IntegerField>): Option<int> {
    if f.Some? then Some(Nearest(value, f.value)) else None
  }

  /** Eighths of a turn clockwise from the top. */
  function Eighth(directions: set<nat>): Option<int> {
    if directions == {D_UP} then Some(0)
    else if directions == {D_UP, D_RIGHT} then Some(1)
    else if directions == {D_RIGHT} then Some(2)
    else if directions == {D_DOWN, D_RIGHT} then Some(3)
    else if directions == {D_DOWN} then Some(4)
    else if directions == {D_DOWN, D_LEFT} then Some(5)
    else if directions == {D_LEFT} then Some(6)
    else if directions == {D_UP, D_LEFT} then Some(7)
    else None
  }

  function MouseSays(o: Options, s: NodeState, page: nat, usage: nat): Option<int>
    requires o.Mouse? && s.MouseState?
  {
    if page == 0x09 then Switched(IsPressed(s.buttons, usage))
    else if page == 0x01 && usage == 0x30 then Some(Nearest(s.dx, o.x))
    else if page == 0x01 && usage == 0x31 then Some(Nearest(s.dy, o.y))
    else if page == 0x01 && usage == 0x38 then NearestOf(s.wheel, o.wheel)
    else if page == 0x0C && usage == 0x0238 then NearestOf(s.pan, o.pan)
    else None
  }

  /** The place of an axis Usage among the declared axes. */
  function AxisPlace(axes: seq<Axis>, page: nat, usage: nat): (k: nat)
    ensures k <= |axes|
    ensures k < |axes| ==> axes[k].page == page && axes[k].usage == usage
    ensures forall j :: 0 <= j < k ==> axes[j].page != page || axes[j].usage != usage
  {
    if |axes| == 0 then 0
    else if AxisPlace(axes[..|axes| - 1], page, usage) < |axes| - 1 then AxisPlace(axes[..|axes| - 1], page, usage)
    else if axes[|axes| - 1].page == page && axes[|axes| - 1].usage == usage then |axes| - 1
    else |axes|
  }

  function PadSays(o: Options, s: NodeState, page: nat, usage: nat): Option<int>
    requires o.Gamepad? && s.GamepadState?
  {
    if page == 0x09 then
      if usage >= o.buttonUsageMinimum then Switched(IsPressed(s.buttons, usage - o.buttonUsageMinimum + 1)) else None
    else if page == 0x01 && usage == 0x39 then Eighth(Directions(o, s))
    else if page == 0x01 && 0x90 <= usage <= 0x93 then Switched(usage in Directions(o, s))
    else
      var k := AxisPlace(o.axes, page, usage);
      if k < |o.axes| && k < |s.axes| then Some(s.axes[k]) else None
  }

  /** One contact of a packet; `None` is a place that no contact fills, and all zero. */
  function ContactSays(o: Options, c: Option<Contact>, page: nat, usage: nat): Option<int>
    requires o.Touch?
  {
    if c.None? then Some(0)
    else
      var at := c.value.sample;
      if page == 0x0D && usage == 0x42 then Switched(c.value.phase.Down?)
      else if page == 0x0D && usage == 0x51 then Some(at.id)
      else if page == 0x01 && usage == 0x30 then Some(at.x)
      else if page == 0x01 && usage == 0x31 then Some(at.y)
      else if page == 0x0D && usage == 0x30 then
        Some(if !c.value.phase.Down? then 0 else if at.pressure == 0 then 1 else at.pressure)
      else if page == 0x0D && usage == 0x48 then Some(at.width)
      else if page == 0x0D && usage == 0x49 then Some(at.height)
      else if page == 0x0D && usage == 0x3F then Some(at.azimuth)
      else None
  }

  /** The slots in use, lowest first. */
  function SlotsInUse(contacts: seq<Contact>): (slots: seq<nat>)
    ensures forall i :: 0 <= i < |slots| ==> slots[i] < |contacts| && !contacts[slots[i]].phase.Absent?
    ensures forall i, j :: 0 <= i < j < |slots| ==> slots[i] < slots[j]
    ensures forall k :: 0 <= k < |contacts| && !contacts[k].phase.Absent? ==> k in slots
  {
    if |contacts| == 0 then []
    else
      var n := |contacts| - 1;
      assert forall k :: 0 <= k < n ==> contacts[..n][k] == contacts[k];
      SlotsInUse(contacts[..n]) + if contacts[n].phase.Absent? then [] else [n]
  }

  /** The contact in place `i` of the packet at the cursor: the contacts in use go in slot order. */
  function InPlace(s: NodeState, i: nat): Option<Contact>
    requires s.TouchState?
  {
    var slots := SlotsInUse(s.contacts);
    if s.cursor + i < |slots| then Some(s.contacts[slots[s.cursor + i]]) else None
  }

  function SurfaceSays(o: Options, s: NodeState, page: nat, usage: nat, scope: nat): Option<int>
    requires o.Touch? && s.TouchState?
  {
    if scope > 0 then ContactSays(o, InPlace(s, scope - 1), page, usage)
    else if page == 0x09 then Switched(IsPressed(s.buttons, usage))
    else if page == 0x0D && usage == 0x56 then Some(s.scanTime)
    else if page == 0x0D && usage == 0x54 then Some(if s.cursor == 0 then |SlotsInUse(s.contacts)| else 0)
    else None
  }

  /**
   * A pen: while a tool change is due, out of range where it was last seen, with nothing pressed; otherwise the
   * sample, whose tool and switches count only in range.
   */
  function StylusSays(o: Options, s: NodeState, page: nat, usage: nat): Option<int>
    requires o.Pen? && s.PenState?
  {
    var at := if s.departing then s.emitted else s.desired;
    var seen := !s.departing && s.desired.inRange;
    if page == 0x01 && usage == 0x30 then Some(at.x)
    else if page == 0x01 && usage == 0x31 then Some(at.y)
    else if page == 0x0D && usage == 0x3D then Some(at.tiltX)
    else if page == 0x0D && usage == 0x3E then Some(at.tiltY)
    else if page == 0x0D && usage == 0x41 then Some(at.twist)
    else if page == 0x0D && usage == 0x32 then Switched(seen)
    else if page == 0x0D && usage == 0x42 then Switched(seen && s.desired.tip)
    else if page == 0x0D && usage == 0x3C then Switched(seen && s.desired.eraser)
    else if page == 0x0D && usage == 0x30 then
      Some(if !(seen && s.desired.tip) then 0 else if s.desired.pressure == 0 then 1 else s.desired.pressure)
    else if page == 0x0D then
      Switched(seen && exists k :: 0 <= k < |o.barrels| && o.barrels[k] == usage && k in s.desired.barrels)
    else None
  }

  /** What a state says about a Usage in a collection, and `None` for "no value". */
  function Says(o: Options, s: NodeState, m: Meaning): Option<int>
    requires Paired(o, s)
  {
    match o
    case Keyboard(_, _, _) => if m.page == 0x07 then Switched(m.usage in HeldKeys(o, s)) else None
    case Mouse(_, _, _, _, _, _) => MouseSays(o, s, m.page, m.usage)
    case Toggle(_, _, _, page, _) => if m.page == page then Switched(s.usage == m.usage) else None
    case Gamepad(_, _, _, _, _) => PadSays(o, s, m.page, m.usage)
    case Touch(_, _, _, _, _, _, _, _, _, _, _, _, _, _, _, _) => SurfaceSays(o, s, m.page, m.usage, m.scope)
    case Pen(_, _, _, _, _, _, _, _, _, _) => StylusSays(o, s, m.page, m.usage)
    case Battery(_, _, _) =>
      if m.page == 0x06 && m.usage == 0x20 && s.hasValue then Some(s.strength) else None
  }

  // ----- The content of a field is what the state says -------------------------------------------

  function ValueIn(c: FieldContent): Option<int> {
    match c
    case Value(v) => Some(v)
    case NoValue => None
  }

  lemma {:induction false} ActiveSlots(contacts: seq<Contact>)
    ensures |Active(contacts)| == |SlotsInUse(contacts)|
    ensures forall i :: 0 <= i < |Active(contacts)| ==> Active(contacts)[i] == contacts[SlotsInUse(contacts)[i]]
  {
    if |contacts| == 0 {
    } else {
      ActiveSlots(contacts[..|contacts| - 1]);
    }
  }

  lemma KeySays(o: Options, s: NodeState, f: FieldLayout)
    requires o.Keyboard? && Accepted(o) && StateOk(o, s) && Declares(o, f) && f.semantic != ConstantPadding
    ensures ImageOf(o, s).Some?
    ensures Says(o, s, SpecMeanings.Announced(o, f.semantic, f.instance)) == ValueIn(ContentOf(o, ImageOf(o, s).value,
            f))
  {
    hide CountPressed;
    var u := SpecMeanings.UsageOf(o, f.semantic, f.instance).1;
    assert KeyHeld(o, s, u) == (if f.semantic.Modifier? then f.instance in s.modifiers else s.keys[f.instance]);
  }

  lemma PointerSays(o: Options, s: NodeState, f: FieldLayout)
    requires o.Mouse? && Accepted(o) && StateOk(o, s) && Declares(o, f) && f.semantic != ConstantPadding
    ensures ImageOf(o, s).Some?
    ensures Says(o, s, SpecMeanings.Announced(o, f.semantic, f.instance)) == ValueIn(ContentOf(o, ImageOf(o, s).value,
            f))
  {
  }

  lemma SelectionSays(o: Options, s: NodeState, f: FieldLayout)
    requires (o.Toggle? || o.Battery?) && Accepted(o) && StateOk(o, s) && Declares(o, f)
    requires f.semantic != ConstantPadding
    ensures ImageOf(o, s).Some?
    ensures Says(o, s, SpecMeanings.Announced(o, f.semantic, f.instance)) == ValueIn(ContentOf(o, ImageOf(o, s).value,
            f))
  {
    hide HasNullEncoding, AllowedUsage;
  }

  lemma EighthOfCompass(eighth: nat)
    requires eighth < 8
    ensures Eighth(Compass(eighth)) == Some(eighth)
  {
  }

  lemma OwnPlace(o: Options, k: nat)
    requires o.Gamepad? && Accepted(o) && k < |o.axes|
    ensures AxisPlace(o.axes, o.axes[k].page, o.axes[k].usage) == k
    ensures AxisUsage(o.axes[k].page, o.axes[k].usage)
  {
    hide ValidField, AxisDomain, ValidReportId, AxisUsage;
    assert AcceptedAxis(o.axes[k]);
  }

  lemma GamepadSays(o: Options, s: NodeState, f: FieldLayout)
    requires o.Gamepad? && Accepted(o) && StateOk(o, s) && Declares(o, f) && f.semantic != ConstantPadding
    ensures ImageOf(o, s).Some?
    ensures Says(o, s, SpecMeanings.Announced(o, f.semantic, f.instance)) == ValueIn(ContentOf(o, ImageOf(o, s).value,
            f))
  {
    hide HasNullEncoding, AxisPlace, Eighth, Compass, BitDirections, AcceptedAxis, AxisRoles, Bit;
    if f.semantic.GamepadAxis? {
      OwnPlace(o, f.instance);
    } else if f.semantic.Hat? {
      if s.hasDirection {
        EighthOfCompass(s.hat);
      } else {
        assert Eighth({}) == None by { NoEighth(); }
      }
    } else if f.instance >= o.buttonCount {
      DirectionBits(s.hat, f.instance - o.buttonCount);
    }
  }

  lemma NoEighth()
    ensures Eighth({}) == None
  {
  }

  lemma DirectionBits(bits: nat, k: nat)
    requires k < 4
    ensures 0x90 + k in BitDirections(bits) <==> Bit(bits, k)
    ensures bits == 0 ==> BitDirections(bits) == {} && !Bit(bits, k)
  {
    hide Bit;
    if bits == 0 {
      forall j: nat
        ensures !Bit(0, j)
      {
        BitOfZero(j);
      }
    }
  }

  lemma ContactEntry(o: Options, c: Contact, f: FieldLayout)
    requires o.Touch? && TouchField(o, f) && SpecMeanings.OfContact(f.semantic)
    requires o.pressure.Some? ==> c.sample.pressure >= 0
    ensures var (page, usage) := SpecMeanings.DigitizerUsage(f.semantic);
            && ContactSays(o, Some(c), page, usage) == ValueIn(EntryContent(EntryOf(o, c), f.semantic))
            && ContactSays(o, None, page, usage) == ValueIn(EntryContent(NO_ENTRY, f.semantic))
  {
  }

  lemma EntrySays(o: Options, s: NodeState, f: FieldLayout)
    requires o.Touch? && Accepted(o) && StateOk(o, s) && TouchField(o, f) && SpecMeanings.OfContact(f.semantic)
    ensures f.instance < o.contactsPerReport
    ensures var (page, usage) := SpecMeanings.DigitizerUsage(f.semantic);
            ContactSays(o, InPlace(s, f.instance), page, usage)
            == ValueIn(EntryContent(PacketEntries(o, Active(s.contacts), s.cursor)[f.instance], f.semantic))
  {
    hide ValidField, SlotsInUse, Active, SamplesPlaced, DistinctIds, ContactSays, EntryContent, EntryOf, Accepted,
         SpecMeanings.DigitizerUsage;
    ActiveSlots(s.contacts);
    if s.cursor + f.instance < |Active(s.contacts)| {
      ActiveMembers(s.contacts, s.cursor + f.instance);
      var c := Active(s.contacts)[s.cursor + f.instance];
      assert PacketEntries(o, Active(s.contacts), s.cursor)[f.instance] == EntryOf(o, c);
      PlacedPressure(o, s.contacts, c);
      ContactEntry(o, c, f);
    } else {
      assert PacketEntries(o, Active(s.contacts), s.cursor)[f.instance] == NO_ENTRY;
      ContactEntry(o, Contact(Absent, NO_TOUCH, false), f);
    }
  }

  lemma PlacedPressure(o: Options, contacts: seq<Contact>, c: Contact)
    requires o.Touch? && Accepted(o) && SamplesPlaced(o, contacts) && c in contacts && !c.phase.Absent?
    ensures o.pressure.Some? ==> c.sample.pressure >= 0
  {
    hide ValidField;
    var k :| 0 <= k < |contacts| && contacts[k] == c;
    assert SamplePlaces(o, contacts[k].sample);
  }

  lemma TouchSays(o: Options, s: NodeState, f: FieldLayout)
    requires o.Touch? && Accepted(o) && StateOk(o, s) && Declares(o, f) && f.semantic != ConstantPadding
    ensures ImageOf(o, s).Some?
    ensures Says(o, s, SpecMeanings.Announced(o, f.semantic, f.instance)) == ValueIn(ContentOf(o, ImageOf(o, s).value,
            f))
  {
    hide Accepted, SlotsInUse, Active, SamplesPlaced, DistinctIds, PacketEntries, EntryContent, ContactSays, InPlace;
    if SpecMeanings.OfContact(f.semantic) {
      EntrySays(o, s, f);
    } else {
      ActiveSlots(s.contacts);
    }
  }

  lemma PenSays(o: Options, s: NodeState, f: FieldLayout)
    requires o.Pen? && Accepted(o) && StateOk(o, s) && Declares(o, f) && f.semantic != ConstantPadding
    ensures ImageOf(o, s).Some?
    ensures Says(o, s, SpecMeanings.Announced(o, f.semantic, f.instance)) == ValueIn(ContentOf(o, ImageOf(o, s).value,
            f))
  {
    hide ValidField;
    if f.semantic.Buttons? {
      var usage := o.barrels[f.instance];
      assert (exists k :: 0 <= k < |o.barrels| && o.barrels[k] == usage && k in s.desired.barrels)
        <==> f.instance in s.desired.barrels;
    }
  }

  /** What the serializer puts into a field is what the state says about the Usage the field announces. */
  lemma ContentIsSaid(o: Options, s: NodeState, f: FieldLayout)
    requires Accepted(o) && StateOk(o, s) && Declares(o, f) && f.semantic != ConstantPadding
    ensures Paired(o, s) && ImageOf(o, s).Some?
    ensures Says(o, s, SpecMeanings.Announced(o, f.semantic, f.instance)) == ValueIn(ContentOf(o, ImageOf(o, s).value,
            f))
  {
    hide Accepted, Declares, Says, ContentOf, ImageOf, StateOk, SpecMeanings.Announced;
    StatePaired(o, s);
    match o
    case Keyboard(_, _, _) => KeySays(o, s, f);
    case Mouse(_, _, _, _, _, _) => PointerSays(o, s, f);
    case Gamepad(_, _, _, _, _) => GamepadSays(o, s, f);
    case Touch(_, _, _, _, _, _, _, _, _, _, _, _, _, _, _, _) => TouchSays(o, s, f);
    case Pen(_, _, _, _, _, _, _, _, _, _) => PenSays(o, s, f);
    case _ => SelectionSays(o, s, f);
  }

  // ----- From bytes to meaning -------------------------------------------------------------------

  lemma SignOfRange(f: FieldLayout)
    requires SoundField(f)
    ensures f.isSigned == (f.logicalMinimum < 0) && 0 < f.bitWidth <= 32
  {
  }

  /** A field that shows its content is read as that content. */
  lemma ShownIsRead(o: Options, image: Image, report: seq<Byte>, f: FieldLayout, m: Meaning)
    requires f.semantic != ConstantPadding && SoundField(f) && NullDistinct(f) && Shows(o, image, report, f)
    requires Fits(ContentOf(o, image, f), f)
    ensures HostReads(report, ReadBack(f, m)) == ValueIn(ContentOf(o, image, f))
  {
    hide ContentOf, SoundField, NullDistinct, FieldNumber, DecodeNumber, HatNull;
    SignOfRange(f);
    ContentSurvives(ContentOf(o, image, f), f);
    assert HostNumber(report, ReadBack(f, m)) == NumberOf(ContentOf(o, image, f), f);
  }

  /** Every field that is not constant reads as what the state says about its Usage. */
  predicate Understood(o: Options, s: NodeState, fields: seq<ReadField>, report: seq<Byte>)
    requires Paired(o, s)
  {
    forall k :: 0 <= k < |fields| && !fields[k].constant ==>
      Placed(report, fields[k]) && HostReads(report, fields[k]) == Says(o, s, fields[k].meaning)
  }

  lemma FieldUnderstood(o: Options, layout: ReportLayout, s: NodeState, report: seq<Byte>, k: nat)
    requires SpecOk(o, layout) && StateOk(o, s) && Sendable(o, s) && k < |layout.fields|
    requires layout.fields[k].semantic != ConstantPadding
    requires ImageOf(o, s).Some? && Carries(o, layout, ImageOf(o, s).value, report) && Paired(o, s)
    ensures var f := layout.fields[k];
            var r := ReadBack(f, SpecMeanings.Announced(o, f.semantic, f.instance));
            Placed(report, r) && HostReads(report, r) == Says(o, s, r.meaning)
  {
    hide Accepted, Tiled, Declares, StateOk, Sendable, ImageOf, ContentOf, Says, SpecMeanings.Announced, HostReads,
         Fits, SoundField, NullDistinct, DecodeField, Outside;
    var f := layout.fields[k];
    assert Declares(o, f);
    FieldPlace(layout, k);
    DeclaredNullDistinct(o, f);
    ContentFits(o, s, f);
    ContentIsSaid(o, s, f);
    assert Shows(o, ImageOf(o, s).value, report, f);
    ShownIsRead(o, ImageOf(o, s).value, report, f, SpecMeanings.Announced(o, f.semantic, f.instance));
  }

  /**
   * A host that has only the descriptor of a made Spec reads, from the bytes of any report that carries a state, in
   * every field what the state says about the field's Usage in its collection.
   */
  lemma HostSeesTheState(o: Options, s: NodeState, report: seq<Byte>)
    requires Accepted(o) && SpecVerdict(CallsOf(o)).Built? && StateOk(o, s) && Sendable(o, s)
    requires ImageOf(o, s).Some? && Carries(o, SpecVerdict(CallsOf(o)).layout, ImageOf(o, s).value, report)
    ensures var read := WalkBytes(READER, SpecVerdict(CallsOf(o)).descriptor, 0, NEW_READING);
            && read.Accept? && Paired(o, s) && Understood(o, s, read.state.fields, report)
            && (SpecVerdict(CallsOf(o)).layout.hasReportId ==> |report| > 0 && report[0] == read.state.id)
  {
    hide Accepted, CallsOf, SpecVerdict, StateOk, Sendable, ImageOf, Carries, SpecOk, WalkBytes, ReadBack, Placed, Says,
         HostReads, SpecMeanings.Announced, SpecMeanings.CollectionsOf, ReadStep;
    var spec := SpecVerdict(CallsOf(o));
    SpecFields.MadeSpecOk(o);
    SpecMeanings.DescriptorMeans(o);
    var fields := WalkBytes(READER, spec.descriptor, 0, NEW_READING).state.fields;
    StatePaired(o, s);
    CarriedId(o, spec.layout, ImageOf(o, s).value, report);
    forall k | 0 <= k < |fields| && !fields[k].constant
      ensures Placed(report, fields[k]) && HostReads(report, fields[k]) == Says(o, s, fields[k].meaning)
    {
      var f := spec.layout.fields[k];
      ReadBackKeeps(f, SpecMeanings.Announced(o, f.semantic, f.instance));
      FieldUnderstood(o, spec.layout, s, report, k);
    }
  }

  lemma ReadBackKeeps(f: FieldLayout, m: Meaning)
    ensures ReadBack(f, m).constant == (f.semantic == ConstantPadding) && ReadBack(f, m).meaning == m
  {
  }

  lemma CarriedId(o: Options, layout: ReportLayout, image: Image, report: seq<Byte>)
    requires Carries(o, layout, image, report)
    ensures |report| > 0 && (layout.hasReportId ==> report[0] == layout.reportId)
  {
  }

  /**
   * In every run, a host understands every report that goes out; and until the close-time neutralization, what the
   * state says is what the caller's accepted calls amount to.
   */
  lemma EveryReportIsUnderstood(o: Options, events: seq<Event>, ticks: nat, report: seq<Byte>)
    requires Accepted(o) && SpecVerdict(CallsOf(o)).Built?
    requires Enabled(RunAll(o, NewWorld(o), events), Submit(ticks))
    requires var s := Stamped(o, RunAll(o, NewWorld(o), events).node.state, ticks);
             ImageOf(o, s).Some? && Carries(o, SpecVerdict(CallsOf(o)).layout, ImageOf(o, s).value, report)
    ensures var s := Stamped(o, RunAll(o, NewWorld(o), events).node.state, ticks);
            var read := WalkBytes(READER, SpecVerdict(CallsOf(o)).descriptor, 0, NEW_READING);
            && read.Accept? && Paired(o, s) && Understood(o, s, read.state.fields, report)
            && (NoNeutralize(events) ==> Lasting(ViewOf(o, s)) == Intended(o, events))
  {
    hide Accepted, CallsOf, SpecVerdict, StateOk, Sendable, ImageOf, Carries, WalkBytes, Step, Says, HostReads, ViewOf,
         Lasting, Intended, Stamped, Understood, ReadStep, Paired;
    var before := RunAll(o, NewWorld(o), events).node.state;
    RunSteady(o, events);
    StampedKeeps(o, before, ticks);
    ReachableReports.StampedSendable(o, before, ticks);
    StatePaired(o, before);
    StampLasts(o, before, ticks);
    HostSeesTheState(o, Stamped(o, before, ticks), report);
    if NoNeutralize(events) {
      StateIsIntended(o, events);
    }
  }
}
