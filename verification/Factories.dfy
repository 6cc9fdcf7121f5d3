/**
 * The generating factories: their options, what they accept, the builder calls they make, and what
 * becomes of every accepted option set (src/profiles/spec.cpp).
 */
module Factories {
  import opened Common
  import opened BitField
  import opened HidWalk
  import opened GeneratedCheck
  import opened DescriptorBuilder
  import opened BuilderFacts
  import opened Sketch

  // Usage Pages and Usages of HID Usage Tables 1.7 (src/hid/usages.hpp).
  const PAGE_GENERIC_DESKTOP := 0x01
  const PAGE_SIMULATION := 0x02
  const PAGE_GENERIC_DEVICE := 0x06
  const PAGE_KEYBOARD := 0x07
  const PAGE_BUTTON := 0x09
  const PAGE_CONSUMER := 0x0C
  const PAGE_DIGITIZERS := 0x0D
  const PAGE_CAMERA_CONTROL := 0x90

  datatype ReportIdOption = ReportIdOption(enabled: nat, value: Byte)

  datatype IntegerField = IntegerField(minimum: Int32, maximum: Int32, width: Uint32, physical: Physical)

  datatype UsageSemantic =
    | SelectorBitmap | Momentary | Retrigger | OnOffToggle | OneShot | OnOffMaintained
    | OnOffPair | Linear | DynamicValue | NamedArray

  datatype Control = Control(usage: Uint16, semantic: UsageSemantic)

  datatype Axis = Axis(page: Uint16, usage: Uint16, value: IntegerField, neutral: Int32)

  datatype DPad = NoDPad | HatDPad | ButtonDPad

  /** The options of each factory; a disabled optional field is `None`. */
  datatype Options =
    | Keyboard(reportId: ReportIdOption, usageMinimum: Uint16, usageMaximum: Uint16)
    | Mouse(reportId: ReportIdOption, x: IntegerField, y: IntegerField, buttonCount: Uint32,
            wheel: Option<IntegerField>, pan: Option<IntegerField>)
    | Toggle(reportId: ReportIdOption, applicationPage: Uint16, applicationUsage: Uint16, fieldPage: Uint16,
             controls: seq<Control>)
    | Gamepad(reportId: ReportIdOption, axes: seq<Axis>, buttonUsageMinimum: Uint16, buttonCount: Uint32, dpad: DPad)
    | Touch(reportId: ReportIdOption, applicationUsage: Uint16, maximumContacts: Uint32, contactsPerReport: Uint32,
            contactIdentifier: IntegerField, x: IntegerField, y: IntegerField, contactCount: IntegerField,
            pressure: Option<IntegerField>, width: Option<IntegerField>, height: Option<IntegerField>,
            azimuth: Option<IntegerField>, scanTime: Option<IntegerField>, declareMaximum: bool, multiPacket: bool,
            buttonCount: Uint32)
    | Pen(reportId: ReportIdOption, direct: bool, x: IntegerField, y: IntegerField, pressure: Option<IntegerField>,
          tilt: Option<(IntegerField, IntegerField)>, twist: Option<IntegerField>, barrels: seq<Uint16>, eraser: bool,
          hover: bool)
    | Battery(reportId: ReportIdOption, strength: IntegerField, unknownState: bool)

  // ----- Acceptance ------------------------------------------------------------------------------

  /** `validate_report_id`. */
  predicate ValidReportId(id: ReportIdOption) {
    id.enabled <= 1 && (id.enabled == 1 <==> id.value != 0)
  }

  /** `validate_field`. */
  predicate ValidField(f: IntegerField) {
    && (PhysicalIsZero(f.physical) || PhysicalIsEnabled(f.physical))
    && ValueFits(f.minimum, f.maximum, f.width)
  }

  /** A declared field of an accepted width. */
  lemma WidthKept(f: IntegerField)
    requires ValidField(f)
    ensures f.width % 256 == f.width
  {
    FittingWidth(f.minimum, f.maximum, f.width);
  }

  predicate ContainsZero(f: IntegerField) {
    f.minimum <= 0 <= f.maximum
  }

  /** Negative, zero and positive deltas. */
  predicate StraddlesZero(f: IntegerField) {
    f.minimum < 0 < f.maximum
  }

  predicate AcceptedMouse(o: Options)
    requires o.Mouse?
  {
    && ValidReportId(o.reportId) && 1 <= o.buttonCount <= 65535
    && ValidField(o.x) && StraddlesZero(o.x) && ValidField(o.y) && StraddlesZero(o.y)
    && (o.wheel.Some? ==> ValidField(o.wheel.value) && StraddlesZero(o.wheel.value))
    && (o.pan.Some? ==> ValidField(o.pan.value) && StraddlesZero(o.pan.value))
  }

  predicate AcceptedSemantic(s: UsageSemantic) {
    s.SelectorBitmap? || s.Momentary? || s.Retrigger? || s.OnOffToggle? || s.OneShot? || s.OnOffMaintained?
  }

  predicate AcceptedToggle(o: Options)
    requires o.Toggle?
  {
    && ValidReportId(o.reportId) && o.applicationPage != 0 && o.applicationUsage != 0 && o.fieldPage != 0
    && 1 <= |o.controls| <= 65535
    && (forall k :: 0 <= k < |o.controls| ==> o.controls[k].usage != 0 && AcceptedSemantic(o.controls[k].semantic))
    && (forall j, k :: 0 <= j < k < |o.controls| ==> o.controls[j].usage != o.controls[k].usage)
    && (forall k :: 0 <= k < |o.controls| ==> SensibleControl(o, o.controls[k]))
  }

  /** The Application Usage is no control, and the Camera page has two, both one-shot. */
  predicate SensibleControl(o: Options, c: Control)
    requires o.Toggle?
  {
    && (o.applicationPage == o.fieldPage ==> c.usage != o.applicationUsage)
    && (o.fieldPage == PAGE_CAMERA_CONTROL ==> c.usage in {0x20, 0x21} && c.semantic.OneShot?)
  }

  predicate AcceptedAxis(a: Axis) {
    ValidField(a.value) && a.value.minimum <= a.neutral <= a.value.maximum && AxisUsage(a.page, a.usage)
        && AxisDomain(a)
  }

  /** `controller_axis_usage`: X to Wheel, or one of the five simulation controls. */
  predicate AxisUsage(page: nat, usage: nat) {
    || (page == PAGE_GENERIC_DESKTOP && 0x30 <= usage <= 0x38)
    || (page == PAGE_SIMULATION && usage in {0xBA, 0xBB, 0xC4, 0xC5, 0xC8})
  }

  /** `controller_axis_domain_matches_usage`. */
  predicate AxisDomain(a: Axis) {
    a.page == PAGE_SIMULATION ==>
      && a.neutral == 0 && a.value.maximum > 0
      && (if a.usage in {0xBB, 0xC4, 0xC5} then a.value.minimum == 0 else a.value.minimum < 0)
  }

  /** Every role once, X and Y among them. */
  predicate AxisRoles(axes: seq<Axis>) {
    && (forall j, k :: 0 <= j < k < |axes| ==> axes[j].page != axes[k].page || axes[j].usage != axes[k].usage)
    && (exists k :: 0 <= k < |axes| && axes[k].page == PAGE_GENERIC_DESKTOP && axes[k].usage == 0x30)
    && (exists k :: 0 <= k < |axes| && axes[k].page == PAGE_GENERIC_DESKTOP && axes[k].usage == 0x31)
  }

  predicate AcceptedGamepad(o: Options)
    requires o.Gamepad?
  {
    && ValidReportId(o.reportId) && 2 <= |o.axes| <= 65535
    && 1 <= o.buttonCount <= 65535 && o.buttonUsageMinimum != 0 && o.buttonUsageMinimum + o.buttonCount - 1 <= 65535
    && (o.dpad.ButtonDPad? ==> o.buttonCount <= 65532)
    && (forall k :: 0 <= k < |o.axes| ==> AcceptedAxis(o.axes[k])) && AxisRoles(o.axes)
  }

  /** Pressure and Azimuth: from zero to at least one. */
  predicate FromZero(f: Option<IntegerField>) {
    f.Some? ==> ValidField(f.value) && f.value.minimum == 0 && f.value.maximum >= 1
  }

  predicate OptionalZero(f: Option<IntegerField>) {
    f.Some? ==> ValidField(f.value) && ContainsZero(f.value)
  }

  /** `physical_units_match`. */
  predicate UnitsMatch(a: Physical, b: Physical) {
    a.enabled == b.enabled && (a.enabled == 0 || (a.unit == b.unit && a.unitExponent == b.unitExponent))
  }

  predicate AcceptedTouch(o: Options)
    requires o.Touch?
  {
    && ValidReportId(o.reportId)
    && ValidField(o.x) && ContainsZero(o.x) && ValidField(o.y) && ContainsZero(o.y)
    && 1 <= o.maximumContacts <= 16 && 1 <= o.contactsPerReport <= o.maximumContacts
    && ValidField(o.contactIdentifier) && ValidField(o.contactCount)
    && o.contactCount.minimum <= 0 && o.contactCount.maximum >= o.maximumContacts
    && ContainsZero(o.contactIdentifier) && o.contactIdentifier.maximum + 1 >= o.maximumContacts
    && (!o.multiPacket ==> o.contactsPerReport == o.maximumContacts)
    && FromZero(o.pressure) && FromZero(o.azimuth) && OptionalZero(o.width) && OptionalZero(o.height)
    && (o.width.Some? ==> UnitsMatch(o.width.value.physical, o.x.physical))
    && (o.height.Some? ==> UnitsMatch(o.height.value.physical, o.y.physical))
    && FromZero(o.scanTime) && (o.scanTime.Some? ==> PhysicalIsZero(o.scanTime.value.physical))
    && o.buttonCount <= 65535
  }

  predicate AcceptedPen(o: Options)
    requires o.Pen?
  {
    && ValidReportId(o.reportId)
    && ValidField(o.x) && ContainsZero(o.x) && ValidField(o.y) && ContainsZero(o.y)
    && FromZero(o.pressure)
    && (o.tilt.Some? ==> OptionalZero(Some(o.tilt.value.0)) && OptionalZero(Some(o.tilt.value.1)))
    && OptionalZero(o.twist)
    && |o.barrels| <= 32
    && (forall k :: 0 <= k < |o.barrels| ==> o.barrels[k] == 0x44 || o.barrels[k] == 0x5A)
    && (forall j, k :: 0 <= j < k < |o.barrels| ==> o.barrels[j] != o.barrels[k])
  }

  predicate AcceptedBattery(o: Options)
    requires o.Battery?
  {
    && ValidReportId(o.reportId) && ValidField(o.strength)
    && 0 <= o.strength.minimum < o.strength.maximum
    && (o.unknownState ==> HasNullEncoding(o.strength.minimum, o.strength.maximum, o.strength.width))
  }

  predicate Accepted(o: Options) {
    match o
    case Keyboard(id, low, high) => ValidReportId(id) && 4 <= low <= high && (low > 0xE7 || high < 0xE0)
    case Mouse(_, _, _, _, _, _) => AcceptedMouse(o)
    case Toggle(_, _, _, _, _) => AcceptedToggle(o)
    case Gamepad(_, _, _, _, _) => AcceptedGamepad(o)
    case Touch(_, _, _, _, _, _, _, _, _, _, _, _, _, _, _, _) => AcceptedTouch(o)
    case Pen(_, _, _, _, _, _, _, _, _, _) => AcceptedPen(o)
    case Battery(_, _, _) => AcceptedBattery(o)
  }

  // ----- The builder calls -----------------------------------------------------------------------

  /** A variable for a caller-declared field. */
  function Declared(page: Uint16, usage: Uint16, f: IntegerField, relative: bool, semantic: FieldSemantic,
                    instance: nat): Variable {
    Variable(page, usage, f.minimum, f.maximum, f.width % 256, relative, false, semantic, instance % 0x1_0000, false,
             f.physical)
  }

  /** A one-bit switch. */
  function Switch(page: Uint16, usage: Uint16, semantic: FieldSemantic, instance: nat): Variable {
    Variable(page, usage, 0, 1, 1, false, false, semantic, instance % 0x1_0000, false, NO_PHYSICAL)
  }

  function Optional(page: Uint16, usage: Uint16, f: Option<IntegerField>, relative: bool, semantic: FieldSemantic,
                    instance: nat): seq<Variable> {
    if f.Some? then [Declared(page, usage, f.value, relative, semantic, instance)] else []
  }

  /** Variables one after the other. */
  function Calls(vs: seq<Variable>): seq<Op> {
    if |vs| == 0 then [] else Calls(vs[..|vs| - 1]) + [AddVariable(vs[|vs| - 1])]
  }

  /** Variables, then padding to the next byte. */
  function Padded(vs: seq<Variable>): seq<Op> {
    Calls(vs) + [PadReport]
  }

  function Head(id: ReportIdOption, page: Uint16, usage: Uint16): seq<Op> {
    [Begin(APPLICATION, page, usage)] + [SetReportId(id.enabled == 1, id.value)]
  }

  function KeyboardCalls(o: Options): seq<Op>
    requires o.Keyboard?
  {
    Head(o.reportId, PAGE_GENERIC_DESKTOP, 0x06) + [AddRange(PAGE_KEYBOARD, 0xE0, 0xE7, 1, Modifier)]
    + [AddRange(PAGE_KEYBOARD, o.usageMinimum, o.usageMaximum, 1, KeyBitmap)] + [PadReport] + [End]
  }

  function MouseCalls(o: Options): seq<Op>
    requires o.Mouse?
  {
    Head(o.reportId, PAGE_GENERIC_DESKTOP, 0x02) + [Begin(PHYSICAL, PAGE_GENERIC_DESKTOP, 0x01)]
    + [AddRange(PAGE_BUTTON, 1, o.buttonCount % 0x1_0000, 1, Buttons)] + [PadReport]
    + Padded([Declared(PAGE_GENERIC_DESKTOP, 0x30, o.x, true, X, 0),
              Declared(PAGE_GENERIC_DESKTOP, 0x31, o.y, true, Y, 0)])
    + Padded(Optional(PAGE_GENERIC_DESKTOP, 0x38, o.wheel, true, Wheel, 0))
    + Padded(Optional(PAGE_CONSUMER, 0x0238, o.pan, true, Pan, 0)) + [End] + [End]
  }

  /** `usage_semantic_flags`: relative for the one-shot kinds, no preferred state for a maintained switch. */
  function ControlVariable(page: Uint16, c: Control, instance: nat): Variable {
    Switch(page, c.usage, ConsumerUsage, instance).(
      relative := c.semantic.OnOffToggle? || c.semantic.OneShot?, noPreferred := c.semantic.OnOffMaintained?)
  }

  function ControlVariables(page: Uint16, controls: seq<Control>): seq<Variable> {
    seq(|controls|, k requires 0 <= k < |controls| => ControlVariable(page, controls[k], k))
  }

  function ToggleCalls(o: Options): seq<Op>
    requires o.Toggle?
  {
    Head(o.reportId, o.applicationPage, o.applicationUsage) + Padded(ControlVariables(o.fieldPage, o.controls)) + [End]
  }

  const HAT_DEGREES := Physical(1, 0, 315, 0, 0x14)

  function DPadVariables(o: Options): seq<Variable>
    requires o.Gamepad?
  {
    match o.dpad
    case NoDPad => []
    case HatDPad => [Variable(PAGE_GENERIC_DESKTOP, 0x39, 0, 7, 4, false, true, Hat, 0, false, HAT_DEGREES)]
    case ButtonDPad =>
      seq(4, k requires 0 <= k < 4 =>
        Switch(PAGE_GENERIC_DESKTOP, [0x90, 0x91, 0x92, 0x93][k], Buttons, o.buttonCount + k).(noPreferred := true))
  }

  function AxisCalls(axes: seq<Axis>): seq<Op> {
    if |axes| == 0 then []
    else
      var last := axes[|axes| - 1];
      AxisCalls(axes[..|axes| - 1]) + Padded([Declared(last.page, last.usage, last.value, false, GamepadAxis,
                                                       |axes| - 1)])
  }

  function GamepadCalls(o: Options): seq<Op>
    requires o.Gamepad? && 1 <= o.buttonCount && o.buttonUsageMinimum + o.buttonCount - 1 <= 65535
  {
    Head(o.reportId, PAGE_GENERIC_DESKTOP, 0x05)
    + [AddRange(PAGE_BUTTON, o.buttonUsageMinimum, o.buttonUsageMinimum + o.buttonCount - 1, 1, Buttons)] + [PadReport]
    + Padded(DPadVariables(o)) + AxisCalls(o.axes) + [PadReport] + [End]
  }

  function ContactCalls(o: Options, slot: nat): seq<Op>
    requires o.Touch?
  {
    [Begin(LOGICAL, PAGE_DIGITIZERS, 0x22)] + Padded([Switch(PAGE_DIGITIZERS, 0x42, Tip, slot)])
    + Padded([Declared(PAGE_DIGITIZERS, 0x51, o.contactIdentifier, false, ContactId, slot),
              Declared(PAGE_GENERIC_DESKTOP, 0x30, o.x, false, X, slot),
              Declared(PAGE_GENERIC_DESKTOP, 0x31, o.y, false, Y, slot)])
    + Padded(Optional(PAGE_DIGITIZERS, 0x30, o.pressure, false, Pressure, slot))
    + Padded(Optional(PAGE_DIGITIZERS, 0x48, o.width, false, Width, slot))
    + Padded(Optional(PAGE_DIGITIZERS, 0x49, o.height, false, Height, slot))
    + Calls(Optional(PAGE_DIGITIZERS, 0x3F, o.azimuth, false, Azimuth, slot)) + [End]
  }

  function ContactsCalls(o: Options, slots: nat): seq<Op>
    requires o.Touch?
  {
    if slots == 0 then [] else ContactsCalls(o, slots - 1) + ContactCalls(o, slots - 1)
  }

  function MaximumFeature(o: Options): seq<Op>
    requires o.Touch? && o.maximumContacts <= 16
  {
    if o.declareMaximum then [Feature(PAGE_DIGITIZERS, 0x55, 0, o.maximumContacts, o.contactCount.width % 256)] else []
  }

  function TouchButtons(o: Options): seq<Op>
    requires o.Touch?
  {
    if o.buttonCount > 0 then [AddRange(PAGE_BUTTON, 1, o.buttonCount % 0x1_0000, 1, Buttons)] else []
  }

  function TouchCalls(o: Options): seq<Op>
    requires o.Touch? && o.maximumContacts <= 16
  {
    Head(o.reportId, PAGE_DIGITIZERS, o.applicationUsage) + MaximumFeature(o) + ContactsCalls(o, o.contactsPerReport)
    + [PadReport] + Padded(Optional(PAGE_DIGITIZERS, 0x56, o.scanTime, false, ScanTime, 0))
    + Calls([Declared(PAGE_DIGITIZERS, 0x54, o.contactCount, false, ContactCount, 0)]) + TouchButtons(o) + [PadReport]
        + [End]
  }

  function PenSwitches(o: Options): seq<Variable>
    requires o.Pen?
  {
    (if o.eraser then [Switch(PAGE_DIGITIZERS, 0x3C, Eraser, 0)] else [])
    + [Switch(PAGE_DIGITIZERS, 0x42, Tip, 0), Switch(PAGE_DIGITIZERS, 0x32, InRange, 0)]
    + seq(|o.barrels|, k requires 0 <= k < |o.barrels| => Switch(PAGE_DIGITIZERS, o.barrels[k], Buttons, k))
  }

  function TiltVariables(o: Options): seq<Variable>
    requires o.Pen?
  {
    if o.tilt.Some? then [Declared(PAGE_DIGITIZERS, 0x3D, o.tilt.value.0, false, TiltX, 0),
                          Declared(PAGE_DIGITIZERS, 0x3E, o.tilt.value.1, false, TiltY, 0)]
    else []
  }

  function PenCalls(o: Options): seq<Op>
    requires o.Pen?
  {
    Head(o.reportId, PAGE_DIGITIZERS, if o.direct then 0x02 else 0x01) + [Begin(PHYSICAL, PAGE_DIGITIZERS, 0x20)]
    + Padded(PenSwitches(o))
    + Padded([Declared(PAGE_GENERIC_DESKTOP, 0x30, o.x, false, X, 0),
              Declared(PAGE_GENERIC_DESKTOP, 0x31, o.y, false, Y, 0)])
    + Padded(Optional(PAGE_DIGITIZERS, 0x30, o.pressure, false, Pressure, 0)) + Padded(TiltVariables(o))
    + Padded(Optional(PAGE_DIGITIZERS, 0x41, o.twist, false, Twist, 0)) + [End] + [End]
  }

  function BatteryCalls(o: Options): seq<Op>
    requires o.Battery?
  {
    Head(o.reportId, PAGE_GENERIC_DEVICE, 0x01)
    + Padded([Declared(PAGE_GENERIC_DEVICE, 0x20, o.strength, false, BatteryStrength,
                       0).(nullState := o.unknownState)]) + [End]
  }

  /** The builder calls of an accepted option set, in order. */
  function CallsOf(o: Options): seq<Op>
    requires Accepted(o)
  {
    match o
    case Keyboard(_, _, _) => KeyboardCalls(o)
    case Mouse(_, _, _, _, _, _) => MouseCalls(o)
    case Toggle(_, _, _, _, _) => ToggleCalls(o)
    case Gamepad(_, _, _, _, _) => GamepadCalls(o)
    case Touch(_, _, _, _, _, _, _, _, _, _, _, _, _, _, _, _) => TouchCalls(o)
    case Pen(_, _, _, _, _, _, _, _, _, _) => PenCalls(o)
    case Battery(_, _, _) => BatteryCalls(o)
  }

  // ----- Sketching groups of calls ---------------------------------------------------------------

  /** Inside a collection, with the Report ID decided. */
  predicate Open(s: Outline) {
    s.sound && s.decided && s.depth > 0
  }

  /** `r` follows `s` at the same depth. */
  predicate Inside(s: Outline, r: Outline) {
    && Open(r) && r.depth == s.depth && r.top == s.top && r.featured == s.featured && (s.data ==> r.data)
    && s.offset <= r.offset
  }

  function Widths(vs: seq<Variable>): nat {
    if |vs| == 0 then 0 else Widths(vs[..|vs| - 1]) + vs[|vs| - 1].width
  }

  /** Fields laid end to end from bit `align` of a byte keep the four-byte rule. */
  predicate Packed(align: nat, vs: seq<Variable>) {
    |vs| == 0
    || (Packed(align, vs[..|vs| - 1]) && (align + Widths(vs[..|vs| - 1])) % 8 + vs[|vs| - 1].width <= 32)
  }

  predicate Emittable(v: Variable) {
    && v.semantic != ConstantPadding && ValueFits(v.minimum, v.maximum, v.width)
    && (PhysicalIsZero(v.physical) || PhysicalIsEnabled(v.physical))
  }

  lemma FourBytesByAlignment(offset: nat, width: nat)
    requires width > 0
    ensures TouchedBytes(offset, width) <= 4 <==> offset % 8 + width <= 32
  {
  }

  lemma VariableDrawn(s: Outline, v: Variable)
    requires Open(s) && Emittable(v)
    ensures var r := Draw(s, AddVariable(v));
            && Inside(s, r) && r.data && r.offset == s.offset + v.width > s.offset
            && (r.keeps <==> s.keeps && s.offset % 8 + v.width <= 32)
  {
    hide ValueFits, PhysicalIsZero, PhysicalIsEnabled;
    FittingWidth(v.minimum, v.maximum, v.width);
    FourBytesByAlignment(s.offset, v.width);
  }

  lemma {:induction false} CallsDrawn(s: Outline, vs: seq<Variable>)
    requires Open(s) && forall k :: 0 <= k < |vs| ==> Emittable(vs[k])
    ensures var r := DrawAll(s, Calls(vs));
            && Inside(s, r) && r.offset == s.offset + Widths(vs) && (r.keeps <==> s.keeps && Packed(s.offset % 8, vs))
            && (|vs| > 0 ==> r.data && r.offset > s.offset)
  {
    hide Emittable, Draw;
    if |vs| == 0 {
    } else {
      CallsDrawn(s, vs[..|vs| - 1]);
      DrawSnoc(s, Calls(vs[..|vs| - 1]), AddVariable(vs[|vs| - 1]));
      VariableDrawn(DrawAll(s, Calls(vs[..|vs| - 1])), vs[|vs| - 1]);
      var before := DrawAll(s, Calls(vs[..|vs| - 1])).offset;
      ModSum(s.offset, Widths(vs[..|vs| - 1]));
      assert before % 8 == (s.offset % 8 + Widths(vs[..|vs| - 1])) % 8;
    }
  }

  lemma ModSum(a: nat, b: nat)
    ensures (a + b) % 8 == (a % 8 + b) % 8
  {
  }

  lemma PadDrawn(s: Outline)
    requires Open(s)
    ensures var r := Draw(s, PadReport); Inside(s, r) && r.offset % 8 == 0 && r.keeps == s.keeps
  {
  }

  lemma PaddedDrawn(s: Outline, vs: seq<Variable>)
    requires Open(s) && forall k :: 0 <= k < |vs| ==> Emittable(vs[k])
    ensures var r := DrawAll(s, Padded(vs));
            && Inside(s, r) && r.offset % 8 == 0 && (r.keeps <==> s.keeps && Packed(s.offset % 8, vs))
            && (|vs| > 0 ==> r.data && r.offset > s.offset)
  {
    hide Emittable, Draw, Packed;
    CallsDrawn(s, vs);
    DrawSnoc(s, Calls(vs), PadReport);
    PadDrawn(DrawAll(s, Calls(vs)));
  }

  lemma {:induction false} SwitchesPacked(align: nat, vs: seq<Variable>)
    requires forall k :: 0 <= k < |vs| ==> vs[k].width == 1
    ensures Packed(align, vs)
  {
    if |vs| == 0 {
    } else {
      SwitchesPacked(align, vs[..|vs| - 1]);
    }
  }

  lemma PackedOne(align: nat, v: Variable)
    ensures Packed(align, [v]) <==> align % 8 + v.width <= 32
  {
    assert [v][..0] == [];
  }

  lemma PackedTwo(align: nat, v: Variable, w: Variable)
    ensures Packed(align, [v, w]) <==> align % 8 + v.width <= 32 && (align + v.width) % 8 + w.width <= 32
  {
    assert [v, w][..1] == [v];
    assert [v][..0] == [];
    PackedOne(align, v);
  }

  lemma PackedThree(align: nat, u: Variable, v: Variable, w: Variable)
    ensures Packed(align, [u, v, w]) <==>
            && align % 8 + u.width <= 32 && (align + u.width) % 8 + v.width <= 32
            && (align + u.width + v.width) % 8 + w.width <= 32
  {
    assert [u, v, w][..2] == [u, v];
    assert [u, v][..1] == [u];
    assert [u][..0] == [];
    PackedTwo(align, u, v);
  }
}
