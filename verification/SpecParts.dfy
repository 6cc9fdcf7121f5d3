/**
 * Which fields a made Spec has, apart from padding: an independent list by profile, with every field's range, width,
 * Null state and physical properties, in report order.
 */
module SpecParts {
  import opened Common
  import opened BitField
  import opened DescriptorBuilder
  import opened BuilderFacts
  import opened GeneratedSpec
  import opened Factories
  import FactoryResults

  /** A field without its place. */
  datatype Part = Part(semantic: FieldSemantic, instance: nat, minimum: int, maximum: int, width: nat, nullState: bool,
                       physical: Physical)

  // ----- The list --------------------------------------------------------------------------------

  function Bits(semantic: FieldSemantic, count: nat): seq<Part> {
    seq(count, i requires 0 <= i => BitPart(semantic, i))
  }

  function BitPart(semantic: FieldSemantic, instance: nat): Part {
    Part(semantic, instance, 0, 1, 1, false, NO_PHYSICAL)
  }

  function Number(semantic: FieldSemantic, instance: nat, f: IntegerField): Part {
    Part(semantic, instance, f.minimum, f.maximum, f.width, false, f.physical)
  }

  function Maybe(semantic: FieldSemantic, instance: nat, f: Option<IntegerField>): seq<Part> {
    if f.Some? then [Number(semantic, instance, f.value)] else []
  }

  function DirectionParts(o: Options): seq<Part>
    requires o.Gamepad?
  {
    match o.dpad
    case NoDPad => []
    case HatDPad => [Part(Hat, 0, 0, 7, 4, true, Physical(1, 0, 315, 0, 0x14))]
    case ButtonDPad => seq(4, k requires 0 <= k => BitPart(Buttons, o.buttonCount + k))
  }

  function AxisParts(axes: seq<Axis>): seq<Part> {
    seq(|axes|, k requires 0 <= k < |axes| => Number(GamepadAxis, k, axes[k].value))
  }

  function ContactParts(o: Options, slot: nat): seq<Part>
    requires o.Touch?
  {
    [BitPart(Tip, slot), Number(ContactId, slot, o.contactIdentifier), Number(X, slot, o.x), Number(Y, slot, o.y)]
    + Maybe(Pressure, slot, o.pressure) + Maybe(Width, slot, o.width) + Maybe(Height, slot, o.height)
    + Maybe(Azimuth, slot, o.azimuth)
  }

  function ContactsParts(o: Options, slots: nat): seq<Part>
    requires o.Touch?
  {
    if slots == 0 then [] else ContactsParts(o, slots - 1) + ContactParts(o, slots - 1)
  }

  function TiltParts(o: Options): seq<Part>
    requires o.Pen?
  {
    if o.tilt.Some? then [Number(TiltX, 0, o.tilt.value.0), Number(TiltY, 0, o.tilt.value.1)] else []
  }

  /** The fields of a profile. */
  function PartsOf(o: Options): seq<Part> {
    match o
    case Keyboard(_, low, high) => Bits(Modifier, 8) + Bits(KeyBitmap, if low <= high then high - low + 1 else 0)
    case Mouse(_, x, y, count, wheel, pan) =>
      Bits(Buttons, count) + [Number(X, 0, x), Number(Y, 0, y)] + Maybe(Wheel, 0, wheel) + Maybe(Pan, 0, pan)
    case Toggle(_, _, _, _, controls) => Bits(ConsumerUsage, |controls|)
    case Gamepad(_, axes, _, count, _) => Bits(Buttons, count) + DirectionParts(o) + AxisParts(axes)
    case Touch(_, _, _, contacts, _, _, _, number, _, _, _, _, scan, _, _, count) =>
      ContactsParts(o, contacts) + Maybe(ScanTime, 0, scan) + [Number(ContactCount, 0, number)] + Bits(Buttons, count)
    case Pen(_, _, x, y, pressure, _, twist, barrels, eraser, _) =>
      (if eraser then [BitPart(Eraser, 0)] else []) + [BitPart(Tip, 0), BitPart(InRange, 0)]
      + Bits(Buttons, |barrels|) + [Number(X, 0, x), Number(Y, 0, y)] + Maybe(Pressure, 0, pressure) + TiltParts(o)
      + Maybe(Twist, 0, twist)
    case Battery(_, strength, unknown) => [Number(BatteryStrength, 0, strength).(nullState := unknown)]
  }

  // ----- What a run adds -------------------------------------------------------------------------

  function PartOf(f: FieldLayout): Part {
    Part(f.semantic, f.instance, f.logicalMinimum, f.logicalMaximum, f.bitWidth, f.hasNullState, f.physical)
  }

  /** The parts of a layout: its fields in order, without padding and without their places. */
  function Parts(fields: seq<FieldLayout>): seq<Part> {
    if |fields| == 0 then []
    else
      var last := fields[|fields| - 1];
      Parts(fields[..|fields| - 1]) + if last.semantic == ConstantPadding then [] else [PartOf(last)]
  }

  lemma {:induction false} PartsAppend(a: seq<FieldLayout>, b: seq<FieldLayout>)
    ensures Parts(a + b) == Parts(a) + Parts(b)
  {
    if |b| == 0 {
      assert a + b == a;
    } else {
      var n := |b| - 1;
      PartsAppend(a, b[..n]);
      assert (a + b)[..|a + b| - 1] == a + b[..n];
    }
  }

  /** What one call adds. */
  function Added(op: Op): seq<Part> {
    match op
    case AddVariable(v) => Parts([FieldOf(v, 0)])
    case AddRange(_, low, high, width, semantic) => Parts(RangeFields(semantic, 0, RangeCount(low, high), width))
    case _ => []
  }

  function AllAdded(ops: seq<Op>): seq<Part> {
    if |ops| == 0 then [] else AllAdded(ops[..|ops| - 1]) + Added(ops[|ops| - 1])
  }

  lemma {:induction false} AddedAppend(a: seq<Op>, b: seq<Op>)
    ensures AllAdded(a + b) == AllAdded(a) + AllAdded(b)
  {
    hide Added;
    if |b| == 0 {
      assert a + b == a;
    } else {
      AddedAppend(a, b[..|b| - 1]);
      assert (a + b)[..|a + b| - 1] == a + b[..|b| - 1];
    }
  }

  lemma AddedOne(op: Op)
    ensures AllAdded([op]) == Added(op)
  {
    hide Added;
    assert [op][..|[op]| - 1] == [];
  }

  lemma {:induction false} PlacesAreFree(a: seq<FieldLayout>, b: seq<FieldLayout>)
    requires |a| == |b| && forall k :: 0 <= k < |a| ==> PartOf(a[k]) == PartOf(b[k])
    ensures Parts(a) == Parts(b)
  {
    if |a| == 0 {
    } else {
      PlacesAreFree(a[..|a| - 1], b[..|b| - 1]);
    }
  }

  lemma GrownParts(b: Build, r: Build, added: seq<FieldLayout>, bits: nat)
    requires InputAdded(b, r, added, bits)
    ensures Parts(r.fields) == Parts(b.fields) + Parts(added)
  {
    hide Tiled, Parts;
    PartsAppend(b.fields, added);
  }

  lemma CallParts(b: Build, op: Op)
    requires Tidy(b) && b.good && Proper(b, op) && Apply(b, op).good
    ensures Parts(Apply(b, op).fields) == Parts(b.fields) + Added(op)
  {
    hide Tidy, InputAdded, ValueFits, BeginCollection, EndCollection, DecideReportId, EmitVariable, EmitRange,
         EmitPadding, EmitFeature, Later, Parts;
    match op
    case AddVariable(v) =>
      VariableEffect(b, v);
      GrownParts(b, EmitVariable(b, v), [FieldOf(v, b.inputBits)], v.width);
      PlacesAreFree([FieldOf(v, b.inputBits)], [FieldOf(v, 0)]);
    case AddRange(page, low, high, width, semantic) =>
      RangeEffect(b, page, low, high, width, semantic);
      var count := RangeCount(low, high);
      GrownParts(b, EmitRange(b, page, low, high, width, semantic), RangeFields(semantic, b.inputBits, count, width),
                 RangeBits(low, high, width));
      PlacesAreFree(RangeFields(semantic, b.inputBits, count, width), RangeFields(semantic, 0, count, width));
    case Padding(bits) => PadParts(b, bits);
    case PadReport => PadParts(b, PaddingBits(b.inputBits));
    case Feature(page, usage, minimum, maximum, width) => FeatureEffect(b, page, usage, minimum, maximum, width);
    case Begin(kind, page, usage) => BeginTidy(b, kind, page, usage);
    case End => EndTidy(b);
    case SetReportId(enabled, id) => DecideTidy(b, enabled, id);
  }

  lemma PadParts(b: Build, bits: Uint16)
    requires Tidy(b) && b.good && bits <= 32 && EmitPadding(b, bits).good
    ensures Parts(EmitPadding(b, bits).fields) == Parts(b.fields)
  {
    hide Tidy, InputAdded, EmitPadding, Later;
    if bits == 0 {
      NoPadding(b);
    } else {
      PaddingEffect(b, bits);
      var padding := PaddingField(b.inputBits, bits);
      GrownParts(b, EmitPadding(b, bits), [padding], bits);
      assert [padding][..|[padding]| - 1] == [];
    }
  }

  lemma {:induction false} RunParts(capacity: nat, ops: seq<Op>)
    requires ProperRun(NewBuild(true, capacity), ops) && Run(NewBuild(true, capacity), ops).good
    ensures Parts(Run(NewBuild(true, capacity), ops).fields) == AllAdded(ops)
  {
    hide Apply, Proper, Tidy, Later, Added;
    if |ops| == 0 {
    } else {
      RunTidy(capacity, ops[..|ops| - 1]);
      RunParts(capacity, ops[..|ops| - 1]);
      CallParts(Run(NewBuild(true, capacity), ops[..|ops| - 1]), ops[|ops| - 1]);
    }
  }

  // ----- What the factories add ------------------------------------------------------------------

  function VariablePart(v: Variable): Part {
    Part(v.semantic, v.instance, v.minimum, v.maximum, v.width, v.nullState, v.physical)
  }

  lemma OnePart(f: FieldLayout)
    requires f.semantic != ConstantPadding
    ensures Parts([f]) == [PartOf(f)]
  {
    assert [f][..|[f]| - 1] == [];
  }

  function VariableParts(vs: seq<Variable>): seq<Part> {
    seq(|vs|, k requires 0 <= k < |vs| => VariablePart(vs[k]))
  }

  lemma VariableAdded(v: Variable)
    requires v.semantic != ConstantPadding
    ensures Added(AddVariable(v)) == [VariablePart(v)]
  {
    hide Parts;
    OnePart(FieldOf(v, 0));
  }

  lemma {:induction false} CallsAdded(vs: seq<Variable>)
    requires forall k :: 0 <= k < |vs| ==> vs[k].semantic != ConstantPadding
    ensures AllAdded(Calls(vs)) == VariableParts(vs) && AllAdded(Padded(vs)) == VariableParts(vs)
  {
    hide AllAdded, VariablePart;
    if |vs| == 0 {
      NothingAdded();
    } else {
      var last := vs[|vs| - 1];
      CallsAdded(vs[..|vs| - 1]);
      VariableAdded(last);
      ThenAdded(Calls(vs[..|vs| - 1]), AddVariable(last));
      assert VariableParts(vs) == VariableParts(vs[..|vs| - 1]) + [VariablePart(last)];
    }
    ThenAdded(Calls(vs), PadReport);
  }

  lemma {:induction false} RangeParts(semantic: FieldSemantic, count: nat)
    requires semantic != ConstantPadding
    ensures Parts(RangeFields(semantic, 0, count, 1)) == Bits(semantic, count)
  {
    if count == 0 {
    } else {
      var fields := RangeFields(semantic, 0, count, 1);
      RangeParts(semantic, count - 1);
      assert fields[..|fields| - 1] == RangeFields(semantic, 0, count - 1, 1);
      assert PartOf(fields[count - 1]) == BitPart(semantic, count - 1);
      assert Bits(semantic, count) == Bits(semantic, count - 1) + [BitPart(semantic, count - 1)];
    }
  }

  lemma ThenAdded(a: seq<Op>, op: Op)
    ensures AllAdded(a + [op]) == AllAdded(a) + Added(op)
  {
    hide Added;
    AddedAppend(a, [op]);
    AddedOne(op);
  }

  lemma ThenEnd(a: seq<Op>)
    ensures AllAdded(a + [End]) == AllAdded(a)
  {
    ThenAdded(a, End);
  }

  lemma ThenRange(a: seq<Op>, page: Uint16, low: Uint16, high: Uint16, semantic: FieldSemantic)
    requires semantic != ConstantPadding
    ensures AllAdded(a + [AddRange(page, low, high, 1, semantic)])
            == AllAdded(a) + Bits(semantic, RangeCount(low, high))
  {
    ThenAdded(a, AddRange(page, low, high, 1, semantic));
    RangeParts(semantic, RangeCount(low, high));
  }

  lemma HeadAdded(id: ReportIdOption, page: Uint16, usage: Uint16)
    ensures AllAdded(Head(id, page, usage)) == []
  {
    AddedOne(Begin(APPLICATION, page, usage));
    ThenAdded([Begin(APPLICATION, page, usage)], SetReportId(id.enabled == 1, id.value));
  }

  /** A list of variables after other calls. */
  lemma ThenVariables(a: seq<Op>, vs: seq<Variable>, parts: seq<Part>)
    requires |parts| == |vs|
    requires forall k :: 0 <= k < |vs| ==> vs[k].semantic != ConstantPadding && VariablePart(vs[k]) == parts[k]
    ensures AllAdded(a + Padded(vs)) == AllAdded(a) + parts && AllAdded(a + Calls(vs)) == AllAdded(a) + parts
  {
    hide Padded, Calls, AllAdded, VariablePart;
    CallsAdded(vs);
    assert VariableParts(vs) == parts;
    AddedAppend(a, Padded(vs));
    AddedAppend(a, Calls(vs));
  }

  lemma ThenOptional(a: seq<Op>, page: Uint16, usage: Uint16, f: Option<IntegerField>, relative: bool,
                     semantic: FieldSemantic, instance: nat)
    requires semantic != ConstantPadding && instance < 0x1_0000 && (f.Some? ==> ValidField(f.value))
    ensures AllAdded(a + Padded(Optional(page, usage, f, relative, semantic, instance)))
            == AllAdded(a) + Maybe(semantic, instance, f)
    ensures AllAdded(a + Calls(Optional(page, usage, f, relative, semantic, instance)))
            == AllAdded(a) + Maybe(semantic, instance, f)
  {
    hide Padded, Calls, AllAdded, ValidField;
    if f.Some? {
      WidthKept(f.value);
    }
    ThenVariables(a, Optional(page, usage, f, relative, semantic, instance), Maybe(semantic, instance, f));
  }

  lemma KeyboardAdded(o: Options)
    requires o.Keyboard? && Accepted(o)
    ensures AllAdded(KeyboardCalls(o)) == PartsOf(o)
  {
    hide AllAdded, Head, Bits;
    var a := Head(o.reportId, PAGE_GENERIC_DESKTOP, 0x06);
    HeadAdded(o.reportId, PAGE_GENERIC_DESKTOP, 0x06);
    ThenRange(a, PAGE_KEYBOARD, 0xE0, 0xE7, Modifier);
    var b := a + [AddRange(PAGE_KEYBOARD, 0xE0, 0xE7, 1, Modifier)];
    ThenRange(b, PAGE_KEYBOARD, o.usageMinimum, o.usageMaximum, KeyBitmap);
    var c := b + [AddRange(PAGE_KEYBOARD, o.usageMinimum, o.usageMaximum, 1, KeyBitmap)];
    ThenAdded(c, PadReport);
    ThenAdded(c + [PadReport], End);
  }

  lemma MouseFrontAdded(o: Options)
    requires o.Mouse? && Accepted(o)
    ensures AllAdded(Head(o.reportId, PAGE_GENERIC_DESKTOP, 0x02) + [Begin(PHYSICAL, PAGE_GENERIC_DESKTOP, 0x01)]
                     + [AddRange(PAGE_BUTTON, 1, o.buttonCount % 0x1_0000, 1, Buttons)] + [PadReport])
            == Bits(Buttons, o.buttonCount)
  {
    hide AllAdded, Head, Bits, ValidField;
    var a := Head(o.reportId, PAGE_GENERIC_DESKTOP, 0x02);
    HeadAdded(o.reportId, PAGE_GENERIC_DESKTOP, 0x02);
    ThenAdded(a, Begin(PHYSICAL, PAGE_GENERIC_DESKTOP, 0x01));
    var b := a + [Begin(PHYSICAL, PAGE_GENERIC_DESKTOP, 0x01)];
    ThenRange(b, PAGE_BUTTON, 1, o.buttonCount % 0x1_0000, Buttons);
    var c := b + [AddRange(PAGE_BUTTON, 1, o.buttonCount % 0x1_0000, 1, Buttons)];
    ThenAdded(c, PadReport);
  }

  lemma MouseAdded(o: Options)
    requires o.Mouse? && Accepted(o)
    ensures AllAdded(MouseCalls(o)) == PartsOf(o)
  {
    hide AllAdded, Head, Added, Bits, ValidField, Padded, Maybe, Optional, Number, Declared;
    MouseFrontAdded(o);
    var c := Head(o.reportId, PAGE_GENERIC_DESKTOP, 0x02) + [Begin(PHYSICAL, PAGE_GENERIC_DESKTOP, 0x01)]
             + [AddRange(PAGE_BUTTON, 1, o.buttonCount % 0x1_0000, 1, Buttons)];
    PlaceAdded(c + [PadReport], o.x, o.y, true, 0);
    var d := c + [PadReport] + Padded([Declared(PAGE_GENERIC_DESKTOP, 0x30, o.x, true, X, 0),
                                       Declared(PAGE_GENERIC_DESKTOP, 0x31, o.y, true, Y, 0)]);
    ThenOptional(d, PAGE_GENERIC_DESKTOP, 0x38, o.wheel, true, Wheel, 0);
    var e := d + Padded(Optional(PAGE_GENERIC_DESKTOP, 0x38, o.wheel, true, Wheel, 0));
    ThenOptional(e, PAGE_CONSUMER, 0x0238, o.pan, true, Pan, 0);
    var f := e + Padded(Optional(PAGE_CONSUMER, 0x0238, o.pan, true, Pan, 0));
    ThenEnd(f);
    ThenEnd(f + [End]);
  }

  /** X, then Y. */
  lemma PlaceAdded(a: seq<Op>, x: IntegerField, y: IntegerField, relative: bool, slot: nat)
    requires ValidField(x) && ValidField(y) && slot < 0x1_0000
    ensures AllAdded(a + Padded([Declared(PAGE_GENERIC_DESKTOP, 0x30, x, relative, X, slot),
                                 Declared(PAGE_GENERIC_DESKTOP, 0x31, y, relative, Y, slot)]))
            == AllAdded(a) + [Number(X, slot, x), Number(Y, slot, y)]
  {
    hide AllAdded, Padded, ValidField;
    WidthKept(x);
    WidthKept(y);
    ThenVariables(a, [Declared(PAGE_GENERIC_DESKTOP, 0x30, x, relative, X, slot),
                      Declared(PAGE_GENERIC_DESKTOP, 0x31, y, relative, Y, slot)],
                  [Number(X, slot, x), Number(Y, slot, y)]);
  }

  lemma ToggleAdded(o: Options)
    requires o.Toggle? && Accepted(o)
    ensures AllAdded(ToggleCalls(o)) == PartsOf(o)
  {
    hide AllAdded, Head, Padded, SensibleControl;
    var a := Head(o.reportId, o.applicationPage, o.applicationUsage);
    HeadAdded(o.reportId, o.applicationPage, o.applicationUsage);
    ThenVariables(a, ControlVariables(o.fieldPage, o.controls), Bits(ConsumerUsage, |o.controls|));
    ThenAdded(a + Padded(ControlVariables(o.fieldPage, o.controls)), End);
  }

  lemma NothingAdded()
    ensures AllAdded([]) == []
  {
  }

  lemma {:induction false} AxesAdded(axes: seq<Axis>)
    requires |axes| <= 65535 && forall k :: 0 <= k < |axes| ==> ValidField(axes[k].value)
    ensures AllAdded(AxisCalls(axes)) == AxisParts(axes)
  {
    hide Padded, ValidField, AllAdded;
    if |axes| == 0 {
      NothingAdded();
    } else {
      var n := |axes| - 1;
      AxesAdded(axes[..n]);
      var v := Declared(axes[n].page, axes[n].usage, axes[n].value, false, GamepadAxis, n);
      WidthKept(axes[n].value);
      ThenVariables(AxisCalls(axes[..n]), [v], [Number(GamepadAxis, n, axes[n].value)]);
      assert AxisParts(axes) == AxisParts(axes[..n]) + [Number(GamepadAxis, n, axes[n].value)];
    }
  }

  lemma GamepadAdded(o: Options)
    requires o.Gamepad? && Accepted(o)
    ensures AllAdded(GamepadCalls(o)) == PartsOf(o)
  {
    hide AllAdded, Head, Bits, ValidField, Padded, AxisRoles, AxisParts, DirectionParts, DPadVariables, AxisCalls;
    var a := Head(o.reportId, PAGE_GENERIC_DESKTOP, 0x05);
    HeadAdded(o.reportId, PAGE_GENERIC_DESKTOP, 0x05);
    var high: Uint16 := o.buttonUsageMinimum + o.buttonCount - 1;
    ThenRange(a, PAGE_BUTTON, o.buttonUsageMinimum, high, Buttons);
    var b := a + [AddRange(PAGE_BUTTON, o.buttonUsageMinimum, high, 1, Buttons)];
    ThenAdded(b, PadReport);
    DirectionsAdded(o, b + [PadReport]);
    var c := b + [PadReport] + Padded(DPadVariables(o));
    assert forall k :: 0 <= k < |o.axes| ==> AcceptedAxis(o.axes[k]);
    AxesAdded(o.axes);
    AddedAppend(c, AxisCalls(o.axes));
    ThenAdded(c + AxisCalls(o.axes), PadReport);
    ThenAdded(c + AxisCalls(o.axes) + [PadReport], End);
  }

  lemma DirectionsAdded(o: Options, a: seq<Op>)
    requires o.Gamepad? && Accepted(o)
    ensures AllAdded(a + Padded(DPadVariables(o))) == AllAdded(a) + DirectionParts(o)
  {
    hide AllAdded, Padded, AxisRoles, AcceptedAxis;
    if o.dpad.ButtonDPad? {
      forall k | 0 <= k < 4
        ensures VariablePart(DPadVariables(o)[k]) == DirectionParts(o)[k]
      {
        assert (o.buttonCount + k) % 0x1_0000 == o.buttonCount + k;
      }
    }
    ThenVariables(a, DPadVariables(o), DirectionParts(o));
  }

  lemma ContactAdded(o: Options, slot: nat)
    requires o.Touch? && Accepted(o) && slot < 0x1_0000
    ensures AllAdded(ContactCalls(o, slot)) == ContactParts(o, slot)
  {
    hide AllAdded, ValidField, Padded, Calls, Optional, Maybe;
    var a := [Begin(LOGICAL, PAGE_DIGITIZERS, 0x22)];
    AddedOne(Begin(LOGICAL, PAGE_DIGITIZERS, 0x22));
    ThenVariables(a, [Switch(PAGE_DIGITIZERS, 0x42, Tip, slot)], [BitPart(Tip, slot)]);
    var b := a + Padded([Switch(PAGE_DIGITIZERS, 0x42, Tip, slot)]);
    SpotAdded(o, b, slot);
    var c := b + Padded([Declared(PAGE_DIGITIZERS, 0x51, o.contactIdentifier, false, ContactId, slot),
                         Declared(PAGE_GENERIC_DESKTOP, 0x30, o.x, false, X, slot),
                         Declared(PAGE_GENERIC_DESKTOP, 0x31, o.y, false, Y, slot)]);
    ExtrasAdded(o, c, slot);
    ThenAdded(c + Padded(Optional(PAGE_DIGITIZERS, 0x30, o.pressure, false, Pressure, slot))
                + Padded(Optional(PAGE_DIGITIZERS, 0x48, o.width, false, Width, slot))
                + Padded(Optional(PAGE_DIGITIZERS, 0x49, o.height, false, Height, slot))
                + Calls(Optional(PAGE_DIGITIZERS, 0x3F, o.azimuth, false, Azimuth, slot)), End);
  }

  lemma SpotAdded(o: Options, a: seq<Op>, slot: nat)
    requires o.Touch? && Accepted(o) && slot < 0x1_0000
    ensures AllAdded(a + Padded([Declared(PAGE_DIGITIZERS, 0x51, o.contactIdentifier, false, ContactId, slot),
                                 Declared(PAGE_GENERIC_DESKTOP, 0x30, o.x, false, X, slot),
                                 Declared(PAGE_GENERIC_DESKTOP, 0x31, o.y, false, Y, slot)]))
            == AllAdded(a) + [Number(ContactId, slot, o.contactIdentifier), Number(X, slot, o.x), Number(Y, slot, o.y)]
  {
    hide AllAdded, ValidField, Padded;
    WidthKept(o.contactIdentifier);
    WidthKept(o.x);
    WidthKept(o.y);
    ThenVariables(a, [Declared(PAGE_DIGITIZERS, 0x51, o.contactIdentifier, false, ContactId, slot),
                      Declared(PAGE_GENERIC_DESKTOP, 0x30, o.x, false, X, slot),
                      Declared(PAGE_GENERIC_DESKTOP, 0x31, o.y, false, Y, slot)],
                  [Number(ContactId, slot, o.contactIdentifier), Number(X, slot, o.x), Number(Y, slot, o.y)]);
  }

  lemma ExtrasAdded(o: Options, a: seq<Op>, slot: nat)
    requires o.Touch? && Accepted(o) && slot < 0x1_0000
    ensures AllAdded(a + Padded(Optional(PAGE_DIGITIZERS, 0x30, o.pressure, false, Pressure, slot))
                       + Padded(Optional(PAGE_DIGITIZERS, 0x48, o.width, false, Width, slot))
                       + Padded(Optional(PAGE_DIGITIZERS, 0x49, o.height, false, Height, slot))
                       + Calls(Optional(PAGE_DIGITIZERS, 0x3F, o.azimuth, false, Azimuth, slot)))
            == AllAdded(a) + Maybe(Pressure, slot, o.pressure) + Maybe(Width, slot, o.width)
               + Maybe(Height, slot, o.height) + Maybe(Azimuth, slot, o.azimuth)
  {
    hide AllAdded, ValidField, Padded, Calls, Optional, Maybe;
    ThenOptional(a, PAGE_DIGITIZERS, 0x30, o.pressure, false, Pressure, slot);
    var b := a + Padded(Optional(PAGE_DIGITIZERS, 0x30, o.pressure, false, Pressure, slot));
    ThenOptional(b, PAGE_DIGITIZERS, 0x48, o.width, false, Width, slot);
    var c := b + Padded(Optional(PAGE_DIGITIZERS, 0x48, o.width, false, Width, slot));
    ThenOptional(c, PAGE_DIGITIZERS, 0x49, o.height, false, Height, slot);
    var d := c + Padded(Optional(PAGE_DIGITIZERS, 0x49, o.height, false, Height, slot));
    ThenOptional(d, PAGE_DIGITIZERS, 0x3F, o.azimuth, false, Azimuth, slot);
  }

  lemma {:induction false} ContactsAdded(o: Options, slots: nat)
    requires o.Touch? && Accepted(o) && slots <= 0x1_0000
    ensures AllAdded(ContactsCalls(o, slots)) == ContactsParts(o, slots)
  {
    hide Accepted, ContactCalls, ContactParts;
    if slots == 0 {
    } else {
      ContactsAdded(o, slots - 1);
      ContactAdded(o, slots - 1);
      AddedAppend(ContactsCalls(o, slots - 1), ContactCalls(o, slots - 1));
    }
  }

  lemma FeatureAdded(o: Options, a: seq<Op>)
    requires o.Touch? && Accepted(o)
    ensures AllAdded(a + MaximumFeature(o)) == AllAdded(a)
  {
    hide AllAdded, ValidField;
    if o.declareMaximum {
      ThenAdded(a, MaximumFeature(o)[0]);
      assert [MaximumFeature(o)[0]] == MaximumFeature(o);
    } else {
      assert a + MaximumFeature(o) == a;
    }
  }

  lemma TouchButtonsAdded(o: Options, a: seq<Op>)
    requires o.Touch? && Accepted(o)
    ensures AllAdded(a + TouchButtons(o)) == AllAdded(a) + Bits(Buttons, o.buttonCount)
  {
    hide AllAdded, ValidField;
    if o.buttonCount > 0 {
      ThenRange(a, PAGE_BUTTON, 1, o.buttonCount % 0x1_0000, Buttons);
    } else {
      assert a + TouchButtons(o) == a;
      assert Bits(Buttons, 0) == [];
    }
  }

  lemma ThenPad(a: seq<Op>)
    ensures AllAdded(a + [PadReport]) == AllAdded(a)
  {
    ThenAdded(a, PadReport);
  }

  lemma TouchFrontAdded(o: Options)
    requires o.Touch? && Accepted(o)
    ensures AllAdded(Head(o.reportId, PAGE_DIGITIZERS, o.applicationUsage) + MaximumFeature(o)
                     + ContactsCalls(o, o.contactsPerReport) + [PadReport]) == ContactsParts(o, o.contactsPerReport)
  {
    hide AllAdded, Head, ValidField, ContactsCalls, ContactsParts, MaximumFeature;
    var a := Head(o.reportId, PAGE_DIGITIZERS, o.applicationUsage);
    HeadAdded(o.reportId, PAGE_DIGITIZERS, o.applicationUsage);
    FeatureAdded(o, a);
    ContactsAdded(o, o.contactsPerReport);
    AddedAppend(a + MaximumFeature(o), ContactsCalls(o, o.contactsPerReport));
    ThenPad(a + MaximumFeature(o) + ContactsCalls(o, o.contactsPerReport));
  }

  lemma TouchBackAdded(o: Options, a: seq<Op>)
    requires o.Touch? && Accepted(o)
    ensures AllAdded(a + Padded(Optional(PAGE_DIGITIZERS, 0x56, o.scanTime, false, ScanTime, 0))
                       + Calls([Declared(PAGE_DIGITIZERS, 0x54, o.contactCount, false, ContactCount, 0)])
                       + TouchButtons(o) + [PadReport])
            == AllAdded(a) + Maybe(ScanTime, 0, o.scanTime) + [Number(ContactCount, 0, o.contactCount)]
               + Bits(Buttons, o.buttonCount)
  {
    hide AllAdded, Bits, ValidField, Padded, Calls, Maybe, Optional, TouchButtons;
    ThenOptional(a, PAGE_DIGITIZERS, 0x56, o.scanTime, false, ScanTime, 0);
    var b := a + Padded(Optional(PAGE_DIGITIZERS, 0x56, o.scanTime, false, ScanTime, 0));
    var number := [Declared(PAGE_DIGITIZERS, 0x54, o.contactCount, false, ContactCount, 0)];
    WidthKept(o.contactCount);
    ThenVariables(b, number, [Number(ContactCount, 0, o.contactCount)]);
    TouchButtonsAdded(o, b + Calls(number));
    ThenPad(b + Calls(number) + TouchButtons(o));
  }

  lemma TouchAdded(o: Options)
    requires o.Touch? && Accepted(o)
    ensures AllAdded(TouchCalls(o)) == PartsOf(o)
  {
    hide AllAdded, Head, Bits, Padded, Calls, Maybe, Optional, ContactsCalls, ContactsParts, TouchButtons, Added,
         MaximumFeature, Number, Declared, Accepted;
    assert o.maximumContacts <= 16 by { FewContacts(o); }
    TouchFrontAdded(o);
    var a := Head(o.reportId, PAGE_DIGITIZERS, o.applicationUsage) + MaximumFeature(o)
             + ContactsCalls(o, o.contactsPerReport) + [PadReport];
    TouchBackAdded(o, a);
    ThenEnd(a + Padded(Optional(PAGE_DIGITIZERS, 0x56, o.scanTime, false, ScanTime, 0))
              + Calls([Declared(PAGE_DIGITIZERS, 0x54, o.contactCount, false, ContactCount, 0)])
              + TouchButtons(o) + [PadReport]);
  }

  lemma FewContacts(o: Options)
    requires o.Touch? && Accepted(o)
    ensures o.maximumContacts <= 16
  {
    hide ValidField;
  }

  lemma PenSwitchesAdded(o: Options, a: seq<Op>)
    requires o.Pen? && Accepted(o)
    ensures AllAdded(a + Padded(PenSwitches(o)))
            == AllAdded(a) + SwitchParts(o)
  {
    hide AllAdded, Padded, ValidField;
    ThenVariables(a, PenSwitches(o), SwitchParts(o));
  }

  lemma TiltAdded(o: Options, a: seq<Op>)
    requires o.Pen? && Accepted(o)
    ensures AllAdded(a + Padded(TiltVariables(o))) == AllAdded(a) + TiltParts(o)
  {
    hide AllAdded, Padded, ValidField;
    if o.tilt.Some? {
      WidthKept(o.tilt.value.0);
      WidthKept(o.tilt.value.1);
    }
    ThenVariables(a, TiltVariables(o), TiltParts(o));
  }

  function SwitchParts(o: Options): seq<Part>
    requires o.Pen?
  {
    (if o.eraser then [BitPart(Eraser, 0)] else []) + [BitPart(Tip, 0), BitPart(InRange, 0)]
    + Bits(Buttons, |o.barrels|)
  }

  lemma PenFrontAdded(o: Options)
    requires o.Pen? && Accepted(o)
    ensures AllAdded(Head(o.reportId, PAGE_DIGITIZERS, if o.direct then 0x02 else 0x01)
                     + [Begin(PHYSICAL, PAGE_DIGITIZERS, 0x20)] + Padded(PenSwitches(o))) == SwitchParts(o)
  {
    hide AllAdded, Head, ValidField, Padded, PenSwitches, SwitchParts;
    var usage: Uint16 := if o.direct then 0x02 else 0x01;
    var a := Head(o.reportId, PAGE_DIGITIZERS, usage);
    HeadAdded(o.reportId, PAGE_DIGITIZERS, usage);
    ThenAdded(a, Begin(PHYSICAL, PAGE_DIGITIZERS, 0x20));
    PenSwitchesAdded(o, a + [Begin(PHYSICAL, PAGE_DIGITIZERS, 0x20)]);
  }

  lemma PenListed(o: Options)
    requires o.Pen?
    ensures PartsOf(o) == SwitchParts(o) + [Number(X, 0, o.x), Number(Y, 0, o.y)] + Maybe(Pressure, 0, o.pressure)
                          + TiltParts(o) + Maybe(Twist, 0, o.twist)
  {
    hide Bits, Maybe, TiltParts;
  }

  lemma PenAdded(o: Options)
    requires o.Pen? && Accepted(o)
    ensures AllAdded(PenCalls(o)) == PartsOf(o)
  {
    hide AllAdded, Head, Added, ValidField, Padded, Maybe, Optional, PenSwitches, TiltVariables, TiltParts, SwitchParts,
         PartsOf, Number, Declared;
    PenListed(o);
    PenFrontAdded(o);
    var c := Head(o.reportId, PAGE_DIGITIZERS, if o.direct then 0x02 else 0x01)
             + [Begin(PHYSICAL, PAGE_DIGITIZERS, 0x20)] + Padded(PenSwitches(o));
    PlaceAdded(c, o.x, o.y, false, 0);
    var d := c + Padded([Declared(PAGE_GENERIC_DESKTOP, 0x30, o.x, false, X, 0),
                         Declared(PAGE_GENERIC_DESKTOP, 0x31, o.y, false, Y, 0)]);
    ThenOptional(d, PAGE_DIGITIZERS, 0x30, o.pressure, false, Pressure, 0);
    var e := d + Padded(Optional(PAGE_DIGITIZERS, 0x30, o.pressure, false, Pressure, 0));
    TiltAdded(o, e);
    var f := e + Padded(TiltVariables(o));
    ThenOptional(f, PAGE_DIGITIZERS, 0x41, o.twist, false, Twist, 0);
    var g := f + Padded(Optional(PAGE_DIGITIZERS, 0x41, o.twist, false, Twist, 0));
    ThenEnd(g);
    ThenEnd(g + [End]);
  }

  lemma BatteryAdded(o: Options)
    requires o.Battery? && Accepted(o)
    ensures AllAdded(BatteryCalls(o)) == PartsOf(o)
  {
    hide AllAdded, Head, Padded, ValidField, HasNullEncoding;
    var a := Head(o.reportId, PAGE_GENERIC_DEVICE, 0x01);
    HeadAdded(o.reportId, PAGE_GENERIC_DEVICE, 0x01);
    WidthKept(o.strength);
    var strength :=
      [Declared(PAGE_GENERIC_DEVICE, 0x20, o.strength, false, BatteryStrength, 0).(nullState := o.unknownState)];
    ThenVariables(a, strength, PartsOf(o));
    ThenAdded(a + Padded(strength), End);
  }

  lemma FactoryAdded(o: Options)
    requires Accepted(o)
    ensures AllAdded(CallsOf(o)) == PartsOf(o)
  {
    hide AllAdded, PartsOf, KeyboardCalls, MouseCalls, ToggleCalls, GamepadCalls, TouchCalls, PenCalls, BatteryCalls;
    match o
    case Keyboard(_, _, _) => KeyboardAdded(o);
    case Mouse(_, _, _, _, _, _) => MouseAdded(o);
    case Toggle(_, _, _, _, _) => ToggleAdded(o);
    case Gamepad(_, _, _, _, _) => GamepadAdded(o);
    case Touch(_, _, _, _, _, _, _, _, _, _, _, _, _, _, _, _) => TouchAdded(o);
    case Pen(_, _, _, _, _, _, _, _, _, _) => PenAdded(o);
    case Battery(_, _, _) => BatteryAdded(o);
  }

  /** A made Spec has exactly the fields of its profile, in order, and padding between them. */
  lemma SpecHasItsParts(o: Options)
    requires Accepted(o) && SpecVerdict(CallsOf(o)).Built?
    ensures Parts(SpecVerdict(CallsOf(o)).layout.fields) == PartsOf(o)
  {
    hide CallsOf, Run, SpecVerdict, Accepted, LayoutOf, AllAdded, PartsOf, ProperRun, Parts;
    FactoryResults.MadeSpec(o);
    FactoryAdded(o);
    RunParts(DESCRIPTOR_WIRE_MAXIMUM, CallsOf(o));
    LayoutKeepsFields(Run(NewBuild(true, DESCRIPTOR_WIRE_MAXIMUM), CallsOf(o)));
  }

  lemma LayoutKeepsFields(b: Build)
    ensures LayoutOf(b).fields == b.fields
  {
  }
}
