/** The layouts that the factories make contain exactly fields that the serializer knows how to fill. */
module SpecFields {
  import opened Common
  import opened BitField
  import opened DescriptorBuilder
  import opened BuilderFacts
  import opened GeneratedSpec
  import opened Factories
  import opened Serialization
  import FactoryResults

  /** The fields that a builder call adds are declared by the options. */
  predicate CallDeclares(o: Options, op: Op) {
    match op
    case AddVariable(v) => Declares(o, FieldOf(v, 0))
    case AddRange(_, low, high, width, semantic) =>
      forall i :: 0 <= i < RangeCount(low, high) ==> Declares(o, RangeField(semantic, 0, 0, width, i))
    case _ => true
  }

  predicate AllDeclare(o: Options, ops: seq<Op>) {
    forall op :: op in ops ==> CallDeclares(o, op)
  }

  predicate AllDeclared(o: Options, fields: seq<FieldLayout>) {
    forall k :: 0 <= k < |fields| ==> Declares(o, fields[k])
  }

  lemma OffsetIsFree(o: Options, f: FieldLayout, offset: nat)
    ensures Declares(o, f) == Declares(o, f.(bitOffset := offset))
  {
    hide HasNullEncoding;
  }

  lemma PaddingDeclared(o: Options, offset: nat, bits: nat)
    ensures Declares(o, PaddingField(offset, bits))
  {
  }

  lemma CallAddsDeclared(o: Options, b: Build, op: Op)
    requires Tidy(b) && b.good && Proper(b, op) && Apply(b, op).good && CallDeclares(o, op) && AllDeclared(o, b.fields)
    ensures AllDeclared(o, Apply(b, op).fields)
  {
    hide Tidy, InputAdded, Declares, ValueFits, BeginCollection, EndCollection, DecideReportId, EmitVariable, EmitRange,
         EmitPadding, EmitFeature, Later;
    match op
    case AddVariable(v) =>
      VariableEffect(b, v);
      OffsetIsFree(o, FieldOf(v, 0), b.inputBits);
      AppendDeclared(o, b, EmitVariable(b, v), [FieldOf(v, b.inputBits)], v.width);
    case AddRange(page, low, high, width, semantic) =>
      RangeEffect(b, page, low, high, width, semantic);
      var added := RangeFields(semantic, b.inputBits, RangeCount(low, high), width);
      forall k | 0 <= k < |added|
        ensures Declares(o, added[k])
      {
        OffsetIsFree(o, RangeField(semantic, 0, 0, width, k), b.inputBits + k * width);
      }
      AppendDeclared(o, b, EmitRange(b, page, low, high, width, semantic), added, RangeBits(low, high, width));
    case Padding(bits) => PadDeclared(o, b, bits);
    case PadReport => PadDeclared(o, b, PaddingBits(b.inputBits));
    case Feature(page, usage, minimum, maximum, width) => FeatureEffect(b, page, usage, minimum, maximum, width);
    case Begin(kind, page, usage) => BeginTidy(b, kind, page, usage);
    case End => EndTidy(b);
    case SetReportId(enabled, id) => DecideTidy(b, enabled, id);
  }

  lemma PadDeclared(o: Options, b: Build, bits: Uint16)
    requires Tidy(b) && b.good && bits <= 32 && EmitPadding(b, bits).good && AllDeclared(o, b.fields)
    ensures AllDeclared(o, EmitPadding(b, bits).fields)
  {
    hide Tidy, InputAdded, Declares, EmitPadding, Later;
    if bits == 0 {
      NoPadding(b);
    } else {
      PaddingEffect(b, bits);
      PaddingDeclared(o, b.inputBits, bits);
      AppendDeclared(o, b, EmitPadding(b, bits), [PaddingField(b.inputBits, bits)], bits);
    }
  }

  lemma AppendDeclared(o: Options, b: Build, r: Build, added: seq<FieldLayout>, bits: nat)
    requires AllDeclared(o, b.fields) && AllDeclared(o, added) && InputAdded(b, r, added, bits)
    ensures AllDeclared(o, r.fields)
  {
    hide Declares, Tiled;
  }

  lemma {:induction false} RunDeclares(o: Options, capacity: nat, ops: seq<Op>)
    requires ProperRun(NewBuild(true, capacity), ops) && Run(NewBuild(true, capacity), ops).good && AllDeclare(o, ops)
    ensures AllDeclared(o, Run(NewBuild(true, capacity), ops).fields)
  {
    hide Apply, Proper, Tidy, CallDeclares, Later;
    if |ops| == 0 {
    } else {
      var before, last := Run(NewBuild(true, capacity), ops[..|ops| - 1]), ops[|ops| - 1];
      RunTidy(capacity, ops[..|ops| - 1]);
      RunDeclares(o, capacity, ops[..|ops| - 1]);
      assert last in ops;
      CallAddsDeclared(o, before, last);
    }
  }

  // ----- What the factories declare --------------------------------------------------------------

  predicate VariablesDeclare(o: Options, vs: seq<Variable>) {
    forall k :: 0 <= k < |vs| ==> Declares(o, FieldOf(vs[k], 0))
  }

  lemma {:induction false} CallsDeclare(o: Options, vs: seq<Variable>)
    requires VariablesDeclare(o, vs)
    ensures AllDeclare(o, Calls(vs)) && AllDeclare(o, Padded(vs))
  {
    hide Declares;
    if |vs| == 0 {
    } else {
      CallsDeclare(o, vs[..|vs| - 1]);
    }
  }

  lemma KeyboardDeclares(o: Options)
    requires o.Keyboard? && Accepted(o)
    ensures AllDeclare(o, KeyboardCalls(o))
  {
    hide ValidReportId;
    var modifiers := AddRange(PAGE_KEYBOARD, 0xE0, 0xE7, 1, Modifier);
    var keys := AddRange(PAGE_KEYBOARD, o.usageMinimum, o.usageMaximum, 1, KeyBitmap);
    assert CallDeclares(o, modifiers) && CallDeclares(o, keys);
  }

  lemma MouseDeclares(o: Options)
    requires o.Mouse? && Accepted(o)
    ensures AllDeclare(o, MouseCalls(o))
  {
    hide ValidReportId, ValidField, Calls, Padded;
    var x := Declared(PAGE_GENERIC_DESKTOP, 0x30, o.x, true, X, 0);
    var y := Declared(PAGE_GENERIC_DESKTOP, 0x31, o.y, true, Y, 0);
    CallsDeclare(o, [x, y]);
    CallsDeclare(o, Optional(PAGE_GENERIC_DESKTOP, 0x38, o.wheel, true, Wheel, 0));
    CallsDeclare(o, Optional(PAGE_CONSUMER, 0x0238, o.pan, true, Pan, 0));
    assert CallDeclares(o, AddRange(PAGE_BUTTON, 1, o.buttonCount % 0x1_0000, 1, Buttons));
  }

  lemma ToggleDeclares(o: Options)
    requires o.Toggle? && Accepted(o)
    ensures AllDeclare(o, ToggleCalls(o))
  {
    hide ValidReportId, Calls, Padded;
    CallsDeclare(o, ControlVariables(o.fieldPage, o.controls));
  }

  lemma {:induction false} AxesDeclare(o: Options, axes: seq<Axis>)
    requires o.Gamepad? && Accepted(o) && axes <= o.axes
    ensures AllDeclare(o, AxisCalls(axes))
  {
    hide ValidReportId, ValidField, Calls, Padded;
    if |axes| == 0 {
    } else {
      AxesDeclare(o, axes[..|axes| - 1]);
      var last := axes[|axes| - 1];
      CallsDeclare(o, [Declared(last.page, last.usage, last.value, false, GamepadAxis, |axes| - 1)]);
    }
  }

  lemma GamepadDeclares(o: Options)
    requires o.Gamepad? && Accepted(o)
    ensures AllDeclare(o, GamepadCalls(o))
  {
    hide ValidReportId, AcceptedAxis, Calls, Padded, AxisCalls, ValueFits, HasNullEncoding;
    FactoryResults.HatFits();
    CallsDeclare(o, DPadVariables(o));
    AxesDeclare(o, o.axes);
    assert CallDeclares(o, AddRange(PAGE_BUTTON, o.buttonUsageMinimum, o.buttonUsageMinimum + o.buttonCount - 1, 1,
                                    Buttons));
  }

  lemma OptionalDeclares(o: Options, page: Uint16, usage: Uint16, f: Option<IntegerField>, relative: bool,
                         semantic: FieldSemantic, instance: nat)
    requires f.Some? ==> Declares(o, FieldOf(Declared(page, usage, f.value, relative, semantic, instance), 0))
    ensures AllDeclare(o, Calls(Optional(page, usage, f, relative, semantic, instance)))
    ensures AllDeclare(o, Padded(Optional(page, usage, f, relative, semantic, instance)))
  {
    hide Declares, Calls, Padded;
    CallsDeclare(o, Optional(page, usage, f, relative, semantic, instance));
  }

  /** The identity and place of a contact. */
  lemma PositionDeclares(o: Options, slot: nat)
    requires o.Touch? && Accepted(o) && slot < o.contactsPerReport
    ensures AllDeclare(o, Padded([Declared(PAGE_DIGITIZERS, 0x51, o.contactIdentifier, false, ContactId, slot),
                                  Declared(PAGE_GENERIC_DESKTOP, 0x30, o.x, false, X, slot),
                                  Declared(PAGE_GENERIC_DESKTOP, 0x31, o.y, false, Y, slot)]))
  {
    hide ValidReportId, ValidField, Calls, Padded;
    CallsDeclare(o, [Declared(PAGE_DIGITIZERS, 0x51, o.contactIdentifier, false, ContactId, slot),
                     Declared(PAGE_GENERIC_DESKTOP, 0x30, o.x, false, X, slot),
                     Declared(PAGE_GENERIC_DESKTOP, 0x31, o.y, false, Y, slot)]);
  }

  lemma ContactDeclares(o: Options, slot: nat)
    requires o.Touch? && Accepted(o) && slot < o.contactsPerReport
    ensures AllDeclare(o, ContactCalls(o, slot))
  {
    hide Accepted, Declares, Calls, Padded, Optional;
    TipDeclares(o, slot);
    PositionDeclares(o, slot);
    ExtrasDeclare(o, slot);
  }

  lemma TipDeclares(o: Options, slot: nat)
    requires o.Touch? && Accepted(o) && slot < o.contactsPerReport
    ensures AllDeclare(o, Padded([Switch(PAGE_DIGITIZERS, 0x42, Tip, slot)]))
  {
    hide ValidReportId, ValidField, Calls, Padded;
    CallsDeclare(o, [Switch(PAGE_DIGITIZERS, 0x42, Tip, slot)]);
  }

  lemma ExtrasDeclare(o: Options, slot: nat)
    requires o.Touch? && Accepted(o) && slot < o.contactsPerReport
    ensures AllDeclare(o, Padded(Optional(PAGE_DIGITIZERS, 0x30, o.pressure, false, Pressure, slot)))
    ensures AllDeclare(o, Padded(Optional(PAGE_DIGITIZERS, 0x48, o.width, false, Width, slot)))
    ensures AllDeclare(o, Padded(Optional(PAGE_DIGITIZERS, 0x49, o.height, false, Height, slot)))
    ensures AllDeclare(o, Calls(Optional(PAGE_DIGITIZERS, 0x3F, o.azimuth, false, Azimuth, slot)))
  {
    hide ValidReportId, ValidField, Calls, Padded, Optional;
    OptionalDeclares(o, PAGE_DIGITIZERS, 0x30, o.pressure, false, Pressure, slot);
    OptionalDeclares(o, PAGE_DIGITIZERS, 0x48, o.width, false, Width, slot);
    OptionalDeclares(o, PAGE_DIGITIZERS, 0x49, o.height, false, Height, slot);
    OptionalDeclares(o, PAGE_DIGITIZERS, 0x3F, o.azimuth, false, Azimuth, slot);
  }

  lemma {:induction false} ContactsDeclare(o: Options, slots: nat)
    requires o.Touch? && Accepted(o) && slots <= o.contactsPerReport
    ensures AllDeclare(o, ContactsCalls(o, slots))
  {
    hide Accepted, ContactCalls, CallDeclares;
    if slots == 0 {
    } else {
      ContactsDeclare(o, slots - 1);
      ContactDeclares(o, slots - 1);
    }
  }

  lemma TouchDeclares(o: Options)
    requires o.Touch? && Accepted(o)
    ensures AllDeclare(o, TouchCalls(o))
  {
    hide ValidReportId, ValidField, Calls, Padded, Optional, ContactsCalls;
    ContactsDeclare(o, o.contactsPerReport);
    OptionalDeclares(o, PAGE_DIGITIZERS, 0x56, o.scanTime, false, ScanTime, 0);
    CallsDeclare(o, [Declared(PAGE_DIGITIZERS, 0x54, o.contactCount, false, ContactCount, 0)]);
    if o.buttonCount > 0 {
      assert CallDeclares(o, AddRange(PAGE_BUTTON, 1, o.buttonCount % 0x1_0000, 1, Buttons));
    }
  }

  lemma PenDeclares(o: Options)
    requires o.Pen? && Accepted(o)
    ensures AllDeclare(o, PenCalls(o))
  {
    hide ValidReportId, ValidField, Calls, Padded, Optional;
    CallsDeclare(o, PenSwitches(o));
    CallsDeclare(o, [Declared(PAGE_GENERIC_DESKTOP, 0x30, o.x, false, X, 0),
                     Declared(PAGE_GENERIC_DESKTOP, 0x31, o.y, false, Y, 0)]);
    OptionalDeclares(o, PAGE_DIGITIZERS, 0x30, o.pressure, false, Pressure, 0);
    CallsDeclare(o, TiltVariables(o));
    OptionalDeclares(o, PAGE_DIGITIZERS, 0x41, o.twist, false, Twist, 0);
  }

  lemma BatteryDeclares(o: Options)
    requires o.Battery? && Accepted(o)
    ensures AllDeclare(o, BatteryCalls(o))
  {
    hide ValidReportId, Calls, Padded, HasNullEncoding, ValueFits;
    WidthKept(o.strength);
    CallsDeclare(o, [Declared(PAGE_GENERIC_DEVICE, 0x20, o.strength, false, BatteryStrength,
                              0).(nullState := o.unknownState)]);
  }

  lemma FactoryDeclares(o: Options)
    requires Accepted(o)
    ensures AllDeclare(o, CallsOf(o))
  {
    hide AllDeclare, KeyboardCalls, MouseCalls, ToggleCalls, GamepadCalls, TouchCalls, PenCalls, BatteryCalls;
    match o
    case Keyboard(_, _, _) => KeyboardDeclares(o);
    case Mouse(_, _, _, _, _, _) => MouseDeclares(o);
    case Toggle(_, _, _, _, _) => ToggleDeclares(o);
    case Gamepad(_, _, _, _, _) => GamepadDeclares(o);
    case Touch(_, _, _, _, _, _, _, _, _, _, _, _, _, _, _, _) => TouchDeclares(o);
    case Pen(_, _, _, _, _, _, _, _, _, _) => PenDeclares(o);
    case Battery(_, _, _) => BatteryDeclares(o);
  }

  /** Every made Spec has a layout that the serializer can fill. */
  lemma MadeSpecOk(o: Options)
    requires Accepted(o) && SpecVerdict(CallsOf(o)).Built?
    ensures SpecOk(o, SpecVerdict(CallsOf(o)).layout)
  {
    hide CallsOf, SpecVerdict, Run, Declares, Accepted, ProperRun, FourByteRule, TiledAt;
    FactoryResults.MadeSpec(o);
    FactoryDeclares(o);
    RunDeclares(o, DESCRIPTOR_WIRE_MAXIMUM, CallsOf(o));
  }
}
