/** What becomes of every accepted option set. */
module FactoryResults {
  import opened Common
  import opened BitField
  import opened HidItems
  import opened HidWalk
  import opened GeneratedCheck
  import opened DescriptorBuilder
  import opened BuilderFacts
  import opened GeneratedSpec
  import opened Sketch
  import opened Factories
  import BitMath
  import GeneratedAgreement
  import RawAgreement
  import RawCheck
  import ReportReader

  /**
   * The widths for which no field touches a fifth byte. Buttons, axes and lone fields start on a byte
   * boundary and always fit; only fields placed behind another one in the same group can fail.
   */
  predicate KeepsRule(o: Options) {
    match o
    case Mouse(_, x, y, _, _, _) => x.width % 8 + y.width <= 32
    case Touch(_, _, _, _, id, x, y, _, _, _, _, _, _, _, _, _) =>
      id.width % 8 + x.width <= 32 && (id.width + x.width) % 8 + y.width <= 32
    case Pen(_, _, x, y, _, tilt, _, _, _, _) =>
      x.width % 8 + y.width <= 32 && (tilt.Some? ==> tilt.value.0.width % 8 + tilt.value.1.width <= 32)
    case _ => true
  }

  /** The outline of a finished, proper list of calls. */
  predicate Finishes(s: Outline, o: Options) {
    && s.sound && s.depth == 0 && s.top && s.data && s.offset % 8 == 0 && s.offset > 0 && (s.keeps <==> KeepsRule(o))
    && (s.featured <==> o.Touch? && o.declareMaximum)
  }

  // ----- Single calls ----------------------------------------------------------------------------

  lemma HeadDrawn(id: ReportIdOption, page: Uint16, usage: Uint16)
    requires ValidReportId(id)
    ensures var s := DrawAll(BLANK, Head(id, page, usage));
            Open(s) && s.depth == 1 && s.top && !s.featured && !s.data && s.keeps && s.offset % 8 == 0
  {
    var first := Begin(APPLICATION, page, usage);
    assert [first][..0] == [];
    DrawSnoc(BLANK, [first], SetReportId(id.enabled == 1, id.value));
  }

  lemma RangeDrawn(s: Outline, page: Uint16, low: Uint16, high: Uint16, semantic: FieldSemantic)
    requires Open(s) && low <= high && semantic != ConstantPadding
    ensures var r := Draw(s, AddRange(page, low, high, 1, semantic));
            Inside(s, r) && r.data && r.offset > s.offset && r.keeps == s.keeps
  {
  }

  lemma BeginDrawn(s: Outline, kind: nat, page: Uint16, usage: Uint16)
    requires Open(s) && kind in {PHYSICAL, LOGICAL}
    ensures Draw(s, Begin(kind, page, usage)) == s.(depth := s.depth + 1)
  {
  }

  lemma EndDrawn(s: Outline)
    requires s.sound && s.depth > 0
    ensures Draw(s, End) == s.(depth := s.depth - 1)
  {
  }

  /** A declared field of an accepted option can be emitted, and its width is kept. */
  lemma DeclaredEmittable(page: Uint16, usage: Uint16, f: IntegerField, relative: bool, semantic: FieldSemantic,
                          instance: nat)
    requires ValidField(f) && semantic != ConstantPadding
    ensures Emittable(Declared(page, usage, f, relative, semantic, instance))
    ensures Declared(page, usage, f, relative, semantic, instance).width == f.width <= 32
  {
    hide PhysicalIsZero, PhysicalIsEnabled, ValueFits;
    FittingWidth(f.minimum, f.maximum, f.width);
  }

  lemma SwitchEmittable(page: Uint16, usage: Uint16, semantic: FieldSemantic, instance: nat, relative: bool,
                        noPreferred: bool)
    requires semantic != ConstantPadding
    ensures Emittable(Switch(page, usage, semantic, instance).(relative := relative, noPreferred := noPreferred))
  {
    UnitRangeFits(1);
  }

  /** One optional field, or none, from a byte boundary. */
  lemma OptionalDrawn(s: Outline, page: Uint16, usage: Uint16, f: Option<IntegerField>, relative: bool,
                      semantic: FieldSemantic, instance: nat)
    requires Open(s) && s.offset % 8 == 0 && semantic != ConstantPadding && (f.Some? ==> ValidField(f.value))
    ensures var r := DrawAll(s, Padded(Optional(page, usage, f, relative, semantic, instance)));
            Inside(s, r) && r.offset % 8 == 0 && r.keeps == s.keeps
    ensures var r := DrawAll(s, Calls(Optional(page, usage, f, relative, semantic, instance)));
            Inside(s, r) && r.keeps == s.keeps
  {
    hide ValidField, Emittable, Draw, DrawAll, Declared, Packed;
    var vs := Optional(page, usage, f, relative, semantic, instance);
    if f.Some? {
      DeclaredEmittable(page, usage, f.value, relative, semantic, instance);
      PackedOne(s.offset % 8, vs[0]);
    } else {
      SwitchesPacked(s.offset % 8, vs);
    }
    PaddedDrawn(s, vs);
    CallsDrawn(s, vs);
  }

  /** An optional field at the end of calls that end at a byte boundary inside `start`. */
  lemma OptionalAfter(start: Outline, s: Outline, ops: seq<Op>, page: Uint16, usage: Uint16, f: Option<IntegerField>,
                      relative: bool,
                      semantic: FieldSemantic, instance: nat)
    requires Inside(start, DrawAll(s, ops)) && DrawAll(s, ops).offset % 8 == 0
    requires semantic != ConstantPadding && (f.Some? ==> ValidField(f.value))
    ensures var r := DrawAll(s, ops + Padded(Optional(page, usage, f, relative, semantic, instance)));
            Inside(start, r) && r.offset % 8 == 0 && r.keeps == DrawAll(s, ops).keeps
    ensures var r := DrawAll(s, ops + Calls(Optional(page, usage, f, relative, semantic, instance)));
            Inside(start, r) && r.keeps == DrawAll(s, ops).keeps
  {
    hide ValidField, Draw, DrawAll, Declared, Padded, Calls, Optional;
    DrawAppend(s, ops, Padded(Optional(page, usage, f, relative, semantic, instance)));
    DrawAppend(s, ops, Calls(Optional(page, usage, f, relative, semantic, instance)));
    OptionalDrawn(DrawAll(s, ops), page, usage, f, relative, semantic, instance);
  }

  // ----- The profiles ----------------------------------------------------------------------------

  lemma KeyboardOutline(o: Options)
    requires o.Keyboard? && Accepted(o)
    ensures Finishes(DrawAll(BLANK, KeyboardCalls(o)), o)
  {
    hide Draw, DrawAll, Head;
    var head := Head(o.reportId, PAGE_GENERIC_DESKTOP, 0x06);
    var modifiers := AddRange(PAGE_KEYBOARD, 0xE0, 0xE7, 1, Modifier);
    var keys := AddRange(PAGE_KEYBOARD, o.usageMinimum, o.usageMaximum, 1, KeyBitmap);
    HeadDrawn(o.reportId, PAGE_GENERIC_DESKTOP, 0x06);
    DrawSnoc(BLANK, head, modifiers);
    RangeDrawn(DrawAll(BLANK, head), PAGE_KEYBOARD, 0xE0, 0xE7, Modifier);
    DrawSnoc(BLANK, head + [modifiers], keys);
    RangeDrawn(DrawAll(BLANK, head + [modifiers]), PAGE_KEYBOARD, o.usageMinimum, o.usageMaximum, KeyBitmap);
    DrawSnoc(BLANK, head + [modifiers] + [keys], PadReport);
    PadDrawn(DrawAll(BLANK, head + [modifiers] + [keys]));
    DrawSnoc(BLANK, head + [modifiers] + [keys] + [PadReport], End);
    EndDrawn(DrawAll(BLANK, head + [modifiers] + [keys] + [PadReport]));
  }

  lemma MouseOutline(o: Options)
    requires o.Mouse? && Accepted(o)
    ensures Finishes(DrawAll(BLANK, MouseCalls(o)), o)
  {
    hide Draw, DrawAll, Head, Padded, Optional, Declared, ValidField, Emittable, Packed;
    var a := Head(o.reportId, PAGE_GENERIC_DESKTOP, 0x02);
    HeadDrawn(o.reportId, PAGE_GENERIC_DESKTOP, 0x02);
    var b := a + [Begin(PHYSICAL, PAGE_GENERIC_DESKTOP, 0x01)];
    DrawSnoc(BLANK, a, Begin(PHYSICAL, PAGE_GENERIC_DESKTOP, 0x01));
    BeginDrawn(DrawAll(BLANK, a), PHYSICAL, PAGE_GENERIC_DESKTOP, 0x01);
    var buttons := AddRange(PAGE_BUTTON, 1, o.buttonCount % 0x1_0000, 1, Buttons);
    DrawSnoc(BLANK, b, buttons);
    RangeDrawn(DrawAll(BLANK, b), PAGE_BUTTON, 1, o.buttonCount % 0x1_0000, Buttons);
    DrawSnoc(BLANK, b + [buttons], PadReport);
    PadDrawn(DrawAll(BLANK, b + [buttons]));
    var c := b + [buttons] + [PadReport];
    var x := Declared(PAGE_GENERIC_DESKTOP, 0x30, o.x, true, X, 0);
    var y := Declared(PAGE_GENERIC_DESKTOP, 0x31, o.y, true, Y, 0);
    DeclaredEmittable(PAGE_GENERIC_DESKTOP, 0x30, o.x, true, X, 0);
    DeclaredEmittable(PAGE_GENERIC_DESKTOP, 0x31, o.y, true, Y, 0);
    DrawAppend(BLANK, c, Padded([x, y]));
    PaddedDrawn(DrawAll(BLANK, c), [x, y]);
    PackedTwo(0, x, y);
    MouseTail(o, DrawAll(BLANK, c), c + Padded([x, y]));
  }

  lemma MouseTail(o: Options, start: Outline, d: seq<Op>)
    requires o.Mouse? && Accepted(o) && Inside(start, DrawAll(BLANK, d)) && DrawAll(BLANK, d).offset % 8 == 0
    requires start.depth == 2 && start.top && start.data && !start.featured && start.offset > 0
    requires DrawAll(BLANK, d).keeps <==> KeepsRule(o)
    ensures Finishes(DrawAll(BLANK, d + Padded(Optional(PAGE_GENERIC_DESKTOP, 0x38, o.wheel, true, Wheel, 0))
                                    + Padded(Optional(PAGE_CONSUMER, 0x0238, o.pan, true, Pan, 0)) + [End] + [End]), o)
  {
    hide Draw, DrawAll, Padded, Optional, ValidField, KeepsRule;
    OptionalAfter(start, BLANK, d, PAGE_GENERIC_DESKTOP, 0x38, o.wheel, true, Wheel, 0);
    var e := d + Padded(Optional(PAGE_GENERIC_DESKTOP, 0x38, o.wheel, true, Wheel, 0));
    OptionalAfter(start, BLANK, e, PAGE_CONSUMER, 0x0238, o.pan, true, Pan, 0);
    TwoEnds(e + Padded(Optional(PAGE_CONSUMER, 0x0238, o.pan, true, Pan, 0)));
  }

  /** Closing the two collections of a mouse or a pen. */
  lemma TwoEnds(ops: seq<Op>)
    requires DrawAll(BLANK, ops).sound && DrawAll(BLANK, ops).depth == 2
    ensures DrawAll(BLANK, ops + [End] + [End]) == DrawAll(BLANK, ops).(depth := 0)
  {
    hide DrawAll, Draw;
    DrawSnoc(BLANK, ops, End);
    EndDrawn(DrawAll(BLANK, ops));
    DrawSnoc(BLANK, ops + [End], End);
    EndDrawn(DrawAll(BLANK, ops + [End]));
  }

  lemma OneEnd(ops: seq<Op>)
    requires DrawAll(BLANK, ops).sound && DrawAll(BLANK, ops).depth == 1
    ensures DrawAll(BLANK, ops + [End]) == DrawAll(BLANK, ops).(depth := 0)
  {
    hide DrawAll, Draw;
    DrawSnoc(BLANK, ops, End);
    EndDrawn(DrawAll(BLANK, ops));
  }

  lemma ToggleOutline(o: Options)
    requires o.Toggle? && Accepted(o)
    ensures Finishes(DrawAll(BLANK, ToggleCalls(o)), o)
  {
    hide Draw, DrawAll, Head, Padded, Emittable, Packed;
    var head := Head(o.reportId, o.applicationPage, o.applicationUsage);
    var vs := ControlVariables(o.fieldPage, o.controls);
    HeadDrawn(o.reportId, o.applicationPage, o.applicationUsage);
    forall k | 0 <= k < |vs|
      ensures Emittable(vs[k]) && vs[k].width == 1
    {
      var c := o.controls[k];
      SwitchEmittable(o.fieldPage, c.usage, ConsumerUsage, k, c.semantic.OnOffToggle? || c.semantic.OneShot?,
                      c.semantic.OnOffMaintained?);
    }
    DrawAppend(BLANK, head, Padded(vs));
    PaddedDrawn(DrawAll(BLANK, head), vs);
    SwitchesPacked(0, vs);
    OneEnd(head + Padded(vs));
  }

  lemma DPadDrawn(s: Outline, o: Options)
    requires Open(s) && s.offset % 8 == 0 && o.Gamepad?
    ensures var r := DrawAll(s, Padded(DPadVariables(o)));
            Inside(s, r) && r.offset % 8 == 0 && r.keeps == s.keeps
  {
    hide Draw, DrawAll, Padded, Packed;
    var vs := DPadVariables(o);
    forall k | 0 <= k < |vs|
      ensures Emittable(vs[k])
    {
      UnitRangeFits(1);
      HatFits();
    }
    PaddedDrawn(s, vs);
    if o.dpad.HatDPad? {
      PackedOne(0, vs[0]);
    } else {
      SwitchesPacked(0, vs);
    }
  }

  lemma HatFits()
    ensures ValueFits(0, 7, 4) && HasNullEncoding(0, 7, 4) && PhysicalIsEnabled(HAT_DEGREES)
  {
    assert 0x14 % 16 == 4;
  }

  lemma {:induction false} AxesDrawn(s: Outline, axes: seq<Axis>)
    requires Open(s) && s.offset % 8 == 0 && forall k :: 0 <= k < |axes| ==> AcceptedAxis(axes[k])
    ensures var r := DrawAll(s, AxisCalls(axes)); Inside(s, r) && r.offset % 8 == 0 && r.keeps == s.keeps
  {
    hide Draw, Padded, Packed, Emittable, Declared;
    if |axes| == 0 {
    } else {
      var shorter, last := axes[..|axes| - 1], axes[|axes| - 1];
      AxesDrawn(s, shorter);
      var v := Declared(last.page, last.usage, last.value, false, GamepadAxis, |axes| - 1);
      DeclaredEmittable(last.page, last.usage, last.value, false, GamepadAxis, |axes| - 1);
      DrawAppend(s, AxisCalls(shorter), Padded([v]));
      PaddedDrawn(DrawAll(s, AxisCalls(shorter)), [v]);
      PackedOne(0, v);
    }
  }

  lemma GamepadOutline(o: Options)
    requires o.Gamepad? && Accepted(o)
    ensures Finishes(DrawAll(BLANK, GamepadCalls(o)), o)
  {
    hide Draw, DrawAll, Head, Padded, DPadVariables, AxisCalls, AcceptedAxis;
    var a := Head(o.reportId, PAGE_GENERIC_DESKTOP, 0x05);
    var last := o.buttonUsageMinimum + o.buttonCount - 1;
    var buttons := AddRange(PAGE_BUTTON, o.buttonUsageMinimum, last, 1, Buttons);
    HeadDrawn(o.reportId, PAGE_GENERIC_DESKTOP, 0x05);
    DrawSnoc(BLANK, a, buttons);
    RangeDrawn(DrawAll(BLANK, a), PAGE_BUTTON, o.buttonUsageMinimum, last, Buttons);
    DrawSnoc(BLANK, a + [buttons], PadReport);
    PadDrawn(DrawAll(BLANK, a + [buttons]));
    var b := a + [buttons] + [PadReport];
    DrawAppend(BLANK, b, Padded(DPadVariables(o)));
    DPadDrawn(DrawAll(BLANK, b), o);
    var c := b + Padded(DPadVariables(o));
    DrawAppend(BLANK, c, AxisCalls(o.axes));
    AxesDrawn(DrawAll(BLANK, c), o.axes);
    var d := c + AxisCalls(o.axes);
    DrawSnoc(BLANK, d, PadReport);
    PadDrawn(DrawAll(BLANK, d));
    OneEnd(d + [PadReport]);
  }

  lemma BatteryOutline(o: Options)
    requires o.Battery? && Accepted(o)
    ensures Finishes(DrawAll(BLANK, BatteryCalls(o)), o)
  {
    hide Draw, DrawAll, Head, Padded, Packed, ValidField;
    var head := Head(o.reportId, PAGE_GENERIC_DEVICE, 0x01);
    var plain := Declared(PAGE_GENERIC_DEVICE, 0x20, o.strength, false, BatteryStrength, 0);
    var v := plain.(nullState := o.unknownState);
    HeadDrawn(o.reportId, PAGE_GENERIC_DEVICE, 0x01);
    DeclaredEmittable(PAGE_GENERIC_DEVICE, 0x20, o.strength, false, BatteryStrength, 0);
    DrawAppend(BLANK, head, Padded([v]));
    PaddedDrawn(DrawAll(BLANK, head), [v]);
    PackedOne(0, v);
    OneEnd(head + Padded([v]));
  }

  lemma PenSwitchesEmittable(o: Options)
    requires o.Pen?
    ensures forall k :: 0 <= k < |PenSwitches(o)| ==> Emittable(PenSwitches(o)[k]) && PenSwitches(o)[k].width == 1
  {
    hide Emittable;
    var vs := PenSwitches(o);
    forall k | 0 <= k < |vs|
      ensures Emittable(vs[k]) && vs[k].width == 1
    {
      SwitchEmittable(vs[k].page, vs[k].usage, vs[k].semantic, vs[k].instance, false, false);
    }
  }

  lemma TiltDrawn(s: Outline, o: Options)
    requires Open(s) && s.offset % 8 == 0 && o.Pen? && Accepted(o)
    ensures var r := DrawAll(s, Padded(TiltVariables(o)));
            && Inside(s, r) && r.offset % 8 == 0
            && (r.keeps <==> s.keeps && (o.tilt.Some? ==> o.tilt.value.0.width % 8 + o.tilt.value.1.width <= 32))
  {
    hide Draw, DrawAll, Padded, Packed, Declared, ValidField, Emittable;
    var vs := TiltVariables(o);
    if o.tilt.Some? {
      DeclaredEmittable(PAGE_DIGITIZERS, 0x3D, o.tilt.value.0, false, TiltX, 0);
      DeclaredEmittable(PAGE_DIGITIZERS, 0x3E, o.tilt.value.1, false, TiltY, 0);
      PackedTwo(0, vs[0], vs[1]);
    } else {
      SwitchesPacked(0, vs);
    }
    PaddedDrawn(s, vs);
  }

  lemma PenOutline(o: Options)
    requires o.Pen? && Accepted(o)
    ensures Finishes(DrawAll(BLANK, PenCalls(o)), o)
  {
    hide Draw, DrawAll, Head, Padded, Optional, Declared, ValidField, Emittable, Packed, PenSwitches, TiltVariables;
    var application: Uint16 := if o.direct then 0x02 else 0x01;
    var a := Head(o.reportId, PAGE_DIGITIZERS, application);
    HeadDrawn(o.reportId, PAGE_DIGITIZERS, application);
    var b := a + [Begin(PHYSICAL, PAGE_DIGITIZERS, 0x20)];
    DrawSnoc(BLANK, a, Begin(PHYSICAL, PAGE_DIGITIZERS, 0x20));
    BeginDrawn(DrawAll(BLANK, a), PHYSICAL, PAGE_DIGITIZERS, 0x20);
    DrawAppend(BLANK, b, Padded(PenSwitches(o)));
    PenSwitchesEmittable(o);
    SwitchesPacked(0, PenSwitches(o));
    PaddedDrawn(DrawAll(BLANK, b), PenSwitches(o));
    var c := b + Padded(PenSwitches(o));
    var x := Declared(PAGE_GENERIC_DESKTOP, 0x30, o.x, false, X, 0);
    var y := Declared(PAGE_GENERIC_DESKTOP, 0x31, o.y, false, Y, 0);
    DeclaredEmittable(PAGE_GENERIC_DESKTOP, 0x30, o.x, false, X, 0);
    DeclaredEmittable(PAGE_GENERIC_DESKTOP, 0x31, o.y, false, Y, 0);
    DrawAppend(BLANK, c, Padded([x, y]));
    PaddedDrawn(DrawAll(BLANK, c), [x, y]);
    PackedTwo(0, x, y);
    PenTail(o, DrawAll(BLANK, c + Padded([x, y])), c + Padded([x, y]));
  }

  lemma PenTail(o: Options, start: Outline, d: seq<Op>)
    requires o.Pen? && Accepted(o) && Inside(start, DrawAll(BLANK, d)) && DrawAll(BLANK, d).offset % 8 == 0
    requires start.depth == 2 && start.top && start.data && !start.featured && start.offset > 0
    requires DrawAll(BLANK, d).keeps <==> o.x.width % 8 + o.y.width <= 32
    ensures Finishes(DrawAll(BLANK, d + Padded(Optional(PAGE_DIGITIZERS, 0x30, o.pressure, false, Pressure, 0))
                             + Padded(TiltVariables(o))
                                    + Padded(Optional(PAGE_DIGITIZERS, 0x41, o.twist, false, Twist, 0)) + [End]
                                        + [End]), o)
  {
    hide Draw, DrawAll, Padded, Optional, ValidField, TiltVariables;
    OptionalAfter(start, BLANK, d, PAGE_DIGITIZERS, 0x30, o.pressure, false, Pressure, 0);
    var e := d + Padded(Optional(PAGE_DIGITIZERS, 0x30, o.pressure, false, Pressure, 0));
    DrawAppend(BLANK, e, Padded(TiltVariables(o)));
    TiltDrawn(DrawAll(BLANK, e), o);
    var f := e + Padded(TiltVariables(o));
    OptionalAfter(start, BLANK, f, PAGE_DIGITIZERS, 0x41, o.twist, false, Twist, 0);
    TwoEnds(f + Padded(Optional(PAGE_DIGITIZERS, 0x41, o.twist, false, Twist, 0)));
  }

  /** Contact Identifier, X and Y share a group. */
  lemma PositionDrawn(s: Outline, o: Options, slot: nat)
    requires Open(s) && s.offset % 8 == 0 && o.Touch? && Accepted(o)
    ensures var id := Declared(PAGE_DIGITIZERS, 0x51, o.contactIdentifier, false, ContactId, slot);
            var x := Declared(PAGE_GENERIC_DESKTOP, 0x30, o.x, false, X, slot);
            var y := Declared(PAGE_GENERIC_DESKTOP, 0x31, o.y, false, Y, slot);
            var r := DrawAll(s, Padded([id, x, y]));
            Inside(s, r) && r.offset % 8 == 0 && (r.keeps <==> s.keeps && KeepsRule(o))
  {
    hide Draw, DrawAll, Padded, Packed, Declared, ValidField, Emittable;
    var id := Declared(PAGE_DIGITIZERS, 0x51, o.contactIdentifier, false, ContactId, slot);
    var x := Declared(PAGE_GENERIC_DESKTOP, 0x30, o.x, false, X, slot);
    var y := Declared(PAGE_GENERIC_DESKTOP, 0x31, o.y, false, Y, slot);
    DeclaredEmittable(PAGE_DIGITIZERS, 0x51, o.contactIdentifier, false, ContactId, slot);
    DeclaredEmittable(PAGE_GENERIC_DESKTOP, 0x30, o.x, false, X, slot);
    DeclaredEmittable(PAGE_GENERIC_DESKTOP, 0x31, o.y, false, Y, slot);
    PaddedDrawn(s, [id, x, y]);
    PackedThree(0, id, x, y);
  }

  /** The first groups of a contact: the Tip Switch, and its identity and place. */
  lemma ContactHeadDrawn(s: Outline, o: Options, slot: nat)
    requires Open(s) && o.Touch? && Accepted(o)
    ensures var id := Declared(PAGE_DIGITIZERS, 0x51, o.contactIdentifier, false, ContactId, slot);
            var x := Declared(PAGE_GENERIC_DESKTOP, 0x30, o.x, false, X, slot);
            var y := Declared(PAGE_GENERIC_DESKTOP, 0x31, o.y, false, Y, slot);
            var r := DrawAll(s, [Begin(LOGICAL, PAGE_DIGITIZERS, 0x22)]
                             + Padded([Switch(PAGE_DIGITIZERS, 0x42, Tip, slot)])
                                + Padded([id, x, y]));
            Inside(DrawAll(s, [Begin(LOGICAL, PAGE_DIGITIZERS, 0x22)]), r)
                && Open(DrawAll(s, [Begin(LOGICAL, PAGE_DIGITIZERS, 0x22)]))
            && DrawAll(s, [Begin(LOGICAL, PAGE_DIGITIZERS, 0x22)]) == Draw(s, Begin(LOGICAL, PAGE_DIGITIZERS, 0x22))
            && r.offset % 8 == 0 && (r.keeps <==> s.keeps && KeepsRule(o))
  {
    hide Draw, DrawAll, Padded, Declared, ValidField, Emittable, Packed, KeepsRule;
    var begin := Begin(LOGICAL, PAGE_DIGITIZERS, 0x22);
    var tip := Switch(PAGE_DIGITIZERS, 0x42, Tip, slot);
    var id := Declared(PAGE_DIGITIZERS, 0x51, o.contactIdentifier, false, ContactId, slot);
    var x := Declared(PAGE_GENERIC_DESKTOP, 0x30, o.x, false, X, slot);
    var y := Declared(PAGE_GENERIC_DESKTOP, 0x31, o.y, false, Y, slot);
    var a := [begin];
    SingleDrawn(s, begin);
    BeginDrawn(s, LOGICAL, PAGE_DIGITIZERS, 0x22);
    DrawAppend(s, a, Padded([tip]));
    SwitchEmittable(PAGE_DIGITIZERS, 0x42, Tip, slot, false, false);
    PaddedDrawn(DrawAll(s, a), [tip]);
    SwitchesPacked(DrawAll(s, a).offset % 8, [tip]);
    var b := a + Padded([tip]);
    DrawAppend(s, b, Padded([id, x, y]));
    PositionDrawn(DrawAll(s, b), o, slot);
  }

  lemma ContactDrawn(s: Outline, o: Options, slot: nat)
    requires Open(s) && o.Touch? && Accepted(o)
    ensures var r := DrawAll(s, ContactCalls(o, slot)); Inside(s, r) && (r.keeps <==> s.keeps && KeepsRule(o))
  {
    hide Draw, DrawAll, Padded, Calls, Optional, Declared, ValidField, KeepsRule;
    var begin := Begin(LOGICAL, PAGE_DIGITIZERS, 0x22);
    var tip := Switch(PAGE_DIGITIZERS, 0x42, Tip, slot);
    var id := Declared(PAGE_DIGITIZERS, 0x51, o.contactIdentifier, false, ContactId, slot);
    var x := Declared(PAGE_GENERIC_DESKTOP, 0x30, o.x, false, X, slot);
    var y := Declared(PAGE_GENERIC_DESKTOP, 0x31, o.y, false, Y, slot);
    BeginDrawn(s, LOGICAL, PAGE_DIGITIZERS, 0x22);
    ContactHeadDrawn(s, o, slot);
    ContactTail(o, slot, DrawAll(s, [begin]), s, [begin] + Padded([tip]) + Padded([id, x, y]));
  }

  /** The optional fields of a contact, and its end. */
  lemma ContactTail(o: Options, slot: nat, start: Outline, s: Outline, c: seq<Op>)
    requires o.Touch? && Accepted(o) && Inside(start, DrawAll(s, c)) && DrawAll(s, c).offset % 8 == 0
    requires Open(s) && start == s.(depth := s.depth + 1)
    ensures var r := DrawAll(s, c + Padded(Optional(PAGE_DIGITIZERS, 0x30, o.pressure, false, Pressure, slot))
                                + Padded(Optional(PAGE_DIGITIZERS, 0x48, o.width, false, Width, slot))
                                + Padded(Optional(PAGE_DIGITIZERS, 0x49, o.height, false, Height, slot))
                                + Calls(Optional(PAGE_DIGITIZERS, 0x3F, o.azimuth, false, Azimuth, slot)) + [End]);
            Inside(s, r) && r.keeps == DrawAll(s, c).keeps
  {
    hide Draw, DrawAll, Padded, Calls, Optional, ValidField, Accepted, Inside, Open;
    OptionalFieldsValid(o);
    OptionalAfter(start, s, c, PAGE_DIGITIZERS, 0x30, o.pressure, false, Pressure, slot);
    var d := c + Padded(Optional(PAGE_DIGITIZERS, 0x30, o.pressure, false, Pressure, slot));
    OptionalAfter(start, s, d, PAGE_DIGITIZERS, 0x48, o.width, false, Width, slot);
    var e := d + Padded(Optional(PAGE_DIGITIZERS, 0x48, o.width, false, Width, slot));
    OptionalAfter(start, s, e, PAGE_DIGITIZERS, 0x49, o.height, false, Height, slot);
    var f := e + Padded(Optional(PAGE_DIGITIZERS, 0x49, o.height, false, Height, slot));
    OptionalAfter(start, s, f, PAGE_DIGITIZERS, 0x3F, o.azimuth, false, Azimuth, slot);
    var g := f + Calls(Optional(PAGE_DIGITIZERS, 0x3F, o.azimuth, false, Azimuth, slot));
    ContactEnds(start, s, g);
  }

  lemma OptionalFieldsValid(o: Options)
    requires o.Touch? && Accepted(o)
    ensures (o.pressure.Some? ==> ValidField(o.pressure.value)) && (o.width.Some? ==> ValidField(o.width.value))
    ensures (o.height.Some? ==> ValidField(o.height.value)) && (o.azimuth.Some? ==> ValidField(o.azimuth.value))
  {
    hide ValidField;
  }

  lemma ContactEnds(start: Outline, s: Outline, g: seq<Op>)
    requires Inside(start, DrawAll(s, g)) && Open(s) && start == s.(depth := s.depth + 1)
    ensures Inside(s, DrawAll(s, g + [End])) && DrawAll(s, g + [End]).keeps == DrawAll(s, g).keeps
  {
    hide Draw, DrawAll;
    DrawSnoc(s, g, End);
    EndDrawn(DrawAll(s, g));
  }

  lemma SingleDrawn(s: Outline, op: Op)
    ensures DrawAll(s, [op]) == Draw(s, op)
  {
    hide Draw;
    assert [op][..0] == [];
  }

  lemma {:induction false} ContactsDrawn(s: Outline, o: Options, slots: nat)
    requires Open(s) && o.Touch? && Accepted(o)
    ensures var r := DrawAll(s, ContactsCalls(o, slots));
            Inside(s, r) && (r.keeps <==> s.keeps && (slots > 0 ==> KeepsRule(o)))
  {
    hide Draw, ContactCalls, KeepsRule;
    if slots == 0 {
    } else {
      ContactsDrawn(s, o, slots - 1);
      DrawAppend(s, ContactsCalls(o, slots - 1), ContactCalls(o, slots - 1));
      ContactDrawn(DrawAll(s, ContactsCalls(o, slots - 1)), o, slots - 1);
    }
  }

  lemma FeatureDrawn(s: Outline, o: Options)
    requires Open(s) && !s.featured && o.Touch? && Accepted(o)
    ensures var r := DrawAll(s, MaximumFeature(o));
            Open(r) && r.depth == s.depth && r.top == s.top && r.keeps == s.keeps && r.featured == o.declareMaximum
  {
    hide DrawAll;
    if o.declareMaximum {
      FittingWidth(o.contactCount.minimum, o.contactCount.maximum, o.contactCount.width);
      SingleDrawn(s, MaximumFeature(o)[0]);
    } else {
      NothingDrawn(s);
    }
  }

  lemma NothingDrawn(s: Outline)
    ensures DrawAll(s, []) == s
  {
  }

  lemma TouchButtonsDrawn(s: Outline, o: Options)
    requires Open(s) && o.Touch? && Accepted(o)
    ensures var r := DrawAll(s, TouchButtons(o)); Inside(s, r) && r.keeps == s.keeps
  {
    hide DrawAll, Draw;
    if o.buttonCount > 0 {
      SingleDrawn(s, TouchButtons(o)[0]);
      RangeDrawn(s, PAGE_BUTTON, 1, o.buttonCount % 0x1_0000, Buttons);
    } else {
      NothingDrawn(s);
    }
  }

  lemma TouchOutline(o: Options)
    requires o.Touch? && Accepted(o)
    ensures Finishes(DrawAll(BLANK, TouchCalls(o)), o)
  {
    hide Draw, DrawAll, Head, Padded, Calls, Optional, Declared, ValidField, Emittable, Packed, MaximumFeature,
         ContactsCalls, TouchButtons, KeepsRule;
    var a := Head(o.reportId, PAGE_DIGITIZERS, o.applicationUsage);
    HeadDrawn(o.reportId, PAGE_DIGITIZERS, o.applicationUsage);
    DrawAppend(BLANK, a, MaximumFeature(o));
    FeatureDrawn(DrawAll(BLANK, a), o);
    var b := a + MaximumFeature(o);
    DrawAppend(BLANK, b, ContactsCalls(o, o.contactsPerReport));
    ContactsDrawn(DrawAll(BLANK, b), o, o.contactsPerReport);
    var c := b + ContactsCalls(o, o.contactsPerReport);
    DrawSnoc(BLANK, c, PadReport);
    PadDrawn(DrawAll(BLANK, c));
    var d := c + [PadReport];
    var scan := Optional(PAGE_DIGITIZERS, 0x56, o.scanTime, false, ScanTime, 0);
    DrawAppend(BLANK, d, Padded(scan));
    OptionalDrawn(DrawAll(BLANK, d), PAGE_DIGITIZERS, 0x56, o.scanTime, false, ScanTime, 0);
    var e := d + Padded(scan);
    var count := Declared(PAGE_DIGITIZERS, 0x54, o.contactCount, false, ContactCount, 0);
    DeclaredEmittable(PAGE_DIGITIZERS, 0x54, o.contactCount, false, ContactCount, 0);
    DrawAppend(BLANK, e, Calls([count]));
    CallsDrawn(DrawAll(BLANK, e), [count]);
    PackedOne(0, count);
    var f := e + Calls([count]);
    DrawAppend(BLANK, f, TouchButtons(o));
    TouchButtonsDrawn(DrawAll(BLANK, f), o);
    var g := f + TouchButtons(o);
    DrawSnoc(BLANK, g, PadReport);
    PadDrawn(DrawAll(BLANK, g));
    OneEnd(g + [PadReport]);
  }

  lemma OutlineOf(o: Options)
    requires Accepted(o)
    ensures Finishes(DrawAll(BLANK, CallsOf(o)), o)
  {
    hide DrawAll, Finishes, KeyboardCalls, MouseCalls, ToggleCalls, GamepadCalls, TouchCalls, PenCalls, BatteryCalls;
    match o
    case Keyboard(_, _, _) => KeyboardOutline(o);
    case Mouse(_, _, _, _, _, _) => MouseOutline(o);
    case Toggle(_, _, _, _, _) => ToggleOutline(o);
    case Gamepad(_, _, _, _, _) => GamepadOutline(o);
    case Touch(_, _, _, _, _, _, _, _, _, _, _, _, _, _, _, _) => TouchOutline(o);
    case Pen(_, _, _, _, _, _, _, _, _, _) => PenOutline(o);
    case Battery(_, _, _) => BatteryOutline(o);
  }

  // ----- The result ------------------------------------------------------------------------------

  lemma {:induction false} CallCount(vs: seq<Variable>)
    ensures |Calls(vs)| == |vs|
  {
    if |vs| == 0 {
    } else {
      CallCount(vs[..|vs| - 1]);
    }
  }

  lemma {:induction false} AxisCallCount(axes: seq<Axis>)
    ensures |AxisCalls(axes)| == 2 * |axes|
  {
    if |axes| == 0 {
    } else {
      AxisCallCount(axes[..|axes| - 1]);
      CallCount([Declared(axes[|axes| - 1].page, axes[|axes| - 1].usage, axes[|axes| - 1].value, false, GamepadAxis,
                          |axes| - 1)]);
    }
  }

  lemma OptionalCount(page: Uint16, usage: Uint16, f: Option<IntegerField>, relative: bool, semantic: FieldSemantic,
                      instance: nat)
    ensures |Calls(Optional(page, usage, f, relative, semantic, instance))| <= 1
  {
    CallCount(Optional(page, usage, f, relative, semantic, instance));
  }

  lemma ContactCallCount(o: Options, slot: nat)
    requires o.Touch?
    ensures |ContactCalls(o, slot)| <= 15
  {
    hide Calls, Optional, Declared;
    CallCount([Switch(PAGE_DIGITIZERS, 0x42, Tip, slot)]);
    CallCount([Declared(PAGE_DIGITIZERS, 0x51, o.contactIdentifier, false, ContactId, slot),
               Declared(PAGE_GENERIC_DESKTOP, 0x30, o.x, false, X, slot),
               Declared(PAGE_GENERIC_DESKTOP, 0x31, o.y, false, Y, slot)]);
    OptionalCount(PAGE_DIGITIZERS, 0x30, o.pressure, false, Pressure, slot);
    OptionalCount(PAGE_DIGITIZERS, 0x48, o.width, false, Width, slot);
    OptionalCount(PAGE_DIGITIZERS, 0x49, o.height, false, Height, slot);
    OptionalCount(PAGE_DIGITIZERS, 0x3F, o.azimuth, false, Azimuth, slot);
  }

  lemma {:induction false} ContactsCallCount(o: Options, slots: nat)
    requires o.Touch?
    ensures |ContactsCalls(o, slots)| <= 15 * slots
  {
    hide ContactCalls;
    if slots == 0 {
    } else {
      ContactsCallCount(o, slots - 1);
      ContactCallCount(o, slots - 1);
    }
  }

  lemma CallsBounded(o: Options)
    requires Accepted(o)
    ensures |CallsOf(o)| <= MOST_CALLS
  {
    hide Calls, Optional, Declared, AxisCalls, ContactsCalls, ValidField, AcceptedAxis;
    match o
    case Keyboard(_, _, _) =>
    case Mouse(_, x, y, _, wheel, pan) =>
      CallCount([Declared(PAGE_GENERIC_DESKTOP, 0x30, x, true, X, 0),
                 Declared(PAGE_GENERIC_DESKTOP, 0x31, y, true, Y, 0)]);
      OptionalCount(PAGE_GENERIC_DESKTOP, 0x38, wheel, true, Wheel, 0);
      OptionalCount(PAGE_CONSUMER, 0x0238, pan, true, Pan, 0);
    case Toggle(_, _, _, _, _) => CallCount(ControlVariables(o.fieldPage, o.controls));
    case Gamepad(_, axes, _, _, _) =>
      CallCount(DPadVariables(o));
      AxisCallCount(axes);
    case Touch(_, _, _, _, _, _, _, count, _, _, _, _, scan, _, _, _) =>
      ContactsCallCount(o, o.contactsPerReport);
      OptionalCount(PAGE_DIGITIZERS, 0x56, scan, false, ScanTime, 0);
      CallCount([Declared(PAGE_DIGITIZERS, 0x54, count, false, ContactCount, 0)]);
    case Pen(_, _, x, y, pressure, _, twist, _, _, _) =>
      CallCount(PenSwitches(o));
      CallCount([Declared(PAGE_GENERIC_DESKTOP, 0x30, x, false, X, 0),
                 Declared(PAGE_GENERIC_DESKTOP, 0x31, y, false, Y, 0)]);
      OptionalCount(PAGE_DIGITIZERS, 0x30, pressure, false, Pressure, 0);
      CallCount(TiltVariables(o));
      OptionalCount(PAGE_DIGITIZERS, 0x41, twist, false, Twist, 0);
    case Battery(_, strength, unknown) =>
      CallCount([Declared(PAGE_GENERIC_DEVICE, 0x20, strength, false, BatteryStrength, 0).(nullState := unknown)]);
  }

  /**
   * Every accepted option set ends in one of three ways, decided by two facts a caller can compute:
   * its bytes exceed the AOA wire limit, or its widths break the four-byte rule, or the Spec is made.
   */
  lemma FactoryResult(o: Options)
    requires Accepted(o)
    ensures var ops := CallsOf(o);
            var b := Run(NewBuild(true, DESCRIPTOR_WIRE_MAXIMUM), ops);
            SpecVerdict(ops)
            == if DescriptorBytes(ops) > DESCRIPTOR_WIRE_MAXIMUM then Refused(TOO_LARGE)
               else if !KeepsRule(o) then Refused(FIVE_BYTES)
               else Built(Encode(b.items), LayoutOf(b), b.requirements)
  {
    hide Run, DrawAll, CallsOf, Encode, DescriptorBytes, KeepsRule, GeneratedVerdict, LayoutOf, FourByteRule, Accepted;
    var ops := CallsOf(o);
    OutlineOf(o);
    CallsBounded(o);
    SoundRunFits(DESCRIPTOR_WIRE_MAXIMUM, ops);
    if Run(NewBuild(true, DESCRIPTOR_WIRE_MAXIMUM), ops).good {
      SketchIsExact(DESCRIPTOR_WIRE_MAXIMUM, ops);
      GeneratedAgreement.GeneratedIsAccepted(ops);
    }
  }

  /** The profiles whose every declared field stands alone can never break the four-byte rule. */
  lemma AlignedProfilesKeepTheRule(o: Options)
    requires Accepted(o) && (o.Keyboard? || o.Toggle? || o.Gamepad? || o.Battery?)
    requires DescriptorBytes(CallsOf(o)) <= DESCRIPTOR_WIRE_MAXIMUM
    ensures SpecVerdict(CallsOf(o)).Built?
  {
    hide CallsOf, Accepted, SpecVerdict, DescriptorBytes, Run;
    FactoryResult(o);
  }

  /** Only a toggle list or a gamepad can outgrow the AOA wire limit. */
  lemma SmallProfilesFit(o: Options)
    requires Accepted(o) && !o.Toggle? && !o.Gamepad?
    ensures DescriptorBytes(CallsOf(o)) <= DESCRIPTOR_WIRE_MAXIMUM
  {
    hide DrawAll, CallsOf, Run, Encode, Finishes;
    OutlineOf(o);
    assert DrawAll(BLANK, CallsOf(o)).sound by {
      FinishesSound(DrawAll(BLANK, CallsOf(o)), o);
    }
    FewCalls(o);
    SoundRunSucceeds(5 * ITEMS_PER_CALL * |CallsOf(o)|, CallsOf(o));
  }

  lemma FinishesSound(s: Outline, o: Options)
    ensures Finishes(s, o) ==> s.sound
  {
  }

  lemma FewCalls(o: Options)
    requires Accepted(o) && !o.Toggle? && !o.Gamepad?
    ensures |CallsOf(o)| <= 800
  {
    hide Calls, Optional, Declared, ContactsCalls, ValidField;
    match o
    case Keyboard(_, _, _) =>
    case Mouse(_, x, y, _, wheel, pan) =>
      CallCount([Declared(PAGE_GENERIC_DESKTOP, 0x30, x, true, X, 0),
                 Declared(PAGE_GENERIC_DESKTOP, 0x31, y, true, Y, 0)]);
      OptionalCount(PAGE_GENERIC_DESKTOP, 0x38, wheel, true, Wheel, 0);
      OptionalCount(PAGE_CONSUMER, 0x0238, pan, true, Pan, 0);
    case Touch(_, _, _, _, _, _, _, count, _, _, _, _, scan, _, _, _) =>
      ContactsCallCount(o, o.contactsPerReport);
      OptionalCount(PAGE_DIGITIZERS, 0x56, scan, false, ScanTime, 0);
      CallCount([Declared(PAGE_DIGITIZERS, 0x54, count, false, ContactCount, 0)]);
    case Pen(_, _, x, y, pressure, _, twist, _, _, _) =>
      CallCount(PenSwitches(o));
      CallCount([Declared(PAGE_GENERIC_DESKTOP, 0x30, x, false, X, 0),
                 Declared(PAGE_GENERIC_DESKTOP, 0x31, y, false, Y, 0)]);
      OptionalCount(PAGE_DIGITIZERS, 0x30, pressure, false, Pressure, 0);
      CallCount(TiltVariables(o));
      OptionalCount(PAGE_DIGITIZERS, 0x41, twist, false, Twist, 0);
    case Battery(_, strength, unknown) =>
      CallCount([Declared(PAGE_GENERIC_DEVICE, 0x20, strength, false, BatteryStrength, 0).(nullState := unknown)]);
  }

  const PLAIN_13_BITS := IntegerField(-4096, 4095, 13, NO_PHYSICAL)
  const PLAIN_32_BITS := IntegerField(-1, 1, 32, NO_PHYSICAL)

  /**
   * The documentation promises that padding upholds the rule for every legal width; a mouse with a
   * 13-bit X before a 32-bit Y is refused all the same.
   */
  lemma PaddingDoesNotSaveEveryWidth()
    ensures var o := Mouse(ReportIdOption(0, 0), PLAIN_13_BITS, PLAIN_32_BITS, 3, None, None);
            Accepted(o) && SpecVerdict(CallsOf(o)) == Refused(FIVE_BYTES)
  {
    hide CallsOf, SpecVerdict, DescriptorBytes, Run;
    var o := Mouse(ReportIdOption(0, 0), PLAIN_13_BITS, PLAIN_32_BITS, 3, None, None);
    BitMath.Pow2Values();
    assert BitMath.Pow2(12) == 16 * BitMath.Pow2(8);
    assert Accepted(o);
    SmallProfilesFit(o);
    FactoryResult(o);
  }

  // ----- What a made Spec is good for ------------------------------------------------------------

  lemma {:induction false} FeaturesSketched(ops: seq<Op>)
    requires DrawAll(BLANK, ops).sound
    ensures RawAgreement.FeatureFree(ops) <==> !DrawAll(BLANK, ops).featured
  {
    hide Draw;
    if |ops| == 0 {
    } else {
      FeatureStep(DrawAll(BLANK, ops[..|ops| - 1]), ops[|ops| - 1]);
      FeaturesSketched(ops[..|ops| - 1]);
      assert ops == ops[..|ops| - 1] + [ops[|ops| - 1]];
    }
  }

  lemma FeatureStep(s: Outline, op: Op)
    requires Draw(s, op).sound
    ensures s.sound && (Draw(s, op).featured <==> s.featured || op.Feature?)
  {
  }

  /** The run behind a made Spec. */
  lemma MadeSpec(o: Options)
    requires Accepted(o) && SpecVerdict(CallsOf(o)).Built?
    ensures var b := Run(NewBuild(true, DESCRIPTOR_WIRE_MAXIMUM), CallsOf(o));
            && b == Finished(b) && b.good && b.topSeen && b.dataMain && b.inputBits > 0 && FourByteRule(b.fields)
            && ProperRun(NewBuild(true, DESCRIPTOR_WIRE_MAXIMUM), CallsOf(o)) && Tidy(b)
            && SpecVerdict(CallsOf(o)) == Built(Encode(b.items), LayoutOf(b), b.requirements)
  {
    hide DrawAll, CallsOf, Run, Encode, DescriptorBytes, KeepsRule, SpecVerdict, LayoutOf, FourByteRule, Accepted, Tidy;
    var ops := CallsOf(o);
    OutlineOf(o);
    CallsBounded(o);
    FactoryResult(o);
    SoundRunFits(DESCRIPTOR_WIRE_MAXIMUM, ops);
    SketchIsExact(DESCRIPTOR_WIRE_MAXIMUM, ops);
    RunTidy(DESCRIPTOR_WIRE_MAXIMUM, ops);
  }

  /** Reading a made Spec's descriptor back recovers its layout, and what every call of its factory meant. */
  lemma MadeSpecReadsBack(o: Options)
    requires Accepted(o) && SpecVerdict(CallsOf(o)).Built?
    ensures var spec := SpecVerdict(CallsOf(o));
            var meanings := ReportReader.MeantBy(DESCRIPTOR_WIRE_MAXIMUM, CallsOf(o));
            var read := WalkBytes(ReportReader.READER, spec.descriptor, 0, ReportReader.NEW_READING);
            && read.Accept? && read.state.scopes == [] && read.state.applications == 1
            && read.state.begun == ReportReader.ScopesAfter(ReportReader.NO_SCOPES, CallsOf(o)).begun
            && read.state.id == spec.layout.reportId
            && |meanings| == |spec.layout.fields|
            && read.state.fields == ReportReader.ReadBackAll(spec.layout.fields, meanings)
  {
    hide CallsOf, Run, Encode, SpecVerdict, FourByteRule, Accepted, Tidy, ReportReader.ReadStep, WalkBytes, LayoutOf,
         ReportReader.ReadBackAll, ReportReader.MeantBy, ReportReader.ScopesAfter;
    MadeSpec(o);
    ReportReader.DescriptorReadsBack(CallsOf(o));
  }

  /** The one-entry raw table that describes a made Spec's report. */
  function EntryOfSpec(layout: ReportLayout): RawCheck.RawReport
    requires layout.reportId < 256
  {
    RawCheck.RawReport(layout.hasReportId, layout.reportId, layout.wireBytes, true)
  }

  /**
   * A made Spec's descriptor is a valid raw descriptor for its own report exactly when its factory was not
   * asked to declare the contact maximum as a Feature; the requirements read from the bytes are then its own.
   */
  lemma MadeSpecIsRaw(o: Options)
    requires Accepted(o) && SpecVerdict(CallsOf(o)).Built?
    ensures var spec := SpecVerdict(CallsOf(o));
            && spec.layout.reportId < 256
            && (RawCheck.RawAccepts(spec.descriptor, [EntryOfSpec(spec.layout)]) <==> !(o.Touch? && o.declareMaximum))
            && (!(o.Touch? && o.declareMaximum) ==>
                RawCheck.RawWalk(spec.descriptor).state.requirements == spec.requirements)
  {
    hide CallsOf, Run, Encode, SpecVerdict, FourByteRule, Accepted, Tidy, DrawAll, RawCheck.RawAccepts,
         RawCheck.RawStep,
         WalkBytes, RawAgreement.FeatureFree, RawAgreement.Raw, RawAgreement.Agrees, CeilDiv, KeepsRule;
    MadeSpec(o);
    OutlineOf(o);
    FeaturesSketched(CallsOf(o));
    RawAgreement.GeneratedIsRaw(CallsOf(o));
    if RawAgreement.FeatureFree(CallsOf(o)) {
      RawAgreement.RunInStep(DESCRIPTOR_WIRE_MAXIMUM, CallsOf(o));
    }
  }

  const SMALL_FIELD := IntegerField(0, 100, 8, NO_PHYSICAL)

  /** A touch surface of one contact that declares its maximum. */
  const DECLARING_TOUCH := Touch(ReportIdOption(0, 0), 4, 1, 1, SMALL_FIELD, SMALL_FIELD, SMALL_FIELD, SMALL_FIELD,
                                 None, None,
                                 None, None, None, true, false, 0)

  /** Its Spec is made, and its descriptor is refused as a raw one. */
  lemma DeclaringTouchIsNotRaw()
    ensures Accepted(DECLARING_TOUCH) && SpecVerdict(CallsOf(DECLARING_TOUCH)).Built?
    ensures var spec := SpecVerdict(CallsOf(DECLARING_TOUCH));
            spec.layout.reportId < 256 && !RawCheck.RawAccepts(spec.descriptor, [EntryOfSpec(spec.layout)])
  {
    hide CallsOf, Run, Encode, SpecVerdict, DescriptorBytes, RawCheck.RawAccepts;
    BitMath.Pow2Values();
    assert Accepted(DECLARING_TOUCH);
    SmallProfilesFit(DECLARING_TOUCH);
    FactoryResult(DECLARING_TOUCH);
    MadeSpecIsRaw(DECLARING_TOUCH);
  }
}
