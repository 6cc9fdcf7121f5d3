/**
 * What every field of a made Spec announces to its host: an independent table of collections, Usages and flags by
 * profile, and the proof that a reader of the descriptor's bytes finds exactly that (HID Usage Tables 1.7).
 */
module SpecMeanings {
  import opened Common
  import opened BitField
  import opened DescriptorBuilder
  import opened BuilderFacts
  import opened GeneratedSpec
  import opened Factories
  import opened HidWalk
  import opened ReportReader
  import FactoryResults
  import SpecParts

  // ----- The table -------------------------------------------------------------------------------

  /** The Usage Page and Usage of a field, by what it is for. */
  function UsageOf(o: Options, semantic: FieldSemantic, instance: nat): (nat, nat) {
    match o
    case Keyboard(_, low, _) => if semantic.Modifier? then (0x07, 0xE0 + instance) else (0x07, low + instance)
    case Mouse(_, _, _, _, _, _) => PointerUsage(semantic, instance)
    case Toggle(_, _, _, page, controls) => (page, if instance < |controls| then controls[instance].usage else 0)
    case Gamepad(_, axes, low, count, _) =>
      if semantic.GamepadAxis? && instance < |axes| then (axes[instance].page, axes[instance].usage)
      else if semantic.Hat? then (0x01, 0x39)
      else if instance < count then (0x09, low + instance)
      else (0x01, 0x90 + (instance - count))
    case Touch(_, _, _, _, _, _, _, _, _, _, _, _, _, _, _, _) =>
      if semantic.Buttons? then (0x09, instance + 1) else DigitizerUsage(semantic)
    case Pen(_, _, _, _, _, _, _, barrels, _, _) =>
      if semantic.Buttons? then (0x0D, if instance < |barrels| then barrels[instance] else 0)
          else DigitizerUsage(semantic)
    case Battery(_, _, _) => (0x06, 0x20)
  }

  function PointerUsage(semantic: FieldSemantic, instance: nat): (nat, nat) {
    match semantic
    case X => (0x01, 0x30)
    case Y => (0x01, 0x31)
    case Wheel => (0x01, 0x38)
    case Pan => (0x0C, 0x0238)
    case _ => (0x09, instance + 1)
  }

  function DigitizerUsage(semantic: FieldSemantic): (nat, nat) {
    match semantic
    case X => (0x01, 0x30)
    case Y => (0x01, 0x31)
    case Tip => (0x0D, 0x42)
    case InRange => (0x0D, 0x32)
    case Eraser => (0x0D, 0x3C)
    case Pressure => (0x0D, 0x30)
    case ContactId => (0x0D, 0x51)
    case Width => (0x0D, 0x48)
    case Height => (0x0D, 0x49)
    case Azimuth => (0x0D, 0x3F)
    case ContactCount => (0x0D, 0x54)
    case ScanTime => (0x0D, 0x56)
    case TiltX => (0x0D, 0x3D)
    case TiltY => (0x0D, 0x3E)
    case Twist => (0x0D, 0x41)
    case _ => (0, 0)
  }

  /** Deltas of a mouse are relative, and so are one-shot controls. */
  predicate IsRelative(o: Options, semantic: FieldSemantic, instance: nat) {
    match o
    case Mouse(_, _, _, _, _, _) => semantic.X? || semantic.Y? || semantic.Wheel? || semantic.Pan?
    case Toggle(_, _, _, _, controls) =>
      instance < |controls| && (controls[instance].semantic.OnOffToggle? || controls[instance].semantic.OneShot?)
    case _ => false
  }

  /** A maintained control and a direction of the button D-pad have no preferred state. */
  predicate HasNoPreferred(o: Options, semantic: FieldSemantic, instance: nat) {
    match o
    case Toggle(_, _, _, _, controls) => instance < |controls| && controls[instance].semantic.OnOffMaintained?
    case Gamepad(_, _, _, count, _) => semantic.Buttons? && instance >= count
    case _ => false
  }

  predicate OfContact(semantic: FieldSemantic) {
    semantic in {Tip, ContactId, X, Y, Pressure, Width, Height, Azimuth}
  }

  /** The collection a field is in: the pointer, the stylus, its contact, or the whole device. */
  function CollectionOf(o: Options, semantic: FieldSemantic, instance: nat): nat {
    match o
    case Mouse(_, _, _, _, _, _) => 1
    case Pen(_, _, _, _, _, _, _, _, _, _) => 1
    case Touch(_, _, _, _, _, _, _, _, _, _, _, _, _, _, _, _) => if OfContact(semantic) then instance + 1 else 0
    case _ => 0
  }

  function Announced(o: Options, semantic: FieldSemantic, instance: nat): Meaning {
    if semantic == ConstantPadding then NOTHING
    else
      var (page, usage) := UsageOf(o, semantic, instance);
      Meaning(page, usage, IsRelative(o, semantic, instance), HasNoPreferred(o, semantic, instance),
              CollectionOf(o, semantic, instance))
  }

  /** The collections of a profile, outermost first, a touch surface's contacts in slot order. */
  function CollectionsOf(o: Options): seq<Collection> {
    match o
    case Keyboard(_, _, _) => [Collection(APPLICATION, 0x01, 0x06)]
    case Mouse(_, _, _, _, _, _) => [Collection(APPLICATION, 0x01, 0x02), Collection(PHYSICAL, 0x01, 0x01)]
    case Toggle(_, page, usage, _, _) => [Collection(APPLICATION, page, usage)]
    case Gamepad(_, _, _, _, _) => [Collection(APPLICATION, 0x01, 0x05)]
    case Touch(_, usage, _, contacts, _, _, _, _, _, _, _, _, _, _, _, _) =>
      [Collection(APPLICATION, 0x0D, usage)] + Contacts(contacts)
    case Pen(_, direct, _, _, _, _, _, _, _, _) =>
      [Collection(APPLICATION, 0x0D, if direct then 0x02 else 0x01), Collection(PHYSICAL, 0x0D, 0x20)]
    case Battery(_, _, _) => [Collection(APPLICATION, 0x06, 0x01)]
  }

  function Contacts(count: nat): seq<Collection> {
    seq(count, _ => Collection(LOGICAL, 0x0D, 0x22))
  }

  // ----- Calls and runs --------------------------------------------------------------------------

  predicate CallMeans(o: Options, s: Scopes, op: Op) {
    match op
    case AddVariable(v) => VariableMeaning(v, Innermost(s.stack)) == Announced(o, v.semantic, v.instance)
    case AddRange(page, low, high, _, semantic) =>
      forall i :: 0 <= i < RangeCount(low, high) ==>
        Meaning(page, low + i, false, false, Innermost(s.stack)) == Announced(o, semantic, i)
    case _ => true
  }

  /** Every call of the list means what the table says, and the list leads from `s` to `t`. */
  predicate Means(o: Options, s: Scopes, ops: seq<Op>, t: Scopes) {
    ScopesAfter(s, ops) == t && AllMean(o, s, ops)
  }

  predicate AllMean(o: Options, s: Scopes, ops: seq<Op>) {
    |ops| == 0
    || (AllMean(o, s, ops[..|ops| - 1]) && CallMeans(o, ScopesAfter(s, ops[..|ops| - 1]), ops[|ops| - 1]))
  }

  lemma {:induction false} MeansAppend(o: Options, s: Scopes, a: seq<Op>, t: Scopes, b: seq<Op>, u: Scopes)
    requires Means(o, s, a, t) && Means(o, t, b, u)
    ensures Means(o, s, a + b, u)
  {
    hide CallMeans, ScopeStep;
    if |b| == 0 {
      assert a + b == a;
    } else {
      var c := b[..|b| - 1];
      MeansAppend(o, s, a, t, c, ScopesAfter(t, c));
      assert (a + b)[..|a + b| - 1] == a + c;
    }
  }

  lemma OneMeans(o: Options, s: Scopes, op: Op)
    requires CallMeans(o, s, op)
    ensures Means(o, s, [op], ScopeStep(s, op))
  {
    hide CallMeans, ScopeStep;
    assert [op][..|[op]| - 1] == [];
    NoneMean(o, s);
    assert ScopesAfter(s, [op]) == ScopeStep(s, op);
  }

  lemma NoneMean(o: Options, s: Scopes)
    ensures Means(o, s, [], s)
  {
  }

  lemma {:induction false} CallsMean(o: Options, s: Scopes, vs: seq<Variable>)
    requires forall k :: 0 <= k < |vs| ==> CallMeans(o, s, AddVariable(vs[k]))
    ensures Means(o, s, Calls(vs), s) && Means(o, s, Padded(vs), s)
  {
    hide CallMeans;
    if |vs| == 0 {
      NoneMean(o, s);
    } else {
      CallsMean(o, s, vs[..|vs| - 1]);
      OneMeans(o, s, AddVariable(vs[|vs| - 1]));
      MeansAppend(o, s, Calls(vs[..|vs| - 1]), s, [AddVariable(vs[|vs| - 1])], s);
    }
    assert CallMeans(o, s, PadReport) by { PaddingMeans(o, s); }
    OneMeans(o, s, PadReport);
    MeansAppend(o, s, Calls(vs), s, [PadReport], s);
  }

  lemma PaddingMeans(o: Options, s: Scopes)
    ensures CallMeans(o, s, PadReport) && CallMeans(o, s, End)
  {
  }

  // ----- What the reader finds -------------------------------------------------------------------

  predicate Told(o: Options, fields: seq<FieldLayout>, meanings: seq<Meaning>) {
    && |fields| == |meanings|
    && forall k :: 0 <= k < |fields| ==> meanings[k] == Announced(o, fields[k].semantic, fields[k].instance)
  }

  lemma AppendTold(o: Options, b: Build, r: Build, added: seq<FieldLayout>, bits: nat, meanings: seq<Meaning>,
                   more: seq<Meaning>)
    requires Told(o, b.fields, meanings) && Told(o, added, more) && InputAdded(b, r, added, bits)
    ensures Told(o, r.fields, meanings + more)
  {
    hide Announced, Tiled;
  }

  lemma CallTold(o: Options, b: Build, s: Scopes, op: Op, meanings: seq<Meaning>)
    requires Tidy(b) && b.good && Proper(b, op) && Apply(b, op).good && CallMeans(o, s, op)
    requires Told(o, b.fields, meanings)
    ensures Told(o, Apply(b, op).fields, meanings + Meant(b, s, op))
  {
    hide Tidy, InputAdded, Announced, ValueFits, BeginCollection, EndCollection, DecideReportId, EmitVariable,
         EmitRange, EmitPadding, EmitFeature, Later, Innermost;
    assert meanings + [] == meanings;
    match op
    case AddVariable(v) =>
      VariableEffect(b, v);
      AppendTold(o, b, EmitVariable(b, v), [FieldOf(v, b.inputBits)], v.width, meanings, Meant(b, s, op));
    case AddRange(page, low, high, width, semantic) =>
      RangeEffect(b, page, low, high, width, semantic);
      AppendTold(o, b, EmitRange(b, page, low, high, width, semantic),
                 RangeFields(semantic, b.inputBits, RangeCount(low, high), width), RangeBits(low, high, width),
                 meanings, Meant(b, s, op));
    case Padding(bits) => PadTold(o, b, bits, meanings);
    case PadReport => PadTold(o, b, PaddingBits(b.inputBits), meanings);
    case Feature(page, usage, minimum, maximum, width) => FeatureEffect(b, page, usage, minimum, maximum, width);
    case Begin(kind, page, usage) => BeginTidy(b, kind, page, usage);
    case End => EndTidy(b);
    case SetReportId(enabled, id) => DecideTidy(b, enabled, id);
  }

  lemma PadTold(o: Options, b: Build, bits: Uint16, meanings: seq<Meaning>)
    requires Tidy(b) && b.good && bits <= 32 && EmitPadding(b, bits).good && Told(o, b.fields, meanings)
    ensures Told(o, EmitPadding(b, bits).fields, meanings + PaddingMeanings(bits))
  {
    hide Tidy, InputAdded, EmitPadding, Later;
    if bits == 0 {
      NoPadding(b);
      assert meanings + [] == meanings;
    } else {
      PaddingEffect(b, bits);
      AppendTold(o, b, EmitPadding(b, bits), [PaddingField(b.inputBits, bits)], bits, meanings, [NOTHING]);
    }
  }

  lemma {:induction false} RunTold(o: Options, capacity: nat, ops: seq<Op>)
    requires ProperRun(NewBuild(true, capacity), ops) && Run(NewBuild(true, capacity), ops).good
    requires AllMean(o, NO_SCOPES, ops)
    ensures Told(o, Run(NewBuild(true, capacity), ops).fields, MeantBy(capacity, ops))
  {
    hide Apply, Proper, Tidy, CallMeans, Later, Meant, Announced, ScopesAfter;
    if |ops| == 0 {
    } else {
      var prefix, last := ops[..|ops| - 1], ops[|ops| - 1];
      RunTidy(capacity, prefix);
      RunTold(o, capacity, prefix);
      CallTold(o, Run(NewBuild(true, capacity), prefix), ScopesAfter(NO_SCOPES, prefix), last,
               MeantBy(capacity, prefix));
    }
  }

  // ----- What the factories say ------------------------------------------------------------------

  lemma HeadMeans(o: Options, id: ReportIdOption, page: Uint16, usage: Uint16)
    ensures Means(o, NO_SCOPES, Head(id, page, usage), Scopes([Collection(APPLICATION, page, usage)], [0]))
  {
    hide Announced;
    var t := Scopes([Collection(APPLICATION, page, usage)], [0]);
    OneMeans(o, NO_SCOPES, Begin(APPLICATION, page, usage));
    OneMeans(o, t, SetReportId(id.enabled == 1, id.value));
    MeansAppend(o, NO_SCOPES, [Begin(APPLICATION, page, usage)], t, [SetReportId(id.enabled == 1, id.value)], t);
  }

  /** One more call, or one more list of calls, that stays in the same scope. */
  lemma ThenOne(o: Options, a: seq<Op>, t: Scopes, op: Op)
    requires Means(o, NO_SCOPES, a, t) && CallMeans(o, t, op)
    ensures Means(o, NO_SCOPES, a + [op], ScopeStep(t, op))
  {
    hide CallMeans, Means, ScopeStep;
    OneMeans(o, t, op);
    MeansAppend(o, NO_SCOPES, a, t, [op], ScopeStep(t, op));
  }

  lemma ThenPadded(o: Options, a: seq<Op>, t: Scopes, vs: seq<Variable>)
    requires Means(o, NO_SCOPES, a, t) && forall k :: 0 <= k < |vs| ==> CallMeans(o, t, AddVariable(vs[k]))
    ensures Means(o, NO_SCOPES, a + Padded(vs), t) && Means(o, NO_SCOPES, a + Calls(vs), t)
  {
    hide CallMeans, Means, Padded, Calls;
    CallsMean(o, t, vs);
    MeansAppend(o, NO_SCOPES, a, t, Padded(vs), t);
    MeansAppend(o, NO_SCOPES, a, t, Calls(vs), t);
  }

  lemma KeyboardMeans(o: Options)
    requires o.Keyboard? && Accepted(o)
    ensures Means(o, NO_SCOPES, KeyboardCalls(o), Scopes(CollectionsOf(o), []))
  {
    hide Means, Head;
    var t := Scopes(CollectionsOf(o), [0]);
    var modifiers := AddRange(PAGE_KEYBOARD, 0xE0, 0xE7, 1, Modifier);
    var keys := AddRange(PAGE_KEYBOARD, o.usageMinimum, o.usageMaximum, 1, KeyBitmap);
    HeadMeans(o, o.reportId, PAGE_GENERIC_DESKTOP, 0x06);
    var a := Head(o.reportId, PAGE_GENERIC_DESKTOP, 0x06);
    ThenOne(o, a, t, modifiers);
    ThenOne(o, a + [modifiers], t, keys);
    ThenOne(o, a + [modifiers] + [keys], t, PadReport);
    ThenOne(o, a + [modifiers] + [keys] + [PadReport], t, End);
  }

  /** The one physical collection inside the application collection. */
  lemma PhysicalScopes(o: Options, page: nat, usage: nat)
    requires o.Mouse? || o.Pen?
    requires CollectionsOf(o)[1] == Collection(PHYSICAL, page, usage)
    ensures ScopeStep(Scopes([CollectionsOf(o)[0]], [0]), Begin(PHYSICAL, page, usage))
            == Scopes(CollectionsOf(o), [0, 1])
    ensures ScopeStep(Scopes(CollectionsOf(o), [0, 1]), End) == Scopes(CollectionsOf(o), [0])
    ensures ScopeStep(Scopes(CollectionsOf(o), [0]), End) == Scopes(CollectionsOf(o), [])
  {
    assert [CollectionsOf(o)[0]] + [CollectionsOf(o)[1]] == CollectionsOf(o);
    assert [0] + [1] == [0, 1];
    assert [0, 1][..1] == [0];
    assert [0][..0] == [];
  }

  lemma MouseFrontMeans(o: Options, u: Scopes)
    requires o.Mouse? && Accepted(o) && u == Scopes(CollectionsOf(o), [0, 1])
    ensures Means(o, NO_SCOPES, Head(o.reportId, PAGE_GENERIC_DESKTOP, 0x02)
                                + [Begin(PHYSICAL, PAGE_GENERIC_DESKTOP, 0x01)]
                                + [AddRange(PAGE_BUTTON, 1, o.buttonCount % 0x1_0000, 1, Buttons)] + [PadReport], u)
  {
    hide Means, Head, ValidField;
    HeadMeans(o, o.reportId, PAGE_GENERIC_DESKTOP, 0x02);
    PhysicalScopes(o, PAGE_GENERIC_DESKTOP, 0x01);
    var a := Head(o.reportId, PAGE_GENERIC_DESKTOP, 0x02);
    ThenOne(o, a, Scopes([Collection(APPLICATION, 0x01, 0x02)], [0]), Begin(PHYSICAL, PAGE_GENERIC_DESKTOP, 0x01));
    var b := a + [Begin(PHYSICAL, PAGE_GENERIC_DESKTOP, 0x01)];
    var buttons := AddRange(PAGE_BUTTON, 1, o.buttonCount % 0x1_0000, 1, Buttons);
    ThenOne(o, b, u, buttons);
    ThenOne(o, b + [buttons], u, PadReport);
  }

  lemma DeltasMean(o: Options, a: seq<Op>, u: Scopes)
    requires o.Mouse? && Innermost(u.stack) == 1 && Means(o, NO_SCOPES, a, u)
    ensures Means(o, NO_SCOPES, a + Padded([Declared(PAGE_GENERIC_DESKTOP, 0x30, o.x, true, X, 0),
                                            Declared(PAGE_GENERIC_DESKTOP, 0x31, o.y, true, Y, 0)])
                                + Padded(Optional(PAGE_GENERIC_DESKTOP, 0x38, o.wheel, true, Wheel, 0))
                                + Padded(Optional(PAGE_CONSUMER, 0x0238, o.pan, true, Pan, 0)), u)
  {
    hide Means, Padded, Optional, Innermost;
    var xy := [Declared(PAGE_GENERIC_DESKTOP, 0x30, o.x, true, X, 0),
               Declared(PAGE_GENERIC_DESKTOP, 0x31, o.y, true, Y, 0)];
    ThenPadded(o, a, u, xy);
    OptionalMeans(o, a + Padded(xy), u, PAGE_GENERIC_DESKTOP, 0x38, o.wheel, true, Wheel, 0);
    var b := a + Padded(xy) + Padded(Optional(PAGE_GENERIC_DESKTOP, 0x38, o.wheel, true, Wheel, 0));
    OptionalMeans(o, b, u, PAGE_CONSUMER, 0x0238, o.pan, true, Pan, 0);
  }

  lemma MouseMeans(o: Options)
    requires o.Mouse? && Accepted(o)
    ensures Means(o, NO_SCOPES, MouseCalls(o), Scopes(CollectionsOf(o), []))
  {
    hide Means, Head, Padded, Optional, ValidField, Announced;
    var u := Scopes(CollectionsOf(o), [0, 1]);
    MouseFrontMeans(o, u);
    PhysicalScopes(o, PAGE_GENERIC_DESKTOP, 0x01);
    var a := Head(o.reportId, PAGE_GENERIC_DESKTOP, 0x02) + [Begin(PHYSICAL, PAGE_GENERIC_DESKTOP, 0x01)]
             + [AddRange(PAGE_BUTTON, 1, o.buttonCount % 0x1_0000, 1, Buttons)] + [PadReport];
    DeltasMean(o, a, u);
    var b := a + Padded([Declared(PAGE_GENERIC_DESKTOP, 0x30, o.x, true, X, 0),
                         Declared(PAGE_GENERIC_DESKTOP, 0x31, o.y, true, Y, 0)])
             + Padded(Optional(PAGE_GENERIC_DESKTOP, 0x38, o.wheel, true, Wheel, 0))
             + Padded(Optional(PAGE_CONSUMER, 0x0238, o.pan, true, Pan, 0));
    ThenOne(o, b, u, End);
    ThenOne(o, b + [End], Scopes(CollectionsOf(o), [0]), End);
  }

  lemma OptionalMeans(o: Options, a: seq<Op>, t: Scopes, page: Uint16, usage: Uint16, f: Option<IntegerField>,
                      relative: bool, semantic: FieldSemantic, instance: nat)
    requires Means(o, NO_SCOPES, a, t) && instance < 0x1_0000
    requires Meaning(page, usage, relative, false, Innermost(t.stack)) == Announced(o, semantic, instance)
    ensures Means(o, NO_SCOPES, a + Padded(Optional(page, usage, f, relative, semantic, instance)), t)
    ensures Means(o, NO_SCOPES, a + Calls(Optional(page, usage, f, relative, semantic, instance)), t)
  {
    hide Means, Padded, Calls, Announced, Innermost;
    ThenPadded(o, a, t, Optional(page, usage, f, relative, semantic, instance));
  }

  lemma ToggleMeans(o: Options)
    requires o.Toggle? && Accepted(o)
    ensures Means(o, NO_SCOPES, ToggleCalls(o), Scopes(CollectionsOf(o), []))
  {
    hide Means, Head, Padded, SensibleControl;
    var t := Scopes(CollectionsOf(o), [0]);
    HeadMeans(o, o.reportId, o.applicationPage, o.applicationUsage);
    var a := Head(o.reportId, o.applicationPage, o.applicationUsage);
    ThenPadded(o, a, t, ControlVariables(o.fieldPage, o.controls));
    ThenOne(o, a + Padded(ControlVariables(o.fieldPage, o.controls)), t, End);
  }

  lemma {:induction false} AxesMean(o: Options, axes: seq<Axis>, t: Scopes)
    requires o.Gamepad? && Accepted(o) && axes <= o.axes && Innermost(t.stack) == 0
    ensures Means(o, t, AxisCalls(axes), t)
  {
    hide Means, Padded, AcceptedAxis, AxisRoles, Innermost;
    if |axes| == 0 {
      NoneMean(o, t);
    } else {
      var n := |axes| - 1;
      var last := axes[n];
      assert last == o.axes[n];
      AxesMean(o, axes[..n], t);
      CallsMean(o, t, [Declared(last.page, last.usage, last.value, false, GamepadAxis, n)]);
      MeansAppend(o, t, AxisCalls(axes[..n]), t,
                  Padded([Declared(last.page, last.usage, last.value, false, GamepadAxis, n)]),
                  t);
    }
  }

  lemma DirectionsMean(o: Options, t: Scopes)
    requires o.Gamepad? && Accepted(o) && Innermost(t.stack) == 0
    ensures forall k :: 0 <= k < |DPadVariables(o)| ==> CallMeans(o, t, AddVariable(DPadVariables(o)[k]))
  {
    hide AcceptedAxis, AxisRoles, Innermost;
  }

  lemma GamepadMeans(o: Options)
    requires o.Gamepad? && Accepted(o)
    ensures Means(o, NO_SCOPES, GamepadCalls(o), Scopes(CollectionsOf(o), []))
  {
    hide Means, Head, Padded, AcceptedAxis, AxisRoles, DPadVariables, AxisCalls;
    var t := Scopes(CollectionsOf(o), [0]);
    HeadMeans(o, o.reportId, PAGE_GENERIC_DESKTOP, 0x05);
    var a := Head(o.reportId, PAGE_GENERIC_DESKTOP, 0x05);
    var buttons :=
      AddRange(PAGE_BUTTON, o.buttonUsageMinimum, o.buttonUsageMinimum + o.buttonCount - 1, 1, Buttons);
    ThenOne(o, a, t, buttons);
    ThenOne(o, a + [buttons], t, PadReport);
    var b := a + [buttons] + [PadReport];
    DirectionsMean(o, t);
    ThenPadded(o, b, t, DPadVariables(o));
    AxesMean(o, o.axes, t);
    MeansAppend(o, NO_SCOPES, b + Padded(DPadVariables(o)), t, AxisCalls(o.axes), t);
    var c := b + Padded(DPadVariables(o)) + AxisCalls(o.axes);
    ThenOne(o, c, t, PadReport);
    ThenOne(o, c + [PadReport], t, End);
  }

  /** The scopes of a touch surface after its first `n` contacts. */
  function AfterContacts(o: Options, n: nat): Scopes
    requires o.Touch?
  {
    Scopes([Collection(APPLICATION, 0x0D, o.applicationUsage)] + Contacts(n), [0])
  }

  lemma TipMeans(o: Options, a: seq<Op>, slot: nat, u: Scopes)
    requires o.Touch? && slot < 0x1_0000 && Innermost(u.stack) == slot + 1 && Means(o, NO_SCOPES, a, u)
    ensures Means(o, NO_SCOPES, a + Padded([Switch(PAGE_DIGITIZERS, 0x42, Tip, slot)]), u)
  {
    hide Means, Padded, Innermost;
    ThenPadded(o, a, u, [Switch(PAGE_DIGITIZERS, 0x42, Tip, slot)]);
  }

  lemma PositionMeans(o: Options, a: seq<Op>, slot: nat, u: Scopes)
    requires o.Touch? && slot < 0x1_0000 && Innermost(u.stack) == slot + 1 && Means(o, NO_SCOPES, a, u)
    ensures Means(o, NO_SCOPES, a + Padded([Declared(PAGE_DIGITIZERS, 0x51, o.contactIdentifier, false, ContactId,
                                                     slot),
                                            Declared(PAGE_GENERIC_DESKTOP, 0x30, o.x, false, X, slot),
                                            Declared(PAGE_GENERIC_DESKTOP, 0x31, o.y, false, Y, slot)]), u)
  {
    hide Means, Padded, Innermost;
    ThenPadded(o, a, u, [Declared(PAGE_DIGITIZERS, 0x51, o.contactIdentifier, false, ContactId, slot),
                         Declared(PAGE_GENERIC_DESKTOP, 0x30, o.x, false, X, slot),
                         Declared(PAGE_GENERIC_DESKTOP, 0x31, o.y, false, Y, slot)]);
  }

  lemma ExtrasMean(o: Options, a: seq<Op>, slot: nat, u: Scopes)
    requires o.Touch? && slot < 0x1_0000 && Innermost(u.stack) == slot + 1 && Means(o, NO_SCOPES, a, u)
    ensures Means(o, NO_SCOPES, a + Padded(Optional(PAGE_DIGITIZERS, 0x30, o.pressure, false, Pressure, slot))
                                  + Padded(Optional(PAGE_DIGITIZERS, 0x48, o.width, false, Width, slot))
                                  + Padded(Optional(PAGE_DIGITIZERS, 0x49, o.height, false, Height, slot))
                                  + Calls(Optional(PAGE_DIGITIZERS, 0x3F, o.azimuth, false, Azimuth, slot)), u)
  {
    hide Means, Padded, Calls, Optional, Innermost;
    OptionalMeans(o, a, u, PAGE_DIGITIZERS, 0x30, o.pressure, false, Pressure, slot);
    var b := a + Padded(Optional(PAGE_DIGITIZERS, 0x30, o.pressure, false, Pressure, slot));
    OptionalMeans(o, b, u, PAGE_DIGITIZERS, 0x48, o.width, false, Width, slot);
    var c := b + Padded(Optional(PAGE_DIGITIZERS, 0x48, o.width, false, Width, slot));
    OptionalMeans(o, c, u, PAGE_DIGITIZERS, 0x49, o.height, false, Height, slot);
    var d := c + Padded(Optional(PAGE_DIGITIZERS, 0x49, o.height, false, Height, slot));
    OptionalMeans(o, d, u, PAGE_DIGITIZERS, 0x3F, o.azimuth, false, Azimuth, slot);
  }

  lemma ContactOpens(o: Options, slot: nat)
    requires o.Touch?
    ensures ScopeStep(AfterContacts(o, slot), Begin(LOGICAL, PAGE_DIGITIZERS, 0x22))
            == Scopes(AfterContacts(o, slot + 1).begun, [0, slot + 1])
    ensures ScopeStep(Scopes(AfterContacts(o, slot + 1).begun, [0, slot + 1]), End) == AfterContacts(o, slot + 1)
  {
    assert Contacts(slot + 1) == Contacts(slot) + [Collection(LOGICAL, 0x0D, 0x22)];
    assert AfterContacts(o, slot + 1).begun == AfterContacts(o, slot).begun + [Collection(LOGICAL, 0x0D, 0x22)];
  }

  /** The calls of one contact, after whatever came before. */
  lemma ContactMeans(o: Options, a: seq<Op>, slot: nat)
    requires o.Touch? && slot < 0x1_0000 && Means(o, NO_SCOPES, a, AfterContacts(o, slot))
    ensures Means(o, NO_SCOPES, a + ContactCalls(o, slot), AfterContacts(o, slot + 1))
  {
    hide Means, Padded, Calls, Optional, ScopeStep, AfterContacts;
    var u := Scopes(AfterContacts(o, slot + 1).begun, [0, slot + 1]);
    ContactOpens(o, slot);
    var begin := Begin(LOGICAL, PAGE_DIGITIZERS, 0x22);
    ThenOne(o, a, AfterContacts(o, slot), begin);
    TipMeans(o, a + [begin], slot, u);
    var tip := Padded([Switch(PAGE_DIGITIZERS, 0x42, Tip, slot)]);
    PositionMeans(o, a + [begin] + tip, slot, u);
    var place := Padded([Declared(PAGE_DIGITIZERS, 0x51, o.contactIdentifier, false, ContactId, slot),
                         Declared(PAGE_GENERIC_DESKTOP, 0x30, o.x, false, X, slot),
                         Declared(PAGE_GENERIC_DESKTOP, 0x31, o.y, false, Y, slot)]);
    ExtrasMean(o, a + [begin] + tip + place, slot, u);
    var b := a + [begin] + tip + place + Padded(Optional(PAGE_DIGITIZERS, 0x30, o.pressure, false, Pressure, slot))
             + Padded(Optional(PAGE_DIGITIZERS, 0x48, o.width, false, Width, slot))
             + Padded(Optional(PAGE_DIGITIZERS, 0x49, o.height, false, Height, slot))
             + Calls(Optional(PAGE_DIGITIZERS, 0x3F, o.azimuth, false, Azimuth, slot));
    ThenOne(o, b, u, End);
    assert b + [End] == a + ContactCalls(o, slot);
  }

  lemma {:induction false} ContactsMean(o: Options, a: seq<Op>, slots: nat)
    requires o.Touch? && slots <= 0x1_0000 && Means(o, NO_SCOPES, a, AfterContacts(o, 0))
    ensures Means(o, NO_SCOPES, a + ContactsCalls(o, slots), AfterContacts(o, slots))
  {
    hide Means, ContactCalls, AfterContacts;
    if slots == 0 {
      assert a + [] == a;
    } else {
      ContactsMean(o, a, slots - 1);
      ContactMeans(o, a + ContactsCalls(o, slots - 1), slots - 1);
      assert a + ContactsCalls(o, slots) == a + ContactsCalls(o, slots - 1) + ContactCalls(o, slots - 1);
    }
  }

  lemma TouchFrontMeans(o: Options)
    requires o.Touch? && Accepted(o)
    ensures Means(o, NO_SCOPES, Head(o.reportId, PAGE_DIGITIZERS, o.applicationUsage) + MaximumFeature(o)
                                + ContactsCalls(o, o.contactsPerReport), AfterContacts(o, o.contactsPerReport))
  {
    hide Means, Head, ContactsCalls, ValidField;
    HeadMeans(o, o.reportId, PAGE_DIGITIZERS, o.applicationUsage);
    var a := Head(o.reportId, PAGE_DIGITIZERS, o.applicationUsage);
    assert AfterContacts(o, 0) == Scopes([Collection(APPLICATION, 0x0D, o.applicationUsage)], [0]);
    if o.declareMaximum {
      ThenOne(o, a, AfterContacts(o, 0), MaximumFeature(o)[0]);
      assert [MaximumFeature(o)[0]] == MaximumFeature(o);
    } else {
      assert a + MaximumFeature(o) == a;
    }
    ContactsMean(o, a + MaximumFeature(o), o.contactsPerReport);
  }

  lemma TouchBackMeans(o: Options, a: seq<Op>, t: Scopes)
    requires o.Touch? && Accepted(o) && Innermost(t.stack) == 0 && Means(o, NO_SCOPES, a, t)
    ensures Means(o, NO_SCOPES, a + [PadReport]
                  + Padded(Optional(PAGE_DIGITIZERS, 0x56, o.scanTime, false, ScanTime, 0))
                                + Calls([Declared(PAGE_DIGITIZERS, 0x54, o.contactCount, false, ContactCount, 0)])
                                + TouchButtons(o) + [PadReport], t)
  {
    hide Means, Padded, Calls, Optional, ValidField, Innermost;
    ThenOne(o, a, t, PadReport);
    OptionalMeans(o, a + [PadReport], t, PAGE_DIGITIZERS, 0x56, o.scanTime, false, ScanTime, 0);
    var b := a + [PadReport] + Padded(Optional(PAGE_DIGITIZERS, 0x56, o.scanTime, false, ScanTime, 0));
    var count := [Declared(PAGE_DIGITIZERS, 0x54, o.contactCount, false, ContactCount, 0)];
    ThenPadded(o, b, t, count);
    var c := b + Calls(count);
    if o.buttonCount > 0 {
      var buttons := AddRange(PAGE_BUTTON, 1, o.buttonCount % 0x1_0000, 1, Buttons);
      ThenOne(o, c, t, buttons);
      assert TouchButtons(o) == [buttons];
    } else {
      assert c + TouchButtons(o) == c;
    }
    ThenOne(o, c + TouchButtons(o), t, PadReport);
  }

  lemma TouchMeans(o: Options)
    requires o.Touch? && Accepted(o)
    ensures Means(o, NO_SCOPES, TouchCalls(o), Scopes(CollectionsOf(o), []))
  {
    hide Means, Head, Padded, Calls, Optional, ContactsCalls, MaximumFeature, TouchButtons, Accepted;
    assert o.maximumContacts <= 16 by { SpecParts.FewContacts(o); }
    var t := AfterContacts(o, o.contactsPerReport);
    TouchFrontMeans(o);
    var a := Head(o.reportId, PAGE_DIGITIZERS, o.applicationUsage) + MaximumFeature(o)
             + ContactsCalls(o, o.contactsPerReport);
    TouchBackMeans(o, a, t);
    ThenOne(o, a + [PadReport] + Padded(Optional(PAGE_DIGITIZERS, 0x56, o.scanTime, false, ScanTime, 0))
               + Calls([Declared(PAGE_DIGITIZERS, 0x54, o.contactCount, false, ContactCount, 0)]) + TouchButtons(o)
               + [PadReport], t, End);
  }

  lemma SwitchesMean(o: Options, u: Scopes)
    requires o.Pen? && Accepted(o) && Innermost(u.stack) == 1
    ensures forall k :: 0 <= k < |PenSwitches(o)| ==> CallMeans(o, u, AddVariable(PenSwitches(o)[k]))
  {
    hide ValidField, Innermost;
  }

  lemma PenFrontMeans(o: Options, u: Scopes)
    requires o.Pen? && Accepted(o) && u == Scopes(CollectionsOf(o), [0, 1])
    ensures Means(o, NO_SCOPES, Head(o.reportId, PAGE_DIGITIZERS, if o.direct then 0x02 else 0x01)
                                + [Begin(PHYSICAL, PAGE_DIGITIZERS, 0x20)] + Padded(PenSwitches(o)), u)
  {
    hide Means, Head, Padded, ValidField, PenSwitches, Announced;
    var usage: Uint16 := if o.direct then 0x02 else 0x01;
    HeadMeans(o, o.reportId, PAGE_DIGITIZERS, usage);
    PhysicalScopes(o, PAGE_DIGITIZERS, 0x20);
    var a := Head(o.reportId, PAGE_DIGITIZERS, usage);
    ThenOne(o, a, Scopes([Collection(APPLICATION, 0x0D, usage)], [0]), Begin(PHYSICAL, PAGE_DIGITIZERS, 0x20));
    SwitchesMean(o, u);
    ThenPadded(o, a + [Begin(PHYSICAL, PAGE_DIGITIZERS, 0x20)], u, PenSwitches(o));
  }

  lemma PlaceMeans(o: Options, a: seq<Op>, u: Scopes)
    requires o.Pen? && Innermost(u.stack) == 1 && Means(o, NO_SCOPES, a, u)
    ensures Means(o, NO_SCOPES, a + Padded([Declared(PAGE_GENERIC_DESKTOP, 0x30, o.x, false, X, 0),
                                            Declared(PAGE_GENERIC_DESKTOP, 0x31, o.y, false, Y, 0)]), u)
  {
    hide Means, Padded, Innermost;
    ThenPadded(o, a, u, [Declared(PAGE_GENERIC_DESKTOP, 0x30, o.x, false, X, 0),
                         Declared(PAGE_GENERIC_DESKTOP, 0x31, o.y, false, Y, 0)]);
  }

  lemma TiltMeans(o: Options, u: Scopes)
    requires o.Pen? && Innermost(u.stack) == 1
    ensures forall k :: 0 <= k < |TiltVariables(o)| ==> CallMeans(o, u, AddVariable(TiltVariables(o)[k]))
  {
    hide Innermost;
  }

  lemma AnglesMean(o: Options, a: seq<Op>, u: Scopes)
    requires o.Pen? && Innermost(u.stack) == 1 && Means(o, NO_SCOPES, a, u)
    ensures Means(o, NO_SCOPES, a + Padded(Optional(PAGE_DIGITIZERS, 0x30, o.pressure, false, Pressure, 0))
                                + Padded(TiltVariables(o))
                                + Padded(Optional(PAGE_DIGITIZERS, 0x41, o.twist, false, Twist, 0)), u)
  {
    hide Means, Padded, Optional, Innermost, TiltVariables, CallMeans;
    OptionalMeans(o, a, u, PAGE_DIGITIZERS, 0x30, o.pressure, false, Pressure, 0);
    var b := a + Padded(Optional(PAGE_DIGITIZERS, 0x30, o.pressure, false, Pressure, 0));
    TiltMeans(o, u);
    ThenPadded(o, b, u, TiltVariables(o));
    OptionalMeans(o, b + Padded(TiltVariables(o)), u, PAGE_DIGITIZERS, 0x41, o.twist, false, Twist, 0);
  }

  lemma PenMeans(o: Options)
    requires o.Pen? && Accepted(o)
    ensures Means(o, NO_SCOPES, PenCalls(o), Scopes(CollectionsOf(o), []))
  {
    hide Means, Head, Padded, Optional, ValidField, PenSwitches, Announced, Accepted, TiltVariables;
    var u := Scopes(CollectionsOf(o), [0, 1]);
    PenFrontMeans(o, u);
    PhysicalScopes(o, PAGE_DIGITIZERS, 0x20);
    var a := Head(o.reportId, PAGE_DIGITIZERS, if o.direct then 0x02 else 0x01)
             + [Begin(PHYSICAL, PAGE_DIGITIZERS, 0x20)] + Padded(PenSwitches(o));
    PlaceMeans(o, a, u);
    var b := a + Padded([Declared(PAGE_GENERIC_DESKTOP, 0x30, o.x, false, X, 0),
                         Declared(PAGE_GENERIC_DESKTOP, 0x31, o.y, false, Y, 0)]);
    AnglesMean(o, b, u);
    var c := b + Padded(Optional(PAGE_DIGITIZERS, 0x30, o.pressure, false, Pressure, 0)) + Padded(TiltVariables(o))
             + Padded(Optional(PAGE_DIGITIZERS, 0x41, o.twist, false, Twist, 0));
    ThenOne(o, c, u, End);
    ThenOne(o, c + [End], Scopes(CollectionsOf(o), [0]), End);
  }

  lemma BatteryMeans(o: Options)
    requires o.Battery? && Accepted(o)
    ensures Means(o, NO_SCOPES, BatteryCalls(o), Scopes(CollectionsOf(o), []))
  {
    hide Means, Head, Padded, HasNullEncoding, ValidField;
    var t := Scopes(CollectionsOf(o), [0]);
    HeadMeans(o, o.reportId, PAGE_GENERIC_DEVICE, 0x01);
    var a := Head(o.reportId, PAGE_GENERIC_DEVICE, 0x01);
    var strength :=
      [Declared(PAGE_GENERIC_DEVICE, 0x20, o.strength, false, BatteryStrength, 0).(nullState := o.unknownState)];
    ThenPadded(o, a, t, strength);
    ThenOne(o, a + Padded(strength), t, End);
  }

  lemma FactoryMeans(o: Options)
    requires Accepted(o)
    ensures Means(o, NO_SCOPES, CallsOf(o), Scopes(CollectionsOf(o), []))
  {
    hide Means, KeyboardCalls, MouseCalls, ToggleCalls, GamepadCalls, TouchCalls, PenCalls, BatteryCalls, CollectionsOf;
    match o
    case Keyboard(_, _, _) => KeyboardMeans(o);
    case Mouse(_, _, _, _, _, _) => MouseMeans(o);
    case Toggle(_, _, _, _, _) => ToggleMeans(o);
    case Gamepad(_, _, _, _, _) => GamepadMeans(o);
    case Touch(_, _, _, _, _, _, _, _, _, _, _, _, _, _, _, _) => TouchMeans(o);
    case Pen(_, _, _, _, _, _, _, _, _, _) => PenMeans(o);
    case Battery(_, _, _) => BatteryMeans(o);
  }

  // ----- The theorem -----------------------------------------------------------------------------

  /**
   * Whoever reads the descriptor of a made Spec finds the profile's collections, and every field with its place,
   * range and physical properties, its Usage Page and Usage, its flags and its collection, exactly as the table
   * says for what the serializer will put there.
   */
  lemma DescriptorMeans(o: Options)
    requires Accepted(o) && SpecVerdict(CallsOf(o)).Built?
    ensures var spec := SpecVerdict(CallsOf(o));
            var read := WalkBytes(READER, spec.descriptor, 0, NEW_READING);
            && read.Accept? && read.state.scopes == [] && read.state.begun == CollectionsOf(o)
            && read.state.id == spec.layout.reportId && |read.state.fields| == |spec.layout.fields|
            && forall k :: 0 <= k < |spec.layout.fields| ==>
                 var f := spec.layout.fields[k];
                 read.state.fields[k] == ReadBack(f, Announced(o, f.semantic, f.instance))
    ensures SpecParts.Parts(SpecVerdict(CallsOf(o)).layout.fields) == SpecParts.PartsOf(o)
  {
    hide SpecParts.Parts, SpecParts.PartsOf, CallsOf, Run, SpecVerdict, FourByteRule, Accepted, Tidy, ReadStep,
         WalkBytes, LayoutOf, ReadBack, MeantBy,
         Announced, AllMean, ProperRun, CollectionsOf, ScopesAfter;
    FactoryResults.MadeSpec(o);
    FactoryResults.MadeSpecReadsBack(o);
    SpecParts.SpecHasItsParts(o);
    FactoryMeans(o);
    RunTold(o, DESCRIPTOR_WIRE_MAXIMUM, CallsOf(o));
    SpecParts.LayoutKeepsFields(Run(NewBuild(true, DESCRIPTOR_WIRE_MAXIMUM), CallsOf(o)));
  }
}
