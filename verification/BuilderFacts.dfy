/** What every run of the builder keeps: its counters agree, and its layout tiles the report. */
module BuilderFacts {
  import opened Common
  import opened BitField
  import opened BitMath
  import opened HidItems
  import opened HidWalk
  import opened GeneratedCheck
  import opened DescriptorBuilder

  function Prefix(b: Build): nat {
    if b.reportId != 0 then 8 else 0
  }

  /**
   * What the factories owe the builder: data inside a collection, ranges that fit their width, at most 32
   * padding bits, and a Feature value that keeps the four-byte rule in its own report.
   */
  predicate Proper(b: Build, op: Op) {
    match op
    case AddVariable(v) => b.depth > 0 && ValueFits(v.minimum, v.maximum, v.width) && v.semantic != ConstantPadding
    case AddRange(_, _, _, width, semantic) => b.depth > 0 && 1 <= width <= 32 && semantic != ConstantPadding
    case Padding(bits) => bits != 0 ==> b.depth > 0 && bits <= 32
    case PadReport => PaddingBits(b.inputBits) != 0 ==> b.depth > 0
    case Feature(_, _, _, _, width) =>
      b.depth > 0 && 1 <= width <= 32 && TouchedBytes(Count(b.featureReportBits, b.reportId), width) <= 4
    case _ => true
  }

  predicate ProperRun(b: Build, ops: seq<Op>) {
    |ops| == 0 || (ProperRun(b, ops[..|ops| - 1]) && Proper(Run(b, ops[..|ops| - 1]), ops[|ops| - 1]))
  }

  // ----- Tiling ----------------------------------------------------------------------------------

  /** A field the layout check has nothing against, except perhaps the four-byte rule. */
  predicate SoundField(f: FieldLayout) {
    && 1 <= f.bitWidth <= 32
    && (PhysicalIsZero(f.physical) || PhysicalIsEnabled(f.physical))
    && ValueFits(f.logicalMinimum, f.logicalMaximum, f.bitWidth)
    && f.isSigned == (f.logicalMinimum < 0 || f.logicalMaximum < 0)
  }

  /** Field `k` is sound and starts where the fields before it end. */
  predicate TiledAt(fields: seq<FieldLayout>, from: nat, k: nat)
    requires k < |fields|
  {
    SoundField(fields[k]) && fields[k].bitOffset == from + TotalWidth(fields[..k])
  }

  /** The fields lie end to end from bit `from` to bit `to`. */
  predicate Tiled(fields: seq<FieldLayout>, from: nat, to: nat) {
    && (forall k :: 0 <= k < |fields| ==> TiledAt(fields, from, k))
    && to == from + TotalWidth(fields)
  }

  lemma TiledSnoc(fields: seq<FieldLayout>, from: nat, to: nat, field: FieldLayout)
    requires Tiled(fields, from, to) && SoundField(field) && field.bitOffset == to
    ensures Tiled(fields + [field], from, to + field.bitWidth)
  {
    var longer := fields + [field];
    assert longer[..|fields|] == fields;
    forall k | 0 <= k < |longer|
      ensures TiledAt(longer, from, k)
    {
      if k < |fields| {
        assert TiledAt(fields, from, k);
        assert longer[..k] == fields[..k];
      }
    }
  }

  predicate WithinFourBytes(f: FieldLayout) {
    f.bitWidth > 0 && TouchedBytes(f.bitOffset, f.bitWidth) <= 4
  }

  predicate FourByteRuleFrom(fields: seq<FieldLayout>, k: nat) {
    forall i :: k <= i < |fields| ==> WithinFourBytes(fields[i])
  }

  /** No field touches a fifth byte (HID 1.11 section 8.4). */
  predicate FourByteRule(fields: seq<FieldLayout>) {
    FourByteRuleFrom(fields, 0)
  }

  lemma {:induction false} WidthBefore(fields: seq<FieldLayout>, k: nat)
    requires k <= |fields|
    ensures TotalWidth(fields[..k]) <= TotalWidth(fields)
    decreases |fields|
  {
    if k == |fields| {
      assert fields[..k] == fields;
    } else {
      assert fields[..|fields| - 1][..k] == fields[..k];
      WidthBefore(fields[..|fields| - 1], k);
    }
  }

  /** The layout check of a tiled layout can only stop at the four-byte rule. */
  lemma {:induction false} TiledVerdict(fields: seq<FieldLayout>, from: nat, to: nat, k: nat)
    requires Tiled(fields, from, to) && to <= SIZE_MAX && k <= |fields|
    ensures LayoutIssue(fields, k, from + TotalWidth(fields[..k]))
            == if FourByteRuleFrom(fields, k) then None else Some(FIVE_BYTES)
    decreases |fields| - k
  {
    hide FieldIssue, WithinFourBytes, SoundField;
    if k < |fields| {
      assert TiledAt(fields, from, k);
      assert fields[..k + 1][..k] == fields[..k];
      WidthBefore(fields, k + 1);
      SoundVerdict(fields[k], from + TotalWidth(fields[..k]));
      TiledVerdict(fields, from, to, k + 1);
    }
  }

  lemma SoundVerdict(f: FieldLayout, expected: nat)
    requires SoundField(f) && f.bitOffset == expected && expected + f.bitWidth <= SIZE_MAX
    ensures FieldIssue(f, expected) == if WithinFourBytes(f) then None else Some(FIVE_BYTES)
  {
  }

  // ----- The invariant ---------------------------------------------------------------------------

  predicate Tidy(b: Build) {
    && b.keepsLayout
    && (b.depth > 0 ==> b.topSeen)
    && (b.topSeen ==> b.items != [])
    && (b.dataMain ==> b.idDecided)
    && (!b.idDecided ==> b.reportId == 0 && b.inputBits == 0)
    && (!b.dataMain ==>
          b.inputReportBits == map[] && b.featureReportBits == map[] && b.inputFields == map[]
              && b.featureFields == map[])
    && b.inputBits == Prefix(b) + Count(b.inputReportBits, b.reportId)
    && Tiled(b.fields, Prefix(b), b.inputBits)
    && b.inputBits <= 8 + 0x8_0000 * |Encode(b.items)|
    && |Encode(b.items)| <= b.capacity
  }

  /** What adding a field that has room does. */
  lemma AddFieldShape(b: Build, semantic: FieldSemantic, instance: nat, width: nat, minimum: Int32, maximum: Int32,
                      physical: Physical,
                      nullState: bool)
    requires AddField(b, semantic, instance, width, minimum, maximum, physical, nullState).good
    ensures b.good && 0 < width <= 32 && b.inputBits <= SIZE_MAX - width
    ensures AddField(b, semantic, instance, width, minimum, maximum, physical, nullState)
            == Append(b, NextField(b, semantic, instance, width, minimum, maximum, physical, nullState))
  {
    hide Later, Encode, Append, NextField;
  }

  /** The state in the middle of a data operation: everything but the layout is up to date. */
  lemma AddFieldTiles(b: Build, semantic: FieldSemantic, instance: nat, width: nat, minimum: Int32, maximum: Int32,
                      physical: Physical, nullState: bool)
    requires b.good && b.keepsLayout && Tiled(b.fields, Prefix(b), b.inputBits)
    requires ValueFits(minimum, maximum, width) && (PhysicalIsZero(physical) || PhysicalIsEnabled(physical))
    ensures var r := AddField(b, semantic, instance, width, minimum, maximum, physical, nullState);
            r.good ==>
              && Tiled(r.fields, Prefix(r), r.inputBits)
              && r.inputBits == b.inputBits + width
              && |r.fields| == |b.fields| + 1 && r.fields[..|b.fields|] == b.fields
              && r == b.(fields := r.fields, inputBits := r.inputBits)
              && r.fields[|b.fields|] == FieldLayout(semantic, instance, b.inputBits, width, minimum < 0 || maximum < 0,
                                                     nullState, minimum, maximum, physical)
  {
    hide PhysicalIsZero, PhysicalIsEnabled, ValueFits, Tiled, Later, Encode, AddField;
    if AddField(b, semantic, instance, width, minimum, maximum, physical, nullState).good {
      AddFieldShape(b, semantic, instance, width, minimum, maximum, physical, nullState);
      TiledSnoc(b.fields, Prefix(b), b.inputBits,
                NextField(b, semantic, instance, width, minimum, maximum, physical, nullState));
    }
  }

  /** Adding layout touches nothing else, whether or not a layout is kept. */
  lemma AddFieldGood(b: Build, semantic: FieldSemantic, instance: nat, width: nat, minimum: Int32, maximum: Int32,
                     physical: Physical, nullState: bool)
    ensures var r := AddField(b, semantic, instance, width, minimum, maximum, physical, nullState);
            r.good ==> b.good && r == b.(fields := r.fields, inputBits := r.inputBits)
  {
    hide Later, Encode, AddField, NextField;
    if AddField(b, semantic, instance, width, minimum, maximum, physical, nullState).good {
      AddFieldShape(b, semantic, instance, width, minimum, maximum, physical, nullState);
    }
  }

  lemma {:induction false} AddFieldsGood(b: Build, semantic: FieldSemantic, first: nat, count: nat, width: nat)
    ensures var r := AddFields(b, semantic, first, count, width);
            r.good ==> b.good && r == b.(fields := r.fields, inputBits := r.inputBits)
    decreases count
  {
    hide AddField, Later, Encode;
    if count == 0 {
    } else {
      AddFieldGood(b, semantic, first, width, 0, 1, NO_PHYSICAL, false);
      AddFieldsGood(AddField(b, semantic, first, width, 0, 1, NO_PHYSICAL, false), semantic, first + 1, count - 1,
                    width);
    }
  }

  /** Field `i` of a range whose first field starts at bit `offset`. */
  function RangeField(semantic: FieldSemantic, first: nat, offset: nat, width: nat, i: nat): FieldLayout {
    FieldLayout(semantic, first + i, offset + i * width, width, false, false, 0, 1, NO_PHYSICAL)
  }

  lemma UnitRangeFits(width: nat)
    requires 1 <= width <= 32
    ensures ValueFits(0, 1, width)
  {
    Pow2Monotone(1, width);
  }

  /** The fields of a range, laid one after another behind the ones before it. */
  predicate Laid(before: seq<FieldLayout>, after: seq<FieldLayout>, semantic: FieldSemantic, first: nat, offset: nat,
                 width: nat,
                 count: nat)
  {
    && |after| == |before| + count && after[..|before|] == before
    && forall i :: 0 <= i < count ==> after[|before| + i] == RangeField(semantic, first, offset, width, i)
  }

  lemma LaidStep(before: seq<FieldLayout>, one: seq<FieldLayout>, after: seq<FieldLayout>, semantic: FieldSemantic,
                 first: nat,
                 offset: nat, width: nat, count: nat)
    requires count > 0 && |one| == |before| + 1 && one[..|before|] == before
    requires one[|before|] == RangeField(semantic, first, offset, width, 0)
    requires Laid(one, after, semantic, first + 1, offset + width, width, count - 1)
    ensures Laid(before, after, semantic, first, offset, width, count)
  {
    assert after[..|before|] == after[..|one|][..|before|];
    forall i | 0 <= i < count
      ensures after[|before| + i] == RangeField(semantic, first, offset, width, i)
    {
      if i == 0 {
        assert after[|before|] == after[..|one|][|before|];
      } else {
        assert i * width == width + (i - 1) * width;
        assert after[|one| + (i - 1)] == RangeField(semantic, first + 1, offset + width, width, i - 1);
      }
    }
  }

  lemma {:induction false} AddFieldsTile(b: Build, semantic: FieldSemantic, first: nat, count: nat, width: nat)
    requires b.good && b.keepsLayout && Tiled(b.fields, Prefix(b), b.inputBits) && 1 <= width <= 32
    requires AddFields(b, semantic, first, count, width).good
    ensures var r := AddFields(b, semantic, first, count, width);
            && Tiled(r.fields, Prefix(r), r.inputBits)
            && r.inputBits == b.inputBits + count * width
            && r == b.(fields := r.fields, inputBits := r.inputBits)
            && Laid(b.fields, r.fields, semantic, first, b.inputBits, width, count)
    decreases count
  {
    hide Tiled, ValueFits, Later, AddField, Encode, Laid, PhysicalIsZero, PhysicalIsEnabled;
    if count == 0 {
      NothingLaid(b.fields, semantic, first, b.inputBits, width);
    } else {
      var one := AddField(b, semantic, first, width, 0, 1, NO_PHYSICAL, false);
      UnitRangeFits(width);
      NoPhysicalIsZero();
      assert one.good;
      AddFieldTiles(b, semantic, first, width, 0, 1, NO_PHYSICAL, false);
      AddFieldsTile(one, semantic, first + 1, count - 1, width);
      OneMore(count, width);
      LaidStep(b.fields, one.fields, AddFields(b, semantic, first, count, width).fields, semantic, first, b.inputBits,
               width, count);
    }
  }

  lemma NothingLaid(fields: seq<FieldLayout>, semantic: FieldSemantic, first: nat, offset: nat, width: nat)
    ensures Laid(fields, fields, semantic, first, offset, width, 0)
  {
  }

  lemma NoPhysicalIsZero()
    ensures PhysicalIsZero(NO_PHYSICAL)
  {
  }

  lemma OneMore(count: nat, width: nat)
    requires count > 0
    ensures count * width == width + (count - 1) * width
  {
  }

  // ----- Each operation keeps the builder tidy ---------------------------------------------------

  /** What recording a data Main item changes. */
  predicate Recorded(b: Build, r: Build, feature: bool, added: nat) {
    && b.good
    && r == b.(requirements := r.requirements, inputReportBits := r.inputReportBits,
               featureReportBits := r.featureReportBits, inputFields := r.inputFields, featureFields := r.featureFields)
    && (feature ==> r.inputReportBits == b.inputReportBits && r.inputFields == b.inputFields)
    && (!feature ==> r.featureReportBits == b.featureReportBits && r.featureFields == b.featureFields)
    && Grows(if feature then b.featureReportBits else b.inputReportBits,
             if feature then r.featureReportBits else r.inputReportBits, b.reportId, added)
  }

  predicate Grows(before: map<nat, nat>, after: map<nat, nat>, id: nat, added: nat) {
    Count(before, id) + added <= SIZE_MAX && after == before[id := Count(before, id) + added]
  }

  lemma RecordKeeps(b: Build, feature: bool, usages: nat, count: nat, size: nat)
    requires RecordMain(b, feature, usages, count, size).good
    ensures Recorded(b, RecordMain(b, feature, usages, count, size), feature, size * count)
  {
    hide RecordBits, RecordField;
    var added := size * count;
    var measured := RecordBits(b, feature, Max(usages, count), size, added);
    RecordFieldKeeps(measured, feature);
    RecordBitsKeeps(b, feature, Max(usages, count), size, added);
  }

  lemma RecordFieldKeeps(b: Build, feature: bool)
    ensures var r := RecordField(b, feature);
            r.good ==>
              && r == b.(requirements := r.requirements, inputFields := r.inputFields, featureFields := r.featureFields)
              && (feature ==> r.inputFields == b.inputFields) && (!feature ==> r.featureFields == b.featureFields)
  {
    hide RecordField, Later, Encode;
    if !RecordField(b, feature).good {
      return;
    }
    if feature {
      FeatureFieldIs(b);
    } else {
      InputFieldIs(b);
    }
  }

  lemma FieldShape(b: Build, feature: bool) returns (requirements: Requirements, fields: nat)
    requires RecordField(b, feature).good
    ensures b.good && RecordField(b, feature) == WithFields(b, feature, requirements, fields)
  {
    hide WithFields, Later, Encode;
    fields := Count(if feature then b.featureFields else b.inputFields, b.reportId) + 1;
    requirements := b.requirements.(fieldsPerReport := Max(b.requirements.fieldsPerReport, fields));
  }

  lemma FeatureFieldIs(b: Build)
    requires RecordField(b, true).good
    ensures var r := RecordField(b, true); r == b.(requirements := r.requirements, featureFields := r.featureFields)
  {
    hide RecordField, Later, Encode;
    var _, _ := FieldShape(b, true);
  }

  lemma InputFieldIs(b: Build)
    requires RecordField(b, false).good
    ensures var r := RecordField(b, false); r == b.(requirements := r.requirements, inputFields := r.inputFields)
  {
    hide RecordField, Later, Encode;
    var _, _ := FieldShape(b, false);
  }

  lemma BitsShape(b: Build, feature: bool, usages: nat, size: nat, added: nat) returns (requirements: Requirements)
    requires RecordBits(b, feature, usages, size, added).good
    ensures var bits := Count(if feature then b.featureReportBits else b.inputReportBits, b.reportId) + added;
            && b.good && bits <= SIZE_MAX
            && RecordBits(b, feature, usages, size, added) == WithBits(b, feature, requirements, bits)
  {
    hide WithBits, Later, Encode, ObserveUsages;
    var bits := Count(if feature then b.featureReportBits else b.inputReportBits, b.reportId) + added;
    var seen := ObserveUsages(b.requirements, usages);
    requirements := seen.(reportSizeBits := Max(seen.reportSizeBits, size),
                          reportDataBits := Max(seen.reportDataBits, bits));
  }

  lemma FeatureBitsAre(b: Build, usages: nat, size: nat, added: nat)
    requires RecordBits(b, true, usages, size, added).good
    ensures var r, bits := RecordBits(b, true, usages, size, added), Count(b.featureReportBits, b.reportId) + added;
            && b.good && bits <= SIZE_MAX
            && r == b.(requirements := r.requirements,
                       featureReportBits := b.featureReportBits[b.reportId as nat := bits])
  {
    hide RecordBits, Later, Encode;
    var _ := BitsShape(b, true, usages, size, added);
  }

  lemma InputBitsAre(b: Build, usages: nat, size: nat, added: nat)
    requires RecordBits(b, false, usages, size, added).good
    ensures var r, bits := RecordBits(b, false, usages, size, added), Count(b.inputReportBits, b.reportId) + added;
            && b.good && bits <= SIZE_MAX
            && r == b.(requirements := r.requirements, inputReportBits := b.inputReportBits[b.reportId as nat := bits])
  {
    hide RecordBits, Later, Encode;
    var _ := BitsShape(b, false, usages, size, added);
  }

  lemma RecordBitsKeeps(b: Build, feature: bool, usages: nat, size: nat, added: nat)
    requires RecordBits(b, feature, usages, size, added).good
    ensures Recorded(b, RecordBits(b, feature, usages, size, added), feature, added)
  {
    hide Later, Encode, RecordBits;
    if feature {
      FeatureBitsAre(b, usages, size, added);
    } else {
      InputBitsAre(b, usages, size, added);
    }
  }

  /** What an Input operation leaves: its bits recorded, `added` layout fields appended. */
  predicate InputAdded(b: Build, r: Build, added: seq<FieldLayout>, bits: nat) {
    && b.good && b.idDecided
    && r == b.(dataMain := true, items := r.items, requirements := r.requirements, inputReportBits := r.inputReportBits,
               inputFields := r.inputFields, fields := b.fields + added, inputBits := b.inputBits + bits)
    && Grows(b.inputReportBits, r.inputReportBits, b.reportId, bits)
    && b.items < r.items && |Encode(b.items)| + 6 <= |Encode(r.items)| <= r.capacity
    && Tiled(r.fields, Prefix(r), r.inputBits)
  }

  function FieldOf(v: Variable, offset: nat): FieldLayout {
    FieldLayout(v.semantic, v.instance, offset, v.width, v.minimum < 0 || v.maximum < 0, v.nullState, v.minimum,
                v.maximum, v.physical)
  }

  lemma FittingWidth(minimum: Int32, maximum: Int32, width: nat)
    requires ValueFits(minimum, maximum, width)
    ensures 1 <= width <= 32
  {
  }

  function RangeFields(semantic: FieldSemantic, offset: nat, count: nat, width: nat): seq<FieldLayout> {
    seq(count, i requires 0 <= i => RangeField(semantic, 0, offset, width, i))
  }

  function RangeCount(low: Uint16, high: Uint16): nat {
    if low <= high then high - low + 1 else 0
  }

  function RangeBits(low: Uint16, high: Uint16, width: nat): nat {
    RangeCount(low, high) * width
  }

  /** Items, then their record, then layout fields: together they are an Input operation. */
  lemma InputAddedBy(b: Build, emitted: Build, recorded: Build, r: Build, added: seq<FieldLayout>, bits: nat)
    requires Emitted(b, emitted, recorded, bits)
    requires r == recorded.(fields := r.fields, inputBits := r.inputBits)
    requires r.fields == b.fields + added && r.inputBits == b.inputBits + bits
             && Tiled(r.fields, Prefix(r), r.inputBits)
    ensures InputAdded(b, r, added, bits)
  {
    hide Tiled, Encode;
  }

  lemma RangeIs(fields: seq<FieldLayout>, more: seq<FieldLayout>, semantic: FieldSemantic, offset: nat, count: nat,
                width: nat)
    requires Laid(fields, more, semantic, 0, offset, width, count)
    ensures more == fields + RangeFields(semantic, offset, count, width)
  {
    hide RangeField;
  }

  /** What an Input operation has emitted and recorded before its layout. */
  predicate Emitted(b: Build, emitted: Build, recorded: Build, bits: nat) {
    && b.good && b.idDecided && Extends(b.(dataMain := true), emitted)
       && |Encode(b.items)| + 6 <= |Encode(emitted.items)|
    && Recorded(emitted, recorded, false, bits)
  }

  lemma RangeRecorded(b: Build, page: Uint16, low: Uint16, high: Uint16, width: Byte, count: nat, bits: nat,
                      recorded: Build)
    returns (emitted: Build)
    requires low <= high && count == high - low + 1 && bits == width * count
    requires b.good && b.idDecided && recorded.good && recorded == RangeMain(Prepare(b), page, low, high, width)
    ensures Emitted(b, emitted, recorded, bits)
  {
    hide PutUsageRange, PutLogical, PutData, RecordMain, Encode, Recorded;
    emitted := PutData(PutLogical(PutUsageRange(Prepare(b), page, low, high), 0, 1), width, count, INPUT, 2);
    RecordKeeps(emitted, false, count, count, width);
  }

  lemma RangeEffect(b: Build, page: Uint16, low: Uint16, high: Uint16, width: Byte, semantic: FieldSemantic)
    requires Tidy(b) && 1 <= width <= 32 && EmitRange(b, page, low, high, width, semantic).good
    ensures low <= high
    ensures InputAdded(b, EmitRange(b, page, low, high, width, semantic),
                       RangeFields(semantic, b.inputBits, RangeCount(low, high), width), RangeBits(low, high, width))
  {
    hide Tidy, Tiled, RangeMain, AddFields, RangeField, RangeFields, Laid, Encode, Recorded, InputAdded, Later, Extends;
    TidyLayout(b);
    var count: nat := high - low + 1;
    var recorded := RangeMain(Prepare(b), page, low, high, width);
    var r := EmitRange(b, page, low, high, width, semantic);
    AddFieldsGood(recorded, semantic, 0, count, width);
    var emitted := RangeRecorded(b, page, low, high, width, count, width * count, recorded);
    EmittedLayout(b, emitted, recorded, width * count);
    AddFieldsTile(recorded, semantic, 0, count, width);
    RangeBound(count, width);
    RangeIs(b.fields, r.fields, semantic, b.inputBits, count, width);
    InputAddedBy(b, emitted, recorded, r, RangeFields(semantic, b.inputBits, count, width), width * count);
  }

  /** Until then the layout is as it was. */
  lemma EmittedLayout(b: Build, emitted: Build, recorded: Build, bits: nat)
    requires Emitted(b, emitted, recorded, bits)
    ensures recorded.good && recorded.fields == b.fields && recorded.inputBits == b.inputBits
    ensures recorded.keepsLayout == b.keepsLayout && Prefix(recorded) == Prefix(b)
  {
    hide Grows, Encode;
  }

  lemma TidyLayout(b: Build)
    requires Tidy(b)
    ensures b.keepsLayout && Tiled(b.fields, Prefix(b), b.inputBits)
  {
    hide Tiled, Encode;
  }

  lemma VariableRecorded(b: Build, v: Variable, recorded: Build) returns (emitted: Build)
    requires b.good && b.idDecided && recorded.good
             && recorded == RecordMain(PutVariable(Prepare(b), v), false, 1, 1, v.width)
    ensures Emitted(b, emitted, recorded, v.width)
  {
    hide PutVariable, RecordMain, Encode, Recorded;
    emitted := PutVariable(Prepare(b), v);
    RecordKeeps(emitted, false, 1, 1, v.width);
  }

  lemma VariableEffect(b: Build, v: Variable)
    requires Tidy(b) && Proper(b, AddVariable(v)) && EmitVariable(b, v).good
    ensures InputAdded(b, EmitVariable(b, v), [FieldOf(v, b.inputBits)], v.width) && 1 <= v.width <= 32
  {
    hide Tidy, Tiled, ValueFits, PhysicalIsZero, PhysicalIsEnabled, PutVariable, RecordMain, PutPhysical, AddField,
         Encode, Emitted,
         InputAdded, Later;
    TidyLayout(b);
    var recorded := RecordMain(PutVariable(Prepare(b), v), false, 1, 1, v.width);
    var unscaled := if PhysicalIsEnabled(v.physical) then PutPhysical(recorded, NO_PHYSICAL) else recorded;
    var r := EmitVariable(b, v);
    assert unscaled.good;
    var emitted := VariableRecorded(b, v, recorded);
    EmittedLayout(b, emitted, recorded, v.width);
    AddFieldTiles(unscaled, v.semantic, v.instance, v.width, v.minimum, v.maximum, v.physical, v.nullState);
    FittingWidth(v.minimum, v.maximum, v.width);
    assert r.fields == b.fields + [FieldOf(v, b.inputBits)];
    InputAddedAfter(b, emitted, recorded, unscaled, r, [FieldOf(v, b.inputBits)], v.width);
  }

  /** As above, with items after the record that reset the Physical extents. */
  lemma InputAddedAfter(b: Build, emitted: Build, recorded: Build, unscaled: Build, r: Build, added: seq<FieldLayout>,
                        bits: nat)
    requires Emitted(b, emitted, recorded, bits)
    requires unscaled == recorded || Extends(recorded, unscaled)
    requires r == unscaled.(fields := r.fields, inputBits := r.inputBits)
    requires r.fields == b.fields + added && r.inputBits == b.inputBits + bits
             && Tiled(r.fields, Prefix(r), r.inputBits)
    ensures InputAdded(b, r, added, bits)
  {
    hide Tiled, Encode;
    var direct := recorded.(fields := r.fields, inputBits := r.inputBits);
    InputAddedBy(b, emitted, recorded, direct, added, bits);
  }

  lemma RangeBound(count: nat, width: nat)
    requires count <= 0x1_0000 && width <= 32
    ensures count * width == width * count <= 0x20_0000
  {
  }

  function PaddingField(offset: nat, bits: nat): FieldLayout {
    FieldLayout(ConstantPadding, 0, offset, bits, false, false, 0, 0, NO_PHYSICAL)
  }

  lemma PaddingEffect(b: Build, bits: Uint16)
    requires Tidy(b) && 0 < bits <= 32 && EmitPadding(b, bits).good
    ensures InputAdded(b, EmitPadding(b, bits), [PaddingField(b.inputBits, bits)], bits)
  {
    hide Tiled, PutData, RecordMain, AddField, ValueFits;
    var emitted := PutData(Prepare(b), bits, 1, INPUT, 1);
    var recorded := RecordMain(emitted, false, 0, 1, bits);
    RecordKeeps(emitted, false, 0, 1, bits);
    ZeroRangeFits(bits);
    AddFieldTiles(recorded, ConstantPadding, 0, bits % 256, 0, 0, NO_PHYSICAL, false);
  }

  lemma NoPadding(b: Build)
    ensures EmitPadding(b, 0) == b
  {
  }

  lemma ZeroRangeFits(width: nat)
    requires 1 <= width <= 32
    ensures ValueFits(0, 0, width)
  {
  }

  /** What every accepted operation keeps: the build stays in order, and what was emitted stays. */
  predicate Kept(b: Build, r: Build) {
    Tidy(r) && b.items <= r.items && b.fields <= r.fields && r.capacity == b.capacity
  }

  lemma InputTidy(b: Build, r: Build, added: seq<FieldLayout>, bits: nat)
    requires Tidy(b) && InputAdded(b, r, added, bits) && bits <= 0x20_0000
    ensures Kept(b, r)
  {
    hide Tiled;
  }

  lemma FeatureEffect(b: Build, page: Uint16, usage: Uint16, minimum: Int32, maximum: Int32, width: Byte)
    requires Tidy(b) && EmitFeature(b, page, usage, minimum, maximum, width).good
    ensures var r := EmitFeature(b, page, usage, minimum, maximum, width);
            && Tidy(r) && b.good && b.idDecided && b.items < r.items
            && r == b.(dataMain := true, items := r.items, requirements := r.requirements,
                       featureReportBits := r.featureReportBits, featureFields := r.featureFields)
            && Grows(b.featureReportBits, r.featureReportBits, b.reportId, width)
  {
    hide Tiled, PutUsage, PutLogical, PutData, RecordMain;
    var emitted := PutData(PutLogical(PutUsage(Prepare(b), page, usage), minimum, maximum), width, 1, FEATURE, 3);
    RecordKeeps(emitted, true, 1, 1, width);
  }

  /** Opening a collection counts one Usage, emits three items, and goes one level down. */
  lemma BeginShape(b: Build, kind: nat, page: Uint16, usage: Uint16) returns (put: Build)
    requires kind in {PHYSICAL, APPLICATION, LOGICAL} && BeginCollection(b, kind, page, usage).good
    ensures b.good && put == PutCollection(b.(requirements := ObserveUsages(b.requirements, 1)), kind, page, usage)
            && put.good
    ensures BeginCollection(b, kind, page, usage) == Enter(put, kind)
  {
    hide PutCollection, Enter, Encode, Later, Extends, ObserveUsages;
    put := PutCollection(b.(requirements := ObserveUsages(b.requirements, 1)), kind, page, usage);
  }

  lemma BeginTidy(b: Build, kind: nat, page: Uint16, usage: Uint16)
    requires Tidy(b) && kind in {PHYSICAL, APPLICATION, LOGICAL} && BeginCollection(b, kind, page, usage).good
    ensures var r := BeginCollection(b, kind, page, usage); Kept(b, r) && r.fields == b.fields
  {
    hide Tiled, PutCollection, ObserveUsages, Encode;
  }

  /** Closing a collection emits one item and leaves one level. */
  lemma EndShape(b: Build)
    requires EndCollection(b).good
    ensures b.good && b.depth > 0 && Put(b, PlainItem(MAIN, END_COLLECTION)).good
    ensures EndCollection(b) == Put(b, PlainItem(MAIN, END_COLLECTION)).(depth := b.depth - 1)
  {
    hide Put, Encode, Later, Extends;
  }

  lemma EndTidy(b: Build)
    requires Tidy(b) && EndCollection(b).good
    ensures var r := EndCollection(b); Kept(b, r) && r.fields == b.fields
  {
    hide Tiled, Put, Encode;
  }

  /** A tiled layout has at least one bit for every field. */
  lemma {:induction false} WidthsCount(fields: seq<FieldLayout>, from: nat, to: nat)
    requires Tiled(fields, from, to)
    ensures to - from >= |fields|
  {
    hide SoundField;
    if |fields| == 0 {
    } else {
      var n := |fields| - 1;
      assert TiledAt(fields, from, n);
      forall k | 0 <= k < n
        ensures TiledAt(fields[..n], from, k)
      {
        assert TiledAt(fields, from, k) && fields[..n][..k] == fields[..k];
      }
      WidthsCount(fields[..n], from, from + TotalWidth(fields[..n]));
      SoundIsWide(fields[n]);
    }
  }

  lemma SoundIsWide(f: FieldLayout)
    requires SoundField(f)
    ensures f.bitWidth >= 1
  {
  }

  lemma DecideTidy(b: Build, enabled: bool, id: Byte)
    requires Tidy(b) && DecideReportId(b, enabled, id).good
    ensures var r := DecideReportId(b, enabled, id); Kept(b, r) && r.fields == b.fields
  {
    hide Put;
    WidthsCount(b.fields, Prefix(b), b.inputBits);
  }

  lemma VariableTidy(b: Build, v: Variable)
    requires Tidy(b) && b.good && Proper(b, AddVariable(v)) && EmitVariable(b, v).good
    ensures Kept(b, EmitVariable(b, v))
  {
    hide Tidy, InputAdded, EmitVariable, Proper, Encode;
    VariableEffect(b, v);
    InputTidy(b, EmitVariable(b, v), [FieldOf(v, b.inputBits)], v.width);
  }

  lemma RangeTidy(b: Build, page: Uint16, low: Uint16, high: Uint16, width: Byte, semantic: FieldSemantic)
    requires Tidy(b) && b.good && 1 <= width <= 32 && EmitRange(b, page, low, high, width, semantic).good
    ensures Kept(b, EmitRange(b, page, low, high, width, semantic))
  {
    hide Tidy, InputAdded, EmitRange, RangeFields, Encode;
    RangeEffect(b, page, low, high, width, semantic);
    RangeBound(RangeCount(low, high), width);
    InputTidy(b, EmitRange(b, page, low, high, width, semantic),
              RangeFields(semantic, b.inputBits, RangeCount(low, high), width), RangeBits(low, high, width));
  }

  lemma ApplyTidy(b: Build, op: Op)
    requires Tidy(b) && b.good && Proper(b, op) && Apply(b, op).good
    ensures Kept(b, Apply(b, op))
  {
    hide Kept, Tidy, Later, Extends, Encode, BeginCollection, EndCollection, DecideReportId, EmitVariable, EmitRange,
         EmitPadding,
         EmitFeature;
    match op
    case Begin(kind, page, usage) => BeginTidy(b, kind, page, usage);
    case End => EndTidy(b);
    case SetReportId(enabled, id) => DecideTidy(b, enabled, id);
    case AddVariable(v) => VariableTidy(b, v);
    case AddRange(page, low, high, width, semantic) => RangeTidy(b, page, low, high, width, semantic);
    case Padding(bits) => PaddingTidy(b, bits);
    case PadReport => PaddingTidy(b, PaddingBits(b.inputBits));
    case Feature(page, usage, minimum, maximum, width) => FeatureTidy(b, page, usage, minimum, maximum, width);
  }

  lemma FeatureTidy(b: Build, page: Uint16, usage: Uint16, minimum: Int32, maximum: Int32, width: Byte)
    requires Tidy(b) && EmitFeature(b, page, usage, minimum, maximum, width).good
    ensures Kept(b, EmitFeature(b, page, usage, minimum, maximum, width))
  {
    hide Tidy, EmitFeature, Encode, Later;
    FeatureEffect(b, page, usage, minimum, maximum, width);
  }

  lemma PaddingTidy(b: Build, bits: Uint16)
    requires Tidy(b) && bits <= 32 && b.good && EmitPadding(b, bits).good
    ensures Kept(b, EmitPadding(b, bits))
  {
    hide Tidy, InputAdded;
    if bits != 0 {
      PaddingEffect(b, bits);
      InputTidy(b, EmitPadding(b, bits), [PaddingField(b.inputBits, bits)], bits);
    }
  }

  lemma NewTidy(capacity: nat)
    ensures Tidy(NewBuild(true, capacity))
  {
  }

  lemma {:induction false} RunTidy(capacity: nat, ops: seq<Op>)
    requires ProperRun(NewBuild(true, capacity), ops) && Run(NewBuild(true, capacity), ops).good
    ensures Tidy(Run(NewBuild(true, capacity), ops)) && Run(NewBuild(true, capacity), ops).capacity == capacity
  {
    hide Apply, Proper, Tidy;
    if |ops| == 0 {
      NewTidy(capacity);
    } else {
      var before := Run(NewBuild(true, capacity), ops[..|ops| - 1]);
      RunTidy(capacity, ops[..|ops| - 1]);
      ApplyTidy(before, ops[|ops| - 1]);
    }
  }
}
