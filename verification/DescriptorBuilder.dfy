/**
 * `DescriptorBuilder`: one pass emits the descriptor's items, the field layout and the requirement
 * maxima together (src/hid/descriptor_builder.cpp).
 */
module DescriptorBuilder {
  import opened Common
  import opened BitField
  import opened HidItems
  import opened GeneratedCheck

  // Collection kinds.
  const PHYSICAL := 0
  const APPLICATION := 1
  const LOGICAL := 2

  const DESCRIPTOR_WIRE_MAXIMUM := 65535

  /** The builder's fields; `fields` is the layout's list, kept only by the pass that fills a layout. */
  datatype Build = Build(
    keepsLayout: bool, capacity: nat, items: seq<Item>, good: bool,
    depth: nat, topSeen: bool, idDecided: bool, dataMain: bool, reportId: Byte,
    inputBits: nat, inputReportBits: map<nat, nat>, featureReportBits: map<nat, nat>,
    inputFields: map<nat, nat>, featureFields: map<nat, nat>,
    requirements: Requirements, fields: seq<FieldLayout>)

  function NewBuild(keepsLayout: bool, capacity: nat): Build {
    Build(keepsLayout, capacity, [], true, 0, false, false, false, 0, 0, map[], map[], map[], map[], NO_REQUIREMENTS,
          [])
  }

  function Count(counts: map<nat, nat>, id: nat): nat {
    if id in counts then counts[id] else 0
  }

  function Fail(b: Build): Build {
    b.(good := false)
  }

  lemma EncodeSnoc(items: seq<Item>, item: Item)
    ensures |Encode(items + [item])| == |Encode(items)| + 1 + item.size
  {
    assert (items + [item])[..|items|] == items;
  }

  // ----- Emitting items --------------------------------------------------------------------------

  /** A refusal is final, and what has been emitted stays. */
  predicate Later(b: Build, r: Build) {
    && b.good && r.good && r.keepsLayout == b.keepsLayout && r.capacity == b.capacity
    && b.items <= r.items && |Encode(b.items)| <= |Encode(r.items)|
  }

  /** Emission changes the items only, and only within the capacity. */
  predicate Extends(b: Build, r: Build) {
    b.good && r.good && r == b.(items := r.items) && b.items < r.items
        && |Encode(b.items)| < |Encode(r.items)| <= r.capacity
  }

  lemma LaterThen(b: Build, middle: Build, r: Build)
    requires Later(b, middle) && Later(middle, r)
    ensures Later(b, r)
  {
    hide Encode;
  }

  lemma ExtendsIsLater(b: Build, r: Build)
    requires Extends(b, r)
    ensures Later(b, r)
  {
    hide Encode;
  }

  function Put(b: Build, item: Item): (r: Build)
    ensures r.good ==> Extends(b, r) && |Encode(r.items)| == |Encode(b.items)| + 1 + item.size
  {
    EncodeSnoc(b.items, item);
    assert b.items <= b.items + [item];
    if b.good && |Encode(b.items)| + 1 + item.size <= b.capacity then b.(items := b.items + [item]) else Fail(b)
  }

  function PutUsage(b: Build, page: Uint16, usage: Uint16): (r: Build)
    ensures r.good ==> Extends(b, r)
  {
    Put(Put(b, UnsignedItem(GLOBAL, USAGE_PAGE, page)), UnsignedItem(LOCAL, USAGE, usage))
  }

  function PutUsageRange(b: Build, page: Uint16, usageMinimum: Uint16, usageMaximum: Uint16): (r: Build)
    ensures r.good ==> Extends(b, r)
  {
    Put(Put(Put(b, UnsignedItem(GLOBAL, USAGE_PAGE, page)), UnsignedItem(LOCAL, USAGE_MINIMUM, usageMinimum)),
        UnsignedItem(LOCAL, USAGE_MAXIMUM, usageMaximum))
  }

  function PutLogical(b: Build, minimum: Int32, maximum: Int32): (r: Build)
    ensures r.good ==> Extends(b, r)
  {
    Put(Put(b, SignedItem(GLOBAL, LOGICAL_MINIMUM, minimum)), MaximumItem(LOGICAL_MAXIMUM, maximum, minimum))
  }

  function PutPhysical(b: Build, physical: Physical): (r: Build)
    requires -8 <= physical.unitExponent <= 7
    ensures r.good ==> Extends(b, r)
  {
    var extents := Put(Put(b, SignedItem(GLOBAL, PHYSICAL_MINIMUM, physical.minimum)),
                       MaximumItem(PHYSICAL_MAXIMUM, physical.maximum, physical.minimum));
    Put(Put(extents, Item(GLOBAL, UNIT_EXPONENT, 1, physical.unitExponent % 16)),
        UnsignedItem(GLOBAL, UNIT, physical.unit))
  }

  function PutData(b: Build, size: Uint16, count: Uint32, tag: nat, flags: Uint16): (r: Build)
    requires tag in {INPUT, FEATURE}
    ensures r.good ==> Extends(b, r) && |Encode(b.items)| + 6 <= |Encode(r.items)|
  {
    hide Put, Encode;
    Put(Put(Put(b, UnsignedItem(GLOBAL, REPORT_SIZE, size)), UnsignedItem(GLOBAL, REPORT_COUNT, count)),
        UnsignedItem(MAIN, tag, flags))
  }

  // ----- Bookkeeping -----------------------------------------------------------------------------

  function Prepare(b: Build): (r: Build)
    ensures r.good ==> b.good && Later(b, r)
  {
    if !b.good || !b.idDecided then Fail(b) else b.(dataMain := true)
  }

  function WithBits(b: Build, feature: bool, requirements: Requirements, bits: nat): Build {
    if feature then b.(requirements := requirements,
                       featureReportBits := b.featureReportBits[b.reportId as nat := bits])
    else b.(requirements := requirements, inputReportBits := b.inputReportBits[b.reportId as nat := bits])
  }

  function WithFields(b: Build, feature: bool, requirements: Requirements, fields: nat): Build {
    if feature then b.(requirements := requirements, featureFields := b.featureFields[b.reportId as nat := fields])
    else b.(requirements := requirements, inputFields := b.inputFields[b.reportId as nat := fields])
  }

  lemma WithBitsKeeps(b: Build, feature: bool, requirements: Requirements, bits: nat)
    ensures var r := WithBits(b, feature, requirements, bits);
            && r.good == b.good && r.inputFields == b.inputFields && r.featureFields == b.featureFields
               && r.reportId == b.reportId
            && r.items == b.items && r.capacity == b.capacity && r.keepsLayout == b.keepsLayout
  {
  }

  lemma WithFieldsKeeps(b: Build, feature: bool, requirements: Requirements, fields: nat)
    ensures var r := WithFields(b, feature, requirements, fields);
            && r.good == b.good && r.reportId == b.reportId
            && r.items == b.items && r.capacity == b.capacity && r.keepsLayout == b.keepsLayout
  {
  }

  /** The bits that one data Main item adds to its report. */
  function RecordBits(b: Build, feature: bool, usages: nat, size: nat, added: nat): (r: Build)
    ensures r.good ==> b.good && Later(b, r)
  {
    var bits := Count(if feature then b.featureReportBits else b.inputReportBits, b.reportId) + added;
    if !b.good || size > UINT32_MAX || bits > SIZE_MAX then Fail(b)
    else
      var seen := ObserveUsages(b.requirements, usages);
      WithBits(b, feature, seen.(reportSizeBits := Max(seen.reportSizeBits, size),
                                 reportDataBits := Max(seen.reportDataBits, bits)), bits)
  }

  /** One more field with Usages in its report. */
  function RecordField(b: Build, feature: bool): (r: Build)
    ensures r.good ==> b.good && Later(b, r)
  {
    var fields := Count(if feature then b.featureFields else b.inputFields, b.reportId) + 1;
    if !b.good || fields > UINT32_MAX then Fail(b)
    else
      WithFields(b, feature, b.requirements.(fieldsPerReport := Max(b.requirements.fieldsPerReport, fields)), fields)
  }

  function RecordMain(b: Build, feature: bool, usages: nat, count: nat, size: nat): (r: Build)
    ensures r.good ==> b.good && Later(b, r)
  {
    var measured := RecordBits(b, feature, Max(usages, count), size, size * count);
    if usages == 0 then measured else RecordField(measured, feature)
  }

  /** The layout of a field at the end of the report so far. */
  function NextField(b: Build, semantic: FieldSemantic, instance: nat, width: nat, minimum: Int32, maximum: Int32,
                     physical: Physical, nullState: bool): FieldLayout
  {
    FieldLayout(semantic, instance, b.inputBits, width, minimum < 0 || maximum < 0, nullState, minimum, maximum,
                physical)
  }

  function Append(b: Build, field: FieldLayout): Build {
    b.(fields := if b.keepsLayout then b.fields + [field] else b.fields, inputBits := b.inputBits + field.bitWidth)
  }

  function AddField(b: Build, semantic: FieldSemantic, instance: nat, width: nat, minimum: Int32, maximum: Int32,
                    physical: Physical, nullState: bool): (r: Build)
    ensures r.good ==> b.good && Later(b, r)
  {
    if !b.good then b
    else if width == 0 || width > 32 || b.inputBits > SIZE_MAX - width then Fail(b)
    else Append(b, NextField(b, semantic, instance, width, minimum, maximum, physical, nullState))
  }

  /** `count` one-of-a-kind fields of a usage range, from instance `first` on. */
  function AddFields(b: Build, semantic: FieldSemantic, first: nat, count: nat, width: nat): (r: Build)
    ensures r.good ==> b.good && Later(b, r)
    decreases count
  {
    if count == 0 then b
    else AddFields(AddField(b, semantic, first, width, 0, 1, NO_PHYSICAL, false), semantic, first + 1, count - 1, width)
  }

  // ----- Operations ------------------------------------------------------------------------------

  /** The arguments of `variable`; a null physical pointer and a zero structure mean the same. */
  datatype Variable = Variable(
    page: Uint16, usage: Uint16, minimum: Int32, maximum: Int32, width: Byte, relative: bool, nullState: bool,
    semantic: FieldSemantic, instance: Uint16, noPreferred: bool, physical: Physical)

  datatype Op =
    | Begin(kind: nat, page: Uint16, usage: Uint16)
    | End
    | SetReportId(enabled: bool, id: Byte)
    | AddVariable(variable: Variable)
    | AddRange(page: Uint16, usageMinimum: Uint16, usageMaximum: Uint16, width: Byte, semantic: FieldSemantic)
    | Padding(bits: Uint16)
    | PadReport
    | Feature(page: Uint16, usage: Uint16, minimum: Int32, maximum: Int32, width: Byte)

  function PutCollection(b: Build, kind: nat, page: Uint16, usage: Uint16): (r: Build)
    requires kind in {PHYSICAL, APPLICATION, LOGICAL}
    ensures r.good ==> Extends(b, r)
  {
    Put(PutUsage(b, page, usage), UnsignedItem(MAIN, COLLECTION, kind))
  }

  function Enter(b: Build, kind: nat): (r: Build)
    ensures r.good ==> b.good && Later(b, r)
  {
    if !b.good then b
    else b.(topSeen := b.topSeen || (kind == APPLICATION && b.depth == 0), depth := b.depth + 1)
  }

  /** One Application collection at the top, everything else inside it. */
  predicate MayBegin(b: Build, kind: nat) {
    b.good && !(if kind == APPLICATION then b.depth == 0 && b.topSeen else b.depth == 0)
  }

  lemma EnteredLater(b: Build, observed: Build, put: Build, r: Build)
    requires observed == b.(requirements := observed.requirements) && (put.good ==> Extends(observed, put))
    requires r.good ==> put.good && Later(put, r)
    ensures r.good ==> b.good && Later(b, r)
  {
    hide Encode;
  }

  function BeginCollection(b: Build, kind: nat, page: Uint16, usage: Uint16): (r: Build)
    requires kind in {PHYSICAL, APPLICATION, LOGICAL}
    ensures r.good ==> b.good && Later(b, r)
  {
    hide PutCollection, ObserveUsages, Encode, Enter, Later, Extends, MayBegin;
    if !MayBegin(b, kind) then Fail(b)
    else
      var observed := b.(requirements := ObserveUsages(b.requirements, 1));
      var put := PutCollection(observed, kind, page, usage);
      var r := Enter(put, kind);
      EnteredLater(b, observed, put, r);
      r
  }

  function EndCollection(b: Build): (r: Build)
    ensures r.good ==> b.good && Later(b, r)
  {
    hide Put, Encode;
    if !b.good || b.depth == 0 then Fail(b)
    else
      var c := Put(b, PlainItem(MAIN, END_COLLECTION));
      if !c.good then c else c.(depth := b.depth - 1)
  }

  function DecideReportId(b: Build, enabled: bool, id: Byte): (r: Build)
    ensures r.good ==> b.good && Later(b, r)
  {
    if !b.good || b.idDecided || b.dataMain || (enabled && id == 0) then Fail(b)
    else if !enabled then b.(idDecided := true, reportId := 0, inputBits := 0)
    else Put(b, UnsignedItem(GLOBAL, REPORT_ID, id)).(idDecided := true, reportId := id, inputBits := 8)
  }

  function InputFlags(v: Variable): Uint16 {
    2 + (if v.relative then 4 else 0) + (if v.noPreferred then 0x20 else 0) + (if v.nullState then 0x40 else 0)
  }

  /** The items of a variable up to its Main item. */
  function PutVariable(b: Build, v: Variable): (r: Build)
    ensures r.good ==> Extends(b, r) && |Encode(b.items)| + 6 <= |Encode(r.items)|
  {
    hide PutUsage, PutLogical, PutPhysical, PutData, Encode;
    var ranged := PutLogical(PutUsage(b, v.page, v.usage), v.minimum, v.maximum);
    var scaled := if PhysicalIsEnabled(v.physical) then PutPhysical(ranged, v.physical) else ranged;
    PutData(scaled, v.width, 1, INPUT, InputFlags(v))
  }

  lemma VariableLater(b: Build, prepared: Build, emitted: Build, recorded: Build, unscaled: Build, r: Build)
    requires prepared.good ==> b.good && Later(b, prepared)
    requires emitted.good ==> Extends(prepared, emitted)
    requires recorded.good ==> emitted.good && Later(emitted, recorded)
    requires unscaled.good ==> unscaled == recorded || Extends(recorded, unscaled)
    requires r.good ==> unscaled.good && Later(unscaled, r)
    ensures r.good ==> b.good && Later(b, r)
  {
    hide Encode;
    if r.good {
      assert recorded.good && emitted.good && prepared.good;
      ExtendsIsLater(prepared, emitted);
      LaterThen(b, prepared, emitted);
      LaterThen(b, emitted, recorded);
      if unscaled != recorded {
        ExtendsIsLater(recorded, unscaled);
        LaterThen(b, recorded, unscaled);
      }
      LaterThen(b, unscaled, r);
    }
  }

  function EmitVariable(b: Build, v: Variable): (r: Build)
    ensures r.good ==> b.good && Later(b, r)
  {
    hide Prepare, PutVariable, RecordMain, PutPhysical, AddField, Encode, Later, Extends, PhysicalIsZero,
         PhysicalIsEnabled;
    if !Prepare(b).good || (!PhysicalIsZero(v.physical) && !PhysicalIsEnabled(v.physical)) then Fail(b)
    else
      var emitted := PutVariable(Prepare(b), v);
      var recorded := RecordMain(emitted, false, 1, 1, v.width);
      var unscaled := if PhysicalIsEnabled(v.physical) then PutPhysical(recorded, NO_PHYSICAL) else recorded;
      var r := AddField(unscaled, v.semantic, v.instance, v.width, v.minimum, v.maximum, v.physical, v.nullState);
      VariableLater(b, Prepare(b), emitted, recorded, unscaled, r);
      r
  }

  function EmitRange(b: Build, page: Uint16, usageMinimum: Uint16, usageMaximum: Uint16, width: Byte,
                     semantic: FieldSemantic): (r: Build)
    ensures r.good ==> b.good && Later(b, r)
  {
    if !Prepare(b).good || usageMaximum < usageMinimum then Fail(b)
    else
      var count: nat := usageMaximum - usageMinimum + 1;
      AddFields(RangeMain(Prepare(b), page, usageMinimum, usageMaximum, width), semantic, 0, count, width)
  }

  /** The items of a range and their record. */
  function RangeMain(b: Build, page: Uint16, usageMinimum: Uint16, usageMaximum: Uint16, width: Byte): (r: Build)
    requires usageMinimum <= usageMaximum
    ensures r.good ==> b.good && Later(b, r)
  {
    var count: nat := usageMaximum - usageMinimum + 1;
    var ranged := PutLogical(PutUsageRange(b, page, usageMinimum, usageMaximum), 0, 1);
    RecordMain(PutData(ranged, width, count, INPUT, 2), false, count, count, width)
  }

  /** `constant_padding`: the layout's width is the count cut to eight bits. */
  function EmitPadding(b: Build, bits: Uint16): (r: Build)
    ensures r.good ==> b.good && Later(b, r)
  {
    if bits == 0 then b
    else if !Prepare(b).good then Fail(b)
    else
      var recorded := RecordMain(PutData(Prepare(b), bits, 1, INPUT, 1), false, 0, 1, bits);
      AddField(recorded, ConstantPadding, 0, bits % 256, 0, 0, NO_PHYSICAL, false)
  }

  function EmitFeature(b: Build, page: Uint16, usage: Uint16, minimum: Int32, maximum: Int32, width: Byte): (r: Build)
    ensures r.good ==> b.good && Later(b, r)
  {
    hide PutUsage, PutLogical, PutData, RecordMain, Encode;
    if !Prepare(b).good then Fail(b)
    else
      var ranged := PutLogical(PutUsage(Prepare(b), page, usage), minimum, maximum);
      RecordMain(PutData(ranged, width, 1, FEATURE, 3), true, 1, 1, width)
  }

  /** Bits up to the next byte boundary. */
  function PaddingBits(inputBits: nat): Uint16 {
    (8 - inputBits % 8) % 8
  }

  function Apply(b: Build, op: Op): (r: Build)
    ensures r.good ==> b.good && Later(b, r)
  {
    match op
    case Begin(kind, page, usage) => if kind in {PHYSICAL, APPLICATION, LOGICAL} then
        BeginCollection(b, kind, page, usage) else Fail(b)
    case End => EndCollection(b)
    case SetReportId(enabled, id) => DecideReportId(b, enabled, id)
    case AddVariable(v) => EmitVariable(b, v)
    case AddRange(page, low, high, width, semantic) => EmitRange(b, page, low, high, width, semantic)
    case Padding(bits) => EmitPadding(b, bits)
    case PadReport => EmitPadding(b, PaddingBits(b.inputBits))
    case Feature(page, usage, minimum, maximum, width) => EmitFeature(b, page, usage, minimum, maximum, width)
  }

  function Run(b: Build, ops: seq<Op>): Build {
    if |ops| == 0 then b else Apply(Run(b, ops[..|ops| - 1]), ops[|ops| - 1])
  }

  /** `finish`. */
  function Finished(b: Build): Build {
    if b.depth != 0 then Fail(b) else b
  }

  function LayoutOf(b: Build): ReportLayout {
    ReportLayout(b.reportId != 0, b.reportId, CeilDiv(b.inputBits, 8), b.fields)
  }

  // ----- The object ------------------------------------------------------------------------------

  /** The object is where the specification says; after a refusal only the refusal itself matters. */
  predicate Reaches(now: Build, spec: Build) {
    now.good == spec.good && (spec.good ==> now == spec)
  }

  lemma AddFieldsNext(b: Build, semantic: FieldSemantic, first: nat, count: nat, width: nat)
    requires count > 0
    ensures var one := AddField(b, semantic, first, width, 0, 1, NO_PHYSICAL, false);
            && AddFields(b, semantic, first, count, width) == AddFields(one, semantic, first + 1, count - 1, width)
            && (!one.good ==> !AddFields(b, semantic, first, count, width).good)
  {
    hide AddField, Later, Encode;
  }

  lemma AddFieldsEnd(b: Build, semantic: FieldSemantic, first: nat, width: nat)
    ensures AddFields(b, semantic, first, 0, width) == b
    ensures !b.good ==> forall count: nat :: !AddFields(b, semantic, 0, count, width).good
  {
    hide AddField, Encode;
  }

  class DescriptorBuilder {
    const writer: ItemWriter
    const keepsLayout: bool
    var good: bool
    var depth: nat
    var topSeen: bool
    var idDecided: bool
    var dataMain: bool
    var reportId: Byte
    var inputBits: nat
    var inputReportBits: map<nat, nat>
    var featureReportBits: map<nat, nat>
    var inputFields: map<nat, nat>
    var featureFields: map<nat, nat>
    var requirements: Requirements
    var fields: seq<FieldLayout>

    ghost function State(): Build
      reads this, writer
    {
      Build(keepsLayout, writer.capacity, writer.items, good, depth, topSeen, idDecided, dataMain, reportId, inputBits,
            inputReportBits, featureReportBits, inputFields, featureFields, requirements, fields)
    }

    ghost predicate Valid()
      reads this, writer, writer.bytes
    {
      writer.Valid() && (good ==> writer.good)
    }

    constructor (bytes: array?<Byte>, capacity: nat, keepsLayout: bool)
      requires bytes != null ==> bytes.Length == capacity
      ensures Valid() && fresh(writer) && writer.bytes == bytes
      ensures State() == NewBuild(keepsLayout, capacity)
    {
      writer := new ItemWriter(bytes, capacity);
      this.keepsLayout := keepsLayout;
      good, depth, topSeen, idDecided, dataMain := true, 0, false, false, false;
      reportId, inputBits := 0, 0;
      inputReportBits, featureReportBits, inputFields, featureFields := map[], map[], map[], map[];
      requirements, fields := NO_REQUIREMENTS, [];
    }

    /** `good_ = good_ && writer_.emit(item)`. */
    method PutItem(item: Item)
      requires Valid()
      modifies this`good, writer, writer.bytes
      ensures Valid() && Reaches(State(), Put(old(State()), item))
    {
      if good {
        good := writer.Emit(item);
      }
    }

    method PutUsageItems(page: Uint16, usage: Uint16)
      requires Valid()
      modifies this`good, writer, writer.bytes
      ensures Valid() && Reaches(State(), PutUsage(old(State()), page, usage))
    {
      hide Put;
      PutItem(UnsignedItem(GLOBAL, USAGE_PAGE, page));
      PutItem(UnsignedItem(LOCAL, USAGE, usage));
    }

    method PutUsageRangeItems(page: Uint16, usageMinimum: Uint16, usageMaximum: Uint16)
      requires Valid()
      modifies this`good, writer, writer.bytes
      ensures Valid() && Reaches(State(), PutUsageRange(old(State()), page, usageMinimum, usageMaximum))
    {
      hide Put;
      PutItem(UnsignedItem(GLOBAL, USAGE_PAGE, page));
      PutItem(UnsignedItem(LOCAL, USAGE_MINIMUM, usageMinimum));
      PutItem(UnsignedItem(LOCAL, USAGE_MAXIMUM, usageMaximum));
    }

    method PutLogicalItems(minimum: Int32, maximum: Int32)
      requires Valid()
      modifies this`good, writer, writer.bytes
      ensures Valid() && Reaches(State(), PutLogical(old(State()), minimum, maximum))
    {
      PutItem(SignedItem(GLOBAL, LOGICAL_MINIMUM, minimum));
      PutItem(MaximumItem(LOGICAL_MAXIMUM, maximum, minimum));
    }

    method PutUnitExponent(value: Int32)
      requires Valid() && -8 <= value <= 7
      modifies this`good, writer, writer.bytes
      ensures Valid() && Reaches(State(), Put(old(State()), Item(GLOBAL, UNIT_EXPONENT, 1, value % 16)))
    {
      if good {
        good := writer.UnitExponent(value);
      }
    }

    method PutPhysicalItems(physical: Physical)
      requires Valid() && -8 <= physical.unitExponent <= 7
      modifies this`good, writer, writer.bytes
      ensures Valid() && Reaches(State(), PutPhysical(old(State()), physical))
    {
      hide Put;
      PutItem(SignedItem(GLOBAL, PHYSICAL_MINIMUM, physical.minimum));
      PutItem(MaximumItem(PHYSICAL_MAXIMUM, physical.maximum, physical.minimum));
      PutUnitExponent(physical.unitExponent);
      PutItem(UnsignedItem(GLOBAL, UNIT, physical.unit));
    }

    method PutDataItems(size: Uint16, count: Uint32, tag: nat, flags: Uint16)
      requires Valid() && tag in {INPUT, FEATURE}
      modifies this`good, writer, writer.bytes
      ensures Valid() && Reaches(State(), PutData(old(State()), size, count, tag, flags))
    {
      hide Put;
      PutItem(UnsignedItem(GLOBAL, REPORT_SIZE, size));
      PutItem(UnsignedItem(GLOBAL, REPORT_COUNT, count));
      PutItem(UnsignedItem(MAIN, tag, flags));
    }

    method PutCollectionItems(kind: nat, page: Uint16, usage: Uint16)
      requires Valid() && kind in {PHYSICAL, APPLICATION, LOGICAL}
      modifies this`good, writer, writer.bytes
      ensures Valid() && Reaches(State(), PutCollection(old(State()), kind, page, usage))
    {
      hide PutUsage, Put, Later;
      PutUsageItems(page, usage);
      PutItem(UnsignedItem(MAIN, COLLECTION, kind));
    }

    /** `begin_application`, `begin_logical` and `begin_physical`. */
    method Begin(kind: nat, page: Uint16, usage: Uint16) returns (ok: bool)
      requires Valid() && kind in {PHYSICAL, APPLICATION, LOGICAL}
      modifies this, writer, writer.bytes
      ensures Valid() && ok == good && Reaches(State(), BeginCollection(old(State()), kind, page, usage))
    {
      hide PutCollection, Enter, Later;
      if !good || (kind == APPLICATION && depth == 0 && topSeen) || (kind != APPLICATION && depth == 0) {
        good := false;
        return false;
      }
      requirements := ObserveUsages(requirements, 1);
      PutCollectionItems(kind, page, usage);
      EnterCollection(kind);
      return good;
    }

    method EnterCollection(kind: nat)
      requires Valid()
      modifies this`topSeen, this`depth
      ensures Valid() && Reaches(State(), Enter(old(State()), kind))
    {
      if good {
        if kind == APPLICATION {
          topSeen := topSeen || depth == 0;
        }
        depth := depth + 1;
      }
    }

    method End() returns (ok: bool)
      requires Valid()
      modifies this, writer, writer.bytes
      ensures Valid() && ok == good && Reaches(State(), EndCollection(old(State())))
    {
      if !good || depth == 0 {
        good := false;
        return false;
      }
      PutItem(PlainItem(MAIN, END_COLLECTION));
      if good {
        depth := depth - 1;
      }
      return good;
    }

    method SetReportId(enabled: bool, id: Byte) returns (ok: bool)
      requires Valid()
      modifies this, writer, writer.bytes
      ensures Valid() && ok == good && Reaches(State(), DecideReportId(old(State()), enabled, id))
    {
      if !good || idDecided || dataMain {
        good := false;
        return false;
      }
      idDecided := true;
      if !enabled {
        reportId := 0;
        inputBits := 0;
        return true;
      }
      if id == 0 {
        good := false;
        return false;
      }
      PutItem(UnsignedItem(GLOBAL, REPORT_ID, id));
      reportId := id;
      inputBits := 8;
      return good;
    }

    method PrepareDataMain() returns (ok: bool)
      requires Valid()
      modifies this`good, this`dataMain
      ensures Valid() && ok == good && Reaches(State(), Prepare(old(State())))
    {
      if !good || !idDecided {
        good := false;
        return false;
      }
      dataMain := true;
      return true;
    }

    /** `record_main`, called only while the builder is good. */
    method Record(feature: bool, usages: nat, count: nat, size: nat)
      requires Valid() && good
      modifies this`good, this`requirements, this`inputReportBits, this`featureReportBits, this`inputFields,
               this`featureFields
      ensures Valid() && Reaches(State(), RecordMain(old(State()), feature, usages, count, size))
    {
      hide RecordBits, RecordField, Later;
      MeasureReport(feature, Max(usages, count), size, size * count);
      if good && usages != 0 {
        CountField(feature);
      }
    }

    method MeasureReport(feature: bool, usages: nat, size: nat, added: nat)
      requires Valid() && good
      modifies this`good, this`requirements, this`inputReportBits, this`featureReportBits
      ensures Valid() && Reaches(State(), RecordBits(old(State()), feature, usages, size, added))
    {
      requirements := ObserveUsages(requirements, usages);
      if size > UINT32_MAX {
        good := false;
        return;
      }
      requirements := requirements.(reportSizeBits := Max(requirements.reportSizeBits, size));
      var bits := Count(if feature then featureReportBits else inputReportBits, reportId);
      if bits > SIZE_MAX - added {
        good := false;
        return;
      }
      bits := bits + added;
      if feature {
        featureReportBits := featureReportBits[reportId as nat := bits];
      } else {
        inputReportBits := inputReportBits[reportId as nat := bits];
      }
      requirements := requirements.(reportDataBits := Max(requirements.reportDataBits, bits));
    }

    method CountField(feature: bool)
      requires Valid() && good
      modifies this`good, this`requirements, this`inputFields, this`featureFields
      ensures Valid() && Reaches(State(), RecordField(old(State()), feature))
    {
      var count := Count(if feature then featureFields else inputFields, reportId);
      if count >= UINT32_MAX {
        good := false;
        return;
      }
      count := count + 1;
      if feature {
        featureFields := featureFields[reportId as nat := count];
      } else {
        inputFields := inputFields[reportId as nat := count];
      }
      requirements := requirements.(fieldsPerReport := Max(requirements.fieldsPerReport, count));
    }

    method AddLayout(semantic: FieldSemantic, instance: nat, width: nat, minimum: Int32, maximum: Int32,
                     physical: Physical, nullState: bool)
      requires Valid() && good
      modifies this`good, this`fields, this`inputBits
      ensures Valid()
      ensures Reaches(State(), AddField(old(State()), semantic, instance, width, minimum, maximum, physical, nullState))
    {
      if width == 0 || width > 32 || inputBits > SIZE_MAX - width {
        good := false;
        return;
      }
      if keepsLayout {
        fields := fields + [FieldLayout(semantic, instance, inputBits, width, minimum < 0 || maximum < 0, nullState,
                                        minimum, maximum, physical)];
      }
      inputBits := inputBits + width;
    }

    method PutVariableItems(v: Variable)
      requires Valid()
      modifies this`good, writer, writer.bytes
      ensures Valid() && Reaches(State(), PutVariable(old(State()), v))
    {
      hide PutUsage, PutLogical, PutPhysical, PutData, Later;
      PutUsageItems(v.page, v.usage);
      PutLogicalItems(v.minimum, v.maximum);
      if good && PhysicalIsEnabled(v.physical) {
        PutPhysicalItems(v.physical);
      }
      PutDataItems(v.width, 1, INPUT, InputFlags(v));
    }

    /** `variable`. */
    method AddVariable(v: Variable) returns (ok: bool)
      requires Valid()
      modifies this, writer, writer.bytes
      ensures Valid() && ok == good && Reaches(State(), EmitVariable(old(State()), v))
    {
      hide PutVariable, PutPhysical, RecordMain, AddField, PhysicalIsZero, Later, Encode;
      ok := PrepareDataMain();
      if !ok {
        return false;
      }
      if !PhysicalIsZero(v.physical) && !PhysicalIsEnabled(v.physical) {
        good := false;
        return false;
      }
      var hasPhysical := PhysicalIsEnabled(v.physical);
      PutVariableItems(v);
      if good {
        Record(false, 1, 1, v.width);
      }
      if good && hasPhysical {
        PutPhysicalItems(NO_PHYSICAL);
      }
      if good {
        AddLayout(v.semantic, v.instance, v.width, v.minimum, v.maximum, v.physical, v.nullState);
      }
      return good;
    }

    /** `variable_range`. */
    method AddRange(page: Uint16, usageMinimum: Uint16, usageMaximum: Uint16, width: Byte, semantic: FieldSemantic)
      returns (ok: bool)
      requires Valid()
      modifies this, writer, writer.bytes
      ensures Valid() && ok == good
      ensures Reaches(State(), EmitRange(old(State()), page, usageMinimum, usageMaximum, width, semantic))
    {
      hide RangeMain, AddFields, Encode, Later, AddField, ObserveUsages;
      ok := PrepareDataMain();
      if !ok {
        return false;
      }
      if usageMaximum < usageMinimum {
        good := false;
        return false;
      }
      PutRange(page, usageMinimum, usageMaximum, width);
      AddLayouts(semantic, usageMaximum - usageMinimum + 1, width);
      return good;
    }

    /** The items of a range and their record. */
    method PutRange(page: Uint16, usageMinimum: Uint16, usageMaximum: Uint16, width: Byte)
      requires Valid() && usageMinimum <= usageMaximum
      modifies this, writer, writer.bytes
      ensures Valid() && Reaches(State(), RangeMain(old(State()), page, usageMinimum, usageMaximum, width))
    {
      hide PutUsageRange, PutLogical, PutData, RecordMain, Encode, Later;
      var count: nat := usageMaximum - usageMinimum + 1;
      PutUsageRangeItems(page, usageMinimum, usageMaximum);
      PutLogicalItems(0, 1);
      PutDataItems(width, count, INPUT, 2);
      if good {
        Record(false, count, count, width);
      }
    }

    /** The layout loop of `variable_range`. */
    method AddLayouts(semantic: FieldSemantic, count: nat, width: nat)
      requires Valid()
      modifies this`good, this`fields, this`inputBits
      ensures Valid() && Reaches(State(), AddFields(old(State()), semantic, 0, count, width))
    {
      hide AddField, AddFields, Later, Encode;
      ghost var start := State();
      var index := 0;
      AddFieldsEnd(start, semantic, count, width);
      while good && index < count
        invariant index <= count && Valid()
        invariant good ==> AddFields(start, semantic, 0, count, width)
                           == AddFields(State(), semantic, index, count - index, width)
        invariant !good ==> !AddFields(start, semantic, 0, count, width).good
      {
        AddFieldsNext(State(), semantic, index, count - index, width);
        AddLayout(semantic, index, width, 0, 1, NO_PHYSICAL, false);
        index := index + 1;
      }
      AddFieldsEnd(State(), semantic, index, width);
    }

    /** `constant_padding`. */
    method AddPadding(bits: Uint16) returns (ok: bool)
      requires Valid()
      modifies this, writer, writer.bytes
      ensures Valid() && (bits != 0 ==> ok == good) && Reaches(State(), EmitPadding(old(State()), bits))
    {
      hide PutData, RecordMain, AddField, Later;
      if bits == 0 {
        return true;
      }
      ok := PrepareDataMain();
      if !ok {
        return false;
      }
      PutDataItems(bits, 1, INPUT, 1);
      if good {
        Record(false, 0, 1, bits);
      }
      if good {
        AddLayout(ConstantPadding, 0, bits % 256, 0, 0, NO_PHYSICAL, false);
      }
      return good;
    }

    /** `pad_report` of the factories. */
    method PadToByte()
      requires Valid()
      modifies this, writer, writer.bytes
      ensures Valid() && Reaches(State(), Apply(old(State()), PadReport))
    {
      var padding := PaddingBits(inputBits);
      if padding != 0 {
        var _ := AddPadding(padding);
      }
    }

    /** `feature_static_value`. */
    method AddFeature(page: Uint16, usage: Uint16, minimum: Int32, maximum: Int32, width: Byte) returns (ok: bool)
      requires Valid()
      modifies this, writer, writer.bytes
      ensures Valid() && ok == good && Reaches(State(), EmitFeature(old(State()), page, usage, minimum, maximum, width))
    {
      hide PutUsage, PutLogical, PutData, RecordMain, Later;
      ok := PrepareDataMain();
      if !ok {
        return false;
      }
      PutUsageItems(page, usage);
      PutLogicalItems(minimum, maximum);
      PutDataItems(width, 1, FEATURE, 3);
      if good {
        Record(true, 1, 1, width);
      }
      return good;
    }

    /** `finish`. */
    method Finish()
      requires Valid()
      modifies this`good
      ensures Valid() && Reaches(State(), Finished(old(State())))
    {
      if depth != 0 {
        good := false;
      }
    }
  }
}
