/**
 * The builder and `validate_generated` agree: whatever a proper run emits is accepted, unless a field
 * breaks the four-byte rule, and then that is the complaint.
 */
module GeneratedAgreement {
  import opened Common
  import opened BitField
  import opened HidItems
  import opened HidWalk
  import opened GeneratedCheck
  import opened DescriptorBuilder
  import opened BuilderFacts

  /** The structure checker's verdict on what the builder has emitted. */
  function Walk(b: Build): Outcome<Structure> {
    WalkItems(STRUCTURE_CHECKER, NO_STRUCTURE, b.items)
  }

  function Then(o: Outcome<Structure>, item: Item): Outcome<Structure> {
    match o
    case Reject(issue) => Reject(issue)
    case Accept(s) => StructureStep(s, item)
  }

  lemma WalkPut(b: Build, item: Item)
    requires Put(b, item).good
    ensures Walk(Put(b, item)) == Then(Walk(b), item)
  {
    WalkSnoc(STRUCTURE_CHECKER, NO_STRUCTURE, b.items, item);
  }

  // ----- Items that the structure checker only passes over ---------------------------------------

  predicate Unseen(item: Item) {
    item.kind == LOCAL || (item.kind == GLOBAL && item.tag <= UNIT)
  }

  lemma WalkUnseen(b: Build, item: Item)
    requires Put(b, item).good && Unseen(item)
    ensures Walk(Put(b, item)) == Walk(b)
  {
    hide Put, Walk, StructureMain;
    WalkPut(b, item);
  }

  lemma WalkUsage(b: Build, page: Uint16, usage: Uint16)
    requires PutUsage(b, page, usage).good
    ensures Walk(PutUsage(b, page, usage)) == Walk(b)
  {
    hide Put, Walk;
    var paged := Put(b, UnsignedItem(GLOBAL, USAGE_PAGE, page));
    WalkUnseen(b, UnsignedItem(GLOBAL, USAGE_PAGE, page));
    WalkUnseen(paged, UnsignedItem(LOCAL, USAGE, usage));
  }

  lemma WalkUsageRange(b: Build, page: Uint16, low: Uint16, high: Uint16)
    requires PutUsageRange(b, page, low, high).good
    ensures Walk(PutUsageRange(b, page, low, high)) == Walk(b)
  {
    hide Put, Walk;
    var paged := Put(b, UnsignedItem(GLOBAL, USAGE_PAGE, page));
    var lowered := Put(paged, UnsignedItem(LOCAL, USAGE_MINIMUM, low));
    WalkUnseen(b, UnsignedItem(GLOBAL, USAGE_PAGE, page));
    WalkUnseen(paged, UnsignedItem(LOCAL, USAGE_MINIMUM, low));
    WalkUnseen(lowered, UnsignedItem(LOCAL, USAGE_MAXIMUM, high));
  }

  lemma WalkLogical(b: Build, minimum: Int32, maximum: Int32)
    requires PutLogical(b, minimum, maximum).good
    ensures Walk(PutLogical(b, minimum, maximum)) == Walk(b)
  {
    hide Put, Walk;
    var lowered := Put(b, SignedItem(GLOBAL, LOGICAL_MINIMUM, minimum));
    WalkUnseen(b, SignedItem(GLOBAL, LOGICAL_MINIMUM, minimum));
    WalkUnseen(lowered, MaximumItem(LOGICAL_MAXIMUM, maximum, minimum));
  }

  lemma WalkPhysical(b: Build, p: Physical)
    requires -8 <= p.unitExponent <= 7 && PutPhysical(b, p).good
    ensures Walk(PutPhysical(b, p)) == Walk(b)
  {
    hide Put, Walk;
    var lowered := Put(b, SignedItem(GLOBAL, PHYSICAL_MINIMUM, p.minimum));
    var extents := Put(lowered, MaximumItem(PHYSICAL_MAXIMUM, p.maximum, p.minimum));
    var scaled := Put(extents, Item(GLOBAL, UNIT_EXPONENT, 1, p.unitExponent % 16));
    WalkUnseen(b, SignedItem(GLOBAL, PHYSICAL_MINIMUM, p.minimum));
    WalkUnseen(lowered, MaximumItem(PHYSICAL_MAXIMUM, p.maximum, p.minimum));
    WalkUnseen(extents, Item(GLOBAL, UNIT_EXPONENT, 1, p.unitExponent % 16));
    WalkUnseen(scaled, UnsignedItem(GLOBAL, UNIT, p.unit));
  }

  // ----- Items it acts on ------------------------------------------------------------------------

  function Sized(s: Structure, size: nat, count: nat): Structure {
    s.(reportSize := size, reportCount := count)
  }

  lemma WalkData(b: Build, size: Uint16, count: Uint32, tag: nat, flags: Uint16, s: Structure)
    requires tag in {INPUT, FEATURE} && PutData(b, size, count, tag, flags).good && Walk(b) == Accept(s)
    ensures Walk(PutData(b, size, count, tag, flags)) == StructureData(Sized(s, size, count),
                                                                       UnsignedItem(MAIN, tag, flags))
  {
    hide Put, Walk, StructureData;
    var sized := Put(b, UnsignedItem(GLOBAL, REPORT_SIZE, size));
    var counted := Put(sized, UnsignedItem(GLOBAL, REPORT_COUNT, count));
    WalkPut(b, UnsignedItem(GLOBAL, REPORT_SIZE, size));
    WalkPut(sized, UnsignedItem(GLOBAL, REPORT_COUNT, count));
    WalkPut(counted, UnsignedItem(MAIN, tag, flags));
  }

  lemma WalkCollection(b: Build, kind: nat, page: Uint16, usage: Uint16, s: Structure)
    requires kind in {PHYSICAL, APPLICATION, LOGICAL} && PutCollection(b, kind, page, usage).good
             && Walk(b) == Accept(s)
    ensures Walk(PutCollection(b, kind, page, usage)) == StructureCollection(s, UnsignedItem(MAIN, COLLECTION, kind))
  {
    hide Put, Walk, PutUsage, StructureCollection;
    WalkUsage(b, page, usage);
    WalkPut(PutUsage(b, page, usage), UnsignedItem(MAIN, COLLECTION, kind));
  }

  lemma SameItems(b: Build, c: Build)
    requires b.items == c.items
    ensures Walk(b) == Walk(c)
  {
  }

  lemma PhysicalExponent(p: Physical)
    ensures PhysicalIsEnabled(p) ==> -8 <= p.unitExponent <= 7
    ensures -8 <= NO_PHYSICAL.unitExponent <= 7
  {
  }

  lemma WalkVariable(b: Build, v: Variable, s: Structure)
    requires EmitVariable(b, v).good && Walk(b) == Accept(s)
    ensures Walk(EmitVariable(b, v)) == StructureData(Sized(s, v.width, 1), UnsignedItem(MAIN, INPUT, InputFlags(v)))
  {
    hide Walk, Put, PutUsage, PutLogical, PutPhysical, PutData, RecordMain, AddField, PhysicalIsZero, PhysicalIsEnabled,
         InputFlags, StructureData;
    PhysicalExponent(v.physical);
    var used := PutUsage(Prepare(b), v.page, v.usage);
    var ranged := PutLogical(used, v.minimum, v.maximum);
    var scaled := if PhysicalIsEnabled(v.physical) then PutPhysical(ranged, v.physical) else ranged;
    var emitted := PutData(scaled, v.width, 1, INPUT, InputFlags(v));
    var recorded := RecordMain(emitted, false, 1, 1, v.width);
    var unscaled := if PhysicalIsEnabled(v.physical) then PutPhysical(recorded, NO_PHYSICAL) else recorded;
    assert emitted == PutVariable(Prepare(b), v);
    AddFieldGood(unscaled, v.semantic, v.instance, v.width, v.minimum, v.maximum, v.physical, v.nullState);
    RecordKeeps(emitted, false, 1, 1, v.width);
    SameItems(b, Prepare(b));
    WalkUsage(Prepare(b), v.page, v.usage);
    WalkLogical(used, v.minimum, v.maximum);
    if PhysicalIsEnabled(v.physical) {
      WalkPhysical(ranged, v.physical);
      WalkPhysical(recorded, NO_PHYSICAL);
    }
    WalkData(scaled, v.width, 1, INPUT, InputFlags(v), s);
    SameItems(emitted, recorded);
    SameItems(unscaled, EmitVariable(b, v));
  }

  lemma WalkRange(b: Build, page: Uint16, low: Uint16, high: Uint16, width: Byte, semantic: FieldSemantic, s: Structure)
    requires EmitRange(b, page, low, high, width, semantic).good && Walk(b) == Accept(s)
    ensures Walk(EmitRange(b, page, low, high, width, semantic))
            == StructureData(Sized(s, width, RangeCount(low, high)), UnsignedItem(MAIN, INPUT, 2))
  {
    hide Walk, Put, PutUsageRange, PutLogical, PutData, RecordMain, AddFields, StructureData;
    var count: nat := RangeCount(low, high);
    var used := PutUsageRange(Prepare(b), page, low, high);
    var ranged := PutLogical(used, 0, 1);
    var emitted := PutData(ranged, width, count, INPUT, 2);
    var recorded := RecordMain(emitted, false, count, count, width);
    assert RangeMain(Prepare(b), page, low, high, width) == recorded;
    AddFieldsGood(recorded, semantic, 0, count, width);
    RecordKeeps(emitted, false, count, count, width);
    SameItems(b, Prepare(b));
    WalkUsageRange(Prepare(b), page, low, high);
    WalkLogical(used, 0, 1);
    WalkData(ranged, width, count, INPUT, 2, s);
    SameItems(emitted, recorded);
    SameItems(recorded, EmitRange(b, page, low, high, width, semantic));
  }

  lemma WalkPadding(b: Build, bits: Uint16, s: Structure)
    requires bits > 0 && EmitPadding(b, bits).good && Walk(b) == Accept(s)
    ensures Walk(EmitPadding(b, bits)) == StructureData(Sized(s, bits, 1), UnsignedItem(MAIN, INPUT, 1))
  {
    hide Walk, Put, PutData, RecordMain, AddField, StructureData;
    var emitted := PutData(Prepare(b), bits, 1, INPUT, 1);
    var recorded := RecordMain(emitted, false, 0, 1, bits);
    AddFieldGood(recorded, ConstantPadding, 0, bits % 256, 0, 0, NO_PHYSICAL, false);
    RecordKeeps(emitted, false, 0, 1, bits);
    SameItems(b, Prepare(b));
    WalkData(Prepare(b), bits, 1, INPUT, 1, s);
    SameItems(emitted, recorded);
    SameItems(recorded, EmitPadding(b, bits));
  }

  lemma WalkFeature(b: Build, page: Uint16, usage: Uint16, minimum: Int32, maximum: Int32, width: Byte, s: Structure)
    requires EmitFeature(b, page, usage, minimum, maximum, width).good && Walk(b) == Accept(s)
    ensures Walk(EmitFeature(b, page, usage, minimum, maximum, width))
            == StructureData(Sized(s, width, 1), UnsignedItem(MAIN, FEATURE, 3))
  {
    hide Walk, Put, PutUsage, PutLogical, PutData, RecordMain, StructureData;
    var used := PutUsage(Prepare(b), page, usage);
    var ranged := PutLogical(used, minimum, maximum);
    var emitted := PutData(ranged, width, 1, FEATURE, 3);
    RecordKeeps(emitted, true, 1, 1, width);
    SameItems(b, Prepare(b));
    WalkUsage(Prepare(b), page, usage);
    WalkLogical(used, minimum, maximum);
    WalkData(ranged, width, 1, FEATURE, 3, s);
    SameItems(emitted, EmitFeature(b, page, usage, minimum, maximum, width));
  }

  // ----- The simulation --------------------------------------------------------------------------

  /** The structure checker, having read the emitted items, knows what the builder knows. */
  predicate Follows(b: Build, s: Structure) {
    && s.depth == b.depth && s.topLevels == (if b.topSeen then 1 else 0)
    && s.reportId == b.reportId && s.idSeen == (b.reportId != 0) && s.mainSeen == b.dataMain
    && s.inputBits == Count(b.inputReportBits, b.reportId)
    && s.featureBits == Count(b.featureReportBits, b.reportId)
  }

  predicate Simulates(b: Build) {
    Walk(b).Accept? && Follows(b, Walk(b).state)
  }

  /** The Report ID byte does not move any field within its bytes. */
  lemma PrefixKeepsBytes(offset: nat, width: nat)
    requires width > 0
    ensures TouchedBytes(offset + 8, width) == TouchedBytes(offset, width)
  {
  }

  /** The item's fields are the layout's, so the item's span is valid when they keep the rule. */
  lemma SpanOfFields(b: Build, fields: seq<FieldLayout>, added: seq<FieldLayout>, bits: nat, width: nat)
    requires FourByteRule(fields) && 1 <= width && b.fields + added <= fields
    requires Prefix(b) + bits == b.inputBits
    requires forall i :: 0 <= i < |added| ==>
               added[i].bitWidth == width && added[i].bitOffset == b.inputBits + i * width
    ensures SpanOk(bits, width, |added|)
  {
    forall i | 0 <= i < |added|
      ensures FieldFits(bits, width, i)
    {
      assert WithinFourBytes(fields[|b.fields| + i]);
      assert fields[|b.fields| + i] == added[i];
      PrefixKeepsBytes(bits + i * width, width);
    }
  }

  /** An Input item whose fields keep the rule is accepted and counted. */
  lemma InputSimulates(b: Build, r: Build, added: seq<FieldLayout>, bits: nat, size: nat, flags: Uint16)
    requires Tidy(b) && Simulates(b) && b.depth > 0 && InputAdded(b, r, added, bits)
    requires 1 <= size <= 32 && |added| > 0 && bits == |added| * size
    requires forall i :: 0 <= i < |added| ==> added[i].bitWidth == size && added[i].bitOffset == b.inputBits + i * size
    requires FourByteRule(r.fields)
    requires Walk(r) == StructureData(Sized(Walk(b).state, size, |added|), UnsignedItem(MAIN, INPUT, flags))
    ensures Simulates(r)
  {
    hide Walk, SpanOk, FourByteRule, Tiled, Encode;
    SpanOfFields(b, r.fields, added, Walk(b).state.inputBits, size);
    assert size * |added| == bits;
  }

  lemma CollectionSimulates(b: Build, kind: nat, page: Uint16, usage: Uint16)
    requires Tidy(b) && Simulates(b) && kind in {PHYSICAL, APPLICATION, LOGICAL}
    ensures BeginCollection(b, kind, page, usage).good ==> Simulates(BeginCollection(b, kind, page, usage))
  {
    hide Walk, PutCollection, Encode, Later, ObserveUsages;
    if BeginCollection(b, kind, page, usage).good {
      var observed := b.(requirements := ObserveUsages(b.requirements, 1));
      SameItems(b, observed);
      WalkCollection(observed, kind, page, usage, Walk(b).state);
      SameItems(PutCollection(observed, kind, page, usage), BeginCollection(b, kind, page, usage));
    }
  }

  lemma EndSimulates(b: Build)
    requires Simulates(b) && EndCollection(b).good
    ensures Simulates(EndCollection(b))
  {
    hide Walk, Put, EndCollection, Encode, Later;
    EndShape(b);
    WalkPut(b, PlainItem(MAIN, END_COLLECTION));
    SameItems(Put(b, PlainItem(MAIN, END_COLLECTION)), EndCollection(b));
  }

  lemma DecideSimulates(b: Build, enabled: bool, id: Byte)
    requires Tidy(b) && Simulates(b) && DecideReportId(b, enabled, id).good
    ensures Simulates(DecideReportId(b, enabled, id))
  {
    hide Walk, Put;
    if enabled {
      WalkPut(b, UnsignedItem(GLOBAL, REPORT_ID, id));
      SameItems(Put(b, UnsignedItem(GLOBAL, REPORT_ID, id)), DecideReportId(b, enabled, id));
    } else {
      SameItems(b, DecideReportId(b, enabled, id));
    }
  }

  lemma PaddingSimulates(b: Build, bits: Uint16)
    requires Tidy(b) && Simulates(b) && bits <= 32 && (bits != 0 ==> b.depth > 0) && b.good && EmitPadding(b, bits).good
    requires FourByteRule(EmitPadding(b, bits).fields)
    ensures Simulates(EmitPadding(b, bits))
  {
    hide Walk, Tidy, Follows, InputAdded, FourByteRule, EmitPadding;
    if bits == 0 {
      NoPadding(b);
    } else {
      PaddingEffect(b, bits);
      WalkPadding(b, bits, Walk(b).state);
      InputSimulates(b, EmitPadding(b, bits), [PaddingField(b.inputBits, bits)], bits, bits, 1);
    }
  }

  lemma DataSimulates(b: Build, op: Op)
    requires op.AddVariable? || op.AddRange?
    requires Tidy(b) && Simulates(b) && Proper(b, op) && Apply(b, op).good && FourByteRule(Apply(b, op).fields)
    ensures Simulates(Apply(b, op))
  {
    hide Walk, Tidy, Simulates, InputAdded, FourByteRule, EmitVariable, EmitRange, ValueFits, InputFlags;
    assert Walk(b).Accept? by {
      SimulatesAccepts(b);
    }
    match op
    case AddVariable(v) =>
      VariableEffect(b, v);
      WalkVariable(b, v, Walk(b).state);
      InputSimulates(b, EmitVariable(b, v), [FieldOf(v, b.inputBits)], v.width, v.width, InputFlags(v));
    case AddRange(page, low, high, width, semantic) =>
      RangeEffect(b, page, low, high, width, semantic);
      WalkRange(b, page, low, high, width, semantic, Walk(b).state);
      InputSimulates(b, EmitRange(b, page, low, high, width, semantic),
                     RangeFields(semantic, b.inputBits, RangeCount(low, high), width), RangeBits(low, high, width),
                         width, 2);
  }

  lemma SimulatesAccepts(b: Build)
    ensures Simulates(b) ==> Walk(b).Accept?
  {
  }

  lemma OneFieldSpan(bits: nat, width: nat)
    requires 1 <= width
    ensures SpanOk(bits, width, 1) <==> TouchedBytes(bits, width) <= 4
  {
    assert FieldFits(bits, width, 0) <==> TouchedBytes(bits, width) <= 4;
  }

  lemma FeatureSimulates(b: Build, page: Uint16, usage: Uint16, minimum: Int32, maximum: Int32, width: Byte)
    requires Tidy(b) && Simulates(b) && Proper(b, Feature(page, usage, minimum, maximum, width))
    requires EmitFeature(b, page, usage, minimum, maximum, width).good
    ensures Simulates(EmitFeature(b, page, usage, minimum, maximum, width))
  {
    hide Walk, Tidy, EmitFeature, SpanOk;
    FeatureEffect(b, page, usage, minimum, maximum, width);
    WalkFeature(b, page, usage, minimum, maximum, width, Walk(b).state);
    OneFieldSpan(Walk(b).state.featureBits, width);
  }

  lemma ApplySimulates(b: Build, op: Op)
    requires Tidy(b) && Simulates(b) && Proper(b, op) && b.good && Apply(b, op).good
             && FourByteRule(Apply(b, op).fields)
    ensures Simulates(Apply(b, op))
  {
    hide Tidy, Simulates, FourByteRule, ValueFits, TouchedBytes, BeginCollection, EndCollection, DecideReportId,
         EmitVariable, EmitRange, EmitPadding, EmitFeature;
    match op
    case Begin(kind, page, usage) => CollectionSimulates(b, kind, page, usage);
    case End => EndSimulates(b);
    case SetReportId(enabled, id) => DecideSimulates(b, enabled, id);
    case AddVariable(_) => DataSimulates(b, op);
    case AddRange(_, _, _, _, _) => DataSimulates(b, op);
    case Padding(bits) => PaddingSimulates(b, bits);
    case PadReport => PaddingSimulates(b, PaddingBits(b.inputBits));
    case Feature(page, usage, minimum, maximum, width) => FeatureSimulates(b, page, usage, minimum, maximum, width);
  }

  lemma FewerFieldsKeepRule(fields: seq<FieldLayout>, more: seq<FieldLayout>)
    requires fields <= more && FourByteRule(more)
    ensures FourByteRule(fields)
  {
    forall i | 0 <= i < |fields|
      ensures WithinFourBytes(fields[i])
    {
      assert WithinFourBytes(more[i]);
    }
  }

  lemma {:induction false} RunSimulates(capacity: nat, ops: seq<Op>)
    requires ProperRun(NewBuild(true, capacity), ops) && Run(NewBuild(true, capacity), ops).good
    requires FourByteRule(Run(NewBuild(true, capacity), ops).fields)
    ensures Simulates(Run(NewBuild(true, capacity), ops))
  {
    hide Apply, Proper, Tidy, FourByteRule;
    if |ops| == 0 {
    } else {
      var before := Run(NewBuild(true, capacity), ops[..|ops| - 1]);
      RunTidy(capacity, ops[..|ops| - 1]);
      ApplyTidy(before, ops[|ops| - 1]);
      FewerFieldsKeepRule(before.fields, Apply(before, ops[|ops| - 1]).fields);
      RunSimulates(capacity, ops[..|ops| - 1]);
      ApplySimulates(before, ops[|ops| - 1]);
    }
  }

  /**
   * Every descriptor a proper, finished run emits passes `validate_generated`, or is refused with the
   * four-byte complaint exactly when some layout field touches a fifth byte. No internal-error exit of
   * the validator can be reached.
   */
  lemma GeneratedIsAccepted(ops: seq<Op>)
    requires var b := Finished(Run(NewBuild(true, DESCRIPTOR_WIRE_MAXIMUM), ops));
             b.good && b.topSeen && ProperRun(NewBuild(true, DESCRIPTOR_WIRE_MAXIMUM), ops)
    ensures var b := Run(NewBuild(true, DESCRIPTOR_WIRE_MAXIMUM), ops);
            GeneratedVerdict(Encode(b.items), LayoutOf(b))
            == if FourByteRule(b.fields) then None else Some(FIVE_BYTES)
  {
    hide Run, ProperRun, FourByteRule, SoundField, StructureStep, WalkItems, WalkBytes, TiledAt;
    var b := Run(NewBuild(true, DESCRIPTOR_WIRE_MAXIMUM), ops);
    RunTidy(DESCRIPTOR_WIRE_MAXIMUM, ops);
    assert b.fields[..0] == [];
    TiledVerdict(b.fields, Prefix(b), b.inputBits, 0);
    assert FourByteRuleFrom(b.fields, 0) == FourByteRule(b.fields) by {
      RuleIsRuleFrom(b.fields);
    }
    if FourByteRule(b.fields) {
      RunSimulates(DESCRIPTOR_WIRE_MAXIMUM, ops);
      WalkEncoded(STRUCTURE_CHECKER, NO_STRUCTURE, b.items);
    }
  }

  lemma RuleIsRuleFrom(fields: seq<FieldLayout>)
    ensures FourByteRuleFrom(fields, 0) == FourByteRule(fields)
  {
  }
}
