/**
 * `build_generated_spec`: a factory's builder calls are run twice, first without bytes to measure the
 * descriptor and fill the layout, then into a buffer of exactly that size (src/profiles/spec.cpp).
 */
module GeneratedSpec {
  import opened Common
  import opened BitField
  import opened HidItems
  import opened HidWalk
  import opened GeneratedCheck
  import opened DescriptorBuilder
  import opened BuilderFacts

  datatype SpecResult =
    | Built(descriptor: seq<Byte>, layout: ReportLayout, requirements: Requirements)
    | Refused(issue: Issue)

  const TOO_LARGE := Issue(ErrOverflow, "spec.descriptor")

  /** What a factory ends with, given the builder calls its emit callback makes. */
  function SpecVerdict(ops: seq<Op>): SpecResult {
    var b := Finished(Run(NewBuild(true, DESCRIPTOR_WIRE_MAXIMUM), ops));
    if !b.good then Refused(TOO_LARGE)
    else
      match GeneratedVerdict(Encode(b.items), LayoutOf(b))
      case Some(issue) => Refused(issue)
      case None => Built(Encode(b.items), LayoutOf(b), b.requirements)
  }

  // ----- The second pass repeats the first -------------------------------------------------------

  /** The same builder with another capacity, with or without a layout to fill. */
  function Refit(b: Build, capacity: nat, keeps: bool): Build {
    b.(capacity := capacity, keepsLayout := keeps, fields := if keeps then b.fields else [])
  }

  /** Refitted before or after makes no difference, as long as the bytes fit. */
  predicate Commutes(before: Build, after: Build, refitted: Build, capacity: nat, keeps: bool) {
    before.good && after.good && |Encode(after.items)| <= capacity ==> refitted == Refit(after, capacity, keeps)
  }

  lemma PutCommutes(b: Build, item: Item, c: nat, k: bool)
    ensures Commutes(b, Put(b, item), Put(Refit(b, c, k), item), c, k)
  {
    EncodeSnoc(b.items, item);
  }

  lemma UsageCommutes(b: Build, page: Uint16, usage: Uint16, c: nat, k: bool)
    ensures Commutes(b, PutUsage(b, page, usage), PutUsage(Refit(b, c, k), page, usage), c, k)
  {
    hide Put, Encode, Refit;
    PutCommutes(b, UnsignedItem(GLOBAL, USAGE_PAGE, page), c, k);
    PutCommutes(Put(b, UnsignedItem(GLOBAL, USAGE_PAGE, page)), UnsignedItem(LOCAL, USAGE, usage), c, k);
  }

  lemma UsageRangeCommutes(b: Build, page: Uint16, low: Uint16, high: Uint16, c: nat, k: bool)
    ensures Commutes(b, PutUsageRange(b, page, low, high), PutUsageRange(Refit(b, c, k), page, low, high), c, k)
  {
    hide Put, Encode, Refit;
    var paged := Put(b, UnsignedItem(GLOBAL, USAGE_PAGE, page));
    var lowered := Put(paged, UnsignedItem(LOCAL, USAGE_MINIMUM, low));
    PutCommutes(b, UnsignedItem(GLOBAL, USAGE_PAGE, page), c, k);
    PutCommutes(paged, UnsignedItem(LOCAL, USAGE_MINIMUM, low), c, k);
    PutCommutes(lowered, UnsignedItem(LOCAL, USAGE_MAXIMUM, high), c, k);
  }

  lemma LogicalCommutes(b: Build, minimum: Int32, maximum: Int32, c: nat, k: bool)
    ensures Commutes(b, PutLogical(b, minimum, maximum), PutLogical(Refit(b, c, k), minimum, maximum), c, k)
  {
    hide Put, Encode, Refit;
    var low := SignedItem(GLOBAL, LOGICAL_MINIMUM, minimum);
    PutCommutes(b, low, c, k);
    PutCommutes(Put(b, low), MaximumItem(LOGICAL_MAXIMUM, maximum, minimum), c, k);
  }

  lemma PhysicalCommutes(b: Build, p: Physical, c: nat, k: bool)
    requires -8 <= p.unitExponent <= 7
    ensures Commutes(b, PutPhysical(b, p), PutPhysical(Refit(b, c, k), p), c, k)
  {
    hide Put, Encode, Refit;
    var low := SignedItem(GLOBAL, PHYSICAL_MINIMUM, p.minimum);
    var high := MaximumItem(PHYSICAL_MAXIMUM, p.maximum, p.minimum);
    var exponent := Item(GLOBAL, UNIT_EXPONENT, 1, p.unitExponent % 16);
    PutCommutes(b, low, c, k);
    PutCommutes(Put(b, low), high, c, k);
    PutCommutes(Put(Put(b, low), high), exponent, c, k);
    PutCommutes(Put(Put(Put(b, low), high), exponent), UnsignedItem(GLOBAL, UNIT, p.unit), c, k);
  }

  lemma DataCommutes(b: Build, size: Uint16, count: Uint32, tag: nat, flags: Uint16, c: nat, k: bool)
    requires tag in {INPUT, FEATURE}
    ensures Commutes(b, PutData(b, size, count, tag, flags), PutData(Refit(b, c, k), size, count, tag, flags), c, k)
  {
    hide Put, Encode, Refit;
    var sized := UnsignedItem(GLOBAL, REPORT_SIZE, size);
    var counted := UnsignedItem(GLOBAL, REPORT_COUNT, count);
    PutCommutes(b, sized, c, k);
    PutCommutes(Put(b, sized), counted, c, k);
    PutCommutes(Put(Put(b, sized), counted), UnsignedItem(MAIN, tag, flags), c, k);
  }

  lemma RecordCommutes(b: Build, feature: bool, usages: nat, count: nat, size: nat, c: nat, k: bool)
    requires RecordMain(b, feature, usages, count, size).good
    ensures RecordMain(Refit(b, c, k), feature, usages, count,
                       size) == Refit(RecordMain(b, feature, usages, count, size), c, k)
  {
    var added := size * count;
    BitsCommute(b, feature, Max(usages, count), size, added, c, k);
    RecordBitsKeeps(b, feature, Max(usages, count), size, added);
    FieldCommutes(RecordBits(b, feature, Max(usages, count), size, added), feature, c, k);
  }

  lemma BitsCommute(b: Build, feature: bool, usages: nat, size: nat, added: nat, c: nat, k: bool)
    ensures RecordBits(b, feature, usages, size, added).good ==>
              RecordBits(Refit(b, c, k), feature, usages, size, added)
              == Refit(RecordBits(b, feature, usages, size, added), c, k)
  {
    hide RecordBits, Refit, Later, Encode;
    if !RecordBits(b, feature, usages, size, added).good {
      return;
    }
    if feature {
      FeatureBitsCommute(b, usages, size, added, c, k);
    } else {
      InputBitsCommute(b, usages, size, added, c, k);
    }
  }

  lemma FeatureBitsCommute(b: Build, usages: nat, size: nat, added: nat, c: nat, k: bool)
    requires RecordBits(b, true, usages, size, added).good
    ensures RecordBits(Refit(b, c, k), true, usages, size, added) == Refit(RecordBits(b, true, usages, size, added), c,
                                                                           k)
  {
    hide Later, Encode, ObserveUsages, WithBits;
    var bits := Count(b.featureReportBits, b.reportId) + added;
    assert b.good && size <= UINT32_MAX && bits <= SIZE_MAX;
    var seen := ObserveUsages(b.requirements, usages);
    WithBitsCommutes(b, true, seen.(reportSizeBits := Max(seen.reportSizeBits, size),
                                    reportDataBits := Max(seen.reportDataBits, bits)), bits, c, k);
  }

  lemma InputBitsCommute(b: Build, usages: nat, size: nat, added: nat, c: nat, k: bool)
    requires RecordBits(b, false, usages, size, added).good
    ensures RecordBits(Refit(b, c, k), false, usages, size, added) == Refit(RecordBits(b, false, usages, size, added),
                                                                            c, k)
  {
    hide Later, Encode, ObserveUsages, WithBits;
    var bits := Count(b.inputReportBits, b.reportId) + added;
    assert b.good && size <= UINT32_MAX && bits <= SIZE_MAX;
    var seen := ObserveUsages(b.requirements, usages);
    WithBitsCommutes(b, false, seen.(reportSizeBits := Max(seen.reportSizeBits, size),
                                     reportDataBits := Max(seen.reportDataBits, bits)), bits, c, k);
  }

  lemma WithBitsCommutes(b: Build, feature: bool, requirements: Requirements, bits: nat, c: nat, k: bool)
    ensures WithBits(Refit(b, c, k), feature, requirements, bits) == Refit(WithBits(b, feature, requirements, bits), c,
                                                                           k)
  {
    hide Encode;
  }

  lemma FieldCommutes(b: Build, feature: bool, c: nat, k: bool)
    ensures RecordField(b, feature).good ==> RecordField(Refit(b, c, k), feature) == Refit(RecordField(b, feature), c,
            k)
  {
    hide Later, Encode, WithFields;
    var fields := Count(if feature then b.featureFields else b.inputFields, b.reportId) + 1;
    if !b.good || fields > UINT32_MAX {
      return;
    }
    WithFieldsCommutes(b, feature, b.requirements.(fieldsPerReport := Max(b.requirements.fieldsPerReport, fields)),
                       fields, c, k);
  }

  lemma WithFieldsCommutes(b: Build, feature: bool, requirements: Requirements, fields: nat, c: nat, k: bool)
    ensures WithFields(Refit(b, c, k), feature, requirements,
                       fields) == Refit(WithFields(b, feature, requirements, fields), c, k)
  {
    hide Encode;
  }

  lemma AddFieldCommutes(b: Build, semantic: FieldSemantic, instance: nat, width: nat, minimum: Int32, maximum: Int32,
                         physical: Physical, nullState: bool, c: nat, k: bool)
    requires b.keepsLayout && AddField(b, semantic, instance, width, minimum, maximum, physical, nullState).good
    ensures AddField(Refit(b, c, k), semantic, instance, width, minimum, maximum, physical, nullState)
            == Refit(AddField(b, semantic, instance, width, minimum, maximum, physical, nullState), c, k)
  {
    hide AddField, Later, Encode;
    AddFieldShape(b, semantic, instance, width, minimum, maximum, physical, nullState);
    RoomToAdd(Refit(b, c, k), semantic, instance, width, minimum, maximum, physical, nullState);
  }

  lemma RoomToAdd(b: Build, semantic: FieldSemantic, instance: nat, width: nat, minimum: Int32, maximum: Int32,
                  physical: Physical,
                  nullState: bool)
    requires b.good && 0 < width <= 32 && b.inputBits <= SIZE_MAX - width
    ensures AddField(b, semantic, instance, width, minimum, maximum, physical, nullState)
            == Append(b, NextField(b, semantic, instance, width, minimum, maximum, physical, nullState))
  {
    hide Later, Encode, Append, NextField;
  }

  lemma {:induction false} AddFieldsCommute(b: Build, semantic: FieldSemantic, first: nat, count: nat, width: nat,
                                            c: nat,
                                            k: bool)
    requires b.keepsLayout && AddFields(b, semantic, first, count, width).good
    ensures AddFields(Refit(b, c, k), semantic, first, count, width)
            == Refit(AddFields(b, semantic, first, count, width), c, k)
    decreases count
  {
    hide Refit, AddField;
    if count == 0 {
    } else {
      var one := AddField(b, semantic, first, width, 0, 1, NO_PHYSICAL, false);
      AddFieldsGood(one, semantic, first + 1, count - 1, width);
      AddFieldGood(b, semantic, first, width, 0, 1, NO_PHYSICAL, false);
      AddFieldCommutes(b, semantic, first, width, 0, 1, NO_PHYSICAL, false, c, k);
      AddFieldsCommute(one, semantic, first + 1, count - 1, width, c, k);
    }
  }

  lemma PrepareCommutes(b: Build, c: nat, k: bool)
    requires Prepare(b).good
    ensures Prepare(Refit(b, c, k)) == Refit(Prepare(b), c, k)
  {
  }

  lemma VariableCommutes(b: Build, v: Variable, c: nat, k: bool)
    requires b.keepsLayout && EmitVariable(b, v).good && |Encode(EmitVariable(b, v).items)| <= c
    ensures EmitVariable(Refit(b, c, k), v) == Refit(EmitVariable(b, v), c, k)
  {
    hide Prepare, PutUsage, PutLogical, PutPhysical, PutData, RecordMain, AddField, Refit, Encode, InputFlags,
         PhysicalIsZero,
         UnitIsValid;
    var ready := Prepare(b);
    var used := PutUsage(ready, v.page, v.usage);
    var ranged := PutLogical(used, v.minimum, v.maximum);
    var scaled := if PhysicalIsEnabled(v.physical) then PutPhysical(ranged, v.physical) else ranged;
    var emitted := PutData(scaled, v.width, 1, INPUT, InputFlags(v));
    var recorded := RecordMain(emitted, false, 1, 1, v.width);
    var unscaled := if PhysicalIsEnabled(v.physical) then PutPhysical(recorded, NO_PHYSICAL) else recorded;
    assert emitted == PutVariable(ready, v);
    AddFieldGood(unscaled, v.semantic, v.instance, v.width, v.minimum, v.maximum, v.physical, v.nullState);
    RecordKeeps(emitted, false, 1, 1, v.width);
    PrepareCommutes(b, c, k);
    PrepareKeeps(b);
    RefitGood(ready, c, k);
    UsageCommutes(ready, v.page, v.usage, c, k);
    LogicalCommutes(used, v.minimum, v.maximum, c, k);
    if PhysicalIsEnabled(v.physical) {
      PhysicalCommutes(ranged, v.physical, c, k);
      PhysicalCommutes(recorded, NO_PHYSICAL, c, k);
    }
    DataCommutes(scaled, v.width, 1, INPUT, InputFlags(v), c, k);
    RecordCommutes(emitted, false, 1, 1, v.width, c, k);
    AddFieldCommutes(unscaled, v.semantic, v.instance, v.width, v.minimum, v.maximum, v.physical, v.nullState, c, k);
  }

  lemma PrepareKeeps(b: Build)
    ensures Prepare(b).items == b.items && Prepare(b).keepsLayout == b.keepsLayout
  {
  }

  lemma RefitGood(b: Build, c: nat, k: bool)
    ensures Refit(b, c, k).good == b.good
  {
  }

  lemma RangeCommutes(b: Build, page: Uint16, low: Uint16, high: Uint16, width: Byte, semantic: FieldSemantic, c: nat,
                      k: bool)
    requires b.keepsLayout && EmitRange(b, page, low, high, width, semantic).good
    requires |Encode(EmitRange(b, page, low, high, width, semantic).items)| <= c
    ensures EmitRange(Refit(b, c, k), page, low, high, width, semantic)
            == Refit(EmitRange(b, page, low, high, width, semantic), c, k)
  {
    hide Prepare, PutUsageRange, PutLogical, PutData, RecordMain, AddFields, Refit, Encode;
    var count: nat := RangeCount(low, high);
    var ready := Prepare(b);
    var used := PutUsageRange(ready, page, low, high);
    var ranged := PutLogical(used, 0, 1);
    var emitted := PutData(ranged, width, count, INPUT, 2);
    var recorded := RecordMain(emitted, false, count, count, width);
    assert RangeMain(ready, page, low, high, width) == recorded;
    AddFieldsGood(recorded, semantic, 0, count, width);
    RecordKeeps(emitted, false, count, count, width);
    PrepareCommutes(b, c, k);
    PrepareKeeps(b);
    RefitGood(ready, c, k);
    UsageRangeCommutes(ready, page, low, high, c, k);
    LogicalCommutes(used, 0, 1, c, k);
    DataCommutes(ranged, width, count, INPUT, 2, c, k);
    RecordCommutes(emitted, false, count, count, width, c, k);
    AddFieldsCommute(recorded, semantic, 0, count, width, c, k);
    assert RangeMain(Refit(ready, c, k), page, low, high, width) == Refit(recorded, c, k);
  }

  lemma PaddingCommutes(b: Build, bits: Uint16, c: nat, k: bool)
    requires b.keepsLayout && b.good && EmitPadding(b, bits).good && |Encode(EmitPadding(b, bits).items)| <= c
    ensures EmitPadding(Refit(b, c, k), bits) == Refit(EmitPadding(b, bits), c, k)
  {
    hide Prepare, PutData, RecordMain, AddField, Refit, Encode;
    if bits != 0 {
      var ready := Prepare(b);
      var emitted := PutData(ready, bits, 1, INPUT, 1);
      var recorded := RecordMain(emitted, false, 0, 1, bits);
      AddFieldGood(recorded, ConstantPadding, 0, bits % 256, 0, 0, NO_PHYSICAL, false);
      RecordKeeps(emitted, false, 0, 1, bits);
      PrepareCommutes(b, c, k);
      PrepareKeeps(b);
      RefitGood(ready, c, k);
      DataCommutes(ready, bits, 1, INPUT, 1, c, k);
      RecordCommutes(emitted, false, 0, 1, bits, c, k);
      AddFieldCommutes(recorded, ConstantPadding, 0, bits % 256, 0, 0, NO_PHYSICAL, false, c, k);
    }
  }

  lemma FeatureCommutes(b: Build, page: Uint16, usage: Uint16, minimum: Int32, maximum: Int32, width: Byte, c: nat,
                        k: bool)
    requires b.keepsLayout && EmitFeature(b, page, usage, minimum, maximum, width).good
    requires |Encode(EmitFeature(b, page, usage, minimum, maximum, width).items)| <= c
    ensures EmitFeature(Refit(b, c, k), page, usage, minimum, maximum, width)
            == Refit(EmitFeature(b, page, usage, minimum, maximum, width), c, k)
  {
    hide Prepare, PutUsage, PutLogical, PutData, RecordMain, Refit, Encode;
    var ready := Prepare(b);
    var used := PutUsage(ready, page, usage);
    var ranged := PutLogical(used, minimum, maximum);
    var emitted := PutData(ranged, width, 1, FEATURE, 3);
    RecordKeeps(emitted, true, 1, 1, width);
    PrepareCommutes(b, c, k);
    PrepareKeeps(b);
    RefitGood(ready, c, k);
    UsageCommutes(ready, page, usage, c, k);
    LogicalCommutes(used, minimum, maximum, c, k);
    DataCommutes(ranged, width, 1, FEATURE, 3, c, k);
    RecordCommutes(emitted, true, 1, 1, width, c, k);
  }

  lemma EnterCommutes(b: Build, kind: nat, c: nat, k: bool)
    ensures Enter(b, kind).good ==> Enter(Refit(b, c, k), kind) == Refit(Enter(b, kind), c, k)
  {
  }

  lemma PutCollectionCommutes(b: Build, kind: nat, page: Uint16, usage: Uint16, c: nat, k: bool)
    requires kind in {PHYSICAL, APPLICATION, LOGICAL}
    ensures Commutes(b, PutCollection(b, kind, page, usage), PutCollection(Refit(b, c, k), kind, page, usage), c, k)
  {
    hide PutUsage, Put, Encode, Refit;
    UsageCommutes(b, page, usage, c, k);
    PutCommutes(PutUsage(b, page, usage), UnsignedItem(MAIN, COLLECTION, kind), c, k);
  }

  lemma CollectionCommutes(b: Build, kind: nat, page: Uint16, usage: Uint16, c: nat, k: bool)
    requires kind in {PHYSICAL, APPLICATION, LOGICAL}
    requires BeginCollection(b, kind, page, usage).good && |Encode(BeginCollection(b, kind, page, usage).items)| <= c
    ensures BeginCollection(Refit(b, c, k), kind, page, usage) == Refit(BeginCollection(b, kind, page, usage), c, k)
  {
    hide PutCollection, Enter, Encode, ObserveUsages;
    var observed := b.(requirements := ObserveUsages(b.requirements, 1));
    assert Refit(observed, c, k) == Refit(b, c, k).(requirements := ObserveUsages(b.requirements, 1));
    PutCollectionCommutes(observed, kind, page, usage, c, k);
    EnterCommutes(PutCollection(observed, kind, page, usage), kind, c, k);
  }

  lemma EndCommutes(b: Build, c: nat, k: bool)
    requires EndCollection(b).good && |Encode(EndCollection(b).items)| <= c
    ensures EndCollection(Refit(b, c, k)) == Refit(EndCollection(b), c, k)
  {
    hide Put, Encode, Later;
    EndShape(b);
    PutCommutes(b, PlainItem(MAIN, END_COLLECTION), c, k);
  }

  lemma DecideCommutes(b: Build, enabled: bool, id: Byte, c: nat, k: bool)
    requires DecideReportId(b, enabled, id).good && |Encode(DecideReportId(b, enabled, id).items)| <= c
    ensures DecideReportId(Refit(b, c, k), enabled, id) == Refit(DecideReportId(b, enabled, id), c, k)
  {
    hide Put, Encode;
    if enabled {
      PutCommutes(b, UnsignedItem(GLOBAL, REPORT_ID, id), c, k);
    }
  }

  lemma ApplyCommutes(b: Build, op: Op, c: nat, k: bool)
    requires b.keepsLayout && Apply(b, op).good && |Encode(Apply(b, op).items)| <= c
    ensures Apply(Refit(b, c, k), op) == Refit(Apply(b, op), c, k)
  {
    hide Refit, Encode, BeginCollection, EndCollection, DecideReportId, EmitVariable, EmitRange, EmitPadding,
         EmitFeature;
    match op
    case Begin(kind, page, usage) => CollectionCommutes(b, kind, page, usage, c, k);
    case End => EndCommutes(b, c, k);
    case SetReportId(enabled, id) => DecideCommutes(b, enabled, id, c, k);
    case AddVariable(v) => VariableCommutes(b, v, c, k);
    case AddRange(page, low, high, width, semantic) => RangeCommutes(b, page, low, high, width, semantic, c, k);
    case Padding(bits) => PaddingCommutes(b, bits, c, k);
    case PadReport =>
      PaddingCommutes(b, PaddingBits(b.inputBits), c, k);
      RefitBits(b, c, k);
    case Feature(page, usage, minimum, maximum, width) =>
        FeatureCommutes(b, page, usage, minimum, maximum, width, c, k);
  }

  lemma RefitBits(b: Build, c: nat, k: bool)
    ensures Refit(b, c, k).inputBits == b.inputBits
  {
  }

  lemma {:induction false} RunCommutes(capacity: nat, ops: seq<Op>, c: nat, k: bool)
    requires Run(NewBuild(true, capacity), ops).good && |Encode(Run(NewBuild(true, capacity), ops).items)| <= c
    ensures Run(NewBuild(k, c), ops) == Refit(Run(NewBuild(true, capacity), ops), c, k)
    ensures Run(NewBuild(true, capacity), ops).keepsLayout
  {
    hide Apply, Encode;
    if |ops| == 0 {
    } else {
      RunCommutes(capacity, ops[..|ops| - 1], c, k);
      ApplyCommutes(Run(NewBuild(true, capacity), ops[..|ops| - 1]), ops[|ops| - 1], c, k);
    }
  }

  // ----- The two passes --------------------------------------------------------------------------

  /** One builder call of an emit callback. */
  method Perform(builder: DescriptorBuilder, op: Op) returns (ok: bool)
    requires builder.Valid()
    modifies builder, builder.writer, builder.writer.bytes
    ensures builder.Valid() && ok == builder.good && Reaches(builder.State(), Apply(old(builder.State()), op))
  {
    hide BeginCollection, EndCollection, DecideReportId, EmitVariable, EmitRange, EmitPadding, EmitFeature, Encode,
         Later;
    match op
    case Begin(kind, page, usage) =>
      if kind == PHYSICAL || kind == APPLICATION || kind == LOGICAL {
        ok := builder.Begin(kind, page, usage);
      } else {
        builder.good := false;
        ok := false;
      }
    case End => ok := builder.End();
    case SetReportId(enabled, id) => ok := builder.SetReportId(enabled, id);
    case AddVariable(v) => ok := builder.AddVariable(v);
    case AddRange(page, low, high, width, semantic) => ok := builder.AddRange(page, low, high, width, semantic);
    case Padding(bits) =>
      var _ := builder.AddPadding(bits);
      ok := builder.good;
    case PadReport =>
      builder.PadToByte();
      ok := builder.good;
    case Feature(page, usage, minimum, maximum, width) =>
        ok := builder.AddFeature(page, usage, minimum, maximum, width);
  }

  lemma {:induction false} RefusalIsFinal(b: Build, ops: seq<Op>, k: nat)
    requires k <= |ops| && Run(b, ops).good
    ensures Run(b, ops[..k]).good
    decreases |ops|
  {
    hide Apply, Later;
    if k < |ops| {
      assert ops[..|ops| - 1][..k] == ops[..k];
      RefusalIsFinal(b, ops[..|ops| - 1], k);
    } else {
      assert ops[..k] == ops;
    }
  }

  /** An emit callback: its builder calls in order, ended by the first refusal. */
  method Emit(builder: DescriptorBuilder, ops: seq<Op>) returns (ok: bool)
    requires builder.Valid()
    modifies builder, builder.writer, builder.writer.bytes
    ensures builder.Valid() && ok == builder.good && Reaches(builder.State(), Run(old(builder.State()), ops))
  {
    hide Apply, Encode, Later;
    ghost var start := builder.State();
    var index := 0;
    ok := builder.good;
    while ok && index < |ops|
      invariant 0 <= index <= |ops| && builder.Valid() && ok == builder.good
      invariant Reaches(builder.State(), Run(start, ops[..index]))
    {
      assert ops[..index + 1][..index] == ops[..index];
      ok := Perform(builder, ops[index]);
      index := index + 1;
    }
    assert ops[..|ops|] == ops;
    if !ok && Run(start, ops).good {
      RefusalIsFinal(start, ops, index);
    }
  }

  /**
   * `build_generated_spec`. The exit for passes that differ is there, but the contract never mentions
   * it: the second pass always repeats the first.
   */
  method BuildGeneratedSpec(ops: seq<Op>) returns (result: SpecResult)
    ensures result == SpecVerdict(ops)
  {
    hide Run, GeneratedVerdict, Later;
    var counting := new DescriptorBuilder(null, DESCRIPTOR_WIRE_MAXIMUM, true);
    var counted := Emit(counting, ops);
    counting.Finish();
    if !counted || !counting.good {
      return Refused(TOO_LARGE);
    }
    ghost var first := counting.State();
    var requirements := counting.requirements;
    var layout := ReportLayout(counting.reportId != 0, counting.reportId, CeilDiv(counting.inputBits, 8),
                               counting.fields);
    var construction := new Byte[counting.writer.position];
    var emitting := new DescriptorBuilder(construction, construction.Length, false);
    RunCommutes(DESCRIPTOR_WIRE_MAXIMUM, ops, construction.Length, false);
    var emitted := Emit(emitting, ops);
    emitting.Finish();
    if !emitted || !emitting.good || emitting.writer.position != construction.Length
       || emitting.requirements != requirements
    {
      return Refused(INTERNAL_DESCRIPTOR);
    }
    assert construction[..] == Encode(first.items);
    var issue := ValidateGenerated(construction[..], layout);
    if issue.Some? {
      return Refused(issue.value);
    }
    return Built(construction[..], layout, requirements);
  }
}
