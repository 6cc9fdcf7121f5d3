/**
 * A sketch of a builder run: the few numbers that decide whether the calls are proper and whether the
 * layout keeps the four-byte rule, computed without emitting anything.
 */
module Sketch {
  import opened Common
  import opened BitField
  import opened HidItems
  import opened HidWalk
  import opened GeneratedCheck
  import opened DescriptorBuilder
  import opened BuilderFacts
  import RawAgreement
  import GeneratedSpec

  /** `keeps`: all fields so far touch four bytes at most; `sound`: every call so far was proper. */
  datatype Outline = Outline(
    offset: nat, depth: nat, decided: bool, data: bool, featured: bool, top: bool, keeps: bool, sound: bool)

  const BLANK := Outline(0, 0, false, false, false, false, true, true)

  predicate Sound(s: Outline, op: Op) {
    match op
    case Begin(kind, _, _) =>
      kind in {PHYSICAL, APPLICATION, LOGICAL} && (if kind == APPLICATION then s.depth > 0 || !s.top else s.depth > 0)
    case End => s.depth > 0
    case SetReportId(enabled, id) => !s.decided && !s.data && (enabled <==> id != 0)
    case AddVariable(v) =>
      && s.decided && s.depth > 0 && v.semantic != ConstantPadding && ValueFits(v.minimum, v.maximum, v.width)
      && (PhysicalIsZero(v.physical) || PhysicalIsEnabled(v.physical))
    case AddRange(_, low, high, width, semantic) =>
      s.decided && s.depth > 0 && low <= high && width == 1 && semantic != ConstantPadding
    case Padding(_) => false
    case PadReport => s.offset % 8 != 0 ==> s.decided && s.depth > 0
    case Feature(_, _, _, _, width) => s.decided && s.depth > 0 && !s.featured && 1 <= width <= 32
  }

  function Draw(s: Outline, op: Op): Outline {
    if !s.sound || !Sound(s, op) then s.(sound := false)
    else
      match op
      case Begin(kind, _, _) => s.(depth := s.depth + 1, top := s.top || (kind == APPLICATION && s.depth == 0))
      case End => s.(depth := s.depth - 1)
      case SetReportId(enabled, _) => s.(decided := true, offset := if enabled then 8 else 0)
      case AddVariable(v) =>
        s.(data := true, offset := s.offset + v.width,
           keeps := s.keeps && v.width > 0 && TouchedBytes(s.offset, v.width) <= 4)
      case AddRange(_, low, high, _, _) => s.(data := true, offset := s.offset + RangeCount(low, high))
      case Padding(_) => s
      case PadReport => s.(data := s.data || s.offset % 8 != 0, offset := s.offset + PaddingBits(s.offset))
      case Feature(_, _, _, _, _) => s.(data := true, featured := true)
  }

  function DrawAll(s: Outline, ops: seq<Op>): Outline {
    if |ops| == 0 then s else Draw(DrawAll(s, ops[..|ops| - 1]), ops[|ops| - 1])
  }

  lemma DrawSnoc(s: Outline, ops: seq<Op>, op: Op)
    ensures DrawAll(s, ops + [op]) == Draw(DrawAll(s, ops), op)
  {
    assert (ops + [op])[..|ops|] == ops;
  }

  lemma {:induction false} DrawAppend(s: Outline, a: seq<Op>, b: seq<Op>)
    ensures DrawAll(s, a + b) == DrawAll(DrawAll(s, a), b)
    decreases |b|
  {
    hide Draw;
    if |b| == 0 {
      assert a + b == a;
    } else {
      assert (a + b)[..|a + b| - 1] == a + b[..|b| - 1];
      DrawAppend(s, a, b[..|b| - 1]);
    }
  }

  // ----- The sketch is exact ---------------------------------------------------------------------

  /** The outline describes the builder. */
  predicate Describes(s: Outline, b: Build) {
    && s.offset == b.inputBits && s.depth == b.depth && s.decided == b.idDecided && s.data == b.dataMain
       && s.top == b.topSeen
    && (!s.featured ==> b.featureReportBits == map[] && b.featureFields == map[])
    && (s.keeps <==> FourByteRule(b.fields))
  }

  lemma ProperWhenSound(s: Outline, b: Build, op: Op)
    requires Describes(s, b) && Sound(s, op)
    ensures Proper(b, op)
  {
    hide ValueFits, FourByteRule, PhysicalIsZero, PhysicalIsEnabled;
  }

  lemma RuleAppend(fields: seq<FieldLayout>, added: seq<FieldLayout>)
    ensures FourByteRule(fields + added) <==> FourByteRule(fields) && FourByteRule(added)
  {
    if FourByteRule(fields) && FourByteRule(added) {
      forall i | 0 <= i < |fields + added|
        ensures WithinFourBytes((fields + added)[i])
      {
        if i >= |fields| {
          assert WithinFourBytes(added[i - |fields|]);
        } else {
          assert WithinFourBytes(fields[i]);
        }
      }
    }
    if FourByteRule(fields + added) {
      forall i | 0 <= i < |fields|
        ensures WithinFourBytes(fields[i])
      {
        assert WithinFourBytes((fields + added)[i]);
      }
      forall i | 0 <= i < |added|
        ensures WithinFourBytes(added[i])
      {
        assert WithinFourBytes((fields + added)[|fields| + i]);
      }
    }
  }

  lemma OneFieldRule(f: FieldLayout)
    ensures FourByteRule([f]) <==> WithinFourBytes(f)
  {
    assert [f][0] == f;
  }

  lemma InputDescribed(s: Outline, b: Build, r: Build, added: seq<FieldLayout>, bits: nat, keeps: bool)
    requires Describes(s, b) && InputAdded(b, r, added, bits) && (keeps <==> FourByteRule(added))
    ensures Describes(s.(data := true, offset := s.offset + bits, keeps := s.keeps && keeps), r)
  {
    hide FourByteRule, Tiled, Encode;
    RuleAppend(b.fields, added);
  }

  lemma SmallFieldsKeepRule(fields: seq<FieldLayout>)
    requires forall i :: 0 <= i < |fields| ==> fields[i].bitWidth == 1
    ensures FourByteRule(fields)
  {
    forall i | 0 <= i < |fields|
      ensures WithinFourBytes(fields[i])
    {
    }
  }

  lemma PaddingDescribed(s: Outline, b: Build)
    requires Tidy(b) && Describes(s, b) && Sound(s, PadReport) && s.sound && b.good && Apply(b, PadReport).good
    ensures Describes(Draw(s, PadReport), Apply(b, PadReport))
  {
    hide FourByteRule, Tidy, InputAdded, EmitPadding;
    var bits := PaddingBits(b.inputBits);
    if bits == 0 {
      assert EmitPadding(b, 0) == b by {
        NoPadding(b);
      }
    } else {
      PaddingEffect(b, bits);
      OneFieldRule(PaddingField(b.inputBits, bits));
      InputDescribed(s, b, EmitPadding(b, bits), [PaddingField(b.inputBits, bits)], bits, true);
    }
  }

  lemma BeginDescribed(s: Outline, b: Build, kind: nat, page: Uint16, usage: Uint16)
    requires kind in {PHYSICAL, APPLICATION, LOGICAL} && Describes(s, b) && BeginCollection(b, kind, page, usage).good
    ensures Describes(s.(depth := s.depth + 1, top := s.top || (kind == APPLICATION && s.depth == 0)),
                      BeginCollection(b, kind, page, usage))
  {
    hide FourByteRule, Encode, PutCollection, Later, ObserveUsages, BeginCollection;
    var _ := BeginShape(b, kind, page, usage);
  }

  lemma EndDescribed(s: Outline, b: Build)
    requires Describes(s, b) && EndCollection(b).good
    ensures s.depth > 0 && Describes(s.(depth := s.depth - 1), EndCollection(b))
  {
    hide FourByteRule, Encode, Put, Later;
  }

  lemma DecideDescribed(s: Outline, b: Build, enabled: bool, id: Byte)
    requires Describes(s, b) && DecideReportId(b, enabled, id).good
    ensures Describes(s.(decided := true, offset := if enabled then 8 else 0), DecideReportId(b, enabled, id))
  {
    hide FourByteRule, Encode, Put, Later;
  }

  lemma StepDescribed(s: Outline, b: Build, op: Op)
    requires Tidy(b) && Describes(s, b) && s.sound && Draw(s, op).sound && b.good && Apply(b, op).good
    ensures Describes(Draw(s, op), Apply(b, op))
  {
    hide FourByteRule, Tidy, InputAdded, Tiled, ValueFits, Encode, BeginCollection, EndCollection, DecideReportId,
         EmitVariable, EmitRange, EmitPadding, EmitFeature, PhysicalIsZero, PhysicalIsEnabled, Later;
    ProperWhenSound(s, b, op);
    match op
    case AddVariable(v) =>
      VariableEffect(b, v);
      OneFieldRule(FieldOf(v, b.inputBits));
      InputDescribed(s, b, EmitVariable(b, v), [FieldOf(v, b.inputBits)], v.width,
                     v.width > 0 && TouchedBytes(s.offset, v.width) <= 4);
    case AddRange(page, low, high, width, semantic) =>
      RangeEffect(b, page, low, high, width, semantic);
      SmallFieldsKeepRule(RangeFields(semantic, b.inputBits, RangeCount(low, high), width));
      InputDescribed(s, b, EmitRange(b, page, low, high, width, semantic),
                     RangeFields(semantic, b.inputBits, RangeCount(low, high), width), RangeBits(low, high, width),
                         true);
    case PadReport => PaddingDescribed(s, b);
    case Feature(page, usage, minimum, maximum, width) => FeatureEffect(b, page, usage, minimum, maximum, width);
    case Begin(kind, page, usage) => BeginDescribed(s, b, kind, page, usage);
    case End => EndDescribed(s, b);
    case SetReportId(enabled, id) => DecideDescribed(s, b, enabled, id);
    case Padding(_) =>
  }

  /** A sound sketch of a run that fits its bytes tells the truth about it. */
  lemma {:induction false} SketchIsExact(capacity: nat, ops: seq<Op>)
    requires DrawAll(BLANK, ops).sound && Run(NewBuild(true, capacity), ops).good
    ensures ProperRun(NewBuild(true, capacity), ops)
    ensures Describes(DrawAll(BLANK, ops), Run(NewBuild(true, capacity), ops))
  {
    hide Apply, Draw, Describes, Tidy, Proper, Later;
    if |ops| == 0 {
      BlankDescribes(capacity);
    } else {
      var prefix, op := ops[..|ops| - 1], ops[|ops| - 1];
      SoundPrefix(DrawAll(BLANK, prefix), op);
      SketchIsExact(capacity, prefix);
      RunTidy(capacity, prefix);
      SoundOp(DrawAll(BLANK, prefix), op);
      ProperWhenSound(DrawAll(BLANK, prefix), Run(NewBuild(true, capacity), prefix), op);
      StepDescribed(DrawAll(BLANK, prefix), Run(NewBuild(true, capacity), prefix), op);
    }
  }

  lemma BlankDescribes(capacity: nat)
    ensures Describes(BLANK, NewBuild(true, capacity))
  {
  }

  lemma SoundPrefix(s: Outline, op: Op)
    ensures Draw(s, op).sound ==> s.sound
  {
  }

  lemma SoundOp(s: Outline, op: Op)
    ensures Draw(s, op).sound ==> Sound(s, op)
  {
  }

  // ----- Only the capacity can refuse a sound run ------------------------------------------------

  const ITEMS_PER_CALL := 15
  const MOST_CALLS := 0x100_0000

  /** Room for `n` more items of any size. */
  predicate Room(b: Build, n: nat) {
    b.good && |Encode(b.items)| + 5 * n <= b.capacity
  }

  /** `r` was reached from `b` with at most `n` items. */
  predicate Spent(b: Build, r: Build, n: nat) {
    r.good && r.capacity == b.capacity && |Encode(r.items)| <= |Encode(b.items)| + 5 * n
  }

  lemma PutRoom(b: Build, item: Item, n: nat)
    requires Room(b, n) && n > 0
    ensures Spent(b, Put(b, item), 1) && Room(Put(b, item), n - 1)
  {
  }

  lemma UsageRoom(b: Build, page: Uint16, usage: Uint16, n: nat)
    requires Room(b, n) && n >= 2
    ensures Spent(b, PutUsage(b, page, usage), 2) && Room(PutUsage(b, page, usage), n - 2)
  {
    hide Put, Encode;
    PutRoom(b, UnsignedItem(GLOBAL, USAGE_PAGE, page), n);
    PutRoom(Put(b, UnsignedItem(GLOBAL, USAGE_PAGE, page)), UnsignedItem(LOCAL, USAGE, usage), n - 1);
  }

  lemma UsageRangeRoom(b: Build, page: Uint16, low: Uint16, high: Uint16, n: nat)
    requires Room(b, n) && n >= 3
    ensures Spent(b, PutUsageRange(b, page, low, high), 3) && Room(PutUsageRange(b, page, low, high), n - 3)
  {
    hide Put, Encode;
    var paged := Put(b, UnsignedItem(GLOBAL, USAGE_PAGE, page));
    PutRoom(b, UnsignedItem(GLOBAL, USAGE_PAGE, page), n);
    PutRoom(paged, UnsignedItem(LOCAL, USAGE_MINIMUM, low), n - 1);
    PutRoom(Put(paged, UnsignedItem(LOCAL, USAGE_MINIMUM, low)), UnsignedItem(LOCAL, USAGE_MAXIMUM, high), n - 2);
  }

  lemma LogicalRoom(b: Build, minimum: Int32, maximum: Int32, n: nat)
    requires Room(b, n) && n >= 2
    ensures Spent(b, PutLogical(b, minimum, maximum), 2) && Room(PutLogical(b, minimum, maximum), n - 2)
  {
    hide Put, Encode;
    var low := SignedItem(GLOBAL, LOGICAL_MINIMUM, minimum);
    PutRoom(b, low, n);
    PutRoom(Put(b, low), MaximumItem(LOGICAL_MAXIMUM, maximum, minimum), n - 1);
  }

  lemma PhysicalRoom(b: Build, p: Physical, n: nat)
    requires Room(b, n) && n >= 4 && -8 <= p.unitExponent <= 7
    ensures Spent(b, PutPhysical(b, p), 4) && Room(PutPhysical(b, p), n - 4)
  {
    hide Put, Encode;
    var low := SignedItem(GLOBAL, PHYSICAL_MINIMUM, p.minimum);
    var high := MaximumItem(PHYSICAL_MAXIMUM, p.maximum, p.minimum);
    var exponent := Item(GLOBAL, UNIT_EXPONENT, 1, p.unitExponent % 16);
    PutRoom(b, low, n);
    PutRoom(Put(b, low), high, n - 1);
    PutRoom(Put(Put(b, low), high), exponent, n - 2);
    PutRoom(Put(Put(Put(b, low), high), exponent), UnsignedItem(GLOBAL, UNIT, p.unit), n - 3);
  }

  lemma DataRoom(b: Build, size: Uint16, count: Uint32, tag: nat, flags: Uint16, n: nat)
    requires Room(b, n) && n >= 3 && tag in {INPUT, FEATURE}
    ensures Spent(b, PutData(b, size, count, tag, flags), 3) && Room(PutData(b, size, count, tag, flags), n - 3)
  {
    hide Put, Encode;
    var sized := UnsignedItem(GLOBAL, REPORT_SIZE, size);
    var counted := UnsignedItem(GLOBAL, REPORT_COUNT, count);
    PutRoom(b, sized, n);
    PutRoom(Put(b, sized), counted, n - 1);
    PutRoom(Put(Put(b, sized), counted), UnsignedItem(MAIN, tag, flags), n - 2);
  }

  lemma CollectionRoom(b: Build, kind: nat, page: Uint16, usage: Uint16, n: nat)
    requires Room(b, n) && n >= 3 && kind in {PHYSICAL, APPLICATION, LOGICAL}
    ensures Spent(b, PutCollection(b, kind, page, usage), 3)
  {
    hide Put, Encode, PutUsage;
    UsageRoom(b, page, usage, n);
    PutRoom(PutUsage(b, page, usage), UnsignedItem(MAIN, COLLECTION, kind), n - 2);
  }

  /** The counters are far from their limits after `n` calls. */
  predicate Modest(b: Build, n: nat) {
    && Count(b.inputReportBits, b.reportId) <= 0x20_0000 * n && Count(b.inputFields, b.reportId) <= n
    && b.inputBits <= 8 + 0x20_0000 * n && n <= MOST_CALLS
  }

  lemma RecordGood(b: Build, feature: bool, usages: nat, count: nat, size: nat, n: nat)
    requires b.good && Modest(b, n) && n < MOST_CALLS && size * count <= 0x20_0000 && size <= 255
    requires feature ==> b.featureReportBits == map[] && b.featureFields == map[]
    ensures RecordMain(b, feature, usages, count, size).good
  {
    hide Encode, Later, RecordBits, RecordField;
    var added := size * count;
    BitsGood(b, feature, Max(usages, count), size, added, n);
    RecordBitsKeeps(b, feature, Max(usages, count), size, added);
    if usages != 0 {
      FieldGood(RecordBits(b, feature, Max(usages, count), size, added), feature);
    }
  }

  lemma BitsGood(b: Build, feature: bool, usages: nat, size: nat, added: nat, n: nat)
    requires b.good && Modest(b, n) && n < MOST_CALLS && added <= 0x20_0000 && size <= 255
    requires feature ==> b.featureReportBits == map[]
    ensures var r := RecordBits(b, feature, usages, size, added);
            r.good && r.inputFields == b.inputFields && r.featureFields == b.featureFields && r.reportId == b.reportId
  {
    hide Encode, Later, WithBits, ObserveUsages;
    var bits := Count(if feature then b.featureReportBits else b.inputReportBits, b.reportId) + added;
    var seen := ObserveUsages(b.requirements, usages);
    WithBitsKeeps(b, feature,
                  seen.(reportSizeBits := Max(seen.reportSizeBits, size),
                        reportDataBits := Max(seen.reportDataBits, bits)), bits);
  }

  lemma FieldGood(b: Build, feature: bool)
    requires b.good && Count(if feature then b.featureFields else b.inputFields, b.reportId) < UINT32_MAX
    ensures RecordField(b, feature).good
  {
    hide Encode, Later, WithFields;
    var fields := Count(if feature then b.featureFields else b.inputFields, b.reportId) + 1;
    WithFieldsKeeps(b, feature, b.requirements.(fieldsPerReport := Max(b.requirements.fieldsPerReport, fields)),
                    fields);
  }

  lemma AddFieldsSucceed(b: Build, semantic: FieldSemantic, first: nat, count: nat)
    requires b.good && b.inputBits + count <= SIZE_MAX
    ensures AddFields(b, semantic, first, count, 1).good
    decreases count
  {
    hide Encode, Later;
    if count > 0 {
      AddFieldsSucceed(AddField(b, semantic, first, 1, 0, 1, NO_PHYSICAL, false), semantic, first + 1, count - 1);
    }
  }

  lemma VariableGood(b: Build, v: Variable, n: nat)
    requires Room(b, ITEMS_PER_CALL) && Modest(b, n) && n < MOST_CALLS && b.idDecided && 1 <= v.width <= 32
    requires PhysicalIsZero(v.physical) || PhysicalIsEnabled(v.physical)
    ensures Spent(b, EmitVariable(b, v), ITEMS_PER_CALL)
  {
    hide Encode, Later, PutUsage, PutLogical, PutPhysical, PutData, RecordMain, InputFlags, PhysicalIsZero, UnitIsValid;
    var ready := Prepare(b);
    var used := PutUsage(ready, v.page, v.usage);
    var ranged := PutLogical(used, v.minimum, v.maximum);
    var scaled := if PhysicalIsEnabled(v.physical) then PutPhysical(ranged, v.physical) else ranged;
    var emitted := PutData(scaled, v.width, 1, INPUT, InputFlags(v));
    var recorded := RecordMain(emitted, false, 1, 1, v.width);
    assert Room(ready, 15);
    UsageRoom(ready, v.page, v.usage, 15);
    LogicalRoom(used, v.minimum, v.maximum, 13);
    if PhysicalIsEnabled(v.physical) {
      PhysicalRoom(ranged, v.physical, 11);
    }
    DataRoom(scaled, v.width, 1, INPUT, InputFlags(v), 7);
    assert emitted == PutVariable(ready, v);
    assert emitted == b.(dataMain := true, items := emitted.items);
    RecordGood(emitted, false, 1, 1, v.width, n);
    RecordKeeps(emitted, false, 1, 1, v.width);
    if PhysicalIsEnabled(v.physical) {
      PhysicalRoom(recorded, NO_PHYSICAL, 4);
    }
  }

  lemma RangeGood(b: Build, page: Uint16, low: Uint16, high: Uint16, semantic: FieldSemantic, n: nat)
    requires Room(b, ITEMS_PER_CALL) && Modest(b, n) && n < MOST_CALLS && b.idDecided && low <= high
    ensures Spent(b, EmitRange(b, page, low, high, 1, semantic), ITEMS_PER_CALL)
  {
    hide Encode, Later, PutUsageRange, PutLogical, PutData, RecordMain, AddFields;
    var count: nat := RangeCount(low, high);
    var ready := Prepare(b);
    var used := PutUsageRange(ready, page, low, high);
    var ranged := PutLogical(used, 0, 1);
    var emitted := PutData(ranged, 1, count, INPUT, 2);
    var recorded := RecordMain(emitted, false, count, count, 1);
    assert Room(ready, 15);
    UsageRangeRoom(ready, page, low, high, 15);
    LogicalRoom(used, 0, 1, 12);
    DataRoom(ranged, 1, count, INPUT, 2, 10);
    assert emitted == b.(dataMain := true, items := emitted.items);
    RecordGood(emitted, false, count, count, 1, n);
    RecordKeeps(emitted, false, count, count, 1);
    assert RangeMain(ready, page, low, high, 1) == recorded;
    AddFieldsSucceed(recorded, semantic, 0, count);
    AddFieldsGood(recorded, semantic, 0, count, 1);
  }

  lemma PaddingGood(b: Build, bits: Uint16, n: nat)
    requires Room(b, ITEMS_PER_CALL) && Modest(b, n) && n < MOST_CALLS && (bits != 0 ==> b.idDecided) && bits <= 32
    ensures Spent(b, EmitPadding(b, bits), ITEMS_PER_CALL)
  {
    hide Encode, Later, PutData, RecordMain;
    if bits != 0 {
      var ready := Prepare(b);
      var emitted := PutData(ready, bits, 1, INPUT, 1);
      assert Room(ready, 15);
      DataRoom(ready, bits, 1, INPUT, 1, 15);
      assert emitted == b.(dataMain := true, items := emitted.items);
      RecordGood(emitted, false, 0, 1, bits, n);
      RecordKeeps(emitted, false, 0, 1, bits);
    }
  }

  lemma FeatureGood(b: Build, page: Uint16, usage: Uint16, minimum: Int32, maximum: Int32, width: Byte, n: nat)
    requires Room(b, ITEMS_PER_CALL) && Modest(b, n) && n < MOST_CALLS && b.idDecided
    requires b.featureReportBits == map[] && b.featureFields == map[]
    ensures Spent(b, EmitFeature(b, page, usage, minimum, maximum, width), ITEMS_PER_CALL)
  {
    hide Encode, Later, PutUsage, PutLogical, PutData, RecordMain;
    var ready := Prepare(b);
    var used := PutUsage(ready, page, usage);
    var ranged := PutLogical(used, minimum, maximum);
    var emitted := PutData(ranged, width, 1, FEATURE, 3);
    assert Room(ready, 15);
    UsageRoom(ready, page, usage, 15);
    LogicalRoom(used, minimum, maximum, 13);
    DataRoom(ranged, width, 1, FEATURE, 3, 11);
    assert emitted == b.(dataMain := true, items := emitted.items);
    RecordGood(emitted, true, 1, 1, width, n);
    RecordKeeps(emitted, true, 1, 1, width);
  }

  lemma BeginGood(b: Build, kind: nat, page: Uint16, usage: Uint16)
    requires kind in {PHYSICAL, APPLICATION, LOGICAL} && Room(b, ITEMS_PER_CALL)
    requires if kind == APPLICATION then b.depth == 0 ==> !b.topSeen else b.depth > 0
    ensures Spent(b, BeginCollection(b, kind, page, usage), ITEMS_PER_CALL)
  {
    hide Encode, Later, PutCollection, ObserveUsages;
    CollectionRoom(b.(requirements := ObserveUsages(b.requirements, 1)), kind, page, usage, ITEMS_PER_CALL);
  }

  lemma EndGood(b: Build)
    requires b.depth > 0 && Room(b, ITEMS_PER_CALL)
    ensures Spent(b, EndCollection(b), ITEMS_PER_CALL)
  {
    hide Encode, Later, Put;
    PutRoom(b, PlainItem(MAIN, END_COLLECTION), ITEMS_PER_CALL);
  }

  lemma DecideGood(b: Build, enabled: bool, id: Byte)
    requires !b.idDecided && !b.dataMain && (enabled ==> id != 0) && Room(b, ITEMS_PER_CALL)
    ensures Spent(b, DecideReportId(b, enabled, id), ITEMS_PER_CALL)
  {
    hide Encode, Later, Put;
    PutRoom(b, UnsignedItem(GLOBAL, REPORT_ID, id), ITEMS_PER_CALL);
  }

  lemma FrameGood(s: Outline, b: Build, op: Op)
    requires op.Begin? || op.End? || op.SetReportId?
    requires Describes(s, b) && Sound(s, op) && Room(b, ITEMS_PER_CALL)
    ensures Spent(b, Apply(b, op), ITEMS_PER_CALL)
  {
    hide Encode, Later, BeginCollection, EndCollection, DecideReportId, Spent, Room, FourByteRule;
    match op
    case Begin(kind, page, usage) => BeginGood(b, kind, page, usage);
    case End => EndGood(b);
    case SetReportId(enabled, id) => DecideGood(b, enabled, id);
  }

  /** A sound call with room left succeeds. */
  lemma CallSucceeds(s: Outline, b: Build, op: Op, n: nat)
    requires Describes(s, b) && Sound(s, op) && Room(b, ITEMS_PER_CALL) && Modest(b, n) && n < MOST_CALLS
    ensures Spent(b, Apply(b, op), ITEMS_PER_CALL)
  {
    hide Encode, Later, FourByteRule, ValueFits, PhysicalIsZero, PhysicalIsEnabled, BeginCollection, EndCollection,
         DecideReportId, EmitVariable, EmitRange, EmitPadding, EmitFeature;
    match op
    case AddVariable(v) =>
      FittingWidth(v.minimum, v.maximum, v.width);
      VariableGood(b, v, n);
    case AddRange(page, low, high, width, semantic) => RangeGood(b, page, low, high, semantic, n);
    case PadReport => PaddingGood(b, PaddingBits(b.inputBits), n);
    case Feature(page, usage, minimum, maximum, width) => FeatureGood(b, page, usage, minimum, maximum, width, n);
    case _ => FrameGood(s, b, op);
  }

  lemma InputStaysModest(b: Build, r: Build, added: seq<FieldLayout>, bits: nat, usages: nat, count: nat, size: nat,
                         n: nat)
    requires Modest(b, n) && n < MOST_CALLS && bits <= 0x20_0000
    requires InputAdded(b, r, added, bits) && RawAgreement.Accounted(b, r, usages, count, size)
    ensures Modest(r, n + 1)
  {
    hide Tiled, Encode;
  }

  lemma StaysModest(s: Outline, b: Build, op: Op, n: nat)
    requires Tidy(b) && Describes(s, b) && Sound(s, op) && Modest(b, n) && n < MOST_CALLS && b.good && Apply(b, op).good
    ensures Modest(Apply(b, op), n + 1)
  {
    hide Tidy, InputAdded, RawAgreement.Accounted, FourByteRule, ValueFits, PhysicalIsZero, PhysicalIsEnabled, Later,
         BeginCollection, EndCollection, DecideReportId, EmitVariable, EmitRange, EmitPadding, EmitFeature;
    ProperWhenSound(s, b, op);
    match op
    case AddVariable(v) =>
      VariableEffect(b, v);
      RawAgreement.VariableAccounts(b, v);
      InputStaysModest(b, EmitVariable(b, v), [FieldOf(v, b.inputBits)], v.width, 1, 1, v.width, n);
    case AddRange(page, low, high, width, semantic) =>
      RangeEffect(b, page, low, high, width, semantic);
      RawAgreement.RangeAccounts(b, page, low, high, width, semantic);
      var count := RangeCount(low, high);
      InputStaysModest(b, EmitRange(b, page, low, high, width, semantic),
                       RangeFields(semantic, b.inputBits, count, width), RangeBits(low, high, width), count, count,
                           width, n);
    case PadReport =>
      var bits := PaddingBits(b.inputBits);
      if bits == 0 {
        NoPadding(b);
      } else {
        PaddingEffect(b, bits);
        RawAgreement.PaddingAccounts(b, bits);
        InputStaysModest(b, EmitPadding(b, bits), [PaddingField(b.inputBits, bits)], bits, 0, 1, bits, n);
      }
    case Feature(page, usage, minimum, maximum, width) => FeatureEffect(b, page, usage, minimum, maximum, width);
    case _ => FrameStaysModest(s, b, op, n);
  }

  lemma FrameStaysModest(s: Outline, b: Build, op: Op, n: nat)
    requires op.Begin? || op.End? || op.SetReportId?
    requires Tidy(b) && Describes(s, b) && Sound(s, op) && Modest(b, n) && n < MOST_CALLS && Apply(b, op).good
    ensures Modest(Apply(b, op), n + 1)
  {
    hide Encode, Later, BeginCollection, EndCollection, DecideReportId, FourByteRule, Tiled, Modest;
    match op
    case Begin(kind, page, usage) => BeginStaysModest(b, kind, page, usage, n);
    case End => EndStaysModest(b, n);
    case SetReportId(enabled, id) => DecideStaysModest(b, enabled, id, n);
  }

  lemma BeginStaysModest(b: Build, kind: nat, page: Uint16, usage: Uint16, n: nat)
    requires kind in {PHYSICAL, APPLICATION, LOGICAL} && BeginCollection(b, kind, page, usage).good && Modest(b, n)
             && n < MOST_CALLS
    ensures Modest(BeginCollection(b, kind, page, usage), n + 1)
  {
    hide Encode, Later, PutCollection, BeginCollection;
    var put := BeginShape(b, kind, page, usage);
  }

  lemma EndStaysModest(b: Build, n: nat)
    requires EndCollection(b).good && Modest(b, n) && n < MOST_CALLS
    ensures Modest(EndCollection(b), n + 1)
  {
    hide Encode, Later, Put, EndCollection;
    EndShape(b);
  }

  lemma DecideStaysModest(b: Build, enabled: bool, id: Byte, n: nat)
    requires Tidy(b) && DecideReportId(b, enabled, id).good && Modest(b, n) && n < MOST_CALLS
    ensures Modest(DecideReportId(b, enabled, id), n + 1)
  {
    hide Encode, Later, Put, Tiled;
  }

  /** With room for every call's items, a sound run succeeds. */
  lemma {:induction false} SoundRunSucceeds(capacity: nat, ops: seq<Op>)
    requires DrawAll(BLANK, ops).sound && |ops| <= MOST_CALLS && 5 * ITEMS_PER_CALL * |ops| <= capacity
    ensures var b := Run(NewBuild(true, capacity), ops);
            b.good && b.capacity == capacity && |Encode(b.items)| <= 5 * ITEMS_PER_CALL * |ops| && Modest(b, |ops|)
  {
    hide Apply, Draw, Describes, Tidy, Proper, Later, Modest, Encode;
    if |ops| == 0 {
      BlankIsModest(capacity);
    } else {
      var prefix, op := ops[..|ops| - 1], ops[|ops| - 1];
      var s, b := DrawAll(BLANK, prefix), Run(NewBuild(true, capacity), prefix);
      SoundPrefix(s, op);
      SoundOp(s, op);
      SoundRunSucceeds(capacity, prefix);
      SketchIsExact(capacity, prefix);
      RunTidy(capacity, prefix);
      CallSucceeds(s, b, op, |prefix|);
      StaysModest(s, b, op, |prefix|);
    }
  }

  lemma BlankIsModest(capacity: nat)
    ensures Modest(NewBuild(true, capacity), 0) && |Encode(NewBuild(true, capacity).items)| == 0
  {
  }

  /** Bytes the run's items take. */
  function DescriptorBytes(ops: seq<Op>): nat {
    |Encode(Run(NewBuild(true, 5 * ITEMS_PER_CALL * |ops|), ops).items)|
  }

  /** A sound run is refused only when its bytes exceed the capacity. */
  lemma SoundRunFits(capacity: nat, ops: seq<Op>)
    requires DrawAll(BLANK, ops).sound && |ops| <= MOST_CALLS
    ensures Run(NewBuild(true, capacity), ops).good <==> DescriptorBytes(ops) <= capacity
  {
    hide Run, Encode;
    var ample := 5 * ITEMS_PER_CALL * |ops|;
    SoundRunSucceeds(ample, ops);
    if DescriptorBytes(ops) <= capacity {
      GeneratedSpec.RunCommutes(ample, ops, capacity, true);
    }
    if Run(NewBuild(true, capacity), ops).good {
      WithinCapacity(capacity, ops);
      if |Encode(Run(NewBuild(true, capacity), ops).items)| <= ample {
        GeneratedSpec.RunCommutes(capacity, ops, ample, true);
      }
    }
  }

  lemma WithinCapacity(capacity: nat, ops: seq<Op>)
    requires DrawAll(BLANK, ops).sound && Run(NewBuild(true, capacity), ops).good
    ensures |Encode(Run(NewBuild(true, capacity), ops).items)| <= capacity
  {
    hide Run, Encode;
    SketchIsExact(capacity, ops);
    RunTidy(capacity, ops);
  }
}
