/**
 * A plain HID 1.11 report reader, and the proof that it recovers from the emitted bytes exactly the
 * fields of the builder's layout (sections 5.8, 6.2.2.2 and 6.2.2.7).
 */
module ReportReader {
  import opened Common
  import opened BitField
  import opened HidItems
  import opened HidWalk
  import opened GeneratedCheck
  import opened DescriptorBuilder
  import opened BuilderFacts

  /** A collection that the descriptor opens, and what a field stands for: its Usage, and its innermost collection. */
  datatype Collection = Collection(kind: nat, page: nat, usage: nat)

  datatype Meaning = Meaning(page: nat, usage: nat, relative: bool, noPreferred: bool, scope: nat)

  /** A constant field stands for nothing. */
  const NOTHING := Meaning(0, 0, false, false, 0)

  /** One Input field as a reader sees it; a constant field's range means nothing. */
  datatype ReadField = ReadField(
    offset: nat, width: nat, constant: bool, nullState: bool, minimum: int, maximum: int,
    physicalMinimum: int, physicalMaximum: int, unitExponent: int, unit: nat, meaning: Meaning)

  /** `begun` are all collections so far, in order, and `scopes` the numbers of those that are still open. */
  datatype Reading = Reading(
    page: nat, minimum: int, maximum: int, physicalMinimum: int, physicalMaximum: int, unitExponent: int, unit: nat,
    size: nat, count: nat, id: nat, usages: seq<nat>, usageLow: nat, bits: map<nat, nat>,
    begun: seq<Collection>, scopes: seq<nat>, applications: nat, fields: seq<ReadField>)

  const NEW_READING := Reading(0, 0, 0, 0, 0, 0, 0, 0, 0, 0, [], 0, map[], [], [], 0, [])

  const UNREADABLE := Issue(ErrUnsupported, "descriptor")

  function SignedNibble(value: nat): int {
    if value % 16 >= 8 then value % 16 - 16 else value % 16
  }

  function Innermost(scopes: seq<nat>): nat {
    if |scopes| == 0 then 0 else scopes[|scopes| - 1]
  }

  /** Usage `i` of the item; the last one stands for all that follow. */
  function UsageAt(usages: seq<nat>, i: nat): nat {
    if |usages| == 0 then 0 else usages[Min(i, |usages| - 1)]
  }

  function UsageSpan(low: nat, high: nat): seq<nat> {
    if high < low then [] else seq(high - low + 1, i requires 0 <= i => low + i)
  }

  function MeaningAt(r: Reading, i: nat, flags: nat): Meaning {
    if flags % 2 == 1 then NOTHING
    else
      Meaning(r.page, UsageAt(r.usages, i), (flags / 4) % 2 == 1, (flags / 0x20) % 2 == 1, Innermost(r.scopes))
  }

  function NextField(r: Reading, i: nat, flags: nat): ReadField {
    var constant := flags % 2 == 1;
    ReadField((if r.id != 0 then 8 else 0) + Count(r.bits, r.id), r.size, constant, (flags / 0x40) % 2 == 1,
              if constant then 0 else r.minimum, if constant then 0 else r.maximum,
              r.physicalMinimum, r.physicalMaximum, r.unitExponent, r.unit, MeaningAt(r, i, flags))
  }

  /** `n` fields of one Input item, from its field `i` on. */
  function ReadFields(r: Reading, i: nat, n: nat, flags: nat): Reading
    decreases n
  {
    if n == 0 then r
    else
      ReadFields(r.(fields := r.fields + [NextField(r, i, flags)],
                    bits := r.bits[r.id := Count(r.bits, r.id) + r.size]),
                 i + 1, n - 1, flags)
  }

  function ReadGlobal(r: Reading, item: Item): Outcome<Reading> {
    if item.tag == LOGICAL_MINIMUM then Accept(r.(minimum := SignedValue(item)))
    else if item.tag == LOGICAL_MAXIMUM then Accept(r.(maximum := ReadMaximum(item, r.minimum)))
    else if item.tag == PHYSICAL_MINIMUM then Accept(r.(physicalMinimum := SignedValue(item)))
    else if item.tag == PHYSICAL_MAXIMUM then Accept(r.(physicalMaximum := ReadMaximum(item, r.physicalMinimum)))
    else if item.tag == UNIT_EXPONENT then Accept(r.(unitExponent := SignedNibble(item.value)))
    else if item.tag == UNIT then Accept(r.(unit := item.value))
    else if item.tag == REPORT_SIZE then Accept(r.(size := item.value))
    else if item.tag == REPORT_COUNT then Accept(r.(count := item.value))
    else if item.tag == REPORT_ID then Accept(r.(id := item.value))
    else if item.tag == USAGE_PAGE then Accept(r.(page := item.value))
    else Reject(UNREADABLE)
  }

  function ReadLocal(r: Reading, item: Item): Reading {
    if item.tag == USAGE then r.(usages := r.usages + [item.value])
    else if item.tag == USAGE_MINIMUM then r.(usageLow := item.value)
    else if item.tag == USAGE_MAXIMUM then r.(usages := r.usages + UsageSpan(r.usageLow, item.value))
    else r
  }

  /** The Local items end with their Main item. */
  function Done(r: Reading): Reading {
    r.(usages := [], usageLow := 0)
  }

  function ReadMain(r: Reading, item: Item): Outcome<Reading> {
    if item.tag == COLLECTION then
      if |r.scopes| == 0 && item.value != APPLICATION then Reject(UNREADABLE)
      else
        Accept(Done(r.(begun := r.begun + [Collection(item.value, r.page, UsageAt(r.usages, 0))],
                       scopes := r.scopes + [|r.begun|],
                       applications := r.applications + if |r.scopes| == 0 then 1 else 0)))
    else if item.tag == END_COLLECTION then
      if |r.scopes| == 0 then Reject(UNREADABLE) else Accept(Done(r.(scopes := r.scopes[..|r.scopes| - 1])))
    else if item.tag == INPUT then Accept(Done(ReadFields(r, 0, r.count, item.value)))
    else if item.tag == FEATURE then Accept(Done(r))
    else Reject(UNREADABLE)
  }

  function ReadStep(r: Reading, item: Item): Outcome<Reading> {
    if item.kind == GLOBAL then ReadGlobal(r, item)
    else if item.kind == MAIN then ReadMain(r, item)
    else Accept(ReadLocal(r, item))
  }

  const READER := Checker(ReadStep, UNREADABLE, UNREADABLE)

  function Read(b: Build): Outcome<Reading> {
    WalkItems(READER, NEW_READING, b.items)
  }

  // ----- What the calls meant --------------------------------------------------------------------

  /** A layout field as the reader should see it, with what the call that made it meant. */
  function ReadBack(f: FieldLayout, m: Meaning): ReadField {
    var constant := f.semantic == ConstantPadding;
    ReadField(f.bitOffset, f.bitWidth, constant, f.hasNullState, if constant then 0 else f.logicalMinimum,
              if constant then 0 else f.logicalMaximum, f.physical.minimum, f.physical.maximum,
              f.physical.unitExponent, f.physical.unit, m)
  }

  function ReadBackAll(fields: seq<FieldLayout>, meanings: seq<Meaning>): seq<ReadField>
    requires |fields| == |meanings|
  {
    seq(|fields|, i requires 0 <= i < |fields| => ReadBack(fields[i], meanings[i]))
  }

  /** The collections that a list of calls has opened, and those still open. */
  datatype Scopes = Scopes(begun: seq<Collection>, stack: seq<nat>)

  const NO_SCOPES := Scopes([], [])

  function ScopeStep(s: Scopes, op: Op): Scopes {
    match op
    case Begin(kind, page, usage) => Scopes(s.begun + [Collection(kind, page, usage)], s.stack + [|s.begun|])
    case End => if |s.stack| == 0 then s else s.(stack := s.stack[..|s.stack| - 1])
    case _ => s
  }

  function ScopesAfter(s: Scopes, ops: seq<Op>): Scopes {
    if |ops| == 0 then s else ScopeStep(ScopesAfter(s, ops[..|ops| - 1]), ops[|ops| - 1])
  }

  function VariableMeaning(v: Variable, scope: nat): Meaning {
    Meaning(v.page, v.usage, v.relative, v.noPreferred, scope)
  }

  function RangeMeanings(page: nat, low: nat, count: nat, scope: nat): seq<Meaning> {
    seq(count, i requires 0 <= i => Meaning(page, low + i, false, false, scope))
  }

  function PaddingMeanings(bits: nat): seq<Meaning> {
    if bits == 0 then [] else [NOTHING]
  }

  /** What the fields that one call adds stand for. */
  function Meant(b: Build, s: Scopes, op: Op): seq<Meaning> {
    match op
    case AddVariable(v) => [VariableMeaning(v, Innermost(s.stack))]
    case AddRange(page, low, high, _, _) =>
      RangeMeanings(page, low, if high < low then 0 else high - low + 1, Innermost(s.stack))
    case Padding(bits) => PaddingMeanings(bits)
    case PadReport => PaddingMeanings(PaddingBits(b.inputBits))
    case _ => []
  }

  function MeantBy(capacity: nat, ops: seq<Op>): seq<Meaning> {
    if |ops| == 0 then []
    else
      var prefix := ops[..|ops| - 1];
      MeantBy(capacity, prefix) + Meant(Run(NewBuild(true, capacity), prefix), ScopesAfter(NO_SCOPES, prefix),
                                        ops[|ops| - 1])
  }

  // ----- Segments --------------------------------------------------------------------------------

  lemma ReadPut(b: Build, item: Item, r: Reading)
    requires Put(b, item).good && Read(b) == Accept(r)
    ensures Read(Put(b, item)) == ReadStep(r, item)
  {
    WalkSnoc(READER, NEW_READING, b.items, item);
  }

  lemma SameRead(b: Build, c: Build)
    requires b.items == c.items
    ensures Read(b) == Read(c)
  {
  }

  lemma ReadUsage(b: Build, page: Uint16, usage: Uint16, r: Reading)
    requires PutUsage(b, page, usage).good && Read(b) == Accept(r)
    ensures Read(PutUsage(b, page, usage)) == Accept(r.(page := page, usages := r.usages + [usage]))
  {
    hide Read, Put;
    ReadPut(b, UnsignedItem(GLOBAL, USAGE_PAGE, page), r);
    ReadPut(Put(b, UnsignedItem(GLOBAL, USAGE_PAGE, page)), UnsignedItem(LOCAL, USAGE, usage), r.(page := page));
  }

  lemma ReadUsageRange(b: Build, page: Uint16, low: Uint16, high: Uint16, r: Reading)
    requires PutUsageRange(b, page, low, high).good && Read(b) == Accept(r)
    ensures Read(PutUsageRange(b, page, low, high))
            == Accept(r.(page := page, usageLow := low, usages := r.usages + UsageSpan(low, high)))
  {
    hide Read, Put, UsageSpan;
    var paged := Put(b, UnsignedItem(GLOBAL, USAGE_PAGE, page));
    ReadPut(b, UnsignedItem(GLOBAL, USAGE_PAGE, page), r);
    ReadPut(paged, UnsignedItem(LOCAL, USAGE_MINIMUM, low), r.(page := page));
    ReadPut(Put(paged, UnsignedItem(LOCAL, USAGE_MINIMUM, low)), UnsignedItem(LOCAL, USAGE_MAXIMUM, high),
            r.(page := page, usageLow := low));
  }

  function Ranged(r: Reading, minimum: int, maximum: int): Reading {
    r.(minimum := minimum, maximum := maximum)
  }

  lemma ReadLogical(b: Build, minimum: Int32, maximum: Int32, r: Reading)
    requires PutLogical(b, minimum, maximum).good && Read(b) == Accept(r)
    ensures Read(PutLogical(b, minimum, maximum))
            == Accept(Ranged(r, minimum, ReadMaximum(MaximumItem(LOGICAL_MAXIMUM, maximum, minimum), minimum)))
  {
    hide Read, Put, ReadMaximum, MaximumItem;
    var low := SignedItem(GLOBAL, LOGICAL_MINIMUM, minimum);
    SignedItemExact(GLOBAL, LOGICAL_MINIMUM, minimum);
    MaximumItemTag(LOGICAL_MAXIMUM, maximum, minimum);
    ReadPut(b, low, r);
    ReadPut(Put(b, low), MaximumItem(LOGICAL_MAXIMUM, maximum, minimum), r.(minimum := minimum));
  }

  lemma MaximumItemTag(tag: nat, maximum: Int32, minimum: Int32)
    requires tag <= 14
    ensures MaximumItem(tag, maximum, minimum).kind == GLOBAL && MaximumItem(tag, maximum, minimum).tag == tag
  {
  }

  function Scaled(r: Reading, p: Physical): Reading {
    r.(physicalMinimum := p.minimum, physicalMaximum := p.maximum, unitExponent := p.unitExponent, unit := p.unit)
  }

  lemma NibbleExact(value: int)
    requires -8 <= value <= 7
    ensures SignedNibble(value % 16) == value
  {
  }

  lemma ReadPhysical(b: Build, p: Physical, r: Reading)
    requires -8 <= p.unitExponent <= 7 && p.minimum <= p.maximum && PutPhysical(b, p).good && Read(b) == Accept(r)
    ensures Read(PutPhysical(b, p)) == Accept(Scaled(r, p))
  {
    hide Read, Put, ReadMaximum, MaximumItem, SignedNibble;
    var low := SignedItem(GLOBAL, PHYSICAL_MINIMUM, p.minimum);
    var high := MaximumItem(PHYSICAL_MAXIMUM, p.maximum, p.minimum);
    var exponent := Item(GLOBAL, UNIT_EXPONENT, 1, p.unitExponent % 16);
    SignedItemExact(GLOBAL, PHYSICAL_MINIMUM, p.minimum);
    MaximumItemTag(PHYSICAL_MAXIMUM, p.maximum, p.minimum);
    MaximumItemExact(PHYSICAL_MAXIMUM, p.minimum, p.maximum);
    NibbleExact(p.unitExponent);
    var r1 := r.(physicalMinimum := p.minimum);
    var r2 := r1.(physicalMaximum := p.maximum);
    ReadPut(b, low, r);
    ReadPut(Put(b, low), high, r1);
    ReadPut(Put(Put(b, low), high), exponent, r2);
    ReadPut(Put(Put(Put(b, low), high), exponent), UnsignedItem(GLOBAL, UNIT, p.unit),
            r2.(unitExponent := p.unitExponent));
  }

  lemma ReadData(b: Build, size: Uint16, count: Uint32, tag: nat, flags: Uint16, r: Reading)
    requires tag in {INPUT, FEATURE} && PutData(b, size, count, tag, flags).good && Read(b) == Accept(r)
    ensures var sized := r.(size := size, count := count);
            Read(PutData(b, size, count, tag, flags))
            == Accept(Done(if tag == INPUT then ReadFields(sized, 0, count, flags) else sized))
  {
    hide Read, Put, ReadFields;
    var sized := Put(b, UnsignedItem(GLOBAL, REPORT_SIZE, size));
    ReadPut(b, UnsignedItem(GLOBAL, REPORT_SIZE, size), r);
    ReadPut(sized, UnsignedItem(GLOBAL, REPORT_COUNT, count), r.(size := size));
    ReadPut(Put(sized, UnsignedItem(GLOBAL, REPORT_COUNT, count)), UnsignedItem(MAIN, tag, flags),
            r.(size := size, count := count));
  }

  // ----- The fields of one item ------------------------------------------------------------------

  /** Field `i` of an Input item whose first field is the next one. */
  function FieldAt(r: Reading, flags: nat, i: nat): ReadField {
    NextField(r, i, flags).(offset := NextField(r, i, flags).offset + i * r.size)
  }

  /** The same, counted from field `k` of the item. */
  function FieldFrom(r: Reading, flags: nat, k: nat, i: nat): ReadField {
    NextField(r, k + i, flags).(offset := NextField(r, k + i, flags).offset + i * r.size)
  }

  lemma {:induction false} ReadFieldsFrom(r: Reading, k: nat, n: nat, flags: nat)
    ensures var q := ReadFields(r, k, n, flags);
            && q == r.(fields := q.fields, bits := q.bits)
            && (n > 0 ==> q.bits == r.bits[r.id := Count(r.bits, r.id) + n * r.size])
            && q.fields == r.fields + seq(n, i requires 0 <= i => FieldFrom(r, flags, k, i))
    decreases n
  {
    hide UsageAt, Innermost;
    if n == 0 {
    } else {
      var one := r.(fields := r.fields + [NextField(r, k, flags)],
                    bits := r.bits[r.id := Count(r.bits, r.id) + r.size]);
      ReadFieldsFrom(one, k + 1, n - 1, flags);
      assert n * r.size == r.size + (n - 1) * r.size;
      forall i | 0 < i < n
        ensures FieldFrom(r, flags, k, i) == FieldFrom(one, flags, k + 1, i - 1)
      {
        assert i * r.size == r.size + (i - 1) * r.size;
      }
      assert [NextField(r, k, flags)] + seq(n - 1, i requires 0 <= i => FieldFrom(one, flags, k + 1, i))
          == seq(n, i requires 0 <= i => FieldFrom(r, flags, k, i));
    }
  }

  lemma ReadFieldsResult(r: Reading, n: nat, flags: nat)
    ensures var q := ReadFields(r, 0, n, flags);
            && q == r.(fields := q.fields, bits := q.bits)
            && (n > 0 ==> q.bits == r.bits[r.id := Count(r.bits, r.id) + n * r.size])
            && q.fields == r.fields + seq(n, i requires 0 <= i => FieldAt(r, flags, i))
  {
    hide ReadFields, NextField;
    ReadFieldsFrom(r, 0, n, flags);
  }

  // ----- The relation ----------------------------------------------------------------------------

  /** The reader has recovered the builder's layout so far, and the physical state is back to zero. */
  predicate Recovers(b: Build, meanings: seq<Meaning>, s: Scopes) {
    Read(b).Accept? && Knows(b, Read(b).state, meanings, s)
  }

  predicate Knows(b: Build, r: Reading, meanings: seq<Meaning>, s: Scopes) {
    && |r.scopes| == b.depth && r.applications == (if b.topSeen then 1 else 0) && r.id == b.reportId
    && r.begun == s.begun && r.scopes == s.stack && r == Done(r)
    && r.bits == b.inputReportBits && |meanings| == |b.fields| && r.fields == ReadBackAll(b.fields, meanings)
    && Scaled(r, NO_PHYSICAL) == r
  }

  /** What one Input item adds to a reading that knows the builder's state. */
  lemma InputKnows(b: Build, c: Build, added: seq<FieldLayout>, bits: nat, meanings: seq<Meaning>, more: seq<Meaning>,
                   s: Scopes, r: Reading, q: Reading, flags: nat)
    requires Tidy(b) && InputAdded(b, c, added, bits) && Knows(b, Scaled(Done(r), NO_PHYSICAL), meanings, s)
    requires |added| == |more| > 0 && r.count == |added| && bits == |added| * r.size
    requires forall i :: 0 <= i < |added| ==> ReadBack(added[i], more[i]) == FieldAt(r, flags, i)
    requires q == Done(ReadFields(r, 0, r.count, flags))
    ensures Knows(c, Scaled(q, NO_PHYSICAL), meanings + more, s)
  {
    hide ReadFields, Tiled, Encode, ReadBack, FieldAt;
    ReadFieldsResult(r, r.count, flags);
    assert q.fields == ReadBackAll(c.fields, meanings + more);
  }

  lemma FirstField(b: Build, r: Reading, i: nat, flags: nat)
    requires Tidy(b) && r.id == b.reportId && r.bits == b.inputReportBits
    ensures NextField(r, i, flags).offset == b.inputBits
  {
    hide MeaningAt;
  }

  // ----- Operations ------------------------------------------------------------------------------

  /** The reading just before a variable's Input item. */
  function BeforeVariable(r: Reading, v: Variable): Reading {
    Scaled(Ranged(r.(page := v.page, usages := r.usages + [v.usage]), v.minimum, v.maximum), v.physical)
      .(size := v.width, count := 1)
  }

  lemma ReadVariable(b: Build, v: Variable, r: Reading)
    requires EmitVariable(b, v).good && v.minimum <= v.maximum && Read(b) == Accept(r) && Scaled(r, NO_PHYSICAL) == r
    ensures Read(EmitVariable(b, v))
            == Accept(Scaled(Done(ReadFields(BeforeVariable(r, v), 0, 1, InputFlags(v))), NO_PHYSICAL))
  {
    hide Read, Put, PutUsage, PutLogical, PutPhysical, PutData, RecordMain, AddField, InputFlags, ReadMaximum,
         MaximumItem,
         ReadFields, UnitIsValid;
    var used := PutUsage(Prepare(b), v.page, v.usage);
    var ranged := PutLogical(used, v.minimum, v.maximum);
    var scaled := if PhysicalIsEnabled(v.physical) then PutPhysical(ranged, v.physical) else ranged;
    var emitted := PutData(scaled, v.width, 1, INPUT, InputFlags(v));
    var recorded := RecordMain(emitted, false, 1, 1, v.width);
    var unscaled := if PhysicalIsEnabled(v.physical) then PutPhysical(recorded, NO_PHYSICAL) else recorded;
    assert emitted == PutVariable(Prepare(b), v);
    AddFieldGood(unscaled, v.semantic, v.instance, v.width, v.minimum, v.maximum, v.physical, v.nullState);
    RecordKeeps(emitted, false, 1, 1, v.width);
    SameRead(b, Prepare(b));
    ReadUsage(Prepare(b), v.page, v.usage, r);
    MaximumItemExact(LOGICAL_MAXIMUM, v.minimum, v.maximum);
    var r0 := r.(page := v.page, usages := r.usages + [v.usage]);
    ReadLogical(used, v.minimum, v.maximum, r0);
    var r1 := Ranged(r0, v.minimum, v.maximum);
    if PhysicalIsEnabled(v.physical) {
      ReadPhysical(ranged, v.physical, r1);
    }
    ReadData(scaled, v.width, 1, INPUT, InputFlags(v), Scaled(r1, v.physical));
    var q := Done(ReadFields(BeforeVariable(r, v), 0, 1, InputFlags(v)));
    SameRead(emitted, recorded);
    ReadFieldsResult(BeforeVariable(r, v), 1, InputFlags(v));
    if PhysicalIsEnabled(v.physical) {
      ReadPhysical(recorded, NO_PHYSICAL, q);
    }
    SameRead(unscaled, EmitVariable(b, v));
  }

  lemma FlagsMean(v: Variable, r: Reading)
    requires r.usages == []
    ensures MeaningAt(BeforeVariable(r, v), 0, InputFlags(v)) == VariableMeaning(v, Innermost(r.scopes))
    ensures InputFlags(v) % 2 == 0 && ((InputFlags(v) / 0x40) % 2 == 1 <==> v.nullState)
  {
    hide Innermost;
  }

  lemma VariableRecovers(b: Build, v: Variable, meanings: seq<Meaning>, s: Scopes)
    requires Tidy(b) && Recovers(b, meanings, s) && Proper(b, AddVariable(v)) && EmitVariable(b, v).good
    ensures Recovers(EmitVariable(b, v), meanings + [VariableMeaning(v, Innermost(s.stack))], s)
  {
    hide Read, Tidy, InputAdded, EmitVariable, ReadFields, ValueFits, MeaningAt, InputFlags, Innermost;
    var r := Read(b).state;
    VariableEffect(b, v);
    OrderedRange(v.minimum, v.maximum, v.width);
    ReadVariable(b, v, r);
    FirstField(b, BeforeVariable(r, v), 0, InputFlags(v));
    FlagsMean(v, r);
    InputKnows(b, EmitVariable(b, v), [FieldOf(v, b.inputBits)], v.width, meanings,
               [VariableMeaning(v, Innermost(s.stack))], s, BeforeVariable(r, v),
               Done(ReadFields(BeforeVariable(r, v), 0, 1, InputFlags(v))), InputFlags(v));
  }

  lemma OrderedRange(minimum: Int32, maximum: Int32, width: nat)
    requires ValueFits(minimum, maximum, width)
    ensures minimum <= maximum
  {
  }

  function BeforeRange(r: Reading, page: nat, low: nat, high: nat, width: nat, count: nat): Reading {
    Ranged(r.(page := page, usageLow := low, usages := r.usages + UsageSpan(low, high)), 0, 1)
      .(size := width, count := count)
  }

  lemma ReadRange(b: Build, page: Uint16, low: Uint16, high: Uint16, width: Byte, semantic: FieldSemantic, r: Reading)
    requires EmitRange(b, page, low, high, width, semantic).good && Read(b) == Accept(r)
    ensures Read(EmitRange(b, page, low, high, width, semantic))
            == Accept(Done(ReadFields(BeforeRange(r, page, low, high, width, RangeCount(low, high)), 0,
                                      RangeCount(low, high), 2)))
  {
    hide Read, Put, PutUsageRange, PutLogical, PutData, RecordMain, AddFields, ReadMaximum, MaximumItem, ReadFields,
         UsageSpan;
    var count: nat := RangeCount(low, high);
    var used := PutUsageRange(Prepare(b), page, low, high);
    var ranged := PutLogical(used, 0, 1);
    var emitted := PutData(ranged, width, count, INPUT, 2);
    var recorded := RecordMain(emitted, false, count, count, width);
    assert RangeMain(Prepare(b), page, low, high, width) == recorded;
    AddFieldsGood(recorded, semantic, 0, count, width);
    RecordKeeps(emitted, false, count, count, width);
    SameRead(b, Prepare(b));
    ReadUsageRange(Prepare(b), page, low, high, r);
    var r0 := r.(page := page, usageLow := low, usages := r.usages + UsageSpan(low, high));
    MaximumItemExact(LOGICAL_MAXIMUM, 0, 1);
    ReadLogical(used, 0, 1, r0);
    ReadData(ranged, width, count, INPUT, 2, Ranged(r0, 0, 1));
    SameRead(emitted, recorded);
    SameRead(recorded, EmitRange(b, page, low, high, width, semantic));
  }

  lemma RangeMeans(r: Reading, page: nat, low: nat, high: nat, width: nat, count: nat, i: nat)
    requires r.usages == [] && low <= high && count == high - low + 1 && i < count
    ensures MeaningAt(BeforeRange(r, page, low, high, width, count), i, 2)
            == RangeMeanings(page, low, count, Innermost(r.scopes))[i]
  {
    hide Innermost;
  }

  lemma RangeRecovers(b: Build, page: Uint16, low: Uint16, high: Uint16, width: Byte, semantic: FieldSemantic,
                      meanings: seq<Meaning>, s: Scopes)
    requires Tidy(b) && Recovers(b, meanings, s) && Proper(b, AddRange(page, low, high, width, semantic))
    requires EmitRange(b, page, low, high, width, semantic).good
    ensures low <= high
    ensures Recovers(EmitRange(b, page, low, high, width, semantic),
                     meanings + RangeMeanings(page, low, high - low + 1, Innermost(s.stack)), s)
  {
    hide Read, Tidy, InputAdded, EmitRange, ReadFields, MeaningAt, RangeMeanings, UsageSpan, Innermost;
    var r := Read(b).state;
    var count := RangeCount(low, high);
    var before := BeforeRange(r, page, low, high, width, count);
    var more := RangeMeanings(page, low, count, Innermost(s.stack));
    RangeEffect(b, page, low, high, width, semantic);
    ReadRange(b, page, low, high, width, semantic, r);
    ReadFieldsResult(before, count, 2);
    RangeLength(page, low, count, Innermost(s.stack));
    var added := RangeFields(semantic, b.inputBits, count, width);
    forall i | 0 <= i < count
      ensures ReadBack(added[i], more[i]) == FieldAt(before, 2, i)
    {
      FirstField(b, before, i, 2);
      RangeMeans(r, page, low, high, width, count, i);
    }
    InputKnows(b, EmitRange(b, page, low, high, width, semantic), added, RangeBits(low, high, width), meanings, more, s,
               before, Done(ReadFields(before, 0, count, 2)), 2);
  }

  lemma RangeLength(page: nat, low: nat, count: nat, scope: nat)
    ensures |RangeMeanings(page, low, count, scope)| == count
  {
  }

  lemma ReadPadding(b: Build, bits: Uint16, r: Reading)
    requires bits > 0 && EmitPadding(b, bits).good && Read(b) == Accept(r)
    ensures Read(EmitPadding(b, bits)) == Accept(Done(ReadFields(r.(size := bits, count := 1), 0, 1, 1)))
  {
    hide Read, Put, PutData, RecordMain, AddField, ReadFields;
    var emitted := PutData(Prepare(b), bits, 1, INPUT, 1);
    var recorded := RecordMain(emitted, false, 0, 1, bits);
    AddFieldGood(recorded, ConstantPadding, 0, bits % 256, 0, 0, NO_PHYSICAL, false);
    RecordKeeps(emitted, false, 0, 1, bits);
    SameRead(b, Prepare(b));
    ReadData(Prepare(b), bits, 1, INPUT, 1, r);
    SameRead(emitted, recorded);
    SameRead(recorded, EmitPadding(b, bits));
  }

  lemma PaddingRecovers(b: Build, bits: Uint16, meanings: seq<Meaning>, s: Scopes)
    requires Tidy(b) && Recovers(b, meanings, s) && bits <= 32 && b.good && EmitPadding(b, bits).good
    ensures Recovers(EmitPadding(b, bits), meanings + PaddingMeanings(bits), s)
  {
    hide Read, Tidy, InputAdded, ReadFields, EmitPadding;
    if bits == 0 {
      NoPadding(b);
      assert meanings + [] == meanings;
    } else {
      var r := Read(b).state;
      var before := r.(size := bits, count := 1);
      PaddingEffect(b, bits);
      ReadPadding(b, bits, r);
      FirstField(b, before, 0, 1);
      ReadFieldsResult(before, 1, 1);
      InputKnows(b, EmitPadding(b, bits), [PaddingField(b.inputBits, bits)], bits, meanings, [NOTHING], s, before,
                 Done(ReadFields(before, 0, 1, 1)), 1);
    }
  }

  lemma FeatureRecovers(b: Build, page: Uint16, usage: Uint16, minimum: Int32, maximum: Int32, width: Byte,
                        meanings: seq<Meaning>, s: Scopes)
    requires Tidy(b) && Recovers(b, meanings, s) && EmitFeature(b, page, usage, minimum, maximum, width).good
    ensures Recovers(EmitFeature(b, page, usage, minimum, maximum, width), meanings, s)
  {
    hide Read, Tidy, Put, PutUsage, PutLogical, PutData, RecordMain, ReadMaximum, MaximumItem;
    var r := Read(b).state;
    var used := PutUsage(Prepare(b), page, usage);
    var ranged := PutLogical(used, minimum, maximum);
    var emitted := PutData(ranged, width, 1, FEATURE, 3);
    FeatureEffect(b, page, usage, minimum, maximum, width);
    RecordKeeps(emitted, true, 1, 1, width);
    SameRead(b, Prepare(b));
    ReadUsage(Prepare(b), page, usage, r);
    var r0 := r.(page := page, usages := r.usages + [usage]);
    ReadLogical(used, minimum, maximum, r0);
    ReadData(ranged, width, 1, FEATURE, 3,
             Ranged(r0, minimum, ReadMaximum(MaximumItem(LOGICAL_MAXIMUM, maximum, minimum), minimum)));
    SameRead(emitted, EmitFeature(b, page, usage, minimum, maximum, width));
  }

  lemma SeenWhenDeep(b: Build)
    requires Tidy(b)
    ensures b.depth > 0 ==> b.topSeen
  {
    hide Tiled, Encode;
  }

  lemma OnlyApplicationsOnTop(b: Build, kind: nat, page: Uint16, usage: Uint16)
    requires kind in {PHYSICAL, APPLICATION, LOGICAL} && BeginCollection(b, kind, page, usage).good && b.depth == 0
    ensures kind == APPLICATION && !b.topSeen
  {
    hide PutCollection, Encode, Later, Extends, ObserveUsages, Enter;
  }

  lemma CollectionRecovers(b: Build, kind: nat, page: Uint16, usage: Uint16, meanings: seq<Meaning>, s: Scopes)
    requires Tidy(b) && Recovers(b, meanings, s) && kind in {PHYSICAL, APPLICATION, LOGICAL}
    requires BeginCollection(b, kind, page, usage).good
    ensures Recovers(BeginCollection(b, kind, page, usage), meanings, ScopeStep(s, Begin(kind, page, usage)))
  {
    hide Read, Put, PutUsage, Encode, Later, ObserveUsages, BeginCollection, Tidy;
    var r := Read(b).state;
    var observed := b.(requirements := ObserveUsages(b.requirements, 1));
    var _ := BeginShape(b, kind, page, usage);
    SeenWhenDeep(b);
    if b.depth == 0 {
      OnlyApplicationsOnTop(b, kind, page, usage);
    }
    SameRead(b, observed);
    ReadUsage(observed, page, usage, r);
    var r0 := r.(page := page, usages := r.usages + [usage]);
    ReadPut(PutUsage(observed, page, usage), UnsignedItem(MAIN, COLLECTION, kind), r0);
    SameRead(PutCollection(observed, kind, page, usage), BeginCollection(b, kind, page, usage));
  }

  lemma EndRecovers(b: Build, meanings: seq<Meaning>, s: Scopes)
    requires Recovers(b, meanings, s) && EndCollection(b).good
    ensures Recovers(EndCollection(b), meanings, ScopeStep(s, End))
  {
    hide Read, Put, EndCollection, Encode, Later;
    EndShape(b);
    ReadPut(b, PlainItem(MAIN, END_COLLECTION), Read(b).state);
    SameRead(Put(b, PlainItem(MAIN, END_COLLECTION)), EndCollection(b));
  }

  lemma DecideRecovers(b: Build, enabled: bool, id: Byte, meanings: seq<Meaning>, s: Scopes)
    requires Tidy(b) && Recovers(b, meanings, s) && DecideReportId(b, enabled, id).good
    ensures Recovers(DecideReportId(b, enabled, id), meanings, s)
  {
    hide Read, Put;
    if enabled {
      ReadPut(b, UnsignedItem(GLOBAL, REPORT_ID, id), Read(b).state);
      SameRead(Put(b, UnsignedItem(GLOBAL, REPORT_ID, id)), DecideReportId(b, enabled, id));
    } else {
      SameRead(b, DecideReportId(b, enabled, id));
    }
  }

  lemma ApplyRecovers(b: Build, op: Op, meanings: seq<Meaning>, s: Scopes)
    requires Tidy(b) && Recovers(b, meanings, s) && Proper(b, op) && b.good && Apply(b, op).good
    ensures Recovers(Apply(b, op), meanings + Meant(b, s, op), ScopeStep(s, op))
  {
    hide Tidy, Recovers, ValueFits, BeginCollection, EndCollection, DecideReportId, EmitVariable, EmitRange,
         EmitPadding, EmitFeature, RangeMeanings, PaddingMeanings, VariableMeaning, Innermost;
    assert meanings + [] == meanings;
    match op
    case Begin(kind, page, usage) => CollectionRecovers(b, kind, page, usage, meanings, s);
    case End => EndRecovers(b, meanings, s);
    case SetReportId(enabled, id) => DecideRecovers(b, enabled, id, meanings, s);
    case AddVariable(v) => VariableRecovers(b, v, meanings, s);
    case AddRange(page, low, high, width, semantic) => RangeRecovers(b, page, low, high, width, semantic, meanings, s);
    case Padding(bits) => PaddingRecovers(b, bits, meanings, s);
    case PadReport => PaddingRecovers(b, PaddingBits(b.inputBits), meanings, s);
    case Feature(page, usage, minimum, maximum, width) =>
      FeatureRecovers(b, page, usage, minimum, maximum, width, meanings, s);
  }

  lemma {:induction false} RunRecovers(capacity: nat, ops: seq<Op>)
    requires ProperRun(NewBuild(true, capacity), ops) && Run(NewBuild(true, capacity), ops).good
    ensures Recovers(Run(NewBuild(true, capacity), ops), MeantBy(capacity, ops), ScopesAfter(NO_SCOPES, ops))
  {
    hide Apply, Proper, Tidy, Meant, ScopeStep;
    if |ops| == 0 {
    } else {
      var prefix := ops[..|ops| - 1];
      var before := Run(NewBuild(true, capacity), prefix);
      RunTidy(capacity, prefix);
      RunRecovers(capacity, prefix);
      ApplyRecovers(before, ops[|ops| - 1], MeantBy(capacity, prefix), ScopesAfter(NO_SCOPES, prefix));
    }
  }

  /**
   * Reading the emitted bytes back recovers everything the calls put in: every collection with its kind and
   * Usage, one balanced Application collection, the Report ID, and per field its place, width, range, Null state,
   * physical properties, Usage, flags and collection, in order.
   */
  lemma DescriptorReadsBack(ops: seq<Op>)
    requires var b := Finished(Run(NewBuild(true, DESCRIPTOR_WIRE_MAXIMUM), ops));
             b.good && b.topSeen && ProperRun(NewBuild(true, DESCRIPTOR_WIRE_MAXIMUM), ops)
    ensures var b := Run(NewBuild(true, DESCRIPTOR_WIRE_MAXIMUM), ops);
            var meanings := MeantBy(DESCRIPTOR_WIRE_MAXIMUM, ops);
            var read := WalkBytes(READER, Encode(b.items), 0, NEW_READING);
            && read.Accept?
            && read.state.scopes == [] && read.state.applications == 1
            && read.state.begun == ScopesAfter(NO_SCOPES, ops).begun
            && read.state.id == LayoutOf(b).reportId
            && |meanings| == |LayoutOf(b).fields| && read.state.fields == ReadBackAll(LayoutOf(b).fields, meanings)
            && LayoutOf(b).wireBytes
               == CeilDiv((if LayoutOf(b).hasReportId then 8 else 0) + Count(read.state.bits, read.state.id), 8)
  {
    hide Run, ProperRun, ReadBackAll, CeilDiv, ReadStep, WalkBytes, WalkItems, Encode, Tiled, MeantBy, ScopesAfter;
    var b := Run(NewBuild(true, DESCRIPTOR_WIRE_MAXIMUM), ops);
    RunTidy(DESCRIPTOR_WIRE_MAXIMUM, ops);
    RunRecovers(DESCRIPTOR_WIRE_MAXIMUM, ops);
    WalkEncoded(READER, NEW_READING, b.items);
  }
}
