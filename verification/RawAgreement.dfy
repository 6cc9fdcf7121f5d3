/**
 * The builder and the strict raw parser agree: a Feature-free generated descriptor with at least one
 * Input field is a valid raw descriptor, and both arrive at the same requirements.
 */
module RawAgreement {
  import opened Common
  import opened BitField
  import opened HidItems
  import opened HidWalk
  import opened GeneratedCheck
  import opened DescriptorBuilder
  import opened BuilderFacts
  import opened RawCheck
  import GeneratedAgreement

  /** The raw parser's verdict on what the builder has emitted. */
  function Raw(b: Build): Outcome<Parser> {
    WalkItems(RAW_CHECKER, NEW_PARSER, b.items)
  }

  lemma RawPut(b: Build, item: Item, p: Parser)
    requires Put(b, item).good && Raw(b) == Accept(p)
    ensures Raw(Put(b, item)) == RawStep(p, item)
  {
    WalkSnoc(RAW_CHECKER, NEW_PARSER, b.items, item);
  }

  lemma SameRaw(b: Build, c: Build)
    requires b.items == c.items
    ensures Raw(b) == Raw(c)
  {
  }

  // ----- Segments --------------------------------------------------------------------------------

  function Paged(g: Globals, page: nat): Globals {
    g.(usagePage := page, usagePageDeclared := true)
  }

  function Bounded(g: Globals, minimum: int, maximum: int): Globals {
    g.(logicalMinimum := minimum, logicalMinimumDeclared := true, logicalMaximum := maximum,
       logicalMaximumDeclared := true)
  }

  function Measured(g: Globals, p: Physical): Globals {
    g.(physicalMinimum := p.minimum, physicalMinimumDeclared := true, physicalMaximum := p.maximum,
       physicalMaximumDeclared := true, unitExponentDeclared := true, unit := p.unit)
  }

  /** After the Usage items of an operation with `count` Usages. */
  function Used(p: Parser, page: nat, locals: Locals): Parser {
    p.(globals := Paged(p.globals, page), locals := locals,
       requirements := ObserveUsages(p.requirements, locals.usageCount))
  }

  const ONE_USAGE := NO_LOCALS.(usageCount := 1)

  lemma RawUsage(b: Build, page: Uint16, usage: Uint16, p: Parser)
    requires PutUsage(b, page, usage).good && Raw(b) == Accept(p) && p.locals == NO_LOCALS
    ensures Raw(PutUsage(b, page, usage)) == Accept(Used(p, page, ONE_USAGE))
  {
    hide Raw, Put;
    RawPut(b, UnsignedItem(GLOBAL, USAGE_PAGE, page), p);
    RawPut(Put(b, UnsignedItem(GLOBAL, USAGE_PAGE, page)), UnsignedItem(LOCAL, USAGE, usage),
           p.(globals := Paged(p.globals, page)));
  }

  function RangeLocals(low: Uint16, high: Uint16): Locals {
    Locals(RangeCount(low, high), low, UnsignedItem(LOCAL, USAGE_MINIMUM, low).size, true, 0, 0)
  }

  lemma RawUsageRange(b: Build, page: Uint16, low: Uint16, high: Uint16, p: Parser)
    requires PutUsageRange(b, page, low, high).good && Raw(b) == Accept(p) && p.locals == NO_LOCALS && low <= high
    ensures Raw(PutUsageRange(b, page, low, high)) == Accept(Used(p, page, RangeLocals(low, high)))
  {
    hide Raw, Put;
    var paged := Put(b, UnsignedItem(GLOBAL, USAGE_PAGE, page));
    var p1 := p.(globals := Paged(p.globals, page));
    var minimum := UnsignedItem(LOCAL, USAGE_MINIMUM, low);
    RawPut(b, UnsignedItem(GLOBAL, USAGE_PAGE, page), p);
    RawPut(paged, minimum, p1);
    RawPut(Put(paged, minimum), UnsignedItem(LOCAL, USAGE_MAXIMUM, high),
           p1.(locals := NO_LOCALS.(usageMinimum := low, usageMinimumSize := minimum.size,
                                    usageMinimumDeclared := true)));
  }

  lemma RawLogical(b: Build, minimum: Int32, maximum: Int32, p: Parser)
    requires minimum <= maximum && PutLogical(b, minimum, maximum).good && Raw(b) == Accept(p)
    ensures Raw(PutLogical(b, minimum, maximum)) == Accept(p.(globals := Bounded(p.globals, minimum, maximum)))
  {
    hide Raw, Put, ReadMaximum;
    var low := SignedItem(GLOBAL, LOGICAL_MINIMUM, minimum);
    SignedItemExact(GLOBAL, LOGICAL_MINIMUM, minimum);
    MaximumItemExact(LOGICAL_MAXIMUM, minimum, maximum);
    RawPut(b, low, p);
    RawPut(Put(b, low), MaximumItem(LOGICAL_MAXIMUM, maximum, minimum),
           p.(globals := p.globals.(logicalMinimum := minimum, logicalMinimumDeclared := true)));
  }

  lemma RawPhysical(b: Build, m: Physical, p: Parser)
    requires -8 <= m.unitExponent <= 7 && m.minimum <= m.maximum && UnitIsValid(m.unit)
    requires PutPhysical(b, m).good && Raw(b) == Accept(p)
    ensures Raw(PutPhysical(b, m)) == Accept(p.(globals := Measured(p.globals, m)))
  {
    hide Raw, Put, ReadMaximum;
    var low := SignedItem(GLOBAL, PHYSICAL_MINIMUM, m.minimum);
    var high := MaximumItem(PHYSICAL_MAXIMUM, m.maximum, m.minimum);
    var exponent := Item(GLOBAL, UNIT_EXPONENT, 1, m.unitExponent % 16);
    SignedItemExact(GLOBAL, PHYSICAL_MINIMUM, m.minimum);
    MaximumItemExact(PHYSICAL_MAXIMUM, m.minimum, m.maximum);
    var g1 := p.globals.(physicalMinimum := m.minimum, physicalMinimumDeclared := true);
    var g2 := g1.(physicalMaximum := m.maximum, physicalMaximumDeclared := true);
    RawPut(b, low, p);
    RawPut(Put(b, low), high, p.(globals := g1));
    RawPut(Put(Put(b, low), high), exponent, p.(globals := g2));
    RawPut(Put(Put(Put(b, low), high), exponent), UnsignedItem(GLOBAL, UNIT, m.unit),
           p.(globals := g2.(unitExponentDeclared := true)));
  }

  function SizedFor(p: Parser, size: nat, count: nat): Parser {
    p.(globals := p.globals.(reportSize := size, reportCount := count),
       requirements := ObserveUsages(p.requirements.(reportSizeBits := Max(p.requirements.reportSizeBits, size)),
                                     count))
  }

  lemma RawData(b: Build, size: Uint16, count: Uint32, tag: nat, flags: Uint16, p: Parser)
    requires tag in {INPUT, FEATURE} && PutData(b, size, count, tag, flags).good && Raw(b) == Accept(p)
    ensures Raw(PutData(b, size, count, tag, flags)) == RawMain(SizedFor(p, size, count),
                                                                UnsignedItem(MAIN, tag, flags))
  {
    hide Raw, Put, RawMain;
    var sized := UnsignedItem(GLOBAL, REPORT_SIZE, size);
    var counted := UnsignedItem(GLOBAL, REPORT_COUNT, count);
    RawPut(b, sized, p);
    RawPut(Put(b, sized), counted,
           p.(globals := p.globals.(reportSize := size),
              requirements := p.requirements.(reportSizeBits := Max(p.requirements.reportSizeBits, size))));
    RawPut(Put(Put(b, sized), counted), UnsignedItem(MAIN, tag, flags), SizedFor(p, size, count));
  }

  // ----- An Input item ---------------------------------------------------------------------------

  /** The requirements after one more Input item. */
  function GrownRequirements(r: Requirements, usages: nat, count: nat, size: nat, bits: nat,
                             fields: nat): Requirements {
    Requirements(if usages != 0 then Max(r.fieldsPerReport, fields) else r.fieldsPerReport, r.stackDepth,
                 Max(r.reportSizeBits, size), Max(r.usages, Max(usages, count)), Max(r.reportDataBits, bits))
  }

  /** The parser after an accepted Input item. */
  function InputDone(p: Parser): Parser {
    var observed := ObserveUsages(p.requirements, p.locals.usageCount);
    p.(locals := NO_LOCALS, sawMainBeforeReportId := p.sawMainBeforeReportId || !p.hasReportIds,
       parsed := p.parsed[p.globals.reportId := Grown(p)],
       requirements := observed.(
         fieldsPerReport := if p.locals.usageCount != 0 then Max(observed.fieldsPerReport, Grown(p).fields)
                            else observed.fieldsPerReport,
         reportDataBits := Max(observed.reportDataBits, Grown(p).bits)))
  }

  lemma RawInputDone(p: Parser, flags: Uint16)
    requires p.locals.delimiterDepth == 0
    requires InputFormRefusal(p, flags) == None && InputReportRefusal(p, flags) == None
    ensures RawMain(p, UnsignedItem(MAIN, INPUT, flags)) == Accept(InputDone(p))
  {
    hide SpanOk, RawValueFits, RawRangeOrdered, DefinedFlags, Flag;
    var observed := p.(requirements := ObserveUsages(p.requirements, p.locals.usageCount));
    var seen := observed.(sawMainBeforeReportId := p.sawMainBeforeReportId || !p.hasReportIds);
    assert InputFormRefusal(seen, flags) == None && InputReportRefusal(seen, flags) == None;
  }

  lemma FittingIsRawFitting(minimum: Int32, maximum: Int32, width: nat)
    requires ValueFits(minimum, maximum, width)
    ensures minimum <= maximum && RawRangeOrdered(minimum, maximum) && RawValueFits(minimum, maximum, width)
  {
  }

  // ----- The relation ----------------------------------------------------------------------------

  function ParsedOf(b: Build): map<nat, ParsedReport> {
    if b.dataMain then
      map[b.reportId as nat :=
            ParsedReport(Count(b.inputReportBits, b.reportId), Count(b.inputFields, b.reportId), Some(0))]
    else map[]
  }

  /** The parts of the parser state that an operation's items before its Main item leave alone. */
  predicate SameReports(b: Build, p: Parser) {
    && p.globals.reportId == b.reportId && p.stack == [] && p.depth == b.depth
    && p.topLevels == (if b.topSeen then 1 else 0) && p.currentTopLevel == (if b.depth > 0 then Some(0) else None)
    && p.hasReportIds == (b.reportId != 0) && p.sawMainBeforeReportId == (b.dataMain && b.reportId == 0)
    && p.parsed == ParsedOf(b)
  }

  predicate Agrees(b: Build, p: Parser) {
    && SameReports(b, p)
    && p.globals.unit == 0 && RawRangeOrdered(p.globals.logicalMinimum, p.globals.logicalMaximum)
    && p.locals == NO_LOCALS && p.requirements == b.requirements
  }

  /** The raw parser accepts what has been emitted and knows what the builder knows. */
  predicate InStep(b: Build) {
    Raw(b).Accept? && Agrees(b, Raw(b).state) && (b.dataMain ==> |b.fields| > 0)
  }

  /** The record of one Input item, requirements included. */
  predicate Accounted(b: Build, r: Build, usages: nat, count: nat, size: nat) {
    && r.inputFields == (if usages == 0 then b.inputFields
                         else b.inputFields[b.reportId as nat := Count(b.inputFields, b.reportId) + 1])
    && (usages != 0 ==> Count(b.inputFields, b.reportId) < UINT32_MAX)
    && r.requirements == GrownRequirements(b.requirements, usages, count, size, Count(r.inputReportBits, b.reportId),
                                           Count(r.inputFields, b.reportId))
  }

  lemma RecordAccounts(b: Build, usages: nat, count: nat, size: nat)
    requires RecordMain(b, false, usages, count, size).good
    ensures Accounted(b, RecordMain(b, false, usages, count, size), usages, count, size)
  {
    hide RecordBits, Later, Encode;
    var added := size * count;
    assert RecordBits(b, false, Max(usages, count), size, added).good;
    BitsAccounted(b, Max(usages, count), size, added, RecordBits(b, false, Max(usages, count), size, added));
  }

  /** The effect on the requirements of the bits of one data Main item. */
  predicate BitsObserved(b: Build, usages: nat, size: nat, r: Build) {
    && r.inputFields == b.inputFields && r.reportId == b.reportId
    && r.requirements == Requirements(b.requirements.fieldsPerReport, b.requirements.stackDepth,
                                      Max(b.requirements.reportSizeBits, size), Max(b.requirements.usages, usages),
                                      Max(b.requirements.reportDataBits, Count(r.inputReportBits, b.reportId)))
  }

  lemma BitsAccounted(b: Build, usages: nat, size: nat, added: nat, r: Build)
    requires r == RecordBits(b, false, usages, size, added) && r.good
    ensures BitsObserved(b, usages, size, r)
  {
    hide Later, Encode, WithBits, ObserveUsages;
    var bits := Count(b.inputReportBits, b.reportId) + added;
    var seen := ObserveUsages(b.requirements, usages);
    var measured := seen.(reportSizeBits := Max(seen.reportSizeBits, size),
                          reportDataBits := Max(seen.reportDataBits, bits));
    assert r == WithBits(b, false, measured, bits);
    WithBitsIs(b, measured, bits);
    UsagesObserved(b.requirements, usages);
  }

  lemma WithBitsIs(b: Build, requirements: Requirements, bits: nat)
    ensures var r := WithBits(b, false, requirements, bits);
            && r.inputFields == b.inputFields && r.reportId == b.reportId && r.requirements == requirements
            && Count(r.inputReportBits, b.reportId) == bits
  {
  }

  lemma UsagesObserved(r: Requirements, usages: nat)
    ensures ObserveUsages(r, usages) == r.(usages := Max(r.usages, usages))
  {
  }

  /** Everything the raw parser will ask of the Input item that comes next. */
  predicate Ready(b: Build, p: Parser, usages: nat, size: nat, count: nat, flags: nat) {
    && SameReports(b, p) && b.depth > 0
    && p.globals.reportSize == size && p.globals.reportCount == count && 1 <= size <= 32 && count > 0
    && p.locals.usageCount == usages && p.locals.delimiterDepth == 0 && p.locals.delimiterBranch == 0
    && p.requirements == b.requirements.(reportSizeBits := Max(b.requirements.reportSizeBits, size),
                                         usages := Max(Max(b.requirements.usages, usages), count))
    && flags < 0x80
    && (p.globals.unit == 0
        || (p.globals.logicalMinimumDeclared && p.globals.logicalMaximumDeclared && p.globals.physicalMinimumDeclared
            && p.globals.physicalMaximumDeclared && p.globals.unitExponentDeclared))
    && RawRangeOrdered(p.globals.logicalMinimum, p.globals.logicalMaximum)
    && (flags % 2 == 0 ==>
          && p.globals.usagePageDeclared && p.globals.logicalMinimumDeclared && p.globals.logicalMaximumDeclared
          && usages != 0 && RawValueFits(p.globals.logicalMinimum, p.globals.logicalMaximum, size))
  }

  lemma ReadyAccepted(b: Build, r: Build, p: Parser, usages: nat, size: nat, count: nat, flags: Uint16, bits: nat)
    requires Tidy(b) && b.idDecided && Ready(b, p, usages, size, count, flags)
    requires bits == size * count && Grows(b.inputReportBits, r.inputReportBits, b.reportId, bits)
    requires Accounted(b, r, usages, count, size)
    requires SpanOk(Count(b.inputReportBits, b.reportId), size, count)
    ensures RawMain(p, UnsignedItem(MAIN, INPUT, flags)) == Accept(InputDone(p))
  {
    hide SpanOk, RawValueFits, RawRangeOrdered, Tiled, Encode;
    var report := ReportOf(p.parsed, p.globals.reportId);
    assert report.bits == Count(b.inputReportBits, b.reportId) && report.fields == Count(b.inputFields, b.reportId);
    RawInputDone(p, flags);
  }

  lemma DoneAgrees(b: Build, r: Build, added: seq<FieldLayout>, p: Parser, usages: nat, size: nat, count: nat,
                   flags: nat,
                   bits: nat)
    requires Tidy(b) && Ready(b, p, usages, size, count, flags) && bits == size * count
    requires InputAdded(b, r, added, bits) && Accounted(b, r, usages, count, size)
    ensures SameReports(r, InputDone(p)) && InputDone(p).requirements == r.requirements
    ensures InputDone(p).locals == NO_LOCALS
  {
    hide RawValueFits, RawRangeOrdered, Tiled, Encode;
    assert ReportOf(p.parsed, p.globals.reportId).bits == Count(b.inputReportBits, b.reportId);
    assert ReportOf(p.parsed, p.globals.reportId).fields == Count(b.inputFields, b.reportId);
    assert Grown(p).bits == Count(r.inputReportBits, b.reportId);
  }

  // ----- Operations ------------------------------------------------------------------------------

  lemma VariableAccounts(b: Build, v: Variable)
    requires EmitVariable(b, v).good
    ensures Accounted(b, EmitVariable(b, v), 1, 1, v.width)
  {
    hide PhysicalIsZero, PhysicalIsEnabled, PutVariable, RecordMain, PutPhysical, AddField, GrownRequirements, Encode;
    var emitted := PutVariable(Prepare(b), v);
    var recorded := RecordMain(emitted, false, 1, 1, v.width);
    RecordAccounts(emitted, 1, 1, v.width);
    RecordKeeps(emitted, false, 1, 1, v.width);
    var unscaled := if PhysicalIsEnabled(v.physical) then PutPhysical(recorded, NO_PHYSICAL) else recorded;
    AddFieldGood(unscaled, v.semantic, v.instance, v.width, v.minimum, v.maximum, v.physical, v.nullState);
  }

  lemma RangeAccounts(b: Build, page: Uint16, low: Uint16, high: Uint16, width: Byte, semantic: FieldSemantic)
    requires EmitRange(b, page, low, high, width, semantic).good
    ensures Accounted(b, EmitRange(b, page, low, high, width, semantic), RangeCount(low, high), RangeCount(low, high),
                      width)
  {
    hide RangeMain, AddFields, GrownRequirements, Encode, Later;
    var recorded := RangeMain(Prepare(b), page, low, high, width);
    AddFieldsGood(recorded, semantic, 0, RangeCount(low, high), width);
    RangeMainAccounts(Prepare(b), page, low, high, width, recorded);
  }

  lemma RangeMainAccounts(b: Build, page: Uint16, low: Uint16, high: Uint16, width: Byte, recorded: Build)
    requires low <= high && recorded.good && recorded == RangeMain(b, page, low, high, width)
    ensures Accounted(b, recorded, RangeCount(low, high), RangeCount(low, high), width)
  {
    hide PutUsageRange, PutLogical, PutData, RecordMain, GrownRequirements, Encode, Later;
    var count: nat := RangeCount(low, high);
    var emitted := PutData(PutLogical(PutUsageRange(b, page, low, high), 0, 1), width, count, INPUT, 2);
    RecordAccounts(emitted, count, count, width);
    RecordKeeps(emitted, false, count, count, width);
  }

  lemma PaddingAccounts(b: Build, bits: Uint16)
    requires bits > 0 && EmitPadding(b, bits).good
    ensures Accounted(b, EmitPadding(b, bits), 0, 1, bits)
  {
    hide PutData, RecordMain, AddField, GrownRequirements, Encode;
    var emitted := PutData(Prepare(b), bits, 1, INPUT, 1);
    var recorded := RecordMain(emitted, false, 0, 1, bits);
    RecordAccounts(emitted, 0, 1, bits);
    RecordKeeps(emitted, false, 0, 1, bits);
    AddFieldGood(recorded, ConstantPadding, 0, bits % 256, 0, 0, NO_PHYSICAL, false);
  }

  /** The parser just before a variable's Input item. */
  function BeforeVariable(p: Parser, v: Variable): Parser {
    var used := Used(p, v.page, ONE_USAGE);
    var bounded := Bounded(used.globals, v.minimum, v.maximum);
    SizedFor(used.(globals := if PhysicalIsEnabled(v.physical) then Measured(bounded, v.physical) else bounded),
             v.width, 1)
  }

  function AfterVariable(q: Parser, v: Variable): Parser {
    if PhysicalIsEnabled(v.physical) then q.(globals := Measured(q.globals, NO_PHYSICAL)) else q
  }

  lemma RawVariable(b: Build, v: Variable, p: Parser, q: Parser)
    requires EmitVariable(b, v).good && Raw(b) == Accept(p) && p.locals == NO_LOCALS && v.minimum <= v.maximum
    requires RawMain(BeforeVariable(p, v), UnsignedItem(MAIN, INPUT, InputFlags(v))) == Accept(q)
    ensures Raw(EmitVariable(b, v)) == Accept(AfterVariable(q, v))
  {
    hide Raw, Put, PutUsage, PutLogical, PutPhysical, PutData, RecordMain, AddField, InputFlags, RawMain, Used, Bounded,
         Measured, SizedFor, Encode, UnitIsValid;
    var used := PutUsage(Prepare(b), v.page, v.usage);
    var ranged := PutLogical(used, v.minimum, v.maximum);
    var scaled := if PhysicalIsEnabled(v.physical) then PutPhysical(ranged, v.physical) else ranged;
    var emitted := PutData(scaled, v.width, 1, INPUT, InputFlags(v));
    var recorded := RecordMain(emitted, false, 1, 1, v.width);
    var unscaled := if PhysicalIsEnabled(v.physical) then PutPhysical(recorded, NO_PHYSICAL) else recorded;
    assert emitted == PutVariable(Prepare(b), v);
    AddFieldGood(unscaled, v.semantic, v.instance, v.width, v.minimum, v.maximum, v.physical, v.nullState);
    RecordKeeps(emitted, false, 1, 1, v.width);
    SameRaw(b, Prepare(b));
    RawUsage(Prepare(b), v.page, v.usage, p);
    var p1 := Used(p, v.page, ONE_USAGE);
    RawLogical(used, v.minimum, v.maximum, p1);
    var p2 := p1.(globals := Bounded(p1.globals, v.minimum, v.maximum));
    var p3 := p1.(globals := if PhysicalIsEnabled(v.physical) then Measured(p2.globals, v.physical) else p2.globals);
    if PhysicalIsEnabled(v.physical) {
      RawPhysical(ranged, v.physical, p2);
    }
    RawData(scaled, v.width, 1, INPUT, InputFlags(v), p3);
    SameRaw(emitted, recorded);
    if PhysicalIsEnabled(v.physical) {
      ZeroUnitIsValid();
      RawPhysical(recorded, NO_PHYSICAL, q);
    }
    SameRaw(unscaled, EmitVariable(b, v));
  }

  lemma ZeroUnitIsValid()
    ensures UnitIsValid(0)
  {
  }

  lemma VariableReady(b: Build, v: Variable, p: Parser)
    requires Agrees(b, p) && Proper(b, AddVariable(v)) && 1 <= v.width <= 32
    ensures Ready(b, BeforeVariable(p, v), 1, v.width, 1, InputFlags(v))
  {
    hide ValueFits, RawRangeOrdered, RawValueFits, PhysicalIsEnabled;
    FittingIsRawFitting(v.minimum, v.maximum, v.width);
  }

  lemma VariableInStep(b: Build, v: Variable)
    requires Tidy(b) && InStep(b) && Proper(b, AddVariable(v)) && EmitVariable(b, v).good
    requires FourByteRule(EmitVariable(b, v).fields)
    ensures InStep(EmitVariable(b, v))
  {
    hide Raw, Tidy, EmitVariable, ValueFits, RawRangeOrdered, RawValueFits, FourByteRule, SpanOk, PhysicalIsEnabled,
         RawMain,
         Accounted, InputFlags, InputDone, Ready, BeforeVariable, Tiled;
    var p := Raw(b).state;
    var r := EmitVariable(b, v);
    var before := BeforeVariable(p, v);
    VariableEffect(b, v);
    VariableAccounts(b, v);
    VariableReady(b, v, p);
    FittingIsRawFitting(v.minimum, v.maximum, v.width);
    InputBitsKnown(b);
    GeneratedAgreement.SpanOfFields(b, r.fields, [FieldOf(v, b.inputBits)], Count(b.inputReportBits, b.reportId),
                                    v.width);
    ReadyAccepted(b, r, before, 1, v.width, 1, InputFlags(v), v.width);
    DoneAgrees(b, r, [FieldOf(v, b.inputBits)], before, 1, v.width, 1, InputFlags(v), v.width);
    RawVariable(b, v, p, InputDone(before));
    VariableGlobals(p, v);
  }

  lemma InputBitsKnown(b: Build)
    requires Tidy(b)
    ensures Prefix(b) + Count(b.inputReportBits, b.reportId) == b.inputBits
  {
  }

  lemma VariableGlobals(p: Parser, v: Variable)
    ensures var g := AfterVariable(InputDone(BeforeVariable(p, v)), v).globals;
            && (p.globals.unit == 0 ==> g.unit == 0)
            && g.logicalMinimum == v.minimum && g.logicalMaximum == v.maximum && g.reportId == p.globals.reportId
    ensures var q := InputDone(BeforeVariable(p, v));
            AfterVariable(q, v) == q.(globals := AfterVariable(q, v).globals)
  {
  }

  function BeforeRange(p: Parser, page: nat, low: Uint16, high: Uint16, width: nat): Parser {
    var used := Used(p, page, RangeLocals(low, high));
    SizedFor(used.(globals := Bounded(used.globals, 0, 1)), width, RangeCount(low, high))
  }

  lemma RawRange(b: Build, page: Uint16, low: Uint16, high: Uint16, width: Byte, semantic: FieldSemantic, p: Parser,
                 q: Parser)
    requires EmitRange(b, page, low, high, width, semantic).good && Raw(b) == Accept(p) && p.locals == NO_LOCALS
             && low <= high
    requires RawMain(BeforeRange(p, page, low, high, width), UnsignedItem(MAIN, INPUT, 2)) == Accept(q)
    ensures Raw(EmitRange(b, page, low, high, width, semantic)) == Accept(q)
  {
    hide Raw, Put, PutUsageRange, PutLogical, PutData, RecordMain, AddFields, RawMain, Used, Bounded, SizedFor, Encode,
         RangeLocals;
    var count: nat := RangeCount(low, high);
    var used := PutUsageRange(Prepare(b), page, low, high);
    var ranged := PutLogical(used, 0, 1);
    var emitted := PutData(ranged, width, count, INPUT, 2);
    var recorded := RecordMain(emitted, false, count, count, width);
    assert RangeMain(Prepare(b), page, low, high, width) == recorded;
    AddFieldsGood(recorded, semantic, 0, count, width);
    RecordKeeps(emitted, false, count, count, width);
    SameRaw(b, Prepare(b));
    RawUsageRange(Prepare(b), page, low, high, p);
    var p1 := Used(p, page, RangeLocals(low, high));
    RawLogical(used, 0, 1, p1);
    RawData(ranged, width, count, INPUT, 2, p1.(globals := Bounded(p1.globals, 0, 1)));
    SameRaw(emitted, recorded);
    SameRaw(recorded, EmitRange(b, page, low, high, width, semantic));
  }

  lemma RangeReady(b: Build, page: Uint16, low: Uint16, high: Uint16, width: nat, p: Parser)
    requires Agrees(b, p) && b.depth > 0 && 1 <= width <= 32 && low <= high
    ensures Ready(b, BeforeRange(p, page, low, high, width), RangeCount(low, high), width, RangeCount(low, high), 2)
  {
    hide ValueFits, RawRangeOrdered, RawValueFits;
    UnitRangeFits(width);
    FittingIsRawFitting(0, 1, width);
  }

  lemma RangeInStep(b: Build, page: Uint16, low: Uint16, high: Uint16, width: Byte, semantic: FieldSemantic)
    requires Tidy(b) && InStep(b) && Proper(b, AddRange(page, low, high, width, semantic))
    requires EmitRange(b, page, low, high, width, semantic).good
    requires FourByteRule(EmitRange(b, page, low, high, width, semantic).fields)
    ensures InStep(EmitRange(b, page, low, high, width, semantic))
  {
    hide Raw, Tidy, EmitRange, ValueFits, RawRangeOrdered, RawValueFits, FourByteRule, SpanOk, RawMain, Accounted,
         InputDone,
         Ready, BeforeRange, Tiled;
    var p := Raw(b).state;
    var r := EmitRange(b, page, low, high, width, semantic);
    var before := BeforeRange(p, page, low, high, width);
    var count := RangeCount(low, high);
    var added := RangeFields(semantic, b.inputBits, count, width);
    RangeEffect(b, page, low, high, width, semantic);
    RangeAccounts(b, page, low, high, width, semantic);
    RangeReady(b, page, low, high, width, p);
    InputBitsKnown(b);
    GeneratedAgreement.SpanOfFields(b, r.fields, added, Count(b.inputReportBits, b.reportId), width);
    assert RangeBits(low, high, width) == width * count;
    ReadyAccepted(b, r, before, count, width, count, 2, RangeBits(low, high, width));
    DoneAgrees(b, r, added, before, count, width, count, 2, RangeBits(low, high, width));
    RawRange(b, page, low, high, width, semantic, p, InputDone(before));
    RangeGlobals(p, page, low, high, width);
  }

  lemma RangeGlobals(p: Parser, page: nat, low: Uint16, high: Uint16, width: nat)
    ensures var g := InputDone(BeforeRange(p, page, low, high, width)).globals;
            g.unit == p.globals.unit && RawRangeOrdered(g.logicalMinimum, g.logicalMaximum)
  {
  }

  lemma RawPadding(b: Build, bits: Uint16, p: Parser, q: Parser)
    requires bits > 0 && EmitPadding(b, bits).good && Raw(b) == Accept(p)
    requires RawMain(SizedFor(p, bits, 1), UnsignedItem(MAIN, INPUT, 1)) == Accept(q)
    ensures Raw(EmitPadding(b, bits)) == Accept(q)
  {
    hide Raw, Put, PutData, RecordMain, AddField, RawMain, SizedFor, Encode;
    var emitted := PutData(Prepare(b), bits, 1, INPUT, 1);
    var recorded := RecordMain(emitted, false, 0, 1, bits);
    AddFieldGood(recorded, ConstantPadding, 0, bits % 256, 0, 0, NO_PHYSICAL, false);
    RecordKeeps(emitted, false, 0, 1, bits);
    SameRaw(b, Prepare(b));
    RawData(Prepare(b), bits, 1, INPUT, 1, p);
    SameRaw(emitted, recorded);
    SameRaw(recorded, EmitPadding(b, bits));
  }

  lemma PaddingInStep(b: Build, bits: Uint16)
    requires Tidy(b) && InStep(b) && bits <= 32 && (bits != 0 ==> b.depth > 0) && b.good && EmitPadding(b, bits).good
    requires FourByteRule(EmitPadding(b, bits).fields)
    ensures InStep(EmitPadding(b, bits))
  {
    hide Raw, Tidy, EmitPadding, RawRangeOrdered, RawValueFits, FourByteRule, SpanOk, RawMain, Accounted, Tiled;
    if bits == 0 {
      NoPadding(b);
    } else {
      var p := Raw(b).state;
      var r := EmitPadding(b, bits);
      var before := SizedFor(p, bits, 1);
      var added := [PaddingField(b.inputBits, bits)];
      PaddingEffect(b, bits);
      PaddingAccounts(b, bits);
      InputBitsKnown(b);
      GeneratedAgreement.SpanOfFields(b, r.fields, added, Count(b.inputReportBits, b.reportId), bits);
      ReadyAccepted(b, r, before, 0, bits, 1, 1, bits);
      DoneAgrees(b, r, added, before, 0, bits, 1, 1, bits);
      RawPadding(b, bits, p, InputDone(before));
    }
  }

  lemma CollectionInStep(b: Build, kind: nat, page: Uint16, usage: Uint16)
    requires Tidy(b) && InStep(b) && kind in {PHYSICAL, APPLICATION, LOGICAL}
    ensures BeginCollection(b, kind, page, usage).good ==> InStep(BeginCollection(b, kind, page, usage))
  {
    hide Raw, Put, PutUsage, RawRangeOrdered, Tiled, Encode, ParsedOf;
    if BeginCollection(b, kind, page, usage).good {
      var p := Raw(b).state;
      var observed := b.(requirements := ObserveUsages(b.requirements, 1));
      SameRaw(b, observed);
      RawUsage(observed, page, usage, p);
      RawPut(PutUsage(observed, page, usage), UnsignedItem(MAIN, COLLECTION, kind), Used(p, page, ONE_USAGE));
      SameRaw(PutCollection(observed, kind, page, usage), BeginCollection(b, kind, page, usage));
      SameParsed(b, BeginCollection(b, kind, page, usage));
    }
  }

  lemma SameParsed(b: Build, r: Build)
    requires r.dataMain == b.dataMain && r.reportId == b.reportId
    requires r.inputReportBits == b.inputReportBits && r.inputFields == b.inputFields
    ensures ParsedOf(b) == ParsedOf(r)
  {
  }

  lemma EndInStep(b: Build)
    requires Tidy(b) && InStep(b) && EndCollection(b).good
    ensures InStep(EndCollection(b))
  {
    hide Raw, Put, RawRangeOrdered, Tiled, Encode;
    RawPut(b, PlainItem(MAIN, END_COLLECTION), Raw(b).state);
    SameRaw(Put(b, PlainItem(MAIN, END_COLLECTION)), EndCollection(b));
  }

  lemma DecideInStep(b: Build, enabled: bool, id: Byte)
    requires Tidy(b) && InStep(b) && DecideReportId(b, enabled, id).good
    ensures InStep(DecideReportId(b, enabled, id))
  {
    hide Raw, Put, RawRangeOrdered, Tiled, Encode;
    if enabled {
      RawPut(b, UnsignedItem(GLOBAL, REPORT_ID, id), Raw(b).state);
      SameRaw(Put(b, UnsignedItem(GLOBAL, REPORT_ID, id)), DecideReportId(b, enabled, id));
    } else {
      SameRaw(b, DecideReportId(b, enabled, id));
    }
  }

  lemma ApplyInStep(b: Build, op: Op)
    requires Tidy(b) && InStep(b) && Proper(b, op) && !op.Feature? && b.good && Apply(b, op).good
    requires FourByteRule(Apply(b, op).fields)
    ensures InStep(Apply(b, op))
  {
    hide Tidy, InStep, ValueFits, FourByteRule, BeginCollection, EndCollection, DecideReportId, EmitVariable, EmitRange,
         EmitPadding;
    match op
    case Begin(kind, page, usage) => CollectionInStep(b, kind, page, usage);
    case End => EndInStep(b);
    case SetReportId(enabled, id) => DecideInStep(b, enabled, id);
    case AddVariable(v) => VariableInStep(b, v);
    case AddRange(page, low, high, width, semantic) => RangeInStep(b, page, low, high, width, semantic);
    case Padding(bits) => PaddingInStep(b, bits);
    case PadReport => PaddingInStep(b, PaddingBits(b.inputBits));
  }

  predicate FeatureFree(ops: seq<Op>) {
    forall op :: op in ops ==> !op.Feature?
  }

  lemma {:induction false} RunInStep(capacity: nat, ops: seq<Op>)
    requires ProperRun(NewBuild(true, capacity), ops) && Run(NewBuild(true, capacity), ops).good && FeatureFree(ops)
    requires FourByteRule(Run(NewBuild(true, capacity), ops).fields)
    ensures InStep(Run(NewBuild(true, capacity), ops))
  {
    hide Apply, Proper, Tidy, FourByteRule;
    if |ops| == 0 {
    } else {
      var before := Run(NewBuild(true, capacity), ops[..|ops| - 1]);
      RunTidy(capacity, ops[..|ops| - 1]);
      ApplyTidy(before, ops[|ops| - 1]);
      GeneratedAgreement.FewerFieldsKeepRule(before.fields, Apply(before, ops[|ops| - 1]).fields);
      RunInStep(capacity, ops[..|ops| - 1]);
      ApplyInStep(before, ops[|ops| - 1]);
    }
  }

  // ----- A Feature item is refused ---------------------------------------------------------------

  lemma FeatureRefused(b: Build, page: Uint16, usage: Uint16, minimum: Int32, maximum: Int32, width: Byte)
    requires EmitFeature(b, page, usage, minimum, maximum, width).good
    ensures Raw(EmitFeature(b, page, usage, minimum, maximum, width)).Reject?
  {
    hide Raw, PutUsage, PutLogical, Put, RecordMain, Encode;
    var ranged := PutLogical(PutUsage(Prepare(b), page, usage), minimum, maximum);
    var sized := Put(ranged, UnsignedItem(GLOBAL, REPORT_SIZE, width));
    var counted := Put(sized, UnsignedItem(GLOBAL, REPORT_COUNT, 1));
    var emitted := PutData(ranged, width, 1, FEATURE, 3);
    RecordKeeps(emitted, true, 1, 1, width);
    LastItemRefused(counted, UnsignedItem(MAIN, FEATURE, 3));
    SameRaw(emitted, EmitFeature(b, page, usage, minimum, maximum, width));
  }

  lemma LastItemRefused(b: Build, item: Item)
    requires Put(b, item).good && item.kind == MAIN && item.tag == FEATURE
    ensures Raw(Put(b, item)).Reject?
  {
    WalkSnoc(RAW_CHECKER, NEW_PARSER, b.items, item);
  }

  lemma {:induction false} RunWithFeatureRefused(capacity: nat, ops: seq<Op>)
    requires ProperRun(NewBuild(true, capacity), ops) && Run(NewBuild(true, capacity), ops).good && !FeatureFree(ops)
    ensures Raw(Run(NewBuild(true, capacity), ops)).Reject?
  {
    hide Apply, Proper, Tidy;
    var before := Run(NewBuild(true, capacity), ops[..|ops| - 1]);
    var last := ops[|ops| - 1];
    RunTidy(capacity, ops[..|ops| - 1]);
    ApplyTidy(before, last);
    if FeatureFree(ops[..|ops| - 1]) {
      assert last.Feature?;
      FeatureApplied(before, last);
      FeatureRefused(before, last.page, last.usage, last.minimum, last.maximum, last.width);
    } else {
      RunWithFeatureRefused(capacity, ops[..|ops| - 1]);
      var items := Apply(before, last).items;
      assert items[..|before.items|] == before.items;
      WalkPrefix(RAW_CHECKER, NEW_PARSER, items, |before.items|);
    }
  }

  lemma FeatureApplied(b: Build, op: Op)
    requires op.Feature?
    ensures Apply(b, op) == EmitFeature(b, op.page, op.usage, op.minimum, op.maximum, op.width)
  {
    hide EmitFeature;
  }

  // ----- The agreement ---------------------------------------------------------------------------

  /** The one-entry table that describes a generated report. */
  function EntryOf(b: Build): RawReport {
    RawReport(b.reportId != 0, b.reportId, LayoutOf(b).wireBytes, true)
  }

  lemma EntryMatches(b: Build, p: Parser)
    requires Tidy(b) && Agrees(b, p) && b.capacity <= DESCRIPTOR_WIRE_MAXIMUM && b.dataMain && b.inputBits > Prefix(b)
    ensures TableOk([EntryOf(b)]) && TableMatches(p, [EntryOf(b)])
  {
    hide Tiled, Encode, RawRangeOrdered;
    var table := [EntryOf(b)];
    assert p.parsed.Keys == {b.reportId as nat};
    assert WireLength(p, b.reportId) == EntryOf(b).wireLength;
    assert EntryFits(p, table[0], b.reportId);
  }

  /** A layout with a field has bits. */
  lemma FieldsHaveBits(b: Build)
    requires Tidy(b) && |b.fields| > 0
    ensures b.inputBits > Prefix(b)
  {
    var last := |b.fields| - 1;
    assert TiledAt(b.fields, Prefix(b), last);
    WidthBefore(b.fields, last);
  }

  /**
   * A generated descriptor that `validate_generated` accepts is a valid raw descriptor for its own Report
   * ID and length exactly when it declares no Feature and at least one Input field; the parser then
   * computes from the bytes the very requirements the builder accumulated.
   */
  lemma GeneratedIsRaw(ops: seq<Op>)
    requires var b := Finished(Run(NewBuild(true, DESCRIPTOR_WIRE_MAXIMUM), ops));
             b.good && b.topSeen && ProperRun(NewBuild(true, DESCRIPTOR_WIRE_MAXIMUM), ops) && FourByteRule(b.fields)
    ensures var b := Run(NewBuild(true, DESCRIPTOR_WIRE_MAXIMUM), ops);
            && (RawAccepts(Encode(b.items), [EntryOf(b)]) <==> FeatureFree(ops) && |b.fields| > 0)
            && (FeatureFree(ops) ==>
                  RawWalk(Encode(b.items)).Accept? && RawWalk(Encode(b.items)).state.requirements == b.requirements)
  {
    hide Run, ProperRun, FourByteRule, RawStep, WalkBytes, WalkItems, Tiled, TableOk, TableMatches, LayoutOf,
         RawRangeOrdered;
    var b := Run(NewBuild(true, DESCRIPTOR_WIRE_MAXIMUM), ops);
    RunTidy(DESCRIPTOR_WIRE_MAXIMUM, ops);
    WalkEncoded(RAW_CHECKER, NEW_PARSER, b.items);
    if FeatureFree(ops) {
      RunInStep(DESCRIPTOR_WIRE_MAXIMUM, ops);
      if |b.fields| > 0 {
        FieldsHaveBits(b);
        EntryMatches(b, Raw(b).state);
      } else {
        NoReportsNoTable(Raw(b).state, [EntryOf(b)]);
      }
    } else {
      RunWithFeatureRefused(DESCRIPTOR_WIRE_MAXIMUM, ops);
    }
  }

  lemma NoReportsNoTable(p: Parser, table: seq<RawReport>)
    requires p.parsed == map[] && |table| > 0
    ensures !TableMatches(p, table)
  {
  }
}
