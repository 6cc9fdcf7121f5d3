/**
 * `validate_raw`: the strict parser for caller-written descriptors and the match of the Input reports
 * it finds against the caller's table (src/hid/validator.cpp).
 */
module RawCheck {
  import opened Common
  import opened BitMath
  import opened HidItems
  import opened HidWalk
  import opened GeneratedCheck

  datatype Globals = Globals(
    logicalMinimum: int, logicalMaximum: int, physicalMinimum: int, physicalMaximum: int,
    reportSize: nat, reportCount: nat, unit: nat, usagePage: nat, reportId: nat,
    usagePageDeclared: bool, logicalMinimumDeclared: bool, logicalMaximumDeclared: bool,
    physicalMinimumDeclared: bool, physicalMaximumDeclared: bool, unitExponentDeclared: bool)

  const NO_GLOBALS := Globals(0, 0, 0, 0, 0, 0, 0, 0, 0, false, false, false, false, false, false)

  datatype Locals = Locals(
    usageCount: nat, usageMinimum: nat, usageMinimumSize: nat, usageMinimumDeclared: bool,
    delimiterDepth: nat, delimiterBranch: nat)

  const NO_LOCALS := Locals(0, 0, 0, false, 0, 0)

  datatype ParsedReport = ParsedReport(bits: nat, fields: nat, topLevel: Option<nat>)

  const NO_REPORT := ParsedReport(0, 0, None)

  /** The parser state; `parsed` holds the reports seen so far by Report ID. */
  datatype Parser = Parser(
    globals: Globals, locals: Locals, requirements: Requirements, stack: seq<Globals>,
    parsed: map<nat, ParsedReport>, depth: nat, topLevels: nat, currentTopLevel: Option<nat>,
    hasReportIds: bool, sawMainBeforeReportId: bool)

  const NEW_PARSER :=
    Parser(NO_GLOBALS, NO_LOCALS, NO_REQUIREMENTS, [], map[], 0, 0, None, false, false)

  function Refuse(field: string): Outcome<Parser> {
    Reject(Issue(ErrParam, field))
  }

  function ReportOf(parsed: map<nat, ParsedReport>, id: nat): ParsedReport {
    if id in parsed then parsed[id] else NO_REPORT
  }

  // ----- Global items ----------------------------------------------------------------------------

  function RawGlobal(p: Parser, item: Item): Outcome<Parser> {
    var g := p.globals;
    if item.tag == USAGE_PAGE then
      if item.value > 0xFFFF then Refuse("raw.usage_page")
      else Accept(p.(globals := g.(usagePage := item.value, usagePageDeclared := true)))
    else if item.tag == LOGICAL_MINIMUM then
      Accept(p.(globals := g.(logicalMinimum := SignedValue(item), logicalMinimumDeclared := true)))
    else if item.tag == LOGICAL_MAXIMUM then
      Accept(p.(globals := g.(logicalMaximum := ReadMaximum(item, g.logicalMinimum), logicalMaximumDeclared := true)))
    else if item.tag == PHYSICAL_MINIMUM then
      Accept(p.(globals := g.(physicalMinimum := SignedValue(item), physicalMinimumDeclared := true)))
    else if item.tag == PHYSICAL_MAXIMUM then
      Accept(p.(globals := g.(physicalMaximum := ReadMaximum(item, g.physicalMinimum),
                              physicalMaximumDeclared := true)))
    else if item.tag == UNIT_EXPONENT then
      if item.value > 0x0F then Refuse("raw.unit_exponent")
      else Accept(p.(globals := g.(unitExponentDeclared := true)))
    else if item.tag == UNIT then
      if !UnitIsValid(item.value) then Refuse("raw.unit")
      else Accept(p.(globals := g.(unit := item.value)))
    else if item.tag == REPORT_SIZE then
      Accept(p.(globals := g.(reportSize := item.value),
                requirements := p.requirements.(reportSizeBits := Max(p.requirements.reportSizeBits, item.value))))
    else if item.tag == REPORT_ID then
      if item.value == 0 || item.value > 255 || p.sawMainBeforeReportId then Refuse("raw.report_id")
      else Accept(p.(globals := g.(reportId := item.value), hasReportIds := true))
    else if item.tag == REPORT_COUNT then
      Accept(p.(globals := g.(reportCount := item.value), requirements := ObserveUsages(p.requirements, item.value)))
    else if item.tag == PUSH then
      Accept(p.(stack := p.stack + [g],
                requirements := p.requirements.(stackDepth := Max(p.requirements.stackDepth, |p.stack| + 1))))
    else if item.tag == POP then
      if |p.stack| == 0 then Refuse("raw.global_stack")
      else Accept(p.(globals := p.stack[|p.stack| - 1], stack := p.stack[..|p.stack| - 1]))
    else Refuse("raw.global")
  }

  // ----- Local items -----------------------------------------------------------------------------

  function AddUsages(p: Parser, count: nat): Outcome<Parser> {
    var l := p.locals;
    if l.usageCount > 0xFFFF_FFFF_FFFF_FFFF - count then Reject(Issue(ErrOverflow, "raw.usages"))
    else Accept(p.(locals := l.(usageCount := l.usageCount + count),
                   requirements := ObserveUsages(p.requirements, l.usageCount + count)))
  }

  function RawLocal(p: Parser, item: Item): Outcome<Parser> {
    var l := p.locals;
    if item.tag == DELIMITER then
      if item.value > 1 then Refuse("raw.delimiter")
      else if item.value == 1 then
        if l.delimiterDepth != 0 then Refuse("raw.delimiter")
        else Accept(p.(locals := l.(delimiterDepth := 1, delimiterBranch := l.delimiterBranch + 1)))
      else if l.delimiterDepth == 0 then Refuse("raw.delimiter")
      else Accept(p.(locals := l.(delimiterDepth := l.delimiterDepth - 1)))
    else if item.tag == LOCAL_RESERVED || item.tag > DELIMITER then Refuse("raw.local")
    else if l.delimiterBranch > 1 then Accept(p)
    else if item.tag == USAGE then AddUsages(p, 1)
    else if item.tag == USAGE_MINIMUM then
      Accept(p.(locals := l.(usageMinimum := item.value, usageMinimumSize := item.size, usageMinimumDeclared := true)))
    else if item.tag == USAGE_MAXIMUM then
      if l.usageMinimumDeclared && l.usageMinimumSize == 4 && item.size != 4 then Refuse("raw.usage_range")
      else if item.value == 0xFFFF_FFFF then Reject(Issue(ErrUnsupported, "raw.usage_range"))
      else if item.value < l.usageMinimum then Refuse("raw.usage_range")
      else AddUsages(p, item.value - l.usageMinimum + 1)
    else Accept(p)
  }

  // ----- Main items ------------------------------------------------------------------------------

  function Unsigned32(value: int): int {
    if value < 0 then value + 0x1_0000_0000 else value
  }

  /** `raw_logical_range_is_ordered`: with a non-negative minimum the maximum is unsigned. */
  predicate RawRangeOrdered(minimum: int, maximum: int) {
    if minimum < 0 then maximum >= minimum else Unsigned32(maximum) >= Unsigned32(minimum)
  }

  /** `raw_value_fits`. */
  predicate RawValueFits(minimum: int, maximum: int, width: nat) {
    if width == 0 || width > 32 || !RawRangeOrdered(minimum, maximum) then false
    else if width == 32 then true
    else if minimum < 0 then minimum >= -Pow2(width - 1) && maximum <= Pow2(width - 1) - 1
    else Unsigned32(maximum) <= Pow2(width) - 1
  }

  predicate Flag(flags: nat, mask: nat)
    requires mask > 0
  {
    (flags / mask) % 2 == 1
  }

  /** Only the bits of 0x17F may be set. */
  predicate DefinedFlags(flags: nat) {
    flags < 0x200 && (flags / 0x80) % 2 == 0
  }

  /** The refusals of `input_item` that look at the item and the item state only. */
  function InputFormRefusal(p: Parser, flags: nat): Option<Issue> {
    var g := p.globals;
    var constant, variable := Flag(flags, 1), Flag(flags, 2);
    if p.depth == 0 || g.reportSize == 0 || g.reportCount == 0 then Some(Issue(ErrParam, "raw.input"))
    else if p.hasReportIds && g.reportId == 0 then Some(Issue(ErrParam, "raw.report_id"))
    else if g.reportSize > 32 then Some(Issue(ErrParam, "raw.input"))
    else if !DefinedFlags(flags) then Some(Issue(ErrParam, "raw.input"))
    else if g.unit != 0 && !(g.logicalMinimumDeclared && g.logicalMaximumDeclared && g.physicalMinimumDeclared
                             && g.physicalMaximumDeclared && g.unitExponentDeclared)
      then Some(Issue(ErrParam, "raw.unit"))
    else if !RawRangeOrdered(g.logicalMinimum, g.logicalMaximum) then Some(Issue(ErrParam, "raw.logical_range"))
    else if !variable && p.locals.delimiterBranch != 0 then Some(Issue(ErrParam, "raw.delimiter"))
    else if !constant && !(g.usagePageDeclared && g.logicalMinimumDeclared && g.logicalMaximumDeclared
                           && p.locals.usageCount != 0)
      then Some(Issue(ErrParam, "raw.input"))
    else if !constant && !RawValueFits(g.logicalMinimum, g.logicalMaximum, g.reportSize)
      then Some(Issue(ErrParam, "raw.logical_range"))
    else None
  }

  /** The refusals that look at the report the item would extend. */
  function InputReportRefusal(p: Parser, flags: nat): Option<Issue>
    requires p.globals.reportSize > 0
  {
    var g, report := p.globals, ReportOf(p.parsed, p.globals.reportId);
    if Flag(flags, 0x100) && report.bits % 8 != 0 then Some(Issue(ErrParam, "raw.input"))
    else if g.reportId in p.parsed && report.topLevel != p.currentTopLevel then Some(Issue(ErrParam, "raw.input"))
    else if p.locals.usageCount != 0 && report.fields == UINT32_MAX then Some(Issue(ErrOverflow, "raw.fields"))
    else if !SpanOk(report.bits, g.reportSize, g.reportCount) then Some(Issue(ErrParam, "raw.input"))
    else if report.bits > SIZE_MAX - g.reportSize * g.reportCount then Some(Issue(ErrOverflow, "raw.input"))
    else None
  }

  function InputRefusal(p: Parser, flags: nat): Option<Issue> {
    if InputFormRefusal(p, flags).Some? then InputFormRefusal(p, flags) else InputReportRefusal(p, flags)
  }

  /** The report after an accepted Input item. */
  function Grown(p: Parser): ParsedReport {
    var g, report := p.globals, ReportOf(p.parsed, p.globals.reportId);
    ParsedReport(report.bits + g.reportSize * g.reportCount,
                 if p.locals.usageCount != 0 then report.fields + 1 else report.fields, p.currentTopLevel)
  }

  function RawInput(p: Parser, flags: nat): Outcome<Parser> {
    var refusal := InputRefusal(p, flags);
    if refusal.Some? then Reject(refusal.value)
    else
      var report := Grown(p);
      Accept(p.(parsed := p.parsed[p.globals.reportId := report],
                requirements := p.requirements.(
                  fieldsPerReport :=
                    if p.locals.usageCount != 0 then Max(p.requirements.fieldsPerReport, report.fields)
                    else p.requirements.fieldsPerReport,
                  reportDataBits := Max(p.requirements.reportDataBits, report.bits))))
  }

  function RawCollection(p: Parser, kind: nat): Outcome<Parser> {
    if kind > 0xFF || 0x07 <= kind <= 0x7F then Refuse("raw.collection")
    else if p.locals.usageCount == 0 then Refuse("raw.collection")
    else if kind == 1 && p.locals.delimiterBranch != 0 then Refuse("raw.delimiter")
    else if p.depth == 0 then
      if kind != 1 then Refuse("raw.collection")
      else Accept(p.(currentTopLevel := Some(p.topLevels), topLevels := p.topLevels + 1, depth := 1))
    else Accept(p.(depth := p.depth + 1))
  }

  function RawMainBody(p: Parser, item: Item): Outcome<Parser> {
    if item.tag == COLLECTION then RawCollection(p, item.value)
    else if item.tag == END_COLLECTION then
      if p.depth == 0 then Refuse("raw.collection")
      else Accept(p.(depth := p.depth - 1, currentTopLevel := if p.depth == 1 then None else p.currentTopLevel))
    else if item.tag == INPUT || item.tag == OUTPUT || item.tag == FEATURE then
      var q := p.(sawMainBeforeReportId := p.sawMainBeforeReportId || !p.hasReportIds);
      if item.tag != INPUT then Reject(Issue(ErrUnsupported, "raw.descriptor")) else RawInput(q, item.value)
    else Refuse("raw.main")
  }

  function RawMain(p: Parser, item: Item): Outcome<Parser> {
    if p.locals.delimiterDepth != 0 then Refuse("raw.delimiter")
    else
      match RawMainBody(p.(requirements := ObserveUsages(p.requirements, p.locals.usageCount)), item)
      case Reject(issue) => Reject(issue)
      case Accept(q) => Accept(q.(locals := NO_LOCALS))
  }

  function RawStep(p: Parser, item: Item): Outcome<Parser> {
    if item.kind == GLOBAL then RawGlobal(p, item)
    else if item.kind == LOCAL then RawLocal(p, item)
    else if item.kind == MAIN then RawMain(p, item)
    else Refuse("raw.item_type")
  }

  const RAW_CHECKER := Checker(RawStep, Issue(ErrUnsupported, "raw.descriptor"), Issue(ErrParam, "raw.descriptor"))

  // ----- The report table ------------------------------------------------------------------------

  /** One accepted-report entry; `canonical` says its reserved fields are zero. */
  datatype RawReport = RawReport(hasReportId: bool, reportId: Byte, wireLength: nat, canonical: bool)

  predicate EntryOk(entry: RawReport) {
    && entry.canonical && entry.wireLength != 0
    && (entry.hasReportId <==> entry.reportId != 0)
  }

  /** `validate_report_table`. */
  predicate TableOk(table: seq<RawReport>) {
    && 0 < |table| <= 256
    && (forall k :: 0 <= k < |table| ==> EntryOk(table[k]))
    && (forall j, k :: 0 <= j < k < |table| ==> table[j].reportId != table[k].reportId)
  }

  function WireLength(p: Parser, id: nat): nat {
    (ReportOf(p.parsed, id).bits + 7) / 8 + (if p.hasReportIds then 1 else 0)
  }

  predicate EntryFor(p: Parser, entry: RawReport, id: nat) {
    entry.reportId == id && entry.hasReportId == p.hasReportIds
  }

  predicate EntryFits(p: Parser, entry: RawReport, id: nat) {
    EntryFor(p, entry, id) && entry.wireLength == WireLength(p, id) <= UINT32_MAX
  }

  predicate EntryExists(p: Parser, table: seq<RawReport>, id: nat) {
    exists k :: 0 <= k < |table| && EntryFits(p, table[k], id)
  }

  /** `match_report_table` accepts: every report parsed has its entry, and there are no further entries. */
  predicate TableMatches(p: Parser, table: seq<RawReport>) {
    && |table| == |p.parsed|
    && forall id :: id in p.parsed ==> EntryExists(p, table, id)
  }

  predicate Balanced(p: Parser) {
    p.depth == 0 && |p.stack| == 0 && p.locals.delimiterDepth == 0 && p.topLevels != 0
  }

  function RawWalk(descriptor: seq<Byte>): Outcome<Parser> {
    WalkBytes(RAW_CHECKER, descriptor, 0, NEW_PARSER)
  }

  predicate RawAccepts(descriptor: seq<Byte>, table: seq<RawReport>) {
    && 0 < |descriptor| <= 65535
    && TableOk(table)
    && RawWalk(descriptor).Accept?
    && Balanced(RawWalk(descriptor).state)
    && TableMatches(RawWalk(descriptor).state, table)
  }

  // ----- Complaints ------------------------------------------------------------------------------

  /** What `validate_report_table` says. */
  function TableComplaint(table: seq<RawReport>): Option<Issue> {
    if |table| == 0 then Some(Issue(ErrUnsetField, "raw.reports"))
    else if |table| > 256 then Some(Issue(ErrOverflow, "raw.reports"))
    else if !TableOk(table) then Some(Issue(ErrParam, "raw.reports"))
    else None
  }

  /** What `match_report_table` says about the reports from `id` on: the first one that is wrong decides. */
  function MatchComplaint(p: Parser, table: seq<RawReport>, id: nat): Option<Issue>
    decreases 256 - id
  {
    if id >= 256 then if |p.parsed| != |table| then Some(Issue(ErrParam, "raw.reports")) else None
    else if id in p.parsed && WireLength(p, id) > UINT32_MAX then Some(Issue(ErrOverflow, "raw.reports"))
    else if id in p.parsed && !EntryExists(p, table, id) then Some(Issue(ErrParam, "raw.reports"))
    else MatchComplaint(p, table, id + 1)
  }

  /** What `validate_raw` says: the first check that fails, in the order of the checks. */
  function RawComplaint(descriptor: seq<Byte>, table: seq<RawReport>): Option<Issue> {
    if |descriptor| == 0 then Some(Issue(ErrUnsetField, "raw.descriptor"))
    else if |descriptor| > 65535 then Some(Issue(ErrOverflow, "raw.descriptor"))
    else if TableComplaint(table).Some? then TableComplaint(table)
    else
      match RawWalk(descriptor)
      case Reject(issue) => Some(issue)
      case Accept(p) =>
        if p.depth != 0 || |p.stack| != 0 || p.locals.delimiterDepth != 0 then Some(Issue(ErrParam, "raw.descriptor"))
        else if p.topLevels == 0 then Some(Issue(ErrParam, "raw.collection"))
        else MatchComplaint(p, table, 0)
  }

  /** The used bits of the last byte of a report of `bits` bits. */
  function TrailingMask(bits: nat): nat {
    if bits % 8 == 0 then 0xFF else Pow2(bits % 8) - 1
  }
}
