/**
 * What acceptance of a caller-written descriptor means: a reader that refuses nothing finds in it only Input items
 * that keep the rules of HID 1.11 (sections 6.2.2.2 to 6.2.2.8 and 8.4), and an Input item is refused only if it breaks
 * one of them.
 */
module RawSound {
  import opened Common
  import opened BitMath
  import opened HidItems
  import opened HidWalk
  import opened GeneratedCheck
  import opened RawCheck
  import DescriptorBuilder

  // ----- A reader that refuses nothing -----------------------------------------------------------

  /** The Global items in force; `declared` are the tags that have occurred. */
  datatype Setting = Setting(minimum: Int32, maximum: Int32, size: nat, count: nat, unit: Uint32, id: nat,
                             declared: set<nat>)

  /** One Input item with all that qualifies it; `open` are the kinds of the collections around it. */
  datatype Input = Input(setting: Setting, flags: nat, offset: nat, open: seq<nat>, application: nat, usages: nat,
                         delimited: bool, numbered: bool)

  /** Delimited Usages count only in the first set; `numbered` says that some Report ID has occurred. */
  datatype Survey = Survey(now: Setting, saved: seq<Setting>, usages: nat, lowest: nat, branches: nat, open: seq<nat>,
                           applications: nat, bits: map<nat, nat>, numbered: bool, inputs: seq<Input>)

  const NEW_SURVEY := Survey(Setting(0, 0, 0, 0, 0, 0, {}), [], 0, 0, 0, [], 0, map[], false, [])

  function SurveyGlobal(r: Survey, item: Item): Survey {
    var g := r.now.(declared := r.now.declared + {item.tag});
    if item.tag == LOGICAL_MINIMUM then r.(now := g.(minimum := SignedValue(item)))
    else if item.tag == LOGICAL_MAXIMUM then r.(now := g.(maximum := ReadMaximum(item, g.minimum)))
    else if item.tag == REPORT_SIZE then r.(now := g.(size := item.value))
    else if item.tag == REPORT_COUNT then r.(now := g.(count := item.value))
    else if item.tag == UNIT then r.(now := g.(unit := item.value))
    else if item.tag == REPORT_ID then r.(now := g.(id := item.value), numbered := true)
    else if item.tag == PUSH then r.(saved := r.saved + [r.now])
    else if item.tag == POP then
      if |r.saved| == 0 then r else r.(now := r.saved[|r.saved| - 1], saved := r.saved[..|r.saved| - 1])
    else r.(now := g)
  }

  function SurveyLocal(r: Survey, item: Item): Survey {
    if item.tag == DELIMITER then if item.value == 1 then r.(branches := r.branches + 1) else r
    else if r.branches > 1 then r
    else if item.tag == USAGE then r.(usages := r.usages + 1)
    else if item.tag == USAGE_MINIMUM then r.(lowest := item.value)
    else if item.tag == USAGE_MAXIMUM && item.value >= r.lowest then
      r.(usages := r.usages + (item.value - r.lowest + 1))
    else r
  }

  function NextInput(r: Survey, flags: nat): Input {
    Input(r.now, flags, DescriptorBuilder.Count(r.bits, r.now.id), r.open, r.applications, r.usages, r.branches != 0,
          r.numbered)
  }

  function SurveyMain(r: Survey, item: Item): Survey {
    var next :=
      if item.tag == COLLECTION then
        r.(open := r.open + [item.value], applications := r.applications + if |r.open| == 0 then 1 else 0)
      else if item.tag == END_COLLECTION then if |r.open| == 0 then r else r.(open := r.open[..|r.open| - 1])
      else if item.tag == INPUT then
        r.(inputs := r.inputs + [NextInput(r, item.value)],
           bits := r.bits[r.now.id := DescriptorBuilder.Count(r.bits, r.now.id) + r.now.size * r.now.count])
      else r;
    next.(usages := 0, lowest := 0, branches := 0)
  }

  function SurveyItem(r: Survey, item: Item): Survey {
    if item.kind == GLOBAL then SurveyGlobal(r, item)
    else if item.kind == LOCAL then SurveyLocal(r, item)
    else if item.kind == MAIN then SurveyMain(r, item)
    else r
  }

  function Surveyed(bytes: seq<Byte>, offset: nat, r: Survey): Survey
    decreases |bytes| - offset
  {
    if offset >= |bytes| || !ItemAt(bytes, offset).Short? then r
    else
      var item := ItemAt(bytes, offset).item;
      Surveyed(bytes, offset + 1 + item.size, SurveyItem(r, item))
  }

  // ----- The rules -------------------------------------------------------------------------------

  /** With a minimum that is not negative, the maximum is unsigned. */
  function Top(s: Setting): int {
    if s.minimum >= 0 && s.maximum < 0 then s.maximum + 0x1_0000_0000 else s.maximum
  }

  /** Every value of the range has an encoding of `size` bits. */
  predicate Encodable(s: Setting) {
    1 <= s.size <= 32
    && if s.minimum < 0 then -Pow2(s.size - 1) <= s.minimum && s.maximum < Pow2(s.size - 1)
       else Top(s) < Pow2(s.size)
  }

  predicate IsConstant(i: Input) {
    i.flags % 2 == 1
  }

  predicate IsArray(i: Input) {
    i.flags / 2 % 2 == 0
  }

  predicate IsBuffered(i: Input) {
    i.flags / 0x100 % 2 == 1
  }

  /** No field of the item touches a fifth byte. */
  predicate WithinFourBytes(i: Input) {
    i.setting.size > 0 && forall k :: 0 <= k < i.setting.count ==> FieldFits(i.offset, i.setting.size, k)
  }

  predicate Described(i: Input) {
    {USAGE_PAGE, LOGICAL_MINIMUM, LOGICAL_MAXIMUM} <= i.setting.declared && i.usages > 0 && Encodable(i.setting)
  }

  /** The rules that look at the item and what qualifies it. */
  predicate WellDeclared(i: Input) {
    && |i.open| > 0 && i.open[0] == DescriptorBuilder.APPLICATION
    && 1 <= i.setting.size <= 32 && i.setting.count > 0
    && i.flags < 0x200 && i.flags / 0x80 % 2 == 0
    && (IsArray(i) ==> !i.delimited)
    && i.setting.minimum <= Top(i.setting)
    && (!IsConstant(i) ==> Described(i))
    && (i.setting.unit != 0 ==>
          {LOGICAL_MINIMUM, LOGICAL_MAXIMUM, PHYSICAL_MINIMUM, PHYSICAL_MAXIMUM, UNIT_EXPONENT} <= i.setting.declared)
    && (i.numbered ==> i.setting.id != 0)
  }

  /** All of them: the item's place in its report counts too. */
  predicate Lawful(i: Input) {
    WellDeclared(i) && WithinFourBytes(i) && (IsBuffered(i) ==> i.offset % 8 == 0)
  }

  /** HID 1.11 section 6.2.2.6 reserves the kinds between the defined and the vendor-defined ones. */
  predicate KnownKinds(open: seq<nat>) {
    forall k :: 0 <= k < |open| ==> open[k] <= 0x06 || 0x80 <= open[k] <= 0xFF
  }

  /** Nothing reserved qualifies the item. */
  predicate Unreserved(i: Input) {
    UnitIsValid(i.setting.unit) && KnownKinds(i.open)
  }

  /** The items of one report are in one Application collection. */
  predicate OneApplication(inputs: seq<Input>) {
    forall j, k :: 0 <= j < k < |inputs| && inputs[j].setting.id == inputs[k].setting.id ==>
      inputs[j].application == inputs[k].application
  }

  /** Either every report has an ID or the only one has none. */
  predicate SameNumbering(inputs: seq<Input>) {
    forall j, k :: 0 <= j < k < |inputs| ==> (inputs[j].setting.id == 0 <==> inputs[k].setting.id == 0)
  }

  predicate AllLawful(inputs: seq<Input>) {
    (forall k :: 0 <= k < |inputs| ==> Lawful(inputs[k])) && OneApplication(inputs) && SameNumbering(inputs)
  }

  // ----- The parser follows the reader -----------------------------------------------------------

  predicate SameSetting(g: Globals, s: Setting) {
    && s.minimum == g.logicalMinimum && s.maximum == g.logicalMaximum && s.size == g.reportSize
    && s.count == g.reportCount && s.unit == g.unit && s.id == g.reportId && SameDeclared(g, s.declared)
  }

  predicate SameDeclared(g: Globals, declared: set<nat>) {
    && (USAGE_PAGE in declared <==> g.usagePageDeclared)
    && (LOGICAL_MINIMUM in declared <==> g.logicalMinimumDeclared)
    && (LOGICAL_MAXIMUM in declared <==> g.logicalMaximumDeclared)
    && (PHYSICAL_MINIMUM in declared <==> g.physicalMinimumDeclared)
    && (PHYSICAL_MAXIMUM in declared <==> g.physicalMaximumDeclared)
    && (UNIT_EXPONENT in declared <==> g.unitExponentDeclared)
  }

  predicate SameStack(p: Parser, r: Survey) {
    |p.stack| == |r.saved| && forall k :: 0 <= k < |p.stack| ==> SameSetting(p.stack[k], r.saved[k])
  }

  predicate SameLocals(p: Parser, r: Survey) {
    p.locals.usageCount == r.usages && p.locals.usageMinimum == r.lowest && p.locals.delimiterBranch == r.branches
  }

  /** What the parser remembers of the Input items that came before. */
  ghost predicate SameReports(p: Parser, r: Survey) {
    && (forall id :: ReportOf(p.parsed, id).bits == DescriptorBuilder.Count(r.bits, id))
    && (forall k :: 0 <= k < |r.inputs| ==>
          && r.inputs[k].setting.id in p.parsed && r.inputs[k].application > 0
          && p.parsed[r.inputs[k].setting.id].topLevel == Some(r.inputs[k].application - 1))
    && (forall id :: id in p.parsed ==> exists k :: 0 <= k < |r.inputs| && r.inputs[k].setting.id == id)
  }

  predicate SameCollections(p: Parser, r: Survey) {
    && p.depth == |r.open| && p.topLevels == r.applications
       && (p.depth > 0 ==> r.open[0] == DescriptorBuilder.APPLICATION)
    && p.currentTopLevel == (if |r.open| == 0 then None else Some(r.applications - 1))
    && (p.depth > 0 ==> r.applications > 0)
  }

  predicate Numbering(p: Parser, r: Survey) {
    && p.hasReportIds == r.numbered && (|r.inputs| > 0 && !r.numbered ==> p.sawMainBeforeReportId)
    && (r.numbered ==> !p.sawMainBeforeReportId && forall k :: 0 <= k < |r.inputs| ==> r.inputs[k].setting.id != 0)
    && (!r.numbered ==> r.now.id == 0 && (forall k :: 0 <= k < |r.inputs| ==> r.inputs[k].setting.id == 0)
                        && (forall k :: 0 <= k < |r.saved| ==> r.saved[k].id == 0))
  }

  ghost predicate Follows(p: Parser, r: Survey) {
    && SameSetting(p.globals, r.now) && SameStack(p, r) && SameLocals(p, r) && SameReports(p, r)
    && SameCollections(p, r) && Numbering(p, r)
  }

  lemma PushKeeps(p: Parser, r: Survey)
    requires SameSetting(p.globals, r.now) && SameStack(p, r)
    ensures SameStack(p.(stack := p.stack + [p.globals]), r.(saved := r.saved + [r.now]))
  {
    hide SameSetting;
  }

  /** What each Global item does to the values in force, and what it declares. */
  lemma PlainGlobals(p: Parser, item: Item)
    requires RawGlobal(p, item).Accept? && item.tag != PUSH && item.tag != POP
    ensures var g, t := p.globals, item.tag;
            RawGlobal(p, item).state.globals
            == Globals(if t == LOGICAL_MINIMUM then SignedValue(item) else g.logicalMinimum,
                       if t == LOGICAL_MAXIMUM then ReadMaximum(item, g.logicalMinimum) else g.logicalMaximum,
                       if t == PHYSICAL_MINIMUM then SignedValue(item) else g.physicalMinimum,
                       if t == PHYSICAL_MAXIMUM then ReadMaximum(item, g.physicalMinimum) else g.physicalMaximum,
                       if t == REPORT_SIZE then item.value else g.reportSize,
                       if t == REPORT_COUNT then item.value else g.reportCount,
                       if t == UNIT then item.value else g.unit, if t == USAGE_PAGE then item.value else g.usagePage,
                       if t == REPORT_ID then item.value else g.reportId, t == USAGE_PAGE || g.usagePageDeclared,
                       t == LOGICAL_MINIMUM || g.logicalMinimumDeclared,
                       t == LOGICAL_MAXIMUM || g.logicalMaximumDeclared,
                       t == PHYSICAL_MINIMUM || g.physicalMinimumDeclared,
                       t == PHYSICAL_MAXIMUM || g.physicalMaximumDeclared,
                       t == UNIT_EXPONENT || g.unitExponentDeclared)
  {
    hide SignedValue, ReadMaximum, UnitIsValid, ObserveUsages;
    match item.tag
    case 0 =>
    case 1 =>
    case 2 =>
    case 3 =>
    case 4 =>
    case 5 =>
    case 6 =>
    case 7 =>
    case 8 =>
    case 9 =>
    case _ => assert false;
  }

  lemma PlainSurvey(r: Survey, item: Item)
    requires item.tag != PUSH && item.tag != POP
    ensures var g, h := r.now, SurveyGlobal(r, item).now;
            h == Setting(if item.tag == LOGICAL_MINIMUM then SignedValue(item) else g.minimum,
                         if item.tag == LOGICAL_MAXIMUM then ReadMaximum(item, g.minimum) else g.maximum,
                         if item.tag == REPORT_SIZE then item.value else g.size,
                         if item.tag == REPORT_COUNT then item.value else g.count,
                         if item.tag == UNIT then item.value else g.unit,
                         if item.tag == REPORT_ID then item.value else g.id, g.declared + {item.tag})
  {
    hide SignedValue, ReadMaximum;
  }

  lemma PlainSetting(p: Parser, r: Survey, item: Item)
    requires SameSetting(p.globals, r.now) && RawGlobal(p, item).Accept? && item.tag != PUSH && item.tag != POP
    ensures SameSetting(RawGlobal(p, item).state.globals, SurveyGlobal(r, item).now)
  {
    hide SignedValue, ReadMaximum, RawGlobal, SurveyGlobal;
    PlainGlobals(p, item);
    PlainSurvey(r, item);
  }

  lemma PlainStack(p: Parser, r: Survey, item: Item)
    requires RawGlobal(p, item).Accept? && item.tag != PUSH && item.tag != POP
    ensures RawGlobal(p, item).state.stack == p.stack && SurveyGlobal(r, item).saved == r.saved
  {
    hide SignedValue, ReadMaximum, UnitIsValid, ObserveUsages;
  }

  lemma StackSetting(p: Parser, r: Survey, item: Item)
    requires SameSetting(p.globals, r.now) && SameStack(p, r) && RawGlobal(p, item).Accept?
    requires item.tag == PUSH || item.tag == POP
    ensures SameSetting(RawGlobal(p, item).state.globals, SurveyGlobal(r, item).now)
    ensures SameStack(RawGlobal(p, item).state, SurveyGlobal(r, item))
  {
    hide SameSetting, SignedValue, ReadMaximum, UnitIsValid, ObserveUsages;
    if item.tag == PUSH {
      PushKeeps(p, r);
    } else {
      assert SameSetting(p.stack[|p.stack| - 1], r.saved[|p.stack| - 1]);
    }
  }

  lemma GlobalSettings(p: Parser, r: Survey, item: Item)
    requires SameSetting(p.globals, r.now) && SameStack(p, r) && RawGlobal(p, item).Accept?
    ensures SameSetting(RawGlobal(p, item).state.globals, SurveyGlobal(r, item).now)
    ensures SameStack(RawGlobal(p, item).state, SurveyGlobal(r, item))
  {
    hide SameSetting, RawGlobal, SurveyGlobal;
    if item.tag == PUSH || item.tag == POP {
      StackSetting(p, r, item);
    } else {
      PlainSetting(p, r, item);
      PlainStack(p, r, item);
    }
  }

  /** A Global item leaves collections, Locals and reports alone. */
  lemma GlobalLeaves(p: Parser, r: Survey, item: Item)
    requires RawGlobal(p, item).Accept?
    ensures var q, n := RawGlobal(p, item).state, SurveyGlobal(r, item);
            && q.parsed == p.parsed && q.locals == p.locals && q.depth == p.depth && q.topLevels == p.topLevels
            && q.currentTopLevel == p.currentTopLevel
            && n == r.(now := n.now, saved := n.saved, numbered := n.numbered)
  {
    hide SignedValue, ReadMaximum, UnitIsValid, ObserveUsages;
    match item.tag
    case 7 =>
    case 9 =>
    case 10 =>
    case 11 =>
    case _ =>
  }

  lemma GlobalFollows(p: Parser, r: Survey, item: Item)
    requires Follows(p, r) && RawGlobal(p, item).Accept?
    ensures Follows(RawGlobal(p, item).state, SurveyGlobal(r, item))
  {
    hide SameSetting, SameStack, SameReports, RawGlobal, SurveyGlobal, Numbering;
    GlobalSettings(p, r, item);
    GlobalNumbering(p, r, item);
    GlobalLeaves(p, r, item);
    KeptReports(p, r, RawGlobal(p, item).state, SurveyGlobal(r, item));
  }

  lemma KeptReports(p: Parser, r: Survey, q: Parser, n: Survey)
    requires SameReports(p, r) && q.parsed == p.parsed && n.bits == r.bits && n.inputs == r.inputs
    ensures SameReports(q, n)
  {
  }

  lemma GlobalNumbering(p: Parser, r: Survey, item: Item)
    requires Numbering(p, r) && SameStack(p, r) && SameSetting(p.globals, r.now) && RawGlobal(p, item).Accept?
    ensures Numbering(RawGlobal(p, item).state, SurveyGlobal(r, item))
  {
    hide SignedValue, ReadMaximum, UnitIsValid, ObserveUsages;
  }

  lemma LocalFollows(p: Parser, r: Survey, item: Item)
    requires Follows(p, r) && RawLocal(p, item).Accept?
    ensures Follows(RawLocal(p, item).state, SurveyLocal(r, item))
  {
    hide SameSetting, SameReports, ObserveUsages, SameCollections, Numbering;
    var q, n := RawLocal(p, item).state, SurveyLocal(r, item);
    KeptReports(p, r, q, n);
    KeptCollections(p, r, q, n);
  }

  lemma KeptCollections(p: Parser, r: Survey, q: Parser, n: Survey)
    requires SameCollections(p, r) && Numbering(p, r) && SameStack(p, r)
    requires q.depth == p.depth && q.topLevels == p.topLevels && q.currentTopLevel == p.currentTopLevel
    requires q.hasReportIds == p.hasReportIds && q.sawMainBeforeReportId == p.sawMainBeforeReportId
    requires q.stack == p.stack && n.saved == r.saved && n.now == r.now && n.inputs == r.inputs
    requires n.open == r.open && n.applications == r.applications && n.numbered == r.numbered
    ensures SameCollections(q, n) && Numbering(q, n) && SameStack(q, n)
  {
    hide SameSetting;
  }

  // ----- Input items -----------------------------------------------------------------------------

  lemma EncodableExact(g: Globals, s: Setting)
    requires SameSetting(g, s) && 1 <= s.size <= 32 && s.minimum <= Top(s)
    ensures RawValueFits(g.logicalMinimum, g.logicalMaximum, g.reportSize) <==> Encodable(s)
  {
    hide SameDeclared;
    Pow2Values();
    if s.size == 32 {
      assert Pow2(s.size) == 0x1_0000_0000 && Pow2(s.size - 1) == 0x8000_0000;
    }
  }

  /** An item is refused for what it is exactly when it breaks one of the rules about that. */
  lemma FormIsExact(p: Parser, r: Survey, flags: nat)
    requires SameSetting(p.globals, r.now) && SameLocals(p, r) && SameCollections(p, r) && p.hasReportIds == r.numbered
    ensures InputFormRefusal(p, flags).None? <==> WellDeclared(NextInput(r, flags))
  {
    hide Pow2, RawValueFits, Encodable;
    if 1 <= r.now.size <= 32 && r.now.minimum <= Top(r.now) {
      EncodableExact(p.globals, r.now);
    }
  }

  /** No earlier item of the same report is in another Application collection. */
  predicate Joins(r: Survey) {
    forall k :: 0 <= k < |r.inputs| && r.inputs[k].setting.id == r.now.id ==> r.inputs[k].application == r.applications
  }

  /** Numbers that the counters cannot hold any more. */
  predicate Overflows(p: Parser) {
    var g, report := p.globals, ReportOf(p.parsed, p.globals.reportId);
    || (p.locals.usageCount != 0 && report.fields == UINT32_MAX)
    || report.bits > SIZE_MAX - g.reportSize * g.reportCount
  }

  lemma PlaceIsExact(p: Parser, r: Survey, flags: nat)
    requires SameSetting(p.globals, r.now) && SameReports(p, r) && SameCollections(p, r) && |r.open| > 0
    requires r.now.size > 0
    ensures InputReportRefusal(p, flags).None? <==>
              && !Overflows(p) && Joins(r) && WithinFourBytes(NextInput(r, flags))
              && (IsBuffered(NextInput(r, flags)) ==> NextInput(r, flags).offset % 8 == 0)
  {
    hide FieldFits, SameDeclared;
    assert SpanOk(NextInput(r, flags).offset, r.now.size, r.now.count) <==> WithinFourBytes(NextInput(r, flags));
    JoinsExact(p, r);
  }

  lemma JoinsExact(p: Parser, r: Survey)
    requires SameReports(p, r) && SameCollections(p, r) && |r.open| > 0
    ensures Joins(r) <==> (r.now.id in p.parsed ==> ReportOf(p.parsed, r.now.id).topLevel == p.currentTopLevel)
  {
    if r.now.id in p.parsed {
      var k :| 0 <= k < |r.inputs| && r.inputs[k].setting.id == r.now.id;
      assert p.parsed[r.now.id].topLevel == Some(r.inputs[k].application - 1);
    }
  }

  /**
   * An Input item is accepted exactly when it keeps every rule, stays in the Application collection of its report, and
   * the counters can hold what it adds.
   */
  lemma InputIsExact(p: Parser, r: Survey, flags: nat)
    requires SameSetting(p.globals, r.now) && SameLocals(p, r) && SameReports(p, r) && SameCollections(p, r)
    requires p.hasReportIds == r.numbered
    ensures RawInput(p, flags).Accept? <==> Lawful(NextInput(r, flags)) && Joins(r) && !Overflows(p)
  {
    hide InputFormRefusal, InputReportRefusal, WellDeclared, WithinFourBytes, SameReports, SameLocals, Joins, Overflows,
         SameDeclared;
    FormIsExact(p, r, flags);
    if WellDeclared(NextInput(r, flags)) {
      assert |r.open| > 0 && r.now.size > 0 by { DeclaredShape(NextInput(r, flags)); }
      PlaceIsExact(p, r, flags);
    }
  }

  lemma DeclaredShape(i: Input)
    requires WellDeclared(i)
    ensures |i.open| > 0 && i.setting.size > 0 && (i.numbered ==> i.setting.id != 0)
  {
    hide Described;
  }

  // ----- Main items ------------------------------------------------------------------------------

  /** The Locals end with their Main item. */
  function Rested(r: Survey): Survey {
    r.(usages := 0, lowest := 0, branches := 0)
  }

  lemma CollectionFollows(p: Parser, r: Survey, kind: nat)
    requires SameCollections(p, r) && RawCollection(p, kind).Accept?
    ensures var q := RawCollection(p, kind).state;
            && SameCollections(q, r.(open := r.open + [kind],
                                     applications := r.applications + if |r.open| == 0 then 1 else 0))
            && q == p.(depth := q.depth, topLevels := q.topLevels, currentTopLevel := q.currentTopLevel)
  {
  }

  lemma EndFollows(p: Parser, r: Survey)
    requires SameCollections(p, r) && p.depth > 0
    ensures SameCollections(p.(depth := p.depth - 1, currentTopLevel := if p.depth == 1 then None
                               else p.currentTopLevel),
                            r.(open := r.open[..|r.open| - 1]))
  {
  }

  /** The item joins its report. */
  function Joined(r: Survey, flags: nat): Survey {
    r.(inputs := r.inputs + [NextInput(r, flags)],
       bits := r.bits[r.now.id := DescriptorBuilder.Count(r.bits, r.now.id) + r.now.size * r.now.count])
  }

  lemma InputReports(p: Parser, r: Survey, flags: nat)
    requires SameSetting(p.globals, r.now) && SameReports(p, r) && SameCollections(p, r) && |r.open| > 0 && Joins(r)
    requires RawInput(p, flags).Accept?
    ensures SameReports(RawInput(p, flags).state, Joined(r, flags))
  {
    hide InputRefusal, SameDeclared;
    var q, n := RawInput(p, flags).state, Joined(r, flags);
    assert q.parsed == p.parsed[r.now.id := Grown(p)];
    forall id
      ensures ReportOf(q.parsed, id).bits == DescriptorBuilder.Count(n.bits, id)
    {
      assert ReportOf(p.parsed, id).bits == DescriptorBuilder.Count(r.bits, id);
    }
    forall k | 0 <= k < |n.inputs|
      ensures n.inputs[k].setting.id in q.parsed && n.inputs[k].application > 0
              && q.parsed[n.inputs[k].setting.id].topLevel == Some(n.inputs[k].application - 1)
    {
      if k < |r.inputs| {
        assert n.inputs[k] == r.inputs[k];
      }
    }
    forall id | id in q.parsed
      ensures exists k :: 0 <= k < |n.inputs| && n.inputs[k].setting.id == id
    {
      if id == r.now.id {
        assert n.inputs[|r.inputs|].setting.id == id;
      } else {
        var k :| 0 <= k < |r.inputs| && r.inputs[k].setting.id == id;
        assert n.inputs[k].setting.id == id;
      }
    }
  }

  lemma InputNumbering(p: Parser, q: Parser, r: Survey, flags: nat)
    requires Numbering(p, r) && (r.numbered ==> r.now.id != 0)
    requires q.hasReportIds == p.hasReportIds && q.sawMainBeforeReportId == (p.sawMainBeforeReportId || !p.hasReportIds)
    ensures Numbering(q, Joined(r, flags))
  {
  }

  lemma InputLaws(r: Survey, p: Parser, flags: nat)
    requires AllLawful(r.inputs) && Lawful(NextInput(r, flags)) && Joins(r) && Numbering(p, r)
    requires r.numbered ==> r.now.id != 0
    ensures AllLawful(Joined(r, flags).inputs)
  {
    hide Lawful;
    var all := Joined(r, flags).inputs;
    assert forall k :: 0 <= k < |r.inputs| ==> all[k] == r.inputs[k];
  }

  /** The parser as it looks at the body of a Main item. */
  function Facing(p: Parser, item: Item): Parser {
    p.(requirements := ObserveUsages(p.requirements, p.locals.usageCount),
       sawMainBeforeReportId := p.sawMainBeforeReportId || (item.tag == INPUT && !p.hasReportIds))
  }

  lemma FacingFollows(p: Parser, r: Survey, item: Item)
    requires Follows(p, r)
    ensures var q := Facing(p, item);
            && SameSetting(q.globals, r.now) && SameStack(q, r) && SameLocals(q, r) && SameReports(q, r)
            && SameCollections(q, r) && q.hasReportIds == r.numbered
  {
    hide SameSetting, SameReports, ObserveUsages;
    KeptReports(p, r, Facing(p, item), r);
  }

  lemma InputFollows(p: Parser, r: Survey, item: Item)
    requires Follows(p, r) && item.tag == INPUT && RawInput(Facing(p, item), item.value).Accept?
    ensures var q := RawInput(Facing(p, item), item.value).state.(locals := NO_LOCALS);
            Follows(q, Rested(Joined(r, item.value)))
            && (AllLawful(r.inputs) ==> AllLawful(Joined(r, item.value).inputs))
  {
    hide SameSetting, SameReports, SameStack, SameLocals, SameCollections, Numbering, Lawful, AllLawful, Joins,
         Overflows,
         InputRefusal, ObserveUsages;
    var face := Facing(p, item);
    FacingFollows(p, r, item);
    InputIsExact(face, r, item.value);
    LawfulShape(NextInput(r, item.value));
    InputReports(face, r, item.value);
    var q := RawInput(face, item.value).state;
    InputNumbering(p, q, r, item.value);
    if AllLawful(r.inputs) {
      InputLaws(r, p, item.value);
    }
    RestFollows(q, Joined(r, item.value), face, r);
  }

  lemma LawfulShape(i: Input)
    requires Lawful(i)
    ensures |i.open| > 0 && i.setting.size > 0 && (i.numbered ==> i.setting.id != 0)
  {
    hide WellDeclared, WithinFourBytes;
    DeclaredShape(i);
  }

  /** What an Input item does not touch. */
  lemma RestFollows(q: Parser, n: Survey, p: Parser, r: Survey)
    requires SameSetting(p.globals, r.now) && SameStack(p, r) && SameCollections(p, r)
    requires SameReports(q, n) && Numbering(q, n)
    requires q.globals == p.globals && q.stack == p.stack && q.depth == p.depth && q.topLevels == p.topLevels
             && q.currentTopLevel == p.currentTopLevel
    requires n.now == r.now && n.saved == r.saved && n.open == r.open && n.applications == r.applications
    ensures Follows(q.(locals := NO_LOCALS), Rested(n))
  {
    hide SameSetting;
    KeptReports(q, n, q.(locals := NO_LOCALS), Rested(n));
  }

  lemma MainFollows(p: Parser, r: Survey, item: Item)
    requires Follows(p, r) && RawMain(p, item).Accept?
    ensures Follows(RawMain(p, item).state, SurveyMain(r, item))
    ensures AllLawful(r.inputs) ==> AllLawful(SurveyMain(r, item).inputs)
  {
    hide SameSetting, SameReports, SameStack, SameLocals, SameCollections, Numbering, AllLawful, RawInput,
         RawCollection,
         ObserveUsages;
    if item.tag == INPUT {
      InputFollows(p, r, item);
    } else {
      FacingFollows(p, r, item);
      StructureFollows(p, r, item);
    }
  }

  lemma KeptSpan(p: Parser, r: Survey, q: Parser, n: Survey)
    requires SameCollections(p, r) && q.depth == p.depth && q.topLevels == p.topLevels
    requires q.currentTopLevel == p.currentTopLevel && n.open == r.open && n.applications == r.applications
    ensures SameCollections(q, n)
  {
  }

  lemma KeptRest(p: Parser, r: Survey, q: Parser, n: Survey)
    requires SameStack(p, r) && Numbering(p, r) && q.stack == p.stack && n.saved == r.saved && n.now == r.now
    requires q.hasReportIds == p.hasReportIds && q.sawMainBeforeReportId == p.sawMainBeforeReportId
    requires n.numbered == r.numbered && n.inputs == r.inputs
    ensures SameStack(q, n) && Numbering(q, n)
  {
    hide SameSetting;
  }

  lemma StructureFollows(p: Parser, r: Survey, item: Item)
    requires Follows(p, r) && RawMain(p, item).Accept? && item.tag != INPUT
    ensures Follows(RawMain(p, item).state, SurveyMain(r, item))
    ensures SurveyMain(r, item).inputs == r.inputs
  {
    hide SameSetting, SameReports, SameStack, SameCollections, Numbering, RawCollection, ObserveUsages;
    var face := p.(requirements := ObserveUsages(p.requirements, p.locals.usageCount));
    var q, n := RawMain(p, item).state, SurveyMain(r, item);
    KeptSpan(p, r, face, r);
    if item.tag == COLLECTION {
      CollectionFollows(face, r, item.value);
      KeptSpan(RawCollection(face, item.value).state,
               r.(open := r.open + [item.value], applications := r.applications + if |r.open| == 0 then 1 else 0), q,
                   n);
    } else {
      EndFollows(face, r);
      KeptSpan(face.(depth := face.depth - 1,
                     currentTopLevel := if face.depth == 1 then None else face.currentTopLevel),
               r.(open := r.open[..|r.open| - 1]), q, n);
    }
    KeptReports(p, r, q, n);
    KeptRest(p, r, q, n);
  }

  // ----- The whole descriptor --------------------------------------------------------------------

  lemma StepFollows(p: Parser, r: Survey, item: Item)
    requires Follows(p, r) && RawStep(p, item).Accept?
    ensures Follows(RawStep(p, item).state, SurveyItem(r, item))
    ensures AllLawful(r.inputs) ==> AllLawful(SurveyItem(r, item).inputs)
  {
    hide Follows, RawGlobal, RawLocal, RawMain, SurveyGlobal, SurveyLocal, SurveyMain, AllLawful;
    if item.kind == GLOBAL {
      GlobalFollows(p, r, item);
      GlobalLeaves(p, r, item);
    } else if item.kind == LOCAL {
      LocalFollows(p, r, item);
      LocalLeaves(r, item);
    } else {
      MainFollows(p, r, item);
    }
  }

  lemma LocalLeaves(r: Survey, item: Item)
    ensures SurveyLocal(r, item).inputs == r.inputs
  {
  }

  lemma {:induction false} WalkFollows(descriptor: seq<Byte>, offset: nat, p: Parser, r: Survey)
    requires Follows(p, r) && AllLawful(r.inputs) && WalkBytes(RAW_CHECKER, descriptor, offset, p).Accept?
    ensures var q, n := WalkBytes(RAW_CHECKER, descriptor, offset, p).state, Surveyed(descriptor, offset, r);
            Follows(q, n) && AllLawful(n.inputs)
    decreases |descriptor| - offset
  {
    hide RawStep, Follows, AllLawful, SurveyItem;
    if offset < |descriptor| {
      var item := ItemAt(descriptor, offset).item;
      StepFollows(p, r, item);
      WalkFollows(descriptor, offset + 1 + item.size, RawStep(p, item).state, SurveyItem(r, item));
    }
  }

  // ----- Reserved values -------------------------------------------------------------------------

  predicate NothingReserved(r: Survey) {
    && UnitIsValid(r.now.unit) && (forall k :: 0 <= k < |r.saved| ==> UnitIsValid(r.saved[k].unit))
    && KnownKinds(r.open) && (forall k :: 0 <= k < |r.inputs| ==> Unreserved(r.inputs[k]))
  }

  lemma GlobalUnreserved(p: Parser, r: Survey, item: Item)
    requires NothingReserved(r) && RawGlobal(p, item).Accept?
    ensures NothingReserved(SurveyGlobal(r, item))
  {
    hide UnitIsValid, KnownKinds, Unreserved, SignedValue, ReadMaximum, ObserveUsages;
    if item.tag == UNIT {
      assert UnitIsValid(item.value);
    }
  }

  lemma MainUnreserved(p: Parser, r: Survey, item: Item)
    requires NothingReserved(r) && RawMain(p, item).Accept?
    ensures NothingReserved(SurveyMain(r, item))
  {
    hide UnitIsValid, InputRefusal, ObserveUsages;
    if item.tag == COLLECTION {
      assert RawCollection(p.(requirements := ObserveUsages(p.requirements, p.locals.usageCount)), item.value).Accept?;
    }
  }

  lemma StepUnreserved(p: Parser, r: Survey, item: Item)
    requires NothingReserved(r) && RawStep(p, item).Accept?
    ensures NothingReserved(SurveyItem(r, item))
  {
    hide RawGlobal, RawLocal, RawMain, SurveyGlobal, SurveyMain, UnitIsValid, KnownKinds, Unreserved;
    if item.kind == GLOBAL {
      GlobalUnreserved(p, r, item);
    } else if item.kind == MAIN {
      MainUnreserved(p, r, item);
    }
  }

  lemma {:induction false} WalkUnreserved(descriptor: seq<Byte>, offset: nat, p: Parser, r: Survey)
    requires NothingReserved(r) && WalkBytes(RAW_CHECKER, descriptor, offset, p).Accept?
    ensures NothingReserved(Surveyed(descriptor, offset, r))
    decreases |descriptor| - offset
  {
    hide RawStep, SurveyItem, NothingReserved;
    if offset < |descriptor| {
      var item := ItemAt(descriptor, offset).item;
      StepUnreserved(p, r, item);
      WalkUnreserved(descriptor, offset + 1 + item.size, RawStep(p, item).state, SurveyItem(r, item));
    }
  }

  /**
   * A reader that refuses nothing finds, in every descriptor that is accepted, only lawful Input items: each in an
   * Application collection, of at most 32 bits, never in a fifth byte, described, and with a range that its bits can
   * hold; no report in two Application collections, none without an ID among numbered ones. And all that was opened
   * is closed.
   */
  lemma AcceptedIsLawful(descriptor: seq<Byte>, table: seq<RawReport>)
    requires RawAccepts(descriptor, table)
    ensures var r := Surveyed(descriptor, 0, NEW_SURVEY);
            && AllLawful(r.inputs) && r.open == [] && r.saved == [] && r.applications > 0
            && forall k :: 0 <= k < |r.inputs| ==> Unreserved(r.inputs[k])
  {
    hide RawStep, AllLawful, TableOk, TableMatches, SameReports, SameLocals, SameSetting, Numbering, Unreserved;
    assert NothingReserved(NEW_SURVEY) by { NoUnit(); }
    WalkUnreserved(descriptor, 0, NEW_PARSER, NEW_SURVEY);
    assert Follows(NEW_PARSER, NEW_SURVEY) by { StartFollows(); }
    assert AllLawful([]) by { NoneUnlawful(); }
    WalkFollows(descriptor, 0, NEW_PARSER, NEW_SURVEY);
  }

  lemma NoUnit()
    ensures NothingReserved(NEW_SURVEY)
  {
  }

  lemma StartFollows()
    ensures Follows(NEW_PARSER, NEW_SURVEY)
  {
  }

  lemma NoneUnlawful()
    ensures AllLawful([])
  {
  }
}
