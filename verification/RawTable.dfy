/**
 * What acceptance by `validate_raw` means: the caller's report table and the descriptor's Input reports
 * correspond one to one, with exact lengths, and a submitted raw report can match one entry at most.
 */
module RawTable {
  import opened Common
  import opened BitMath
  import opened HidItems
  import opened HidWalk
  import opened GeneratedCheck
  import opened RawCheck
  import P = RawParser

  // ----- The table loops -------------------------------------------------------------------------

  /** `validate_report_table`: pairwise comparison of the identities. */
  method ValidateReportTable(table: seq<RawReport>) returns (issue: Option<Issue>)
    ensures issue == TableComplaint(table)
  {
    if |table| == 0 {
      return Some(Issue(ErrUnsetField, "raw.reports"));
    }
    if |table| > 256 {
      return Some(Issue(ErrOverflow, "raw.reports"));
    }
    var index := 0;
    while index < |table|
      invariant 0 <= index <= |table|
      invariant forall k :: 0 <= k < index ==> EntryOk(table[k])
      invariant forall j, k :: 0 <= j < k < index ==> table[j].reportId != table[k].reportId
    {
      var report := table[index];
      if !report.canonical || (report.hasReportId && report.reportId == 0)
         || (!report.hasReportId && report.reportId != 0) || report.wireLength == 0
      {
        return Some(Issue(ErrParam, "raw.reports"));
      }
      var previous := 0;
      while previous < index
        invariant 0 <= previous <= index
        invariant forall j :: 0 <= j < previous ==> table[j].reportId != report.reportId
      {
        if table[previous].reportId == report.reportId && table[previous].hasReportId == report.hasReportId {
          return Some(Issue(ErrParam, "raw.reports"));
        }
        previous := previous + 1;
      }
      index := index + 1;
    }
    return None;
  }

  /** Masks so far: every matched entry carries the mask of its report, the others are untouched. */
  predicate MasksDone(p: Parser, table: seq<RawReport>, masks: seq<nat>, limit: nat) {
    && |masks| == |table|
    && forall k :: 0 <= k < |table| ==>
         masks[k] == if table[k].reportId < limit && table[k].reportId in p.parsed
             && table[k].hasReportId == p.hasReportIds
                     then TrailingMask(p.parsed[table[k].reportId].bits) else 0xFF
  }

  /** The lookup of one parsed report: its entry, or the refusal. */
  method MatchReport(p: Parser, table: seq<RawReport>, id: nat) returns (issue: Option<Issue>, index: nat)
    requires TableOk(table) && id in p.parsed
    ensures issue == if WireLength(p, id) > UINT32_MAX then Some(Issue(ErrOverflow, "raw.reports"))
                     else if !EntryExists(p, table, id) then Some(Issue(ErrParam, "raw.reports"))
                     else None
    ensures issue.None? ==> index < |table| && EntryFor(p, table[index], id)
  {
    index := 0;
    var expected := WireLength(p, id);
    if expected > UINT32_MAX {
      return Some(Issue(ErrOverflow, "raw.reports")), index;
    }
    while index < |table| && !EntryFor(p, table[index], id)
      invariant 0 <= index <= |table|
      invariant forall k :: 0 <= k < index ==> !EntryFor(p, table[k], id)
    {
      index := index + 1;
    }
    if index == |table| || table[index].wireLength != expected {
      return Some(Issue(ErrParam, "raw.reports")), index;
    }
    assert EntryFits(p, table[index], id);
    return None, index;
  }

  lemma MaskStored(p: Parser, table: seq<RawReport>, masks: seq<nat>, id: nat, index: nat)
    requires TableOk(table) && MasksDone(p, table, masks, id) && id in p.parsed
    requires index < |table| && EntryFor(p, table[index], id)
    ensures MasksDone(p, table, masks[index := TrailingMask(p.parsed[id].bits)], id + 1)
  {
    forall k | 0 <= k < |table| && k != index
      ensures table[k].reportId != id
    {
      assert k < index ==> table[k].reportId != table[index].reportId;
      assert index < k ==> table[index].reportId != table[k].reportId;
    }
  }

  /** Every report below `limit` has its entry. */
  predicate MatchedBelow(p: Parser, table: seq<RawReport>, limit: nat) {
    forall id :: id in p.parsed && id < limit ==> EntryExists(p, table, id)
  }

  function ParsedBelow(p: Parser, limit: nat): set<nat> {
    set id | id in p.parsed && id < limit
  }

  lemma ParsedBelowStep(p: Parser, id: nat)
    ensures |ParsedBelow(p, id + 1)| == |ParsedBelow(p, id)| + if id in p.parsed then 1 else 0
    ensures (forall i :: i in p.parsed ==> i <= id) ==> ParsedBelow(p, id + 1) == p.parsed.Keys
  {
    assert ParsedBelow(p, id + 1) == ParsedBelow(p, id) + if id in p.parsed then {id} else {};
  }

  /** `match_report_table`, over a parser that has seen Report IDs 0..255 only. */
  method MatchReportTable(p: Parser, table: seq<RawReport>) returns (issue: Option<Issue>, masks: seq<nat>)
    requires TableOk(table) && forall id :: id in p.parsed ==> id <= 255
    ensures issue == MatchComplaint(p, table, 0) && (issue.None? <==> TableMatches(p, table))
    ensures issue.None? ==> MasksDone(p, table, masks, 256)
  {
    masks := seq(|table|, _ => 0xFF);
    var parsedCount := 0;
    var id := 0;
    assert ParsedBelow(p, 0) == {};
    while id < 256
      invariant 0 <= id <= 256
      invariant parsedCount == |ParsedBelow(p, id)|
      invariant MatchedBelow(p, table, id) && MatchComplaint(p, table, 0) == MatchComplaint(p, table, id)
      invariant MasksDone(p, table, masks, id)
    {
      if id in p.parsed {
        parsedCount := parsedCount + 1;
        var index;
        issue, index := MatchReport(p, table, id);
        if issue.Some? {
          return;
        }
        MaskStored(p, table, masks, id, index);
        masks := masks[index := TrailingMask(p.parsed[id].bits)];
      }
      ParsedBelowStep(p, id);
      id := id + 1;
    }
    ParsedBelowStep(p, 255);
    return if parsedCount != |table| then Some(Issue(ErrParam, "raw.reports")) else None, masks;
  }

  /** `validate_raw`: the complaint of the first check that fails, or acceptance. */
  method ValidateRaw(descriptor: seq<Byte>, table: seq<RawReport>)
    returns (issue: Option<Issue>, masks: seq<nat>, requirements: Requirements)
    ensures issue == RawComplaint(descriptor, table) && (issue.None? <==> RawAccepts(descriptor, table))
    ensures issue.None? ==>
              && requirements == RawWalk(descriptor).state.requirements
              && MasksDone(RawWalk(descriptor).state, table, masks, 256)
  {
    masks, requirements := [], NO_REQUIREMENTS;
    if |descriptor| == 0 {
      return Some(Issue(ErrUnsetField, "raw.descriptor")), masks, requirements;
    }
    if |descriptor| > 65535 {
      return Some(Issue(ErrOverflow, "raw.descriptor")), masks, requirements;
    }
    issue := ValidateReportTable(table);
    if issue.Some? {
      return;
    }
    var parser;
    issue, parser := P.WalkDescriptor(descriptor);
    if issue.Some? {
      return;
    }
    if parser.collectionDepth != 0 || |parser.globalStack| != 0 || parser.locals.delimiterDepth != 0 {
      return Some(Issue(ErrParam, "raw.descriptor")), masks, requirements;
    }
    if parser.topLevelCount == 0 {
      return Some(Issue(ErrParam, "raw.collection")), masks, requirements;
    }
    IdsInvariantBytes(descriptor, 0, NEW_PARSER);
    issue, masks := MatchReportTable(parser.State(), table);
    requirements := parser.requirements;
  }

  // ----- Report IDs: zero and numbered reports never meet ----------------------------------------

  /**
   * Either the descriptor numbers its reports and none is numbered zero, or it does not and only the
   * unnumbered report exists; Push and Pop may bring a zero ID back, but no Input item can then use it.
   */
  predicate IdsInvariant(p: Parser) {
    && p.globals.reportId <= 255
    && (forall g :: g in p.stack ==> g.reportId <= 255)
    && (forall id :: id in p.parsed ==> id <= 255 && (id != 0 <==> p.hasReportIds))
    && (p.parsed != map[] && !p.hasReportIds ==> p.sawMainBeforeReportId)
    && (!p.hasReportIds ==> p.globals.reportId == 0 && forall g :: g in p.stack ==> g.reportId == 0)
  }

  /** What a Main item leaves alone, and the one thing an Input item changes. */
  lemma MainItemEffect(p: Parser, item: Item)
    requires RawMain(p, item).Accept?
    ensures var q := RawMain(p, item).state;
            && q.globals == p.globals && q.stack == p.stack && q.hasReportIds == p.hasReportIds
            && (p.sawMainBeforeReportId ==> q.sawMainBeforeReportId)
            && (item.tag != INPUT ==> q.parsed == p.parsed)
            && (item.tag == INPUT ==>
                  && (q.hasReportIds ==> q.globals.reportId != 0)
                  && (!q.hasReportIds ==> q.sawMainBeforeReportId)
                  && exists report: ParsedReport ::
                       && q.parsed == p.parsed[p.globals.reportId := report]
                       && report.bits == ReportOf(p.parsed, p.globals.reportId).bits
                                         + p.globals.reportSize * p.globals.reportCount)
  {
    if item.tag == INPUT {
      var q := p.(requirements := ObserveUsages(p.requirements, p.locals.usageCount),
                  sawMainBeforeReportId := p.sawMainBeforeReportId || !p.hasReportIds);
      assert RawInput(q, item.value).Accept?;
      assert RawMain(p, item).state.parsed == p.parsed[p.globals.reportId := Grown(q)];
    }
  }

  lemma GlobalItemEffect(p: Parser, item: Item)
    requires RawGlobal(p, item).Accept?
    ensures var q := RawGlobal(p, item).state;
            && q.parsed == p.parsed && q.sawMainBeforeReportId == p.sawMainBeforeReportId
            && q.hasReportIds == (p.hasReportIds || item.tag == REPORT_ID)
            && (item.tag == REPORT_ID ==> 0 < item.value <= 255 && !p.sawMainBeforeReportId)
            && (item.tag == PUSH ==> q.stack == p.stack + [p.globals] && q.globals == p.globals)
            && (item.tag == POP ==>
                  |p.stack| > 0 && q.stack == p.stack[..|p.stack| - 1] && q.globals == p.stack[|p.stack| - 1])
            && (item.tag != PUSH && item.tag != POP ==>
                  && q.stack == p.stack
                  && q.globals.reportSize == (if item.tag == REPORT_SIZE then item.value else p.globals.reportSize)
                  && q.globals.reportCount == (if item.tag == REPORT_COUNT then item.value else p.globals.reportCount)
                  && q.globals.reportId == (if item.tag == REPORT_ID then item.value else p.globals.reportId))
  {
  }

  lemma IdsInvariantGlobal(p: Parser, item: Item)
    requires IdsInvariant(p) && RawGlobal(p, item).Accept?
    ensures IdsInvariant(RawGlobal(p, item).state)
  {
    GlobalItemEffect(p, item);
    if item.tag == REPORT_ID {
      assert forall id :: id in p.parsed ==> p.parsed != map[];
    } else if item.tag == POP {
      assert p.stack[|p.stack| - 1] in p.stack;
    }
  }

  lemma IdsInvariantMain(p: Parser, item: Item)
    requires IdsInvariant(p) && RawMain(p, item).Accept?
    ensures IdsInvariant(RawMain(p, item).state)
  {
    MainItemEffect(p, item);
  }

  lemma IdsInvariantStep(p: Parser, item: Item)
    requires IdsInvariant(p) && RawStep(p, item).Accept?
    ensures IdsInvariant(RawStep(p, item).state)
  {
    if item.kind == GLOBAL {
      IdsInvariantGlobal(p, item);
    } else if item.kind == MAIN {
      IdsInvariantMain(p, item);
    }
  }

  lemma {:induction false} IdsInvariantBytes(descriptor: seq<Byte>, offset: nat, p: Parser)
    requires IdsInvariant(p)
    ensures WalkBytes(RAW_CHECKER, descriptor, offset, p).Accept? ==>
              IdsInvariant(WalkBytes(RAW_CHECKER, descriptor, offset, p).state)
    decreases |descriptor| - offset
  {
    hide RawStep, IdsInvariant;
    if offset < |descriptor| && ItemAt(descriptor, offset).Short? {
      var item := ItemAt(descriptor, offset).item;
      if RawStep(p, item).Accept? {
        IdsInvariantStep(p, item);
        IdsInvariantBytes(descriptor, offset + 1 + item.size, RawStep(p, item).state);
      }
    }
  }

  // ----- The bijection ---------------------------------------------------------------------------

  /** Distinct ids with pairwise different entries in a table of the same size use every entry. */
  lemma EveryEntryIsUsed(p: Parser, table: seq<RawReport>, k: nat)
    requires TableOk(table) && TableMatches(p, table) && k < |table|
    ensures table[k].reportId in p.parsed
  {
    var ids := set j | 0 <= j < |table| :: table[j].reportId;
    TableIdCount(table, |table|);
    assert p.parsed.Keys <= ids by {
      forall id | id in p.parsed
        ensures id in ids
      {
        var j :| 0 <= j < |table| && EntryFits(p, table[j], id);
      }
    }
    SubsetOfSameSize(p.parsed.Keys, ids);
    assert table[k].reportId in ids;
  }

  lemma {:induction false} TableIdCount(table: seq<RawReport>, n: nat)
    requires n <= |table| && forall j, k :: 0 <= j < k < |table| ==> table[j].reportId != table[k].reportId
    ensures |set j | 0 <= j < n :: table[j].reportId| == n
  {
    if n == 0 {
    } else {
      TableIdCount(table, n - 1);
      assert (set j | 0 <= j < n :: table[j].reportId)
          == (set j | 0 <= j < n - 1 :: table[j].reportId) + {table[n - 1].reportId};
    }
  }

  lemma SubsetOfSameSize(a: set<nat>, b: set<nat>)
    requires a <= b && |a| == |b|
    ensures a == b
  {
    assert |b - a| == 0;
  }

  /**
   * An accepted table is in bijection with the descriptor's Input reports: each report has exactly one
   * entry, each entry exactly one report, identities and lengths agree, and numbered and unnumbered
   * reports do not coexist.
   */
  lemma AcceptedTableIsABijection(descriptor: seq<Byte>, table: seq<RawReport>)
    requires RawAccepts(descriptor, table)
    ensures var p := RawWalk(descriptor).state;
            && (forall k :: 0 <= k < |table| ==>
                  && table[k].reportId in p.parsed
                  && table[k].hasReportId == p.hasReportIds
                  && table[k].wireLength == WireLength(p, table[k].reportId))
            && (forall id :: id in p.parsed ==> exists k :: 0 <= k < |table| && table[k].reportId == id)
            && (p.hasReportIds <==> 0 !in p.parsed)
            && (!p.hasReportIds ==> |table| == 1 && table[0].reportId == 0)
  {
    var p := RawWalk(descriptor).state;
    IdsInvariantBytes(descriptor, 0, NEW_PARSER);
    forall k | 0 <= k < |table|
      ensures table[k].reportId in p.parsed && table[k].hasReportId == p.hasReportIds
              && table[k].wireLength == WireLength(p, table[k].reportId)
    {
      EveryEntryIsUsed(p, table, k);
      var j :| 0 <= j < |table| && EntryFits(p, table[j], table[k].reportId);
      assert j == k;
    }
    forall id | id in p.parsed
      ensures exists k :: 0 <= k < |table| && table[k].reportId == id
    {
      var k :| 0 <= k < |table| && EntryFits(p, table[k], id);
      assert table[k].reportId == id;
    }
    assert table[0].reportId in p.parsed;
    assert |table| > 1 ==> table[0].reportId != table[1].reportId;
    assert |table| > 1 ==> table[1].reportId in p.parsed;
  }

  /** The lookup of `aoahid_raw_submit`: length, then the first byte when the entry is numbered. */
  predicate Submittable(entry: RawReport, report: seq<Byte>) {
    entry.wireLength == |report| && (!entry.hasReportId || (|report| != 0 && report[0] == entry.reportId))
  }

  lemma SameIdSameEntry(table: seq<RawReport>, j: nat, k: nat)
    requires TableOk(table) && j < |table| && k < |table|
    ensures table[j].reportId == table[k].reportId ==> j == k
  {
  }

  /** A submitted report matches at most one entry, so its trailing mask is never ambiguous. */
  lemma RawSubmitIsUnambiguous(descriptor: seq<Byte>, table: seq<RawReport>, report: seq<Byte>, j: nat, k: nat)
    requires RawAccepts(descriptor, table)
    requires j < |table| && k < |table| && Submittable(table[j], report) && Submittable(table[k], report)
    ensures j == k
  {
    AcceptedTableIsABijection(descriptor, table);
    SameIdSameEntry(table, j, k);
  }

  // ----- Exact lengths ---------------------------------------------------------------------------

  /** What a plain HID reader keeps: no validation, only the items that size a report. */
  datatype Reader = Reader(reportSize: nat, reportCount: nat, reportId: nat, stack: seq<(nat, nat, nat)>)

  const NEW_READER := Reader(0, 0, 0, [])

  function ReadItem(r: Reader, item: Item): Reader {
    if item.kind != GLOBAL then r
    else if item.tag == REPORT_SIZE then r.(reportSize := item.value)
    else if item.tag == REPORT_COUNT then r.(reportCount := item.value)
    else if item.tag == REPORT_ID then r.(reportId := item.value)
    else if item.tag == PUSH then r.(stack := r.stack + [(r.reportSize, r.reportCount, r.reportId)])
    else if item.tag == POP && |r.stack| > 0 then
      var top := r.stack[|r.stack| - 1];
      Reader(top.0, top.1, top.2, r.stack[..|r.stack| - 1])
    else r
  }

  /** Bits that the Input items from `offset` on add to report `id`, as the reader counts them. */
  function InputBits(descriptor: seq<Byte>, offset: nat, r: Reader, id: nat): nat
    decreases |descriptor| - offset
  {
    if offset >= |descriptor| || !ItemAt(descriptor, offset).Short? then 0
    else
      var item := ItemAt(descriptor, offset).item;
      (if item.kind == MAIN && item.tag == INPUT && r.reportId == id then r.reportSize * r.reportCount else 0)
      + InputBits(descriptor, offset + 1 + item.size, ReadItem(r, item), id)
  }

  predicate ReaderFollows(p: Parser, r: Reader) {
    && r.reportSize == p.globals.reportSize && r.reportCount == p.globals.reportCount
    && r.reportId == p.globals.reportId && |r.stack| == |p.stack|
    && forall k :: 0 <= k < |p.stack| ==>
         r.stack[k] == (p.stack[k].reportSize, p.stack[k].reportCount, p.stack[k].reportId)
  }

  lemma ReaderFollowsGlobal(p: Parser, r: Reader, item: Item)
    requires ReaderFollows(p, r) && item.kind == GLOBAL && RawGlobal(p, item).Accept?
    ensures ReaderFollows(RawGlobal(p, item).state, ReadItem(r, item))
    ensures RawGlobal(p, item).state.parsed == p.parsed
  {
    var q := RawGlobal(p, item).state;
    GlobalItemEffect(p, item);
    if item.tag == PUSH {
      assert q.stack == p.stack + [p.globals];
    } else if item.tag == POP {
      assert q.stack == p.stack[..|p.stack| - 1];
    }
  }

  lemma ReaderStep(p: Parser, r: Reader, item: Item, id: nat)
    requires ReaderFollows(p, r) && RawStep(p, item).Accept?
    ensures ReaderFollows(RawStep(p, item).state, ReadItem(r, item))
    ensures ReportOf(RawStep(p, item).state.parsed, id).bits
            == ReportOf(p.parsed, id).bits
               + (if item.kind == MAIN && item.tag == INPUT && r.reportId == id then r.reportSize * r.reportCount
                  else 0)
  {
    if item.kind == GLOBAL {
      ReaderFollowsGlobal(p, r, item);
    } else if item.kind == MAIN {
      MainItemEffect(p, item);
    }
  }

  lemma {:induction false} ReaderAgrees(descriptor: seq<Byte>, offset: nat, p: Parser, r: Reader, id: nat)
    requires ReaderFollows(p, r) && WalkBytes(RAW_CHECKER, descriptor, offset, p).Accept?
    ensures ReportOf(WalkBytes(RAW_CHECKER, descriptor, offset, p).state.parsed, id).bits
            == ReportOf(p.parsed, id).bits + InputBits(descriptor, offset, r, id)
    decreases |descriptor| - offset
  {
    hide RawStep, ReaderFollows;
    if offset < |descriptor| {
      var item := ItemAt(descriptor, offset).item;
      ReaderStep(p, r, item, id);
      ReaderAgrees(descriptor, offset + 1 + item.size, RawStep(p, item).state, ReadItem(r, item), id);
    }
  }

  /** The parser's bit count of a report is what a reader counts. */
  lemma ReaderCounts(descriptor: seq<Byte>, id: nat)
    requires RawWalk(descriptor).Accept?
    ensures ReportOf(RawWalk(descriptor).state.parsed, id).bits == InputBits(descriptor, 0, NEW_READER, id)
  {
    hide RawStep;
    ReaderAgrees(descriptor, 0, NEW_PARSER, NEW_READER, id);
  }

  lemma TrailingMaskValue(bits: nat)
    ensures TrailingMask(bits) == Pow2(if bits % 8 == 0 then 8 else bits % 8) - 1
  {
    Pow2Values();
  }

  /**
   * Each entry's length is exactly the bytes a reader needs for the report's Input items, plus the ID
   * byte of a numbered report; its mask covers exactly the bits used in the last of them.
   */
  lemma AcceptedLengthsAreExact(descriptor: seq<Byte>, table: seq<RawReport>, masks: seq<nat>, k: nat)
    requires RawAccepts(descriptor, table) && k < |table|
    requires MasksDone(RawWalk(descriptor).state, table, masks, 256)
    ensures var bits := InputBits(descriptor, 0, NEW_READER, table[k].reportId);
            && table[k].wireLength == CeilDiv(bits, 8) + (if table[k].hasReportId then 1 else 0)
            && masks[k] == Pow2(if bits % 8 == 0 then 8 else bits % 8) - 1
  {
    hide RawWalk, InputBits, TrailingMask, Pow2;
    AcceptedTableIsABijection(descriptor, table);
    ReaderCounts(descriptor, table[k].reportId);
    TrailingMaskValue(InputBits(descriptor, 0, NEW_READER, table[k].reportId));
  }
}
