/** The parser object of `validate_raw` and its byte loop, proved against the steps of RawCheck. */
module RawParser {
  import opened Common
  import opened HidItems
  import opened HidWalk
  import opened GeneratedCheck
  import opened RawCheck

  /** A step that reports `issue` and leaves the parser as `now` is the step `expected`. */
  predicate Performs(issue: Option<Issue>, now: Parser, expected: Outcome<Parser>) {
    match expected
    case Reject(refusal) => issue == Some(refusal)
    case Accept(next) => issue == None && now == next
  }

  function Param(field: string): Option<Issue> {
    Some(Issue(ErrParam, field))
  }

  class RawParser {
    var globals: Globals
    var locals: Locals
    var requirements: Requirements
    var globalStack: seq<Globals>
    var parsed: map<nat, ParsedReport>
    var collectionDepth: nat
    var topLevelCount: nat
    var currentTopLevel: Option<nat>
    var hasReportIds: bool
    var sawMainBeforeReportId: bool

    function State(): Parser
      reads this
    {
      Parser(globals, locals, requirements, globalStack, parsed, collectionDepth, topLevelCount, currentTopLevel,
             hasReportIds, sawMainBeforeReportId)
    }

    constructor ()
      ensures State() == NEW_PARSER
    {
      globals, locals, requirements := NO_GLOBALS, NO_LOCALS, NO_REQUIREMENTS;
      globalStack, parsed := [], map[];
      collectionDepth, topLevelCount, currentTopLevel := 0, 0, None;
      hasReportIds, sawMainBeforeReportId := false, false;
    }

    method GlobalItem(item: Item) returns (issue: Option<Issue>)
      modifies this
      ensures Performs(issue, State(), RawGlobal(old(State()), item))
    {
      if item.tag == USAGE_PAGE {
        if item.value > 0xFFFF {
          return Param("raw.usage_page");
        }
        globals := globals.(usagePage := item.value, usagePageDeclared := true);
      } else if item.tag == LOGICAL_MINIMUM {
        globals := globals.(logicalMinimum := SignedValue(item), logicalMinimumDeclared := true);
      } else if item.tag == LOGICAL_MAXIMUM {
        globals := globals.(logicalMaximum := if globals.logicalMinimum < 0 then SignedValue(item)
                            else Int32Cast(item.value),
                            logicalMaximumDeclared := true);
      } else if item.tag == PHYSICAL_MINIMUM {
        globals := globals.(physicalMinimum := SignedValue(item), physicalMinimumDeclared := true);
      } else if item.tag == PHYSICAL_MAXIMUM {
        globals := globals.(physicalMaximum := if globals.physicalMinimum < 0 then SignedValue(item)
                            else Int32Cast(item.value),
                            physicalMaximumDeclared := true);
      } else if item.tag == UNIT_EXPONENT {
        if item.value > 0x0F {
          return Param("raw.unit_exponent");
        }
        globals := globals.(unitExponentDeclared := true);
      } else if item.tag == UNIT {
        if !UnitIsValid(item.value) {
          return Param("raw.unit");
        }
        globals := globals.(unit := item.value);
      } else if item.tag == REPORT_SIZE {
        globals := globals.(reportSize := item.value);
        requirements := requirements.(reportSizeBits := Max(requirements.reportSizeBits, globals.reportSize));
      } else if item.tag == REPORT_ID {
        if item.value == 0 || item.value > 255 || sawMainBeforeReportId {
          return Param("raw.report_id");
        }
        globals := globals.(reportId := item.value);
        hasReportIds := true;
      } else if item.tag == REPORT_COUNT {
        globals := globals.(reportCount := item.value);
        requirements := ObserveUsages(requirements, globals.reportCount);
      } else if item.tag == PUSH {
        globalStack := globalStack + [globals];
        requirements := requirements.(stackDepth := Max(requirements.stackDepth, |globalStack|));
      } else if item.tag == POP {
        if |globalStack| == 0 {
          return Param("raw.global_stack");
        }
        globals := globalStack[|globalStack| - 1];
        globalStack := globalStack[..|globalStack| - 1];
      } else {
        return Param("raw.global");
      }
      return None;
    }

    method LocalItem(item: Item) returns (issue: Option<Issue>)
      modifies this
      ensures Performs(issue, State(), RawLocal(old(State()), item))
    {
      if item.tag == DELIMITER {
        if item.value > 1 {
          return Param("raw.delimiter");
        }
        if item.value == 1 {
          if locals.delimiterDepth != 0 {
            return Param("raw.delimiter");
          }
          locals := locals.(delimiterDepth := locals.delimiterDepth + 1, delimiterBranch := locals.delimiterBranch + 1);
        } else {
          if locals.delimiterDepth == 0 {
            return Param("raw.delimiter");
          }
          locals := locals.(delimiterDepth := locals.delimiterDepth - 1);
        }
      } else if item.tag == LOCAL_RESERVED || item.tag > DELIMITER {
        return Param("raw.local");
      } else if locals.delimiterBranch <= 1 {
        if item.tag == USAGE {
          issue := AddUsageCount(1);
          return;
        } else if item.tag == USAGE_MINIMUM {
          locals := locals.(usageMinimum := item.value, usageMinimumSize := item.size, usageMinimumDeclared := true);
        } else if item.tag == USAGE_MAXIMUM {
          if locals.usageMinimumDeclared && locals.usageMinimumSize == 4 && item.size != 4 {
            return Param("raw.usage_range");
          }
          if item.value == 0xFFFF_FFFF {
            return Some(Issue(ErrUnsupported, "raw.usage_range"));
          }
          if item.value < locals.usageMinimum {
            return Param("raw.usage_range");
          }
          issue := AddUsageCount(item.value - locals.usageMinimum + 1);
          return;
        }
      }
      return None;
    }

    method AddUsageCount(count: nat) returns (issue: Option<Issue>)
      modifies this
      ensures Performs(issue, State(), AddUsages(old(State()), count))
    {
      if locals.usageCount > 0xFFFF_FFFF_FFFF_FFFF - count {
        return Some(Issue(ErrOverflow, "raw.usages"));
      }
      locals := locals.(usageCount := locals.usageCount + count);
      requirements := ObserveUsages(requirements, locals.usageCount);
      return None;
    }

    /** The first half of `input_item`'s refusals, in its order. */
    method CheckInputForm(flags: nat) returns (issue: Option<Issue>)
      ensures issue == InputFormRefusal(State(), flags)
    {
      if collectionDepth == 0 || globals.reportSize == 0 || globals.reportCount == 0 {
        return Param("raw.input");
      }
      if hasReportIds && globals.reportId == 0 {
        return Param("raw.report_id");
      }
      if globals.reportSize > 32 {
        return Param("raw.input");
      }
      var constant, variable := Flag(flags, 1), Flag(flags, 2);
      if !DefinedFlags(flags) {
        return Param("raw.input");
      }
      if globals.unit != 0
         && (!globals.logicalMinimumDeclared || !globals.logicalMaximumDeclared || !globals.physicalMinimumDeclared
             || !globals.physicalMaximumDeclared || !globals.unitExponentDeclared)
      {
        return Param("raw.unit");
      }
      if !RawRangeOrdered(globals.logicalMinimum, globals.logicalMaximum) {
        return Param("raw.logical_range");
      }
      if !variable && locals.delimiterBranch != 0 {
        return Param("raw.delimiter");
      }
      if !constant
         && (!globals.usagePageDeclared || !globals.logicalMinimumDeclared || !globals.logicalMaximumDeclared
             || locals.usageCount == 0)
      {
        return Param("raw.input");
      }
      if !constant && !RawValueFits(globals.logicalMinimum, globals.logicalMaximum, globals.reportSize) {
        return Param("raw.logical_range");
      }
      return None;
    }

    /** The second half. */
    method CheckInputReport(flags: nat) returns (issue: Option<Issue>)
      requires 0 < globals.reportSize <= 32
      ensures issue == InputReportRefusal(State(), flags)
    {
      var report := ReportOf(parsed, globals.reportId);
      if Flag(flags, 0x100) && report.bits % 8 != 0 {
        return Param("raw.input");
      }
      if globals.reportId in parsed && report.topLevel != currentTopLevel {
        return Param("raw.input");
      }
      if locals.usageCount != 0 && report.fields == UINT32_MAX {
        return Some(Issue(ErrOverflow, "raw.fields"));
      }
      var spanOk := FieldSpanIsValid(report.bits, globals.reportSize, globals.reportCount);
      if !spanOk {
        return Param("raw.input");
      }
      if report.bits > SIZE_MAX - globals.reportSize * globals.reportCount {
        return Some(Issue(ErrOverflow, "raw.input"));
      }
      return None;
    }

    method InputItem(flags: nat) returns (issue: Option<Issue>)
      modifies this
      ensures Performs(issue, State(), RawInput(old(State()), flags))
    {
      issue := CheckInputForm(flags);
      if issue.Some? {
        return;
      }
      issue := CheckInputReport(flags);
      if issue.Some? {
        return;
      }
      var report := ReportOf(parsed, globals.reportId).(topLevel := currentTopLevel);
      if locals.usageCount != 0 {
        report := report.(fields := report.fields + 1);
        requirements := requirements.(fieldsPerReport := Max(requirements.fieldsPerReport, report.fields));
      }
      report := report.(bits := report.bits + globals.reportSize * globals.reportCount);
      requirements := requirements.(reportDataBits := Max(requirements.reportDataBits, report.bits));
      parsed := parsed[globals.reportId := report];
    }

    method CollectionItem(kind: nat) returns (issue: Option<Issue>)
      modifies this
      ensures Performs(issue, State(), RawCollection(old(State()), kind))
    {
      if kind > 0xFF || 0x07 <= kind <= 0x7F {
        return Param("raw.collection");
      }
      if locals.usageCount == 0 {
        return Param("raw.collection");
      }
      if kind == 1 && locals.delimiterBranch != 0 {
        return Param("raw.delimiter");
      }
      if collectionDepth == 0 {
        if kind != 1 {
          return Param("raw.collection");
        }
        currentTopLevel := Some(topLevelCount);
        topLevelCount := topLevelCount + 1;
      }
      collectionDepth := collectionDepth + 1;
      return None;
    }

    method MainItem(item: Item) returns (issue: Option<Issue>)
      modifies this
      ensures Performs(issue, State(), RawMain(old(State()), item))
    {
      requirements := ObserveUsages(requirements, locals.usageCount);
      if locals.delimiterDepth != 0 {
        return Param("raw.delimiter");
      }
      if item.tag == COLLECTION {
        issue := CollectionItem(item.value);
        if issue.Some? {
          return;
        }
      } else if item.tag == END_COLLECTION {
        if collectionDepth == 0 {
          return Param("raw.collection");
        }
        collectionDepth := collectionDepth - 1;
        if collectionDepth == 0 {
          currentTopLevel := None;
        }
      } else if item.tag == INPUT || item.tag == OUTPUT || item.tag == FEATURE {
        if !hasReportIds {
          sawMainBeforeReportId := true;
        }
        if item.tag != INPUT {
          return Some(Issue(ErrUnsupported, "raw.descriptor"));
        }
        issue := InputItem(item.value);
        if issue.Some? {
          return;
        }
      } else {
        return Param("raw.main");
      }
      locals := NO_LOCALS;
      return None;
    }

    method Step(item: Item) returns (issue: Option<Issue>)
      modifies this
      ensures Performs(issue, State(), RawStep(old(State()), item))
    {
      if item.kind == GLOBAL {
        issue := GlobalItem(item);
      } else if item.kind == LOCAL {
        issue := LocalItem(item);
      } else if item.kind == MAIN {
        issue := MainItem(item);
      } else {
        issue := Param("raw.item_type");
      }
    }
  }

  /** The byte loop of `validate_raw`. */
  method WalkDescriptor(descriptor: seq<Byte>) returns (issue: Option<Issue>, parser: RawParser)
    ensures Performs(issue, parser.State(), RawWalk(descriptor))
    ensures fresh(parser)
  {
    hide RawStep;
    parser := new RawParser();
    var offset: nat := 0;
    while offset < |descriptor|
      invariant fresh(parser)
      invariant WalkBytes(RAW_CHECKER, descriptor, offset, parser.State()) == RawWalk(descriptor)
    {
      match ItemAt(descriptor, offset)
      case LongItem => return Some(Issue(ErrUnsupported, "raw.descriptor")), parser;
      case Truncated => return Some(Issue(ErrParam, "raw.descriptor")), parser;
      case Short(item) =>
        issue := parser.Step(item);
        if issue.Some? {
          return;
        }
        offset := offset + 1 + item.size;
    }
    return None, parser;
  }
}
