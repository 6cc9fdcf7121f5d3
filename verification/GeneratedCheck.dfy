/** `validate_generated`: the re-reading of a generated descriptor and its layout (src/hid/validator.cpp). */
module GeneratedCheck {
  import opened Common
  import opened BitField
  import opened HidItems
  import opened HidWalk

  const INTERNAL_DESCRIPTOR := Issue(ErrInternal, "spec.descriptor")
  const INTERNAL_COLLECTION := Issue(ErrInternal, "spec.collection")
  const INTERNAL_REPORT_ID := Issue(ErrInternal, "spec.report_id")
  const INTERNAL_LAYOUT := Issue(ErrInternal, "spec.layout")
  const FIVE_BYTES := Issue(ErrParam, "spec.field")
  const BAD_PHYSICAL := Issue(ErrParam, "spec.physical")
  const BAD_RANGE := Issue(ErrParam, "spec.logical_range")

  /** `unit_is_valid`. */
  predicate UnitIsValid(unit: Uint32) {
    unit == 0 || ((1 <= unit % 16 <= 4 || unit % 16 == 15) && unit < 0x1000_0000)
  }

  predicate PhysicalIsZero(physical: Physical) {
    physical == NO_PHYSICAL
  }

  predicate PhysicalIsEnabled(physical: Physical) {
    && physical.enabled == 1 && physical.maximum > physical.minimum
    && -8 <= physical.unitExponent <= 7 && physical.unit != 0 && UnitIsValid(physical.unit)
  }

  /** The maxima a receiver must be able to handle (`DescriptorRequirements`). */
  datatype Requirements = Requirements(
    fieldsPerReport: nat, stackDepth: nat, reportSizeBits: nat, usages: nat, reportDataBits: nat)

  const NO_REQUIREMENTS := Requirements(0, 0, 0, 0, 0)

  function ObserveUsages(requirements: Requirements, count: nat): Requirements {
    requirements.(usages := Max(requirements.usages, count))
  }

  // ----- The structure walk ----------------------------------------------------------------------

  datatype Structure = Structure(
    reportSize: nat, reportCount: nat, inputBits: nat, featureBits: nat, depth: nat, topLevels: nat,
    reportId: nat, idSeen: bool, mainSeen: bool)

  const NO_STRUCTURE := Structure(0, 0, 0, 0, 0, 0, 0, false, false)

  function StructureGlobal(s: Structure, item: Item): Outcome<Structure> {
    if item.tag == REPORT_SIZE then Accept(s.(reportSize := item.value))
    else if item.tag == REPORT_ID then
      if item.value == 0 || item.value > 255 || s.idSeen || s.mainSeen then Reject(INTERNAL_REPORT_ID)
      else Accept(s.(reportId := item.value, idSeen := true))
    else if item.tag == REPORT_COUNT then Accept(s.(reportCount := item.value))
    else if item.tag == PUSH || item.tag == POP then Reject(INTERNAL_DESCRIPTOR)
    else Accept(s)
  }

  function StructureCollection(s: Structure, item: Item): Outcome<Structure> {
    if item.value > 0xFF || 0x07 <= item.value <= 0x7F then Reject(INTERNAL_COLLECTION)
    else if s.depth == 0 then
      if item.value != 1 || s.topLevels != 0 then Reject(INTERNAL_COLLECTION)
      else Accept(s.(topLevels := s.topLevels + 1, depth := 1))
    else Accept(s.(depth := s.depth + 1))
  }

  function StructureData(s: Structure, item: Item): Outcome<Structure> {
    if s.depth == 0 || s.reportSize == 0 || s.reportCount == 0 then Reject(INTERNAL_DESCRIPTOR)
    else if item.tag == OUTPUT then Reject(Issue(ErrUnsupported, "spec.descriptor"))
    else if s.reportSize > 32 then Reject(INTERNAL_DESCRIPTOR)
    else
      var bits := if item.tag == INPUT then s.inputBits else s.featureBits;
      var added := s.reportSize * s.reportCount;
      if !SpanOk(bits, s.reportSize, s.reportCount) then Reject(INTERNAL_DESCRIPTOR)
      else if added > SIZE_MAX - bits then Reject(Issue(ErrOverflow, "spec.descriptor"))
      else if item.tag == INPUT then Accept(s.(inputBits := bits + added, mainSeen := true))
      else Accept(s.(featureBits := bits + added, mainSeen := true))
  }

  function StructureMain(s: Structure, item: Item): Outcome<Structure> {
    if item.tag == COLLECTION then StructureCollection(s, item)
    else if item.tag == END_COLLECTION then
      if s.depth == 0 then Reject(INTERNAL_COLLECTION) else Accept(s.(depth := s.depth - 1))
    else if item.tag == INPUT || item.tag == OUTPUT || item.tag == FEATURE then StructureData(s, item)
    else Reject(INTERNAL_DESCRIPTOR)
  }

  function StructureStep(s: Structure, item: Item): Outcome<Structure> {
    if item.kind == GLOBAL then StructureGlobal(s, item)
    else if item.kind == MAIN then StructureMain(s, item)
    else Accept(s)
  }

  const STRUCTURE_CHECKER := Checker(StructureStep, INTERNAL_DESCRIPTOR, INTERNAL_DESCRIPTOR)

  /** The checks after the last item. */
  function StructureEnd(s: Structure, layout: ReportLayout, layoutBits: nat): Option<Issue> {
    if s.depth != 0 || s.topLevels != 1 then Some(INTERNAL_COLLECTION)
    else if s.idSeen != layout.hasReportId || (s.idSeen && s.reportId != layout.reportId) then Some(INTERNAL_REPORT_ID)
    else
      var prefix := if s.idSeen then 8 else 0;
      if s.inputBits > SIZE_MAX - prefix || s.inputBits + prefix != layoutBits then Some(INTERNAL_LAYOUT) else None
  }

  function StructureVerdict(descriptor: seq<Byte>, layout: ReportLayout, layoutBits: nat): Option<Issue> {
    match WalkBytes(STRUCTURE_CHECKER, descriptor, 0, NO_STRUCTURE)
    case Reject(issue) => Some(issue)
    case Accept(s) => StructureEnd(s, layout, layoutBits)
  }

  /** The data Main branch of the walk: the bits the report grows to, or the refusal. */
  method DataMain(walk: Structure, tag: nat, bits: nat) returns (grown: Outcome<nat>)
    requires tag in {INPUT, OUTPUT, FEATURE}
    requires bits == if tag == INPUT then walk.inputBits else walk.featureBits
    ensures grown == match StructureData(walk, Item(MAIN, tag, 0, 0))
                     case Reject(issue) => Reject(issue)
                     case Accept(next) => Accept(if tag == INPUT then next.inputBits else next.featureBits)
  {
    if walk.depth == 0 || walk.reportSize == 0 || walk.reportCount == 0 {
      return Reject(INTERNAL_DESCRIPTOR);
    }
    if tag == OUTPUT {
      return Reject(Issue(ErrUnsupported, "spec.descriptor"));
    }
    if walk.reportSize > 32 {
      return Reject(INTERNAL_DESCRIPTOR);
    }
    var spanOk := FieldSpanIsValid(bits, walk.reportSize, walk.reportCount);
    if !spanOk {
      return Reject(INTERNAL_DESCRIPTOR);
    }
    var added := walk.reportSize * walk.reportCount;
    if added > SIZE_MAX - bits {
      return Reject(Issue(ErrOverflow, "spec.descriptor"));
    }
    return Accept(bits + added);
  }

  /** The Main branch of the walk. */
  method MainItem(walk: Structure, item: Item) returns (next: Outcome<Structure>)
    ensures next == StructureMain(walk, item)
  {
    if item.tag == COLLECTION {
      if item.value > 0xFF || 0x07 <= item.value <= 0x7F {
        return Reject(INTERNAL_COLLECTION);
      }
      var topLevels := walk.topLevels;
      if walk.depth == 0 {
        if item.value != 1 || topLevels != 0 {
          return Reject(INTERNAL_COLLECTION);
        }
        topLevels := topLevels + 1;
      }
      return Accept(walk.(topLevels := topLevels, depth := walk.depth + 1));
    }
    if item.tag == END_COLLECTION {
      if walk.depth == 0 {
        return Reject(INTERNAL_COLLECTION);
      }
      return Accept(walk.(depth := walk.depth - 1));
    }
    if item.tag == INPUT || item.tag == OUTPUT || item.tag == FEATURE {
      var grown := DataMain(walk, item.tag, if item.tag == INPUT then walk.inputBits else walk.featureBits);
      if grown.Reject? {
        return Reject(grown.issue);
      }
      var seen := walk.(mainSeen := true);
      return Accept(if item.tag == INPUT then seen.(inputBits := grown.state) else seen.(featureBits := grown.state));
    }
    return Reject(INTERNAL_DESCRIPTOR);
  }

  /** `validate_generated_structure`; `walk` gathers its local variables. */
  method ValidateGeneratedStructure(descriptor: seq<Byte>, layout: ReportLayout, layoutBits: nat)
    returns (issue: Option<Issue>)
    ensures issue == StructureVerdict(descriptor, layout, layoutBits)
  {
    hide StructureMain;
    var walk := NO_STRUCTURE;
    var offset: nat := 0;
    while offset < |descriptor|
      invariant WalkBytes(STRUCTURE_CHECKER, descriptor, 0, NO_STRUCTURE)
                == WalkBytes(STRUCTURE_CHECKER, descriptor, offset, walk)
    {
      match ItemAt(descriptor, offset)
      case LongItem => return Some(INTERNAL_DESCRIPTOR);
      case Truncated => return Some(INTERNAL_DESCRIPTOR);
      case Short(item) =>
        if item.kind == GLOBAL {
          if item.tag == REPORT_SIZE {
            walk := walk.(reportSize := item.value);
          } else if item.tag == REPORT_ID {
            if item.value == 0 || item.value > 255 || walk.idSeen || walk.mainSeen {
              return Some(INTERNAL_REPORT_ID);
            }
            walk := walk.(reportId := item.value, idSeen := true);
          } else if item.tag == REPORT_COUNT {
            walk := walk.(reportCount := item.value);
          } else if item.tag == PUSH || item.tag == POP {
            return Some(INTERNAL_DESCRIPTOR);
          }
        } else if item.kind == MAIN {
          var next := MainItem(walk, item);
          if next.Reject? {
            return Some(next.issue);
          }
          walk := next.state;
        }
        offset := offset + 1 + item.size;
    }
    return StructureEnd(walk, layout, layoutBits);
  }

  // ----- The layout ------------------------------------------------------------------------------

  /** The checks of one layout field that should start at bit `bits`. */
  function FieldIssue(field: FieldLayout, bits: nat): Option<Issue> {
    if !PhysicalIsZero(field.physical) && !PhysicalIsEnabled(field.physical) then Some(BAD_PHYSICAL)
    else if field.bitWidth == 0 || field.bitOffset != bits || bits > SIZE_MAX - field.bitWidth then
        Some(INTERNAL_LAYOUT)
    else if !ValueFits(field.logicalMinimum, field.logicalMaximum, field.bitWidth)
            && field.semantic != ConstantPadding then Some(BAD_RANGE)
    else if TouchedBytes(field.bitOffset, field.bitWidth) > 4 then Some(FIVE_BYTES)
    else None
  }

  /** The first complaint about fields `index`.. when the report has `bits` bits before them. */
  function LayoutIssue(fields: seq<FieldLayout>, index: nat, bits: nat): Option<Issue>
    decreases |fields| - index
  {
    if index >= |fields| then None
    else
      var issue := FieldIssue(fields[index], bits);
      if issue.Some? then issue else LayoutIssue(fields, index + 1, bits + fields[index].bitWidth)
  }

  function TotalWidth(fields: seq<FieldLayout>): nat {
    if |fields| == 0 then 0 else TotalWidth(fields[..|fields| - 1]) + fields[|fields| - 1].bitWidth
  }

  function PrefixBits(layout: ReportLayout): nat {
    if layout.hasReportId then 8 else 0
  }

  function GeneratedVerdict(descriptor: seq<Byte>, layout: ReportLayout): Option<Issue> {
    if |descriptor| == 0 then Some(Issue(ErrUnsetField, "spec.descriptor"))
    else if |descriptor| > 65535 then Some(Issue(ErrOverflow, "spec.descriptor"))
    else if layout.hasReportId && layout.reportId == 0 then Some(Issue(ErrParam, "spec.report_id"))
    else
      var issue := LayoutIssue(layout.fields, 0, PrefixBits(layout));
      var bits := PrefixBits(layout) + TotalWidth(layout.fields);
      if issue.Some? then issue
      else if bits > SIZE_MAX - 7 || (bits + 7) / 8 != layout.wireBytes then Some(INTERNAL_LAYOUT)
      else StructureVerdict(descriptor, layout, bits)
  }

  /** The field loop of `validate_generated`. */
  method ValidateFields(layout: ReportLayout) returns (issue: Option<Issue>, layoutBits: nat)
    ensures issue == LayoutIssue(layout.fields, 0, PrefixBits(layout))
    ensures issue.None? ==> layoutBits == PrefixBits(layout) + TotalWidth(layout.fields)
  {
    hide FieldIssue;
    layoutBits := PrefixBits(layout);
    var index: nat := 0;
    while index < |layout.fields|
      invariant index <= |layout.fields|
      invariant layoutBits == PrefixBits(layout) + TotalWidth(layout.fields[..index])
      invariant LayoutIssue(layout.fields, 0, PrefixBits(layout)) == LayoutIssue(layout.fields, index, layoutBits)
    {
      issue := CheckField(layout.fields[index], layoutBits);
      if issue.Some? {
        return issue, layoutBits;
      }
      layoutBits := layoutBits + layout.fields[index].bitWidth;
      assert layout.fields[..index + 1][..index] == layout.fields[..index];
      index := index + 1;
    }
    assert layout.fields[..index] == layout.fields;
    return None, layoutBits;
  }

  /** One round of the field loop. */
  method CheckField(field: FieldLayout, layoutBits: nat) returns (issue: Option<Issue>)
    ensures issue == FieldIssue(field, layoutBits)
  {
    hide PhysicalIsZero, PhysicalIsEnabled, ValueFits;
    if !PhysicalIsZero(field.physical) && !PhysicalIsEnabled(field.physical) {
      return Some(BAD_PHYSICAL);
    }
    if field.bitWidth == 0 || field.bitOffset != layoutBits || layoutBits > SIZE_MAX - field.bitWidth {
      return Some(INTERNAL_LAYOUT);
    }
    if !ValueFits(field.logicalMinimum, field.logicalMaximum, field.bitWidth) && field.semantic != ConstantPadding {
      return Some(BAD_RANGE);
    }
    var firstByte := field.bitOffset / 8;
    var lastByte := (field.bitOffset + field.bitWidth - 1) / 8;
    if lastByte - firstByte + 1 > 4 {
      return Some(FIVE_BYTES);
    }
    return None;
  }

  /** `validate_generated`. */
  method ValidateGenerated(descriptor: seq<Byte>, layout: ReportLayout) returns (issue: Option<Issue>)
    ensures issue == GeneratedVerdict(descriptor, layout)
  {
    if |descriptor| == 0 {
      return Some(Issue(ErrUnsetField, "spec.descriptor"));
    }
    if |descriptor| > 65535 {
      return Some(Issue(ErrOverflow, "spec.descriptor"));
    }
    if layout.hasReportId && layout.reportId == 0 {
      return Some(Issue(ErrParam, "spec.report_id"));
    }
    var layoutBits;
    issue, layoutBits := ValidateFields(layout);
    if issue.None? {
      if layoutBits > SIZE_MAX - 7 || (layoutBits + 7) / 8 != layout.wireBytes {
        return Some(INTERNAL_LAYOUT);
      }
      issue := ValidateGeneratedStructure(descriptor, layout, layoutBits);
    }
  }
}
