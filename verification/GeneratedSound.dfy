/**
 * What `validate_generated` guards against: for any descriptor and any layout, whatever made them, acceptance means
 * that the layout's fields follow one another and that a reader which refuses nothing finds just as many Input bits.
 */
module GeneratedSound {
  import opened Common
  import opened BitField
  import opened HidItems
  import opened HidWalk
  import opened GeneratedCheck
  import opened RawSound
  import DescriptorBuilder

  // ----- The layout ------------------------------------------------------------------------------

  /** Field `k` starts where the fields before it end, within four bytes, with a range and extents that make sense. */
  predicate GoodField(layout: ReportLayout, k: nat)
    requires k < |layout.fields|
  {
    var f := layout.fields[k];
    && f.bitWidth > 0 && f.bitOffset == PrefixBits(layout) + TotalWidth(layout.fields[..k])
    && TouchedBytes(f.bitOffset, f.bitWidth) <= 4
    && (ValueFits(f.logicalMinimum, f.logicalMaximum, f.bitWidth) || f.semantic == ConstantPadding)
    && (PhysicalIsZero(f.physical) || PhysicalIsEnabled(f.physical))
  }

  lemma {:induction false} FieldsAreGood(layout: ReportLayout, index: nat)
    requires index <= |layout.fields|
    requires LayoutIssue(layout.fields, index, PrefixBits(layout) + TotalWidth(layout.fields[..index])).None?
    ensures forall k :: index <= k < |layout.fields| ==> GoodField(layout, k)
    decreases |layout.fields| - index
  {
    hide PhysicalIsZero, PhysicalIsEnabled, ValueFits;
    if index < |layout.fields| {
      assert layout.fields[..index + 1][..index] == layout.fields[..index];
      assert TotalWidth(layout.fields[..index + 1])
          == TotalWidth(layout.fields[..index]) + layout.fields[index].bitWidth;
      FieldsAreGood(layout, index + 1);
    }
  }

  // ----- The descriptor --------------------------------------------------------------------------

  /** One Input item of a generated descriptor. */
  predicate GoodInput(i: Input) {
    |i.open| > 0 && i.open[0] == DescriptorBuilder.APPLICATION && 1 <= i.setting.size <= 32 && i.setting.count > 0
    && WithinFourBytes(i)
  }

  /** The structure walk knows what the reader has found, and has refused everything else. */
  predicate Knows(s: Structure, r: Survey) {
    && s.reportSize == r.now.size && s.reportCount == r.now.count && s.reportId == r.now.id && r.saved == []
    && s.idSeen == r.numbered && (!s.idSeen ==> s.reportId == 0)
    && s.depth == |r.open| && s.topLevels == r.applications
       && (s.depth > 0 ==> r.open[0] == DescriptorBuilder.APPLICATION)
    && s.inputBits == DescriptorBuilder.Count(r.bits, r.now.id)
    && (!s.mainSeen ==> r.inputs == [] && r.bits == map[])
    && (forall id :: id in r.bits ==> id == r.now.id)
    && (forall k :: 0 <= k < |r.inputs| ==> GoodInput(r.inputs[k]) && r.inputs[k].setting.id == r.now.id)
  }

  lemma GlobalKnown(s: Structure, r: Survey, item: Item)
    requires Knows(s, r) && StructureGlobal(s, item).Accept?
    ensures Knows(StructureGlobal(s, item).state, SurveyGlobal(r, item))
  {
    hide SignedValue, ReadMaximum, GoodInput;
  }

  lemma LocalKnown(s: Structure, r: Survey, item: Item)
    requires Knows(s, r)
    ensures Knows(s, SurveyLocal(r, item))
  {
    hide GoodInput;
  }

  lemma CollectionKnown(s: Structure, r: Survey, item: Item)
    requires Knows(s, r) && item.tag == COLLECTION && StructureCollection(s, item).Accept?
    ensures Knows(StructureCollection(s, item).state, SurveyMain(r, item))
  {
    hide GoodInput;
  }

  lemma EndKnown(s: Structure, r: Survey, item: Item)
    requires Knows(s, r) && item.tag == END_COLLECTION && s.depth > 0
    ensures Knows(s.(depth := s.depth - 1), SurveyMain(r, item))
  {
    hide GoodInput;
  }

  lemma InputKnown(s: Structure, r: Survey, item: Item)
    requires Knows(s, r) && item.tag == INPUT && StructureData(s, item).Accept?
    ensures Knows(StructureData(s, item).state, SurveyMain(r, item))
  {
    hide FieldFits;
    var n := SurveyMain(r, item);
    assert GoodInput(NextInput(r, item.value));
    forall k | 0 <= k < |n.inputs|
      ensures GoodInput(n.inputs[k]) && n.inputs[k].setting.id == n.now.id
    {
      if k < |r.inputs| {
        assert n.inputs[k] == r.inputs[k];
      }
    }
  }

  lemma FeatureKnown(s: Structure, r: Survey, item: Item)
    requires Knows(s, r) && item.tag == FEATURE && StructureData(s, item).Accept?
    ensures Knows(StructureData(s, item).state, SurveyMain(r, item))
  {
    hide GoodInput, SpanOk;
  }

  lemma StepKnown(s: Structure, r: Survey, item: Item)
    requires Knows(s, r) && StructureStep(s, item).Accept?
    ensures Knows(StructureStep(s, item).state, SurveyItem(r, item))
  {
    hide Knows, StructureGlobal, StructureCollection, StructureData, SurveyGlobal, SurveyLocal, SurveyMain;
    if item.kind == GLOBAL {
      GlobalKnown(s, r, item);
    } else if item.kind == LOCAL {
      LocalKnown(s, r, item);
    } else if item.kind == MAIN {
      if item.tag == COLLECTION {
        CollectionKnown(s, r, item);
      } else if item.tag == END_COLLECTION {
        EndKnown(s, r, item);
      } else if item.tag == INPUT {
        InputKnown(s, r, item);
      } else {
        assert item.tag == FEATURE by { NoOutput(s, item); }
        FeatureKnown(s, r, item);
      }
    }
  }

  lemma NoOutput(s: Structure, item: Item)
    ensures item.tag == OUTPUT ==> StructureData(s, item).Reject?
  {
  }

  lemma {:induction false} WalkKnown(descriptor: seq<Byte>, offset: nat, s: Structure, r: Survey)
    requires Knows(s, r) && WalkBytes(STRUCTURE_CHECKER, descriptor, offset, s).Accept?
    ensures Knows(WalkBytes(STRUCTURE_CHECKER, descriptor, offset, s).state, Surveyed(descriptor, offset, r))
    decreases |descriptor| - offset
  {
    hide StructureStep, SurveyItem, Knows;
    if offset < |descriptor| {
      var item := ItemAt(descriptor, offset).item;
      StepKnown(s, r, item);
      WalkKnown(descriptor, offset + 1 + item.size, StructureStep(s, item).state, SurveyItem(r, item));
    }
  }

  /**
   * Whatever made them: an accepted layout has its fields end to end from the report's prefix on, within the wire
   * length, and a reader of the accepted descriptor finds one Application collection, closed, the layout's Report ID,
   * only sensible Input items, and exactly as many Input bits as the layout has.
   */
  lemma AcceptedMeansConsistent(descriptor: seq<Byte>, layout: ReportLayout)
    requires GeneratedVerdict(descriptor, layout).None?
    ensures forall k :: 0 <= k < |layout.fields| ==> GoodField(layout, k)
    ensures layout.wireBytes == CeilDiv(PrefixBits(layout) + TotalWidth(layout.fields), 8)
    ensures var r := Surveyed(descriptor, 0, NEW_SURVEY);
            && r.open == [] && r.applications == 1 && r.numbered == layout.hasReportId
            && (r.numbered ==> r.now.id == layout.reportId != 0)
            && (forall k :: 0 <= k < |r.inputs| ==> GoodInput(r.inputs[k]) && r.inputs[k].setting.id == r.now.id)
            && DescriptorBuilder.Count(r.bits, r.now.id) == TotalWidth(layout.fields)
  {
    hide StructureStep, SurveyItem, GoodField, FieldIssue, LayoutIssue, TotalWidth;
    assert layout.fields[..0] == [];
    NoWidth();
    FieldsAreGood(layout, 0);
    WalkKnown(descriptor, 0, NO_STRUCTURE, NEW_SURVEY);
  }

  lemma NoWidth()
    ensures TotalWidth([]) == 0
  {
  }
}
