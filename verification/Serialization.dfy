/**
 * `serialize_node` and `validate_serialized_report`: a report's content becomes bits, always succeeds,
 * and every field decodes back to what was meant (src/profiles/state.cpp).
 */
module Serialization {
  import opened Common
  import opened BitMath
  import opened BitField
  import opened GeneratedCheck
  import opened BuilderFacts
  import opened Factories
  import opened NodeModel
  import opened NodeFacts

  /** What one field carries: a number, or the Null state. */
  datatype FieldContent = Value(value: int) | NoValue

  function Flag(b: bool): FieldContent {
    Value(if b then 1 else 0)
  }

  function ButtonContent(o: Options, image: Image, k: nat): FieldContent {
    match image
    case MouseImage(buttons, _, _, _, _) => Flag(k < |buttons| && buttons[k])
    case GamepadImage(_, buttons, _, hat) =>
      if k < |buttons| then Flag(buttons[k])
      else if o.Gamepad? && o.dpad.ButtonDPad? && o.buttonCount <= k < o.buttonCount + 4 then
          Flag(Bit(hat, k - o.buttonCount))
      else Value(0)
    case TouchImage(_, buttons, _, _) => Flag(k < |buttons| && buttons[k])
    case PenImage(sample) => Flag(k in sample.barrels)
    case _ => Value(0)
  }

  function EntryContent(e: Entry, semantic: FieldSemantic): FieldContent {
    match semantic
    case X => Value(e.x)
    case Y => Value(e.y)
    case Pressure => Value(e.pressure)
    case Width => Value(e.width)
    case Height => Value(e.height)
    case Azimuth => Value(e.azimuth)
    case Tip => Flag(e.tip)
    case ContactId => Value(e.id)
    case _ => Value(0)
  }

  function PenContent(p: PenSample, semantic: FieldSemantic): FieldContent {
    match semantic
    case X => Value(p.x)
    case Y => Value(p.y)
    case Pressure => Value(p.pressure)
    case Tip => Flag(p.tip)
    case InRange => Flag(p.inRange)
    case Eraser => Flag(p.eraser)
    case TiltX => Value(p.tiltX)
    case TiltY => Value(p.tiltY)
    case Twist => Value(p.twist)
    case _ => Value(0)
  }

  /** The content of a field in a report. */
  function ContentOf(o: Options, image: Image, f: FieldLayout): FieldContent {
    match f.semantic
    case Modifier => Flag(image.KeyboardImage? && f.instance in image.modifiers)
    case KeyBitmap => Flag(image.KeyboardImage? && f.instance < |image.keys| && image.keys[f.instance])
    case Buttons => ButtonContent(o, image, f.instance)
    case Wheel => Value(if image.MouseImage? then image.wheel else 0)
    case Pan => Value(if image.MouseImage? then image.pan else 0)
    case ConsumerUsage =>
      Flag(image.ToggleImage? && o.Toggle? && f.instance < |o.controls| && image.usage == o.controls[f.instance].usage)
    case GamepadAxis => Value(if image.GamepadImage? && f.instance < |image.axes| then image.axes[f.instance] else 0)
    case Hat => if image.GamepadImage? && image.hasDirection then Value(image.hat) else NoValue
    case ScanTime => Value(if image.TouchImage? then image.scanTime else 0)
    case ContactCount => Value(if image.TouchImage? then image.count else 0)
    case BatteryStrength => if image.BatteryImage? && image.hasValue then Value(image.strength) else NoValue
    case ConstantPadding => Value(0)
    case _ =>
      match image
      case MouseImage(_, dx, dy, _, _) => if f.semantic.X? then Value(dx) else if f.semantic.Y? then Value(dy)
          else Value(0)
      case TouchImage(entries, _, _, _) =>
        if f.instance < |entries| then EntryContent(entries[f.instance], f.semantic) else Value(0)
      case PenImage(sample) => PenContent(sample, f.semantic)
      case _ => Value(0)
  }

  // ----- The fields a Spec declares --------------------------------------------------------------

  predicate OneBit(f: FieldLayout) {
    f.logicalMinimum == 0 && f.logicalMaximum == 1 && !f.hasNullState
  }

  predicate Ranges(f: FieldLayout, d: IntegerField) {
    f.logicalMinimum == d.minimum && f.logicalMaximum == d.maximum && !f.hasNullState
  }

  predicate RangesOptional(f: FieldLayout, d: Option<IntegerField>) {
    d.Some? && Ranges(f, d.value)
  }

  predicate MouseField(o: Options, f: FieldLayout)
    requires o.Mouse?
  {
    match f.semantic
    case Buttons => OneBit(f) && f.instance < o.buttonCount
    case X => Ranges(f, o.x)
    case Y => Ranges(f, o.y)
    case Wheel => RangesOptional(f, o.wheel)
    case Pan => RangesOptional(f, o.pan)
    case _ => false
  }

  predicate GamepadField(o: Options, f: FieldLayout)
    requires o.Gamepad?
  {
    match f.semantic
    case Buttons => OneBit(f) && f.instance < o.buttonCount + if o.dpad.ButtonDPad? then 4 else 0
    case GamepadAxis => f.instance < |o.axes| && Ranges(f, o.axes[f.instance].value)
    case Hat =>
      && o.dpad.HatDPad? && f.logicalMinimum == 0 && f.logicalMaximum == 7 && f.hasNullState
      && HasNullEncoding(f.logicalMinimum, f.logicalMaximum, f.bitWidth)
    case _ => false
  }

  predicate TouchField(o: Options, f: FieldLayout)
    requires o.Touch?
  {
    match f.semantic
    case Tip => OneBit(f) && f.instance < o.contactsPerReport
    case ContactId => Ranges(f, o.contactIdentifier) && f.instance < o.contactsPerReport
    case X => Ranges(f, o.x) && f.instance < o.contactsPerReport
    case Y => Ranges(f, o.y) && f.instance < o.contactsPerReport
    case Pressure => RangesOptional(f, o.pressure) && f.instance < o.contactsPerReport
    case Width => RangesOptional(f, o.width) && f.instance < o.contactsPerReport
    case Height => RangesOptional(f, o.height) && f.instance < o.contactsPerReport
    case Azimuth => RangesOptional(f, o.azimuth) && f.instance < o.contactsPerReport
    case ScanTime => RangesOptional(f, o.scanTime)
    case ContactCount => Ranges(f, o.contactCount)
    case Buttons => OneBit(f) && f.instance < o.buttonCount
    case _ => false
  }

  predicate PenField(o: Options, f: FieldLayout)
    requires o.Pen?
  {
    match f.semantic
    case Tip => OneBit(f)
    case InRange => OneBit(f)
    case Eraser => o.eraser && OneBit(f)
    case Buttons => OneBit(f) && f.instance < |o.barrels|
    case X => Ranges(f, o.x)
    case Y => Ranges(f, o.y)
    case Pressure => RangesOptional(f, o.pressure)
    case TiltX => o.tilt.Some? && Ranges(f, o.tilt.value.0)
    case TiltY => o.tilt.Some? && Ranges(f, o.tilt.value.1)
    case Twist => RangesOptional(f, o.twist)
    case _ => false
  }

  /** The field is one that the factory declares for these options. */
  predicate Declares(o: Options, f: FieldLayout) {
    if f.semantic == ConstantPadding then f.logicalMinimum == 0 == f.logicalMaximum && !f.hasNullState
    else
      match o
      case Keyboard(_, low, high) =>
        OneBit(f) && ((f.semantic.Modifier? && f.instance < 8) || (f.semantic.KeyBitmap? && f.instance <= high - low))
      case Mouse(_, _, _, _, _, _) => MouseField(o, f)
      case Toggle(_, _, _, _, controls) => OneBit(f) && f.semantic.ConsumerUsage? && f.instance < |controls|
      case Gamepad(_, _, _, _, _) => GamepadField(o, f)
      case Touch(_, _, _, _, _, _, _, _, _, _, _, _, _, _, _, _) => TouchField(o, f)
      case Pen(_, _, _, _, _, _, _, _, _, _) => PenField(o, f)
      case Battery(_, strength, unknown) =>
        && f.semantic.BatteryStrength? && f.logicalMinimum == strength.minimum && f.logicalMaximum == strength.maximum
        && f.hasNullState == unknown
        && (unknown ==> HasNullEncoding(f.logicalMinimum, f.logicalMaximum, f.bitWidth))
  }

  /** A layout that a generating factory can have made. */
  predicate SpecOk(o: Options, layout: ReportLayout) {
    && Accepted(o)
    && (forall k :: 0 <= k < |layout.fields| ==> Declares(o, layout.fields[k]))
    && (layout.hasReportId ==> 0 < layout.reportId < 256)
    && layout.wireBytes > 0
    && Tiled(layout.fields, PrefixBits(layout), PrefixBits(layout) + TotalWidth(layout.fields))
    && CeilDiv(PrefixBits(layout) + TotalWidth(layout.fields), 8) == layout.wireBytes
  }

  // ----- Every content fits its field ------------------------------------------------------------

  predicate Fits(c: FieldContent, f: FieldLayout) {
    match c
    case Value(v) => f.logicalMinimum <= v <= f.logicalMaximum
    case NoValue => f.hasNullState
  }

  lemma ContactEntryFits(o: Options, c: Contact, f: FieldLayout)
    requires o.Touch? && Accepted(o) && SamplePlaces(o, c.sample) && TouchField(o, f)
    requires f.semantic in {Tip, ContactId, X, Y, Pressure, Width, Height, Azimuth}
    ensures Fits(EntryContent(EntryOf(o, c), f.semantic), f)
  {
    hide ValidField;
  }

  lemma EntryFits(o: Options, contacts: seq<Contact>, cursor: nat, k: nat, f: FieldLayout)
    requires o.Touch? && Accepted(o) && SamplesPlaced(o, contacts) && k < o.contactsPerReport && TouchField(o, f)
    requires f.semantic in {Tip, ContactId, X, Y, Pressure, Width, Height, Azimuth}
    ensures Fits(EntryContent(PacketEntries(o, Active(contacts), cursor)[k], f.semantic), f)
  {
    hide Active, ValidField, EntryContent, SamplePlaces, Accepted, EntryOf, TouchField, Fits;
    if cursor + k < |Active(contacts)| {
      var c := Active(contacts)[cursor + k];
      ActiveMembers(contacts, cursor + k);
      var i :| 0 <= i < |contacts| && contacts[i] == c;
      assert SamplePlaces(o, contacts[i].sample);
      ContactEntryFits(o, c, f);
      assert PacketEntries(o, Active(contacts), cursor)[k] == EntryOf(o, c);
    } else {
      assert PacketEntries(o, Active(contacts), cursor)[k] == NO_ENTRY;
      ZeroEntryFits(o, f);
    }
  }

  lemma ZeroEntryFits(o: Options, f: FieldLayout)
    requires o.Touch? && Accepted(o) && TouchField(o, f)
    requires f.semantic in {Tip, ContactId, X, Y, Pressure, Width, Height, Azimuth}
    ensures Fits(EntryContent(NO_ENTRY, f.semantic), f)
  {
    hide ValidField;
  }

  lemma TouchFits(o: Options, s: NodeState, f: FieldLayout)
    requires o.Touch? && Accepted(o) && StateOk(o, s) && TouchField(o, f)
    ensures Fits(ContentOf(o, ImageOf(o, s).value, f), f)
  {
    hide Active, ValidField, EntryContent, SamplesPlaced, PacketEntries;
    if f.semantic in {Tip, ContactId, X, Y, Pressure, Width, Height, Azimuth} {
      EntryFits(o, s.contacts, s.cursor, f.instance, f);
    }
  }

  lemma PenFits(o: Options, s: NodeState, f: FieldLayout)
    requires o.Pen? && Accepted(o) && StateOk(o, s) && PenField(o, f)
    ensures Fits(ContentOf(o, ImageOf(o, s).value, f), f)
  {
    hide ValidField, HasNullEncoding;
  }

  lemma PointerFits(o: Options, s: NodeState, f: FieldLayout)
    requires (o.Mouse? && MouseField(o, f)) || (o.Gamepad? && GamepadField(o, f))
    requires Accepted(o) && StateOk(o, s)
    ensures Fits(ContentOf(o, ImageOf(o, s).value, f), f)
  {
    hide ValidField, Bit, HasNullEncoding;
  }

  /** Whatever a reachable, sendable state reports fits the field it is meant for. */
  lemma ContentFits(o: Options, s: NodeState, f: FieldLayout)
    requires Accepted(o) && StateOk(o, s) && Sendable(o, s) && Declares(o, f)
    ensures ImageOf(o, s).Some? && Fits(ContentOf(o, ImageOf(o, s).value, f), f)
  {
    hide ValidField, MouseField, GamepadField, TouchField, PenField;
    if f.semantic != ConstantPadding {
      match o
      case Mouse(_, _, _, _, _, _) => PointerFits(o, s, f);
      case Gamepad(_, _, _, _, _) => PointerFits(o, s, f);
      case Touch(_, _, _, _, _, _, _, _, _, _, _, _, _, _, _, _) => TouchFits(o, s, f);
      case Pen(_, _, _, _, _, _, _, _, _, _) => PenFits(o, s, f);
      case _ =>
    }
  }

  // ----- Numbers and bits ------------------------------------------------------------------------

  /** The number stored for a content. */
  function NumberOf(c: FieldContent, f: FieldLayout): int
    requires c.NoValue? ==> 0 < f.bitWidth <= 32
  {
    match c
    case Value(v) => v
    case NoValue => HatNull(f)
  }

  predicate NullDistinct(f: FieldLayout) {
    f.hasNullState ==> HasNullEncoding(f.logicalMinimum, f.logicalMaximum, f.bitWidth)
  }

  /** A stored content comes back from its bits, and the Null encoding is never a value of the range. */
  lemma ContentSurvives(c: FieldContent, f: FieldLayout)
    requires SoundField(f) && Fits(c, f) && NullDistinct(f)
    ensures INT64_MIN <= NumberOf(c, f) <= INT64_MAX
    ensures RoundTrip(NumberOf(c, f), f.bitWidth, f.isSigned) == NumberOf(c, f)
    ensures c.NoValue? ==> !(f.logicalMinimum <= NumberOf(c, f) <= f.logicalMaximum)
  {
    hide RoundTrip, ValueFits, HasNullEncoding;
    match c
    case Value(v) => RoundTripInRange(f.logicalMinimum, f.logicalMaximum, f.bitWidth, v);
    case NoValue => NullIsDistinctIffEncodingLeft(f);
  }

  lemma DeclaredNullDistinct(o: Options, f: FieldLayout)
    requires Declares(o, f)
    ensures NullDistinct(f)
  {
    hide HasNullEncoding;
  }

  // ----- The report ------------------------------------------------------------------------------

  predicate FieldInside(report: seq<Byte>, f: FieldLayout) {
    0 < f.bitWidth <= 32 && f.bitOffset + f.bitWidth <= 8 * |report|
  }

  /** The report's bits at the field spell the content. */
  predicate Shows(o: Options, image: Image, report: seq<Byte>, f: FieldLayout) {
    && FieldInside(report, f)
    && DecodeField(report, f) == NumberOf(ContentOf(o, image, f), f)
  }

  /** Bits of no field. */
  predicate Outside(fields: seq<FieldLayout>, k: nat) {
    forall i :: 0 <= i < |fields| ==> !InField(fields[i], k)
  }

  /** The report is exactly the image: prefix, fields, and zeros elsewhere. */
  predicate Carries(o: Options, layout: ReportLayout, image: Image, report: seq<Byte>) {
    && |report| == layout.wireBytes > 0
    && (layout.hasReportId ==> report[0] == layout.reportId)
    && (forall k :: 0 <= k < |layout.fields| ==> Shows(o, image, report, layout.fields[k]))
    && (forall k :: PrefixBits(layout) <= k < 8 * |report| && Outside(layout.fields, k) ==> !ReportBit(report, k))
  }

  // ----- Filling the report field by field -------------------------------------------------------

  /** The field holds its content's encoding. */
  predicate Holds(o: Options, image: Image, report: seq<Byte>, f: FieldLayout) {
    && FieldInside(report, f)
    && INT64_MIN <= NumberOf(ContentOf(o, image, f), f) <= INT64_MAX
    && FieldNumber(report, f.bitOffset, f.bitWidth) == EncodeNumber(NumberOf(ContentOf(o, image, f), f), f.bitWidth)
  }

  /** The first `n` fields are stored, the rest of the report is still blank behind its Report ID. */
  predicate Filled(o: Options, layout: ReportLayout, image: Image, report: seq<Byte>, n: nat) {
    && n <= |layout.fields| && 0 < layout.wireBytes <= |report|
    && (layout.hasReportId ==> FieldNumber(report, 0, 8) == layout.reportId)
    && (forall k :: 0 <= k < n ==> Holds(o, image, report, layout.fields[k]))
    && (forall k :: PrefixBits(layout) <= k < 8 * layout.wireBytes && Outside(layout.fields[..n], k) ==>
        !ReportBit(report, k))
  }

  lemma FieldPlace(layout: ReportLayout, i: nat)
    requires layout.wireBytes > 0 && i < |layout.fields|
    requires Tiled(layout.fields, PrefixBits(layout), PrefixBits(layout) + TotalWidth(layout.fields))
    requires CeilDiv(PrefixBits(layout) + TotalWidth(layout.fields), 8) == layout.wireBytes
    ensures var f := layout.fields[i];
            SoundField(f) && PrefixBits(layout) <= f.bitOffset && f.bitOffset + f.bitWidth <= 8 * layout.wireBytes
  {
    var fields := layout.fields;
    assert TiledAt(fields, PrefixBits(layout), i);
    assert fields[..i + 1][..i] == fields[..i];
    WidthBefore(fields, i + 1);
  }

  /** Fields of a tiled layout do not overlap. */
  lemma FieldsDisjoint(fields: seq<FieldLayout>, from: nat, to: nat, j: nat, i: nat)
    requires Tiled(fields, from, to) && j < i < |fields|
    ensures fields[j].bitOffset + fields[j].bitWidth <= fields[i].bitOffset
  {
    assert TiledAt(fields, from, j) && TiledAt(fields, from, i);
    assert fields[..i][..j + 1] == fields[..j + 1] && fields[..j + 1][..j] == fields[..j];
    WidthBefore(fields[..i], j + 1);
  }

  /** A bit of field `i` is outside the fields before it. */
  lemma FreshBits(layout: ReportLayout, i: nat, k: nat)
    requires i < |layout.fields| && InField(layout.fields[i], k)
    requires Tiled(layout.fields, PrefixBits(layout), PrefixBits(layout) + TotalWidth(layout.fields))
    ensures Outside(layout.fields[..i], k)
  {
    hide Tiled;
    forall j | 0 <= j < |layout.fields[..i]|
      ensures !InField(layout.fields[..i][j], k)
    {
      FieldsDisjoint(layout.fields, PrefixBits(layout), PrefixBits(layout) + TotalWidth(layout.fields), j, i);
    }
  }

  lemma OutsideFewer(fields: seq<FieldLayout>, i: nat, k: nat)
    requires i < |fields|
    ensures Outside(fields[..i + 1], k) <==> Outside(fields[..i], k) && !InField(fields[i], k)
  {
    if Outside(fields[..i + 1], k) {
      forall j | 0 <= j < |fields[..i]|
        ensures !InField(fields[..i][j], k)
      {
        assert fields[..i + 1][j] == fields[..i][j];
      }
      assert fields[..i + 1][i] == fields[i];
    }
  }

  /** Storing field `i` keeps what was stored and fills in the field. */
  lemma FilledStep(o: Options, layout: ReportLayout, image: Image, before: seq<Byte>, after: seq<Byte>, i: nat)
    requires SpecOk(o, layout) && i < |layout.fields| && |before| == |after| && Filled(o, layout, image, before, i)
    requires forall k :: 0 <= k < 8 * |after| && !InField(layout.fields[i], k) ==>
             ReportBit(after, k) == ReportBit(before, k)
    requires Holds(o, image, after, layout.fields[i])
    ensures Filled(o, layout, image, after, i + 1)
  {
    hide Accepted, Tiled, Declares, ContentOf, EncodeNumber, SoundField;
    var fields := layout.fields;
    FieldPlace(layout, i);
    if layout.hasReportId {
      FieldNumberFrame(after, before, 0, 8);
    }
    forall j | 0 <= j < i + 1
      ensures Holds(o, image, after, fields[j])
    {
      if j < i {
        FieldsDisjoint(fields, PrefixBits(layout), PrefixBits(layout) + TotalWidth(fields), j, i);
        FieldNumberFrame(after, before, fields[j].bitOffset, fields[j].bitWidth);
      }
    }
    forall k | PrefixBits(layout) <= k < 8 * layout.wireBytes && Outside(fields[..i + 1], k)
      ensures !ReportBit(after, k)
    {
      OutsideFewer(fields, i, k);
    }
  }

  /** A field that nothing was stored into holds zero. */
  lemma BlankFieldHoldsZero(o: Options, layout: ReportLayout, image: Image, report: seq<Byte>, i: nat)
    requires SpecOk(o, layout) && i < |layout.fields| && Filled(o, layout, image, report, i)
    requires layout.fields[i].semantic == ConstantPadding
    ensures Holds(o, image, report, layout.fields[i])
  {
    hide Accepted, Tiled, Declares, Holds;
    var f := layout.fields[i];
    FieldPlace(layout, i);
    MaskBound(0, f.bitWidth);
    forall k | 0 <= k < f.bitWidth
      ensures ReportBit(report, f.bitOffset + k) == Bit(0, k)
    {
      FreshBits(layout, i, f.bitOffset + k);
      BitOfZero(k);
    }
    FieldNumberFromBits(report, f.bitOffset, f.bitWidth, 0);
    assert Holds(o, image, report, f) by {
      PaddingHolds(o, image, report, f);
    }
  }

  lemma PaddingHolds(o: Options, image: Image, report: seq<Byte>, f: FieldLayout)
    requires f.semantic == ConstantPadding && FieldInside(report, f)
    requires FieldNumber(report, f.bitOffset, f.bitWidth) == EncodeNumber(0, f.bitWidth)
    ensures Holds(o, image, report, f)
  {
  }

  lemma BlankReport(layout: ReportLayout, report: seq<Byte>, k: nat)
    requires k < 8 * |report| && report[k / 8] == 0
    ensures !ReportBit(report, k)
  {
    BitOfZero(k % 8);
  }

  lemma FirstByte(report: seq<Byte>)
    requires |report| > 0
    ensures FieldNumber(report, 0, 8) == report[0]
  {
    Pow2Values();
    ByteSlice(report, 0, 8);
    MaskBound(report[0], 8);
  }

  lemma SameBitsSameByte(a: seq<Byte>, b: seq<Byte>, i: nat)
    requires |a| == |b| && i < |a|
    requires forall k :: 8 * i <= k < 8 * i + 8 ==> ReportBit(a, k) == ReportBit(b, k)
    ensures a[i] == b[i]
  {
    Pow2Values();
    forall k | 0 <= k < 8
      ensures Bit(a[i], k) == Bit(b[i], k)
    {
      assert ReportBit(a, 8 * i + k) == ReportBit(b, 8 * i + k);
    }
    SameBitsSameNumber(a[i], b[i], 8);
  }

  /** The part of a report that a slice keeps reads the same. */
  lemma PrefixReads(report: seq<Byte>, n: nat, offset: nat, width: nat)
    requires n <= |report| && offset + width <= 8 * n
    ensures FieldNumber(report[..n], offset, width) == FieldNumber(report, offset, width)
  {
    FieldNumberBits(report, offset, width);
    forall k | 0 <= k < width
      ensures ReportBit(report[..n], offset + k) == Bit(FieldNumber(report, offset, width), k)
    {
    }
    FieldNumberFromBits(report[..n], offset, width, FieldNumber(report, offset, width));
  }

  /** A filled report carries the image. */
  lemma FilledCarries(o: Options, layout: ReportLayout, image: Image, report: seq<Byte>)
    requires SpecOk(o, layout) && Filled(o, layout, image, report, |layout.fields|)
    requires forall k :: 0 <= k < |layout.fields| ==> Fits(ContentOf(o, image, layout.fields[k]), layout.fields[k])
    ensures Carries(o, layout, image, report[..layout.wireBytes])
  {
    hide Accepted, Tiled, ContentOf, EncodeNumber, DecodeNumber, Fits, SoundField, FieldNumber, Declares;
    var wire := report[..layout.wireBytes];
    if layout.hasReportId {
      FirstByte(report);
    }
    forall k | 0 <= k < |layout.fields|
      ensures Shows(o, image, wire, layout.fields[k])
    {
      var f := layout.fields[k];
      FieldPlace(layout, k);
      assert Declares(o, f);
      DeclaredNullDistinct(o, f);
      ContentSurvives(ContentOf(o, image, f), f);
      assert Holds(o, image, report, f);
      PrefixReads(report, layout.wireBytes, f.bitOffset, f.bitWidth);
    }
    assert layout.fields[..|layout.fields|] == layout.fields;
  }

  // ----- The serializer --------------------------------------------------------------------------

  /** The cleared report with its Report ID. */
  method BlankIt(report: array<Byte>, layout: ReportLayout)
    requires layout.wireBytes <= report.Length && layout.wireBytes > 0 && (layout.hasReportId ==> layout.reportId < 256)
    modifies report
    ensures forall o, image :: Filled(o, layout, image, report[..], 0)
    ensures report[layout.wireBytes..] == old(report[layout.wireBytes..])
  {
    var index := 0;
    while index < layout.wireBytes
      invariant 0 <= index <= layout.wireBytes
      invariant forall i :: 0 <= i < index ==> report[i] == 0
      invariant report[layout.wireBytes..] == old(report[layout.wireBytes..])
    {
      report[index] := 0;
      index := index + 1;
    }
    if layout.hasReportId {
      report[0] := layout.reportId;
      FirstByte(report[..]);
    }
    forall k | PrefixBits(layout) <= k < 8 * layout.wireBytes
      ensures !ReportBit(report[..], k)
    {
      BlankReport(layout, report[..], k);
    }
  }

  /** One round of the field loop: the content is computed and stored. */
  method StoreContent(o: Options, layout: ReportLayout, image: Image, report: array<Byte>, capacity: nat, index: nat)
    returns (ok: bool)
    requires SpecOk(o, layout) && index < |layout.fields| && layout.wireBytes <= capacity <= report.Length
    requires Fits(ContentOf(o, image, layout.fields[index]), layout.fields[index])
    requires Filled(o, layout, image, report[..], index)
    modifies report
    ensures ok && Filled(o, layout, image, report[..], index + 1)
    ensures report[layout.wireBytes..] == old(report[layout.wireBytes..])
  {
    hide Accepted, Tiled, ContentOf, EncodeNumber, SoundField, FieldNumber, Declares, HatNull;
    ghost var before := report[..];
    var field := layout.fields[index];
    FieldPlace(layout, index);
    assert Declares(o, field);
    DeclaredNullDistinct(o, field);
    var content := ContentOf(o, image, field);
    ContentSurvives(content, field);
    SoundWidth(field);
    ok := StoreBits(report, capacity, field, NumberOf(content, field), content.NoValue?);
    FilledStep(o, layout, image, before, report[..], index);
    forall i | layout.wireBytes <= i < report.Length
      ensures report[i] == before[i]
    {
      SameBitsSameByte(report[..], before, i);
    }
    assert report[layout.wireBytes..] == before[layout.wireBytes..];
  }

  lemma SoundWidth(f: FieldLayout)
    ensures SoundField(f) ==> 1 <= f.bitWidth <= 32
  {
  }

  /** `serialize_node`, from the content of the report on. */
  method Serialize(o: Options, layout: ReportLayout, image: Image, report: array<Byte>, capacity: nat)
    returns (result: ResultCode, length: nat)
    requires SpecOk(o, layout) && capacity <= report.Length
    requires forall k :: 0 <= k < |layout.fields| ==> Fits(ContentOf(o, image, layout.fields[k]), layout.fields[k])
    modifies report
    ensures result == if capacity < layout.wireBytes then ErrParam else Ok
    ensures result != Ok ==> report[..] == old(report[..])
    ensures result == Ok ==>
              && length == layout.wireBytes
              && Carries(o, layout, image, report[..length])
              && report[length..] == old(report[length..])
  {
    hide Accepted, Tiled, ContentOf, EncodeNumber, DecodeNumber, Fits, SoundField, FieldNumber, Declares, Carries,
         Holds, Outside;
    length := 0;
    if capacity < layout.wireBytes {
      return ErrParam, length;
    }
    BlankIt(report, layout);
    var ok := true;
    var index := 0;
    while index < |layout.fields|
      invariant 0 <= index <= |layout.fields| && ok
      invariant Filled(o, layout, image, report[..], index)
      invariant report[layout.wireBytes..] == old(report[layout.wireBytes..])
    {
      var field := layout.fields[index];
      if field.semantic == ConstantPadding {
        BlankFieldHoldsZero(o, layout, image, report[..], index);
        FilledStep(o, layout, image, report[..], report[..], index);
      } else {
        ok := StoreContent(o, layout, image, report, capacity, index);
      }
      index := index + 1;
    }
    FilledCarries(o, layout, image, report[..]);
    assert report[..][..layout.wireBytes] == report[..layout.wireBytes];
    return Ok, layout.wireBytes;
  }

  // ----- Checking a report -----------------------------------------------------------------------

  /** The field decodes to a value of its range, or to its Null encoding; padding decodes to zero. */
  predicate FieldValid(report: seq<Byte>, f: FieldLayout) {
    && FieldInside(report, f)
    && var value := DecodeField(report, f);
       && (f.logicalMinimum <= value <= f.logicalMaximum || (f.hasNullState && value == HatNull(f)))
       && (f.semantic == ConstantPadding ==> value == 0)
  }

  predicate ReportValid(layout: ReportLayout, report: seq<Byte>) {
    && 0 < |report| == layout.wireBytes
    && (layout.hasReportId ==> report[0] == layout.reportId)
    && forall k :: 0 <= k < |layout.fields| ==> FieldValid(report, layout.fields[k])
  }

  /** `validate_serialized_report`. */
  method ValidateReport(layout: ReportLayout, report: array<Byte>, length: nat) returns (result: ResultCode)
    requires length <= report.Length
    ensures result == if ReportValid(layout, report[..length]) then Ok else ErrInternal
  {
    hide FieldValid;
    if length != layout.wireBytes || length == 0 {
      return ErrInternal;
    }
    if layout.hasReportId && report[0] != layout.reportId {
      return ErrInternal;
    }
    var index := 0;
    while index < |layout.fields|
      invariant 0 <= index <= |layout.fields|
      invariant forall k :: 0 <= k < index ==> FieldValid(report[..length], layout.fields[k])
    {
      var field := layout.fields[index];
      var valid := ValidateField(report, length, field);
      if !valid {
        return ErrInternal;
      }
      index := index + 1;
    }
    return Ok;
  }

  method ValidateField(report: array<Byte>, length: nat, field: FieldLayout) returns (valid: bool)
    requires length <= report.Length
    ensures valid == FieldValid(report[..length], field)
  {
    hide HatNull, FieldNumber;
    if field.bitWidth == 0 || field.bitWidth > 32 || field.bitOffset > 8 * length
       || field.bitWidth > 8 * length - field.bitOffset
    {
      return false;
    }
    PrefixReads(report[..], length, field.bitOffset, field.bitWidth);
    assert report[..][..length] == report[..length];
    var encoded := LoadBits(report, field);
    var value := DecodeNumber(encoded, field.bitWidth, field.isSigned);
    var nullSemantic := field.hasNullState && value == HatNull(field);
    var inDeclaredRange := field.logicalMinimum <= value <= field.logicalMaximum;
    if (!inDeclaredRange && !nullSemantic) || (field.semantic == ConstantPadding && value != 0) {
      return false;
    }
    return true;
  }

  /** What the serializer writes, the checker accepts. */
  lemma CarriedReportIsValid(o: Options, layout: ReportLayout, image: Image, report: seq<Byte>)
    requires Carries(o, layout, image, report)
    requires forall k :: 0 <= k < |layout.fields| ==> Fits(ContentOf(o, image, layout.fields[k]), layout.fields[k])
    ensures ReportValid(layout, report)
  {
    hide HatNull, DecodeField;
    forall k | 0 <= k < |layout.fields|
      ensures FieldValid(report, layout.fields[k])
    {
      assert Shows(o, image, report, layout.fields[k]);
      assert Fits(ContentOf(o, image, layout.fields[k]), layout.fields[k]);
      PaddingContent(o, image, layout.fields[k]);
    }
  }

  lemma PaddingContent(o: Options, image: Image, f: FieldLayout)
    ensures f.semantic == ConstantPadding ==> ContentOf(o, image, f) == Value(0)
  {
  }

  /** Two contents that a Null field can carry are told apart by the report. */
  lemma NullIsNeverAValue(o: Options, layout: ReportLayout, image: Image, report: seq<Byte>, k: nat)
    requires SpecOk(o, layout) && Carries(o, layout, image, report) && k < |layout.fields|
             && layout.fields[k].hasNullState
    requires Fits(ContentOf(o, image, layout.fields[k]), layout.fields[k])
    ensures var f, value := layout.fields[k], DecodeField(report, layout.fields[k]);
            ContentOf(o, image, f).NoValue? <==> !(f.logicalMinimum <= value <= f.logicalMaximum)
  {
    hide Accepted, Tiled, ContentOf, DecodeField, Declares, SoundField;
    var f := layout.fields[k];
    FieldPlace(layout, k);
    assert Declares(o, f);
    DeclaredNullDistinct(o, f);
    ContentSurvives(ContentOf(o, image, f), f);
    assert Shows(o, image, report, f);
  }

  /**
   * A sendable Node's report is always serialized and always passes the check: the two internal errors
   * of the send path cannot happen.
   */
  lemma ReportsAlwaysFit(o: Options, layout: ReportLayout, s: NodeState)
    requires SpecOk(o, layout) && StateOk(o, s) && Sendable(o, s)
    ensures ImageOf(o, s).Some?
    ensures forall k :: 0 <= k < |layout.fields| ==>
              Fits(ContentOf(o, ImageOf(o, s).value, layout.fields[k]), layout.fields[k])
  {
    hide Accepted, StateOk, Sendable, ContentOf, Fits, Tiled, Declares, ImageOf;
    ImageExists(o, s);
    forall k | 0 <= k < |layout.fields|
      ensures Fits(ContentOf(o, ImageOf(o, s).value, layout.fields[k]), layout.fields[k])
    {
      assert Declares(o, layout.fields[k]);
      ContentFits(o, s, layout.fields[k]);
    }
  }
}
