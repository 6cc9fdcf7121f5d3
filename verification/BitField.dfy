/**
 * Report fields: the immutable layout of a report, and the loops that write and read one field of
 * 1..32 bits a byte at a time (src/profiles/state.cpp, src/hid/report_layout.hpp).
 */
module BitField {
  import opened Common
  import opened BitMath

  datatype FieldSemantic =
    | Modifier | KeyBitmap | Buttons | X | Y | Wheel | Pan | ConsumerUsage | GamepadAxis | Hat
    | Tip | InRange | Eraser | ContactId | Pressure | Width | Height | Azimuth | ScanTime
    | ContactCount | TiltX | TiltY | Twist | BatteryStrength | ConstantPadding

  datatype Physical = Physical(enabled: nat, minimum: Int32, maximum: Int32, unitExponent: Int32, unit: Uint32)

  const NO_PHYSICAL := Physical(0, 0, 0, 0, 0)

  datatype FieldLayout = FieldLayout(
    semantic: FieldSemantic, instance: nat, bitOffset: nat, bitWidth: nat, isSigned: bool, hasNullState: bool,
    logicalMinimum: Int32, logicalMaximum: Int32, physical: Physical)

  datatype ReportLayout = ReportLayout(hasReportId: bool, reportId: nat, wireBytes: nat, fields: seq<FieldLayout>)

  // ----- Reading a field out of a report, by definition ------------------------------------------

  /** Bit `k` of a report: bytes in order, least significant bit first (HID 1.11 section 8.4). */
  predicate ReportBit(report: seq<Byte>, k: nat)
    requires k < 8 * |report|
  {
    Bit(report[k / 8], k % 8)
  }

  /** The number spelled by `width` report bits from `offset` on. */
  function FieldNumber(report: seq<Byte>, offset: nat, width: nat): (n: nat)
    requires offset + width <= 8 * |report|
    decreases width
  {
    if width == 0 then 0
    else (if ReportBit(report, offset) then 1 else 0) + 2 * FieldNumber(report, offset + 1, width - 1)
  }

  /** `static_cast<uint64_t>(value) & ((1 << width) - 1)`. */
  function EncodeNumber(value: int, width: nat): (n: nat)
    requires INT64_MIN <= value <= INT64_MAX
  {
    Mask(if value >= 0 then value else value + 0x1_0000_0000_0000_0000, width)
  }

  /** Two's complement when the field is signed. */
  function DecodeNumber(n: nat, width: nat, signed: bool): int
    requires width > 0
  {
    if signed && n >= Pow2(width - 1) then n - Pow2(width) else n
  }

  function DecodeField(report: seq<Byte>, field: FieldLayout): int
    requires field.bitWidth > 0 && field.bitOffset + field.bitWidth <= 8 * |report|
  {
    DecodeNumber(FieldNumber(report, field.bitOffset, field.bitWidth), field.bitWidth, field.isSigned)
  }

  // ----- Ranges and the Null encoding ------------------------------------------------------------

  /** `value_fits`: an ordered range inside what `width` bits can hold, signed when an extent is negative. */
  predicate ValueFits(minimum: Int32, maximum: Int32, width: nat) {
    if width == 0 || width > 32 || maximum < minimum then false
    else if minimum < 0 || maximum < 0 then
      width == 32 || (minimum >= -Pow2(width - 1) && maximum <= Pow2(width - 1) - 1)
    else
      width == 32 || maximum <= Pow2(width) - 1
  }

  /** `hat_null`: the value sent for "no value" in a field with a Null state. */
  function HatNull(field: FieldLayout): int
    requires 0 < field.bitWidth <= 32
  {
    if field.isSigned then
      var minimum := if field.bitWidth == 32 then INT32_MIN else -Pow2(field.bitWidth - 1);
      if minimum < field.logicalMinimum then minimum
      else if field.bitWidth == 32 then INT32_MAX
      else Pow2(field.bitWidth - 1) - 1
    else
      var maximum := if field.bitWidth == 32 then UINT32_MAX else Pow2(field.bitWidth) - 1;
      if 0 < field.logicalMinimum then 0 else maximum
  }

  /** `has_null_encoding`: some encoding is left outside the range. */
  predicate HasNullEncoding(minimum: Int32, maximum: Int32, width: nat) {
    if width == 0 || width > 32 then false
    else
      var signed := minimum < 0 || maximum < 0;
      var representableMinimum :=
        if !signed then 0 else if width == 32 then INT32_MIN else -Pow2(width - 1);
      var representableMaximum :=
        if signed then (if width == 32 then INT32_MAX else Pow2(width - 1) - 1)
        else if width == 32 then UINT32_MAX else Pow2(width) - 1;
      minimum > representableMinimum || maximum < representableMaximum
  }

  /** Encoding a value in `width` bits and decoding it with the given signedness. */
  function RoundTrip(value: int, width: nat, signed: bool): int
    requires width > 0 && INT64_MIN <= value <= INT64_MAX
  {
    DecodeNumber(EncodeNumber(value, width), width, signed)
  }

  /** The value comes back from `width` bits read with the range's signedness. */
  predicate Survives(minimum: Int32, maximum: Int32, width: nat, value: int) {
    0 < width && INT64_MIN <= value <= INT64_MAX && RoundTrip(value, width, minimum < 0 || maximum < 0) == value
  }

  lemma EncodeSmall(value: int, width: nat)
    requires 0 < width <= 32
    ensures 0 <= value < Pow2(width) ==> value <= INT64_MAX && EncodeNumber(value, width) == value
    ensures -Pow2(width) <= value < 0 ==> INT64_MIN <= value && EncodeNumber(value, width) == value + Pow2(width)
  {
    assert Pow2(width) <= 0x1_0000_0000 && Pow2(width + (64 - width)) == 0x1_0000_0000_0000_0000 by {
      Pow2Values();
      Pow2Monotone(width, 32);
    }
    if 0 <= value < Pow2(width) {
      MaskBound(value, width);
    } else if -Pow2(width) <= value < 0 {
      Pow2Difference(width, 64 - width);
      MaskForgets(value + Pow2(width), Pow2(64 - width) - 1, width);
    }
  }

  lemma RoundTripInRange(minimum: Int32, maximum: Int32, width: nat, value: int)
    requires ValueFits(minimum, maximum, width) && minimum <= value <= maximum
    ensures Survives(minimum, maximum, width, value)
  {
    Pow2Values();
    EncodeSmall(value, width);
  }

  lemma RoundTripLandsInRange(value: Int32, width: nat, signed: bool)
    requires 0 < width
    ensures signed ==> -Pow2(width - 1) <= RoundTrip(value, width, signed) <= Pow2(width - 1) - 1
    ensures !signed ==> 0 <= RoundTrip(value, width, signed) <= Pow2(width) - 1
  {
    MaskBound(if value >= 0 then value else value + 0x1_0000_0000_0000_0000, width);
  }

  /**
   * `value_fits` accepts exactly the ordered ranges every value of which survives being encoded in
   * `width` bits and decoded again: it refuses no usable range and lets no lossy one through.
   */
  lemma ValueFitsIffLossless(minimum: Int32, maximum: Int32, width: nat)
    requires 0 < width <= 32
    ensures ValueFits(minimum, maximum, width) <==>
            minimum <= maximum
            && forall value :: minimum <= value <= maximum ==> Survives(minimum, maximum, width, value)
  {
    var signed := minimum < 0 || maximum < 0;
    if ValueFits(minimum, maximum, width) {
      forall value | minimum <= value <= maximum
        ensures Survives(minimum, maximum, width, value)
      {
        RoundTripInRange(minimum, maximum, width, value);
      }
    }
    Pow2Values();
    RoundTripLandsInRange(minimum, width, signed);
    RoundTripLandsInRange(maximum, width, signed);
    if minimum <= maximum && Survives(minimum, maximum, width, minimum) && Survives(minimum, maximum, width, maximum) {
      assert ValueFits(minimum, maximum, width);
    }
  }

  /**
   * The Null encoding is representable, survives the round trip, and lies outside the logical range
   * exactly when `has_null_encoding` says so: a reader can then tell "no value" from every value.
   */
  lemma NullIsDistinctIffEncodingLeft(field: FieldLayout)
    requires ValueFits(field.logicalMinimum, field.logicalMaximum, field.bitWidth)
    requires field.isSigned == (field.logicalMinimum < 0 || field.logicalMaximum < 0)
    ensures INT64_MIN <= HatNull(field) <= INT64_MAX
    ensures RoundTrip(HatNull(field), field.bitWidth, field.isSigned) == HatNull(field)
    ensures HasNullEncoding(field.logicalMinimum, field.logicalMaximum, field.bitWidth) <==>
            !(field.logicalMinimum <= HatNull(field) <= field.logicalMaximum)
  {
    Pow2Values();
    Pow2Monotone(field.bitWidth, 32);
    EncodeSmall(HatNull(field), field.bitWidth);
  }

  // ----- Lemmas about field numbers --------------------------------------------------------------

  lemma {:induction false} FieldNumberBits(report: seq<Byte>, offset: nat, width: nat)
    requires offset + width <= 8 * |report|
    decreases width
    ensures FieldNumber(report, offset, width) < Pow2(width)
    ensures forall k :: 0 <= k < width ==>
              Bit(FieldNumber(report, offset, width), k) == ReportBit(report, offset + k)
  {
    if width == 0 {
    } else {
      FieldNumberBits(report, offset + 1, width - 1);
      var n, m := FieldNumber(report, offset, width), FieldNumber(report, offset + 1, width - 1);
      assert n / 2 == m;
      forall k | 0 <= k < width
        ensures Bit(n, k) == ReportBit(report, offset + k)
      {
        if k > 0 {
          assert Bit(n, k) == Bit(m, k - 1) == ReportBit(report, offset + 1 + (k - 1));
        }
      }
    }
  }

  /** The number with the given bits is the field's number. */
  lemma FieldNumberFromBits(report: seq<Byte>, offset: nat, width: nat, n: nat)
    requires offset + width <= 8 * |report| && n < Pow2(width)
    requires forall k :: 0 <= k < width ==> ReportBit(report, offset + k) == Bit(n, k)
    ensures FieldNumber(report, offset, width) == n
  {
    FieldNumberBits(report, offset, width);
    SameBitsSameNumber(FieldNumber(report, offset, width), n, width);
  }

  /** A field's number depends on the field's own bits only. */
  lemma FieldNumberFrame(a: seq<Byte>, b: seq<Byte>, offset: nat, width: nat)
    requires |a| == |b| && offset + width <= 8 * |a|
    requires forall k :: offset <= k < offset + width ==> ReportBit(a, k) == ReportBit(b, k)
    ensures FieldNumber(a, offset, width) == FieldNumber(b, offset, width)
  {
    FieldNumberBits(b, offset, width);
    FieldNumberFromBits(a, offset, width, FieldNumber(b, offset, width));
  }

  lemma {:induction false} FieldNumberSplit(report: seq<Byte>, offset: nat, low: nat, high: nat)
    requires offset + low + high <= 8 * |report|
    ensures FieldNumber(report, offset, low + high)
            == FieldNumber(report, offset, low) + ShiftLeft(FieldNumber(report, offset + low, high), low)
    decreases low
  {
    if low == 0 {
    } else {
      FieldNumberSplit(report, offset + 1, low - 1, high);
    }
  }

  // ----- One byte of a field ---------------------------------------------------------------------

  lemma BitInByte(position: nat, taken: nat, k: nat)
    requires position % 8 + taken <= 8 && k < taken
    ensures (position + k) / 8 == position / 8 && (position + k) % 8 == position % 8 + k
  {
  }

  /** `taken` bits of a byte from bit `shift` on: shift right, then mask. */
  lemma ByteSlice(report: seq<Byte>, position: nat, taken: nat)
    requires 0 < taken && position % 8 + taken <= 8 && position + taken <= 8 * |report|
    ensures FieldNumber(report, position, taken) == Mask(ShiftRight(report[position / 8], position % 8), taken)
  {
    var n := Mask(ShiftRight(report[position / 8], position % 8), taken);
    MaskBound(ShiftRight(report[position / 8], position % 8), taken);
    forall k | 0 <= k < taken
      ensures ReportBit(report, position + k) == Bit(n, k)
    {
      BitOfSlice(report[position / 8], position % 8, taken, k);
      BitInByte(position, taken, k);
    }
    FieldNumberFromBits(report, position, taken, n);
  }

  /** `high << s | low`. */
  function Join(low: nat, high: nat, s: nat): nat {
    low + ShiftLeft(high, s)
  }

  /** `(target & ~mask) | ((chunk << shift) & mask)` for the mask of `taken` bits from `shift` on. */
  function Splice(target: Byte, shift: nat, taken: nat, chunk: nat): (r: nat) {
    Join(Mask(target, shift), Join(Mask(chunk, taken), ShiftRight(target, shift + taken), taken), shift)
  }

  /** `after` is `before` with bits [shift, shift + taken) replaced by the low bits of `chunk`. */
  predicate Replaced(before: Byte, after: Byte, shift: nat, taken: nat, chunk: nat) {
    forall k :: 0 <= k < 8 ==>
      Bit(after, k) == if shift <= k < shift + taken then Bit(chunk, k - shift) else Bit(before, k)
  }

  lemma SpliceBit(target: Byte, shift: nat, taken: nat, chunk: nat, k: nat)
    ensures Bit(Splice(target, shift, taken, chunk), k)
            == if shift <= k < shift + taken then Bit(chunk, k - shift) else Bit(target, k)
  {
    var middle, high := Mask(chunk, taken), ShiftRight(target, shift + taken);
    MaskBound(target, shift);
    MaskBound(chunk, taken);
    BitOfJoin(Mask(target, shift), Join(middle, high, taken), shift, k);
    if k < shift {
      BitOfMask(target, shift, k);
    } else {
      BitOfJoin(middle, high, taken, k - shift);
      if k < shift + taken {
        BitOfMask(chunk, taken, k - shift);
      } else {
        BitOfShiftRight(target, shift + taken, k - shift - taken);
      }
    }
  }

  lemma SpliceReplaces(target: Byte, shift: nat, taken: nat, chunk: nat)
    requires shift + taken <= 8
    ensures Splice(target, shift, taken, chunk) < 256
    ensures Replaced(target, Splice(target, shift, taken, chunk), shift, taken, chunk)
  {
    SpliceIsByte(target, shift, taken, chunk);
    forall k | 0 <= k < 8
      ensures Bit(Splice(target, shift, taken, chunk), k)
              == if shift <= k < shift + taken then Bit(chunk, k - shift) else Bit(target, k)
    {
      SpliceBit(target, shift, taken, chunk, k);
    }
  }

  lemma SpliceIsByte(target: Byte, shift: nat, taken: nat, chunk: nat)
    requires shift + taken <= 8
    ensures Splice(target, shift, taken, chunk) < 256
  {
    var rest := 8 - shift - taken;
    Pow2Values();
    MaskBound(target, shift);
    MaskBound(chunk, taken);
    ShiftRightBound(target, shift + taken, rest);
    JoinBound(Mask(chunk, taken), ShiftRight(target, shift + taken), taken, rest);
    JoinBound(Mask(target, shift), Join(Mask(chunk, taken), ShiftRight(target, shift + taken), taken), shift,
              taken + rest);
  }

  // ----- The loops -------------------------------------------------------------------------------

  predicate Storable(field: FieldLayout, capacity: nat, value: int, allowNull: bool) {
    && 0 < field.bitWidth <= 32
    && field.bitOffset + field.bitWidth <= capacity * 8
    && (allowNull ==> field.hasNullState)
    && (!allowNull ==> field.logicalMinimum <= value <= field.logicalMaximum)
  }

  predicate InField(field: FieldLayout, k: nat) {
    field.bitOffset <= k < field.bitOffset + field.bitWidth
  }

  /**
   * `store_bits`. A refused value leaves the report alone; an accepted one is the field's number
   * modulo 2^width, and no bit outside the field changes.
   */
  method StoreBits(report: array<Byte>, capacity: nat, field: FieldLayout, value: int, allowNull: bool)
    returns (stored: bool)
    requires capacity <= report.Length && INT64_MIN <= value <= INT64_MAX
    modifies report
    ensures stored == Storable(field, capacity, value, allowNull)
    ensures !stored ==> report[..] == old(report[..])
    ensures stored ==> FieldNumber(report[..], field.bitOffset, field.bitWidth) == EncodeNumber(value, field.bitWidth)
    ensures stored ==>
              forall k :: 0 <= k < 8 * report.Length && !InField(field, k) ==>
                ReportBit(report[..], k) == old(ReportBit(report[..], k))
  {
    if field.bitWidth == 0 || field.bitWidth > 32 || field.bitOffset + field.bitWidth > capacity * 8
       || (allowNull && !field.hasNullState)
    {
      return false;
    }
    if !allowNull && (value < field.logicalMinimum || value > field.logicalMaximum) {
      return false;
    }
    ghost var original := report[..];
    var encoded := EncodeNumber(value, field.bitWidth);
    WriteBits(report, field.bitOffset, field.bitWidth, encoded);
    MaskBound(if value >= 0 then value else value + 0x1_0000_0000_0000_0000, field.bitWidth);
    WrittenNumber(original, report[..], field.bitOffset, field.bitWidth, encoded);
    return true;
  }

  /** The loop of `store_bits`: at most eight bits of the encoded value per byte, low bits first. */
  method WriteBits(report: array<Byte>, offset: nat, width: nat, whole: nat)
    requires offset + width <= 8 * report.Length
    modifies report
    ensures Written(old(report[..]), report[..], offset, offset + width, whole)
  {
    var encoded: nat := whole;
    var position := offset;
    var remaining: nat := width;
    ghost var original := report[..];
    while remaining != 0
      invariant position + remaining == offset + width && offset <= position
      invariant encoded == ShiftRight(whole, position - offset)
      invariant Written(original, report[..], offset, position, whole)
    {
      var shift := position % 8;
      var taken: nat := Min(remaining, 8 - shift);
      ghost var before := report[..];
      WriteSlice(report, position, taken, encoded);
      WrittenStep(original, before, report[..], offset, position, taken, whole);
      ShiftRightTwice(whole, position - offset, taken);
      encoded := ShiftRight(encoded, taken);
      position := position + taken;
      remaining := remaining - taken;
    }
  }

  lemma WrittenNumber(original: seq<Byte>, now: seq<Byte>, offset: nat, width: nat, whole: nat)
    requires offset + width <= 8 * |now| && whole < Pow2(width)
    requires Written(original, now, offset, offset + width, whole)
    ensures FieldNumber(now, offset, width) == whole
  {
    forall k | 0 <= k < width
      ensures ReportBit(now, offset + k) == Bit(whole, k)
    {
      assert WrittenBit(now, offset, k, whole);
    }
    FieldNumberFromBits(now, offset, width, whole);
  }

  /** The masked read-modify-write of one byte. */
  method WriteSlice(report: array<Byte>, position: nat, taken: nat, chunk: nat)
    requires position / 8 < report.Length && position % 8 + taken <= 8
    modifies report
    ensures report[..] == old(report[..])[position / 8 := report[position / 8]]
    ensures Replaced(old(report[position / 8]), report[position / 8], position % 8, taken, chunk)
  {
    SpliceReplaces(report[position / 8], position % 8, taken, chunk);
    report[position / 8] := Splice(report[position / 8], position % 8, taken, chunk);
  }

  predicate WrittenBit(report: seq<Byte>, offset: nat, k: nat, whole: nat) {
    offset + k < 8 * |report| && ReportBit(report, offset + k) == Bit(whole, k)
  }

  /** Bits [offset, position) hold the low bits of `whole`; every other bit is the original's. */
  predicate Written(original: seq<Byte>, now: seq<Byte>, offset: nat, position: nat, whole: nat) {
    && |original| == |now|
    && (forall k :: 0 <= k < position - offset ==> WrittenBit(now, offset, k, whole))
    && (forall k :: 0 <= k < 8 * |now| && !(offset <= k < position) ==> ReportBit(now, k) == ReportBit(original, k))
  }

  lemma WrittenStep(original: seq<Byte>, before: seq<Byte>, after: seq<Byte>, offset: nat, position: nat, taken: nat,
                    whole: nat)
    requires offset <= position && position % 8 + taken <= 8 && position + taken <= 8 * |before|
    requires position / 8 < |before| == |after| && after == before[position / 8 := after[position / 8]]
    requires Written(original, before, offset, position, whole)
    requires Replaced(before[position / 8], after[position / 8], position % 8, taken,
                      ShiftRight(whole, position - offset))
    ensures Written(original, after, offset, position + taken, whole)
  {
    forall k | 0 <= k < position + taken - offset
      ensures WrittenBit(after, offset, k, whole)
    {
      if k < position - offset {
        assert WrittenBit(before, offset, k, whole);
        StoredBit(before, after, position, taken, ShiftRight(whole, position - offset), offset + k);
      } else {
        BitOfShiftRight(whole, position - offset, k - (position - offset));
        StoredBit(before, after, position, taken, ShiftRight(whole, position - offset), offset + k);
      }
    }
    forall k | 0 <= k < 8 * |after| && !(offset <= k < position + taken)
      ensures ReportBit(after, k) == ReportBit(original, k)
    {
      StoredBit(before, after, position, taken, ShiftRight(whole, position - offset), k);
    }
  }

  lemma StoredBit(before: seq<Byte>, after: seq<Byte>, position: nat, taken: nat, chunk: nat, k: nat)
    requires position / 8 < |before| == |after| && position % 8 + taken <= 8
    requires after == before[position / 8 := after[position / 8]]
    requires Replaced(before[position / 8], after[position / 8], position % 8, taken, chunk)
    requires k < 8 * |after|
    ensures ReportBit(after, k)
            == if position <= k < position + taken then Bit(chunk, k - position) else ReportBit(before, k)
  {
    if k / 8 == position / 8 {
      assert k - position == k % 8 - position % 8;
      assert Bit(after[k / 8], k % 8)
          == if position % 8 <= k % 8 < position % 8 + taken then Bit(chunk, k % 8 - position % 8)
             else Bit(before[k / 8], k % 8);
    } else {
      assert after[k / 8] == before[k / 8];
    }
  }

  /** The byte-wise read of `validate_serialized_report`: it returns the field's number. */
  method LoadBits(report: array<Byte>, field: FieldLayout) returns (encoded: nat)
    requires field.bitOffset + field.bitWidth <= 8 * report.Length
    ensures encoded == FieldNumber(report[..], field.bitOffset, field.bitWidth)
  {
    encoded := 0;
    var position := field.bitOffset;
    var done := 0;
    while done < field.bitWidth
      invariant position == field.bitOffset + done && done <= field.bitWidth
      invariant encoded == FieldNumber(report[..], field.bitOffset, done)
    {
      var shift := position % 8;
      var taken := Min(field.bitWidth - done, 8 - shift);
      var chunk := Mask(ShiftRight(report[position / 8], shift), taken);
      assert chunk == FieldNumber(report[..], position, taken) by {
        ByteSlice(report[..], position, taken);
      }
      FieldNumberSplit(report[..], field.bitOffset, done, taken);
      encoded := encoded + ShiftLeft(chunk, done);
      position := position + taken;
      done := done + taken;
    }
  }
}
