/**
 * HID 1.11 short items (section 6.2.2.2): their bytes, their data, and the writer that emits them
 * (src/hid/item_writer.cpp).
 */
module HidItems {
  import opened Common

  // Item types and tags (sections 6.2.2.4, 6.2.2.7 and 6.2.2.8).
  const MAIN := 0
  const GLOBAL := 1
  const LOCAL := 2

  const INPUT := 8
  const OUTPUT := 9
  const COLLECTION := 10
  const FEATURE := 11
  const END_COLLECTION := 12

  const USAGE_PAGE := 0
  const LOGICAL_MINIMUM := 1
  const LOGICAL_MAXIMUM := 2
  const PHYSICAL_MINIMUM := 3
  const PHYSICAL_MAXIMUM := 4
  const UNIT_EXPONENT := 5
  const UNIT := 6
  const REPORT_SIZE := 7
  const REPORT_ID := 8
  const REPORT_COUNT := 9
  const PUSH := 10
  const POP := 11

  const USAGE := 0
  const USAGE_MINIMUM := 1
  const USAGE_MAXIMUM := 2
  const LOCAL_RESERVED := 6
  const DELIMITER := 10

  function Capacity(size: nat): nat {
    if size == 0 then 1 else if size == 1 then 0x100 else if size == 2 then 0x1_0000 else 0x1_0000_0000
  }

  datatype ItemParts = Item(kind: nat, tag: nat, size: nat, value: nat)

  predicate WellFormed(item: ItemParts) {
    && item.kind <= 3 && item.tag <= 14
    && item.size in {0, 1, 2, 4}
    && item.value < Capacity(item.size)
  }

  /** A short item: `value` is its data read as an unsigned number of `size` bytes. */
  type Item = item: ItemParts | WellFormed(item) witness Item(0, 0, 0, 0)

  function SizeCode(size: nat): nat {
    if size == 4 then 3 else size
  }

  function LittleEndian(value: nat, size: nat): (bytes: seq<Byte>)
    ensures |bytes| == size
  {
    if size == 0 then [] else [value % 256] + LittleEndian(value / 256, size - 1)
  }

  function Power256(n: nat): nat {
    if n == 0 then 1 else 256 * Power256(n - 1)
  }

  function UnsignedValue(bytes: seq<Byte>): (n: nat)
    ensures n < Power256(|bytes|)
  {
    if |bytes| == 0 then 0 else bytes[0] + 256 * UnsignedValue(bytes[1..])
  }

  /** `signed_value`: the data as two's complement of the item's own size. */
  function SignedValue(item: Item): int {
    if item.size == 0 then 0
    else if item.value >= Capacity(item.size) / 2 then item.value - Capacity(item.size)
    else item.value
  }

  function EncodeItem(item: Item): (bytes: seq<Byte>)
    ensures |bytes| == 1 + item.size
  {
    [item.tag * 16 + item.kind * 4 + SizeCode(item.size)] + LittleEndian(item.value, item.size)
  }

  function Encode(items: seq<Item>): seq<Byte>
  {
    if |items| == 0 then [] else Encode(items[..|items| - 1]) + EncodeItem(items[|items| - 1])
  }

  lemma CapacityIsPower(size: nat)
    requires size in {0, 1, 2, 4}
    ensures Capacity(size) == Power256(size)
  {
    assert Power256(4) == 256 * Power256(3) && Power256(3) == 256 * Power256(2);
  }

  // ----- Reading items back ----------------------------------------------------------------------

  datatype ItemRead = LongItem | Truncated | Short(item: Item)

  /** The item that starts at `offset`, as both descriptor walkers split it. */
  function ItemAt(bytes: seq<Byte>, offset: nat): (r: ItemRead)
    requires offset < |bytes|
    ensures r.Short? ==> offset + 1 + r.item.size <= |bytes|
  {
    var prefix := bytes[offset];
    if prefix / 16 == 15 then LongItem
    else
      var size := if prefix % 4 == 3 then 4 else prefix % 4;
      if size > |bytes| - offset - 1 then Truncated
      else
        CapacityIsPower(size);
        Short(Item((prefix / 4) % 4, prefix / 16, size, UnsignedValue(bytes[offset + 1..offset + 1 + size])))
  }

  lemma {:induction false} LittleEndianRoundTrip(value: nat, size: nat)
    requires size in {0, 1, 2, 4} && value < Capacity(size)
    ensures UnsignedValue(LittleEndian(value, size)) == value
  {
    CapacityIsPower(size);
    LittleEndianModulo(value, size);
  }

  lemma {:induction false} LittleEndianModulo(value: nat, size: nat)
    ensures value < Power256(size) ==> UnsignedValue(LittleEndian(value, size)) == value
  {
    if size == 0 {
    } else {
      LittleEndianModulo(value / 256, size - 1);
      assert LittleEndian(value, size)[1..] == LittleEndian(value / 256, size - 1);
    }
  }

  lemma PrefixRoundTrip(item: Item)
    ensures var prefix := item.tag * 16 + item.kind * 4 + SizeCode(item.size);
            && prefix / 16 == item.tag && (prefix / 4) % 4 == item.kind
            && (if prefix % 4 == 3 then 4 else prefix % 4) == item.size
  {
  }

  /** An encoded item is read back whole, wherever it stands. */
  lemma ItemRoundTrip(before: seq<Byte>, item: Item, after: seq<Byte>)
    ensures ItemAt(before + EncodeItem(item) + after, |before|) == Short(item)
  {
    var bytes := before + EncodeItem(item) + after;
    LittleEndianRoundTrip(item.value, item.size);
    PrefixRoundTrip(item);
    assert bytes[|before|] == item.tag * 16 + item.kind * 4 + SizeCode(item.size);
    assert bytes[|before| + 1..|before| + 1 + item.size] == LittleEndian(item.value, item.size);
  }

  /** Every item of an encoded list is read back at the place the items before it end. */
  lemma {:induction false} ItemsRoundTrip(items: seq<Item>, k: nat)
    requires k < |items|
    ensures |Encode(items[..k])| < |Encode(items)|
    ensures ItemAt(Encode(items), |Encode(items[..k])|) == Short(items[k])
    ensures |Encode(items[..k + 1])| == |Encode(items[..k])| + 1 + items[k].size
  {
    EncodePrefix(items, k + 1);
    assert items[..k + 1][..k] == items[..k];
    var rest := Encode(items)[|Encode(items[..k + 1])|..];
    ItemRoundTrip(Encode(items[..k]), items[k], rest);
    assert Encode(items) == Encode(items[..k]) + EncodeItem(items[k]) + rest;
  }

  lemma {:induction false} EncodePrefix(items: seq<Item>, k: nat)
    requires k <= |items|
    ensures Encode(items[..k]) <= Encode(items)
    decreases |items|
  {
    if k < |items| {
      var shorter := items[..|items| - 1];
      assert shorter[..k] == items[..k];
      EncodePrefix(shorter, k);
    } else {
      assert items[..k] == items;
    }
  }

  // ----- Choosing sizes --------------------------------------------------------------------------

  function UnsignedItem(kind: nat, tag: nat, value: Uint32): (item: Item)
    requires kind <= 3 && tag <= 14
  {
    Item(kind, tag, if value <= 0xFF then 1 else if value <= 0xFFFF then 2 else 4, value)
  }

  function SignedItem(kind: nat, tag: nat, value: Int32): (item: Item)
    requires kind <= 3 && tag <= 14
  {
    var size := if -0x80 <= value <= 0x7F then 1 else if -0x8000 <= value <= 0x7FFF then 2 else 4;
    Item(kind, tag, size, value % Capacity(size))
  }

  /** `logical_maximum` and `physical_maximum`: unsigned when neither extent is negative (section 6.2.2.7). */
  function MaximumItem(tag: nat, value: Int32, declaredMinimum: Int32): (item: Item)
    requires tag <= 14
  {
    if declaredMinimum >= 0 && value >= 0 then UnsignedItem(GLOBAL, tag, value) else SignedItem(GLOBAL, tag, value)
  }

  function PlainItem(kind: nat, tag: nat): (item: Item)
    requires kind <= 3 && tag <= 14
  {
    Item(kind, tag, 0, 0)
  }

  /** How a reader takes a Maximum item: signed exactly when the Minimum before it is negative. */
  function ReadMaximum(item: Item, minimum: int): int {
    if minimum < 0 then SignedValue(item) else Int32Cast(item.value)
  }

  /** The cast of a 32-bit unsigned number to a 32-bit signed one. */
  function Int32Cast(value: nat): int {
    if value < 0x8000_0000 then value else value - 0x1_0000_0000
  }

  /** A signed item is read back exactly, in the fewest bytes that can hold it. */
  lemma SignedItemExact(kind: nat, tag: nat, value: Int32)
    requires kind <= 3 && tag <= 14
    ensures SignedValue(SignedItem(kind, tag, value)) == value
    ensures forall size :: size in {1, 2} && size < SignedItem(kind, tag, value).size ==>
              !(-(Capacity(size) / 2) <= value < Capacity(size) / 2)
  {
  }

  /** A Maximum item emitted for an ordered range reads back as the maximum, under the reader's rule. */
  lemma MaximumItemExact(tag: nat, minimum: Int32, maximum: Int32)
    requires tag <= 14 && minimum <= maximum
    ensures ReadMaximum(MaximumItem(tag, maximum, minimum), minimum) == maximum
  {
    SignedItemExact(GLOBAL, tag, maximum);
  }

  /** The data loop of `emit`: low byte first. */
  method StoreData(bytes: array<Byte>, at: nat, value: nat, size: nat)
    requires at + size <= bytes.Length
    modifies bytes
    ensures bytes[..at] == old(bytes[..at])
    ensures bytes[at..at + size] == LittleEndian(value, size)
  {
    var rest := value;
    var index := 0;
    while index < size
      invariant index <= size
      invariant bytes[..at] == old(bytes[..at])
      invariant LittleEndian(value, size) == bytes[at..at + index] + LittleEndian(rest, size - index)
    {
      ghost var stored := bytes[at..at + index];
      bytes[at + index] := rest % 256;
      assert bytes[at..at + index + 1] == stored + [rest % 256];
      rest := rest / 256;
      index := index + 1;
    }
  }

  // ----- The writer ------------------------------------------------------------------------------

  /**
   * `ItemWriter`. Without a byte buffer it only counts, which is how a descriptor is measured before
   * it is emitted. `items` records what has been written so far.
   */
  class ItemWriter {
    const bytes: array?<Byte>
    const capacity: nat
    var position: nat
    var good: bool
    ghost var items: seq<Item>

    ghost predicate Valid()
      reads this, bytes
    {
      && (bytes != null ==> bytes.Length == capacity)
      && position <= capacity
      && position == |Encode(items)|
      && (bytes != null ==> bytes[..position] == Encode(items))
    }

    constructor (bytes: array?<Byte>, capacity: nat)
      requires bytes != null ==> bytes.Length == capacity
      ensures Valid() && this.bytes == bytes && this.capacity == capacity
      ensures good && items == [] && position == 0
    {
      this.bytes := bytes;
      this.capacity := capacity;
      position := 0;
      good := true;
      items := [];
    }

    /** `emit`: all of the item or nothing, and nothing ever again after the first refusal. */
    method Emit(item: Item) returns (written: bool)
      requires Valid()
      modifies this, bytes
      ensures Valid()
      ensures written == good == (old(good) && old(position) + 1 + item.size <= capacity)
      ensures items == if written then old(items) + [item] else old(items)
      ensures position == if written then old(position) + 1 + item.size else old(position)
    {
      hide LittleEndian;
      if !good {
        return false;
      }
      if position > capacity || item.size + 1 > capacity - position {
        good := false;
        return false;
      }
      if bytes != null {
        ghost var before := bytes[..position];
        bytes[position] := item.tag * 16 + item.kind * 4 + SizeCode(item.size);
        StoreData(bytes, position + 1, item.value, item.size);
        assert bytes[..position + 1 + item.size] == before + EncodeItem(item);
      }
      items := items + [item];
      assert items[..|items| - 1] == old(items);
      position := position + 1 + item.size;
      return true;
    }

    /** `unit_exponent`: a four-bit two's complement code; anything outside -8..7 spoils the writer. */
    method UnitExponent(value: Int32) returns (written: bool)
      requires Valid()
      modifies this, bytes
      ensures Valid()
      ensures written == good == (old(good) && -8 <= value <= 7 && old(position) + 2 <= capacity)
      ensures items == if written then old(items) + [Item(GLOBAL, UNIT_EXPONENT, 1, value % 16)] else old(items)
      ensures position == if written then old(position) + 2 else old(position)
    {
      if value < -8 || value > 7 {
        good := false;
        return false;
      }
      written := Emit(Item(GLOBAL, UNIT_EXPONENT, 1, value % 16));
    }
  }
}
