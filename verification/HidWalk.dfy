/**
 * Walking a descriptor item by item. Both descriptor checkers split the bytes the same way and differ
 * only in what they do with an item, so the walk is written once over a step function.
 */
module HidWalk {
  import opened Common
  import opened HidItems

  /** Why a checker refused: the result code and the field it names. */
  datatype Issue = Issue(result: ResultCode, field: string)

  datatype Outcome<S> = Accept(state: S) | Reject(issue: Issue)

  /** One checker: its per-item step and its complaints about unreadable items. */
  datatype Checker<!S> = Checker(step: (S, Item) -> Outcome<S>, longItem: Issue, truncated: Issue)

  /** The checker's verdict on the bytes from `offset` on, in state `state`. */
  function WalkBytes<S>(checker: Checker<S>, bytes: seq<Byte>, offset: nat, state: S): Outcome<S>
    decreases |bytes| - offset
  {
    if offset >= |bytes| then Accept(state)
    else match ItemAt(bytes, offset)
      case LongItem => Reject(checker.longItem)
      case Truncated => Reject(checker.truncated)
      case Short(item) =>
        match checker.step(state, item)
        case Reject(issue) => Reject(issue)
        case Accept(next) => WalkBytes(checker, bytes, offset + 1 + item.size, next)
  }

  /** The checker's verdict on a list of items. */
  function WalkItems<S>(checker: Checker<S>, init: S, items: seq<Item>): Outcome<S> {
    if |items| == 0 then Accept(init)
    else match WalkItems(checker, init, items[..|items| - 1])
      case Reject(issue) => Reject(issue)
      case Accept(state) => checker.step(state, items[|items| - 1])
  }

  lemma WalkSnoc<S>(checker: Checker<S>, init: S, items: seq<Item>, item: Item)
    ensures WalkItems(checker, init, items + [item])
            == match WalkItems(checker, init, items)
               case Reject(issue) => Reject(issue)
               case Accept(state) => checker.step(state, item)
  {
    assert (items + [item])[..|items|] == items;
  }

  /** A refusal among the first items is the verdict on all of them. */
  lemma {:induction false} WalkPrefix<S>(checker: Checker<S>, init: S, items: seq<Item>, k: nat)
    requires k <= |items|
    ensures WalkItems(checker, init, items[..k]).Reject? ==>
              WalkItems(checker, init, items) == WalkItems(checker, init, items[..k])
    decreases |items|
  {
    if k < |items| {
      assert items[..|items| - 1][..k] == items[..k];
      WalkPrefix(checker, init, items[..|items| - 1], k);
    } else {
      assert items[..k] == items;
    }
  }

  lemma {:induction false} WalkEncodedFrom<S>(checker: Checker<S>, init: S, items: seq<Item>, k: nat)
    requires k <= |items| && WalkItems(checker, init, items[..k]).Accept?
    ensures |Encode(items[..k])| <= |Encode(items)|
    ensures WalkBytes(checker, Encode(items), |Encode(items[..k])|, WalkItems(checker, init, items[..k]).state)
            == WalkItems(checker, init, items)
    decreases |items| - k
  {
    if k < |items| {
      ItemsRoundTrip(items, k);
      assert items[..k + 1] == items[..k] + [items[k]];
      WalkSnoc(checker, init, items[..k], items[k]);
      WalkPrefix(checker, init, items, k + 1);
      if WalkItems(checker, init, items[..k + 1]).Accept? {
        WalkEncodedFrom(checker, init, items, k + 1);
      }
    } else {
      assert items[..k] == items;
    }
  }

  /** The verdict on emitted bytes is the verdict on the emitted items: item boundaries are recovered exactly. */
  lemma WalkEncoded<S>(checker: Checker<S>, init: S, items: seq<Item>)
    ensures WalkBytes(checker, Encode(items), 0, init) == WalkItems(checker, init, items)
  {
    assert items[..0] == [];
    WalkEncodedFrom(checker, init, items, 0);
  }

  // ----- The four-byte rule of HID 1.11 section 8.4 ----------------------------------------------

  /** Bytes touched by a field of `width` bits that starts at bit `offset`. */
  function TouchedBytes(offset: nat, width: nat): nat
    requires width > 0
  {
    (offset + width - 1) / 8 - offset / 8 + 1
  }

  /** No field of a run of `count` fields of `size` bits from bit `initial` on touches a fifth byte. */
  predicate SpanOk(initial: nat, size: nat, count: nat)
    requires size > 0
  {
    forall i :: 0 <= i < count ==> FieldFits(initial, size, i)
  }

  /** Field `i` of the run stays within four bytes. */
  predicate FieldFits(initial: nat, size: nat, i: nat)
    requires size > 0
  {
    TouchedBytes(initial + i * size, size) <= 4
  }

  function Alignment(initial: nat, size: nat, i: nat): nat {
    (initial + i * size) % 8
  }

  lemma FitsByAlignment(initial: nat, size: nat, i: nat)
    requires size > 0
    ensures FieldFits(initial, size, i) == ((Alignment(initial, size, i) + size + 7) / 8 <= 4)
  {
    var offset := initial + i * size;
    assert offset == 8 * (offset / 8) + offset % 8;
  }

  lemma AlignmentPeriod(initial: nat, size: nat, i: nat)
    ensures Alignment(initial, size, i) == Alignment(initial, size, i % 8)
  {
    var q := i / 8;
    assert i * size == 8 * (q * size) + (i % 8) * size by {
      assert i == 8 * q + i % 8;
    }
    EightMultiples(initial + (i % 8) * size, q * size);
  }

  lemma EightMultiples(n: int, m: int)
    ensures (n + 8 * m) % 8 == n % 8
  {
  }

  lemma AlignmentStep(initial: nat, size: nat, i: nat)
    ensures Alignment(initial, size, i + 1) == (Alignment(initial, size, i) + size % 8) % 8
  {
    assert (i + 1) * size == i * size + size;
    ModSum(initial + i * size, size);
  }

  lemma ModSum(a: nat, b: nat)
    ensures (a + b) % 8 == (a % 8 + b % 8) % 8
  {
  }

  /**
   * `field_span_is_valid` looks at no more than eight fields. That is exact: it accepts a run of any
   * length precisely when every field of the run stays within four bytes. Both callers have refused
   * sizes outside 1..32 before.
   */
  method FieldSpanIsValid(initial: nat, size: nat, count: nat) returns (valid: bool)
    requires 0 < size <= 32
    ensures valid == SpanOk(initial, size, count)
  {
    var alignments := Min(count, 8);
    var sizeModulo := size % 8;
    var startModulo := initial % 8;
    var field := 0;
    while field < alignments
      invariant 0 <= field <= alignments
      invariant startModulo == Alignment(initial, size, field)
      invariant forall i :: 0 <= i < field ==> FieldFits(initial, size, i)
    {
      var occupied := (startModulo + size + 7) / 8;
      FitsByAlignment(initial, size, field);
      if occupied > 4 {
        return false;
      }
      AlignmentStep(initial, size, field);
      startModulo := (startModulo + sizeModulo) % 8;
      field := field + 1;
    }
    forall i | 0 <= i < count
      ensures FieldFits(initial, size, i)
    {
      AlignmentPeriod(initial, size, i);
      FitsByAlignment(initial, size, i);
      FitsByAlignment(initial, size, i % 8);
    }
    return true;
  }
}
