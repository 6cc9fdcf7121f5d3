/** Vocabulary shared by every part of the model: result codes, integer widths, optional values. */
module Common {

  datatype Option<+T> = None | Some(value: T)

  /** The result codes of include/aoahid.h that the modelled code returns. */
  datatype ResultCode =
    | Ok
    | ErrParam
    | ErrUnsetField
    | ErrUnsupported
    | ErrBusy
    | ErrOverflow
    | ErrTimeout
    | ErrStall
    | ErrNoDevice
    | ErrShortTransfer
    | ErrIo
    | ErrInternal
    | ClosePending

  type Byte = n: int | 0 <= n < 256
  type Uint16 = n: int | 0 <= n < 0x1_0000
  type Int32 = n: int | -0x8000_0000 <= n < 0x8000_0000
  type Uint32 = n: int | 0 <= n < 0x1_0000_0000

  const INT32_MIN: int := -0x8000_0000
  const INT32_MAX: int := 0x7FFF_FFFF
  const UINT32_MAX: int := 0xFFFF_FFFF
  const INT64_MIN: int := -0x8000_0000_0000_0000
  const INT64_MAX: int := 0x7FFF_FFFF_FFFF_FFFF
  const SIZE_MAX: int := 0xFFFF_FFFF_FFFF_FFFF

  function Min(a: int, b: int): int {
    if a <= b then a else b
  }

  function Max(a: int, b: int): int {
    if a >= b then a else b
  }

  /** Ceiling of a / b. */
  function CeilDiv(a: nat, b: nat): nat
    requires b > 0
  {
    (a + b - 1) / b
  }

  // ----- Division --------------------------------------------------------------------------------

  lemma {:induction false} QuotientStep(x: nat, b: nat)
    requires b > 0
    ensures (x + b) / b == x / b + 1
  {
    var q, r := x / b, x % b;
    assert x == b * q + r;
    assert x + b == b * (q + 1) + r;
    UniqueQuotient(x + b, b, q + 1, r);
  }

  /** A nonzero multiple of `b` is at least `b` away from zero. */
  lemma MultipleAway(b: nat, d: int)
    requires b > 0
    ensures d >= 1 ==> b * d >= b
    ensures d <= -1 ==> b * d + b <= 0
  {
    if d >= 1 {
      assert b * d == b + b * (d - 1);
    }
  }

  lemma UniqueQuotient(x: nat, b: nat, q: nat, r: nat)
    requires b > 0 && x == b * q + r && r < b
    ensures x / b == q
  {
    var d: int := x / b - q;
    var left: int := x % b;
    var whole: int := b * (x / b);
    assert x == whole + left && b * d == whole - b * q;
    MultipleAway(b, d);
  }

  lemma CeilingStep(m: nat, b: nat)
    requires b > 0 && m > 0
    ensures CeilDiv(Max(0, m - b), b) == CeilDiv(m, b) - 1 >= 0
  {
    if m >= b {
      QuotientStep(m - 1, b);
    } else {
      UniqueQuotient(m + b - 1, b, 1, m - 1);
      UniqueQuotient(b - 1, b, 0, b - 1);
    }
  }

  lemma ZeroCeiling(b: nat)
    requires b > 0
    ensures CeilDiv(0, b) == 0
  {
    UniqueQuotient(b - 1, b, 0, b - 1);
  }

  /** `n` pieces of `b` hold `a` exactly when `n` is at least the ceiling. */
  lemma {:induction false} CeilingBound(a: nat, b: nat, n: nat)
    requires b > 0
    ensures CeilDiv(a, b) <= n <==> a <= n * b
  {
    hide CeilDiv;
    if a == 0 {
      ZeroCeiling(b);
    } else {
      CeilingStep(a, b);
      if n > 0 {
        CeilingBound(Max(0, a - b), b, n - 1);
        assert (n - 1) * b == n * b - b;
        assert (n - 1) * b >= 0;
      }
    }
  }
}
