/**
 * Natural numbers as bit strings: powers of two, shifts and masks, each defined one bit at a time so
 * that its laws follow by induction.
 */
module BitMath {

  function Pow2(n: nat): (r: int)
    ensures r >= 1
  {
    if n == 0 then 1 else 2 * Pow2(n - 1)
  }

  /** Bit `k` of `n`, counted from the least significant end. */
  predicate Bit(n: nat, k: nat)
    decreases k
  {
    if k == 0 then n % 2 == 1 else Bit(n / 2, k - 1)
  }

  /** `n >> s`. */
  function ShiftRight(n: nat, s: nat): nat
    decreases s
  {
    if s == 0 then n else ShiftRight(n / 2, s - 1)
  }

  /** `n << s`. */
  function ShiftLeft(n: nat, s: nat): nat {
    if s == 0 then n else 2 * ShiftLeft(n, s - 1)
  }

  /** `n & ((1 << s) - 1)`. */
  function Mask(n: nat, s: nat): nat
    decreases s
  {
    if s == 0 then 0 else n % 2 + 2 * Mask(n / 2, s - 1)
  }

  lemma Pow2Values()
    ensures Pow2(0) == 1 && Pow2(1) == 2 && Pow2(2) == 4 && Pow2(3) == 8 && Pow2(4) == 16
    ensures Pow2(5) == 32 && Pow2(6) == 64 && Pow2(7) == 128 && Pow2(8) == 256
    ensures Pow2(31) == 0x8000_0000 && Pow2(32) == 0x1_0000_0000
    ensures Pow2(64) == 0x1_0000_0000_0000_0000
  {
    Pow2Byte(0);
    Pow2Byte(8);
    Pow2Byte(16);
    Pow2Byte(24);
    Pow2Byte(32);
    Pow2Byte(40);
    Pow2Byte(48);
    Pow2Byte(56);
  }

  lemma Pow2Byte(n: nat)
    ensures Pow2(n + 8) == 256 * Pow2(n) == 2 * Pow2(n + 7)
  {
    assert Pow2(n + 2) == 4 * Pow2(n);
    assert Pow2(n + 4) == 4 * Pow2(n + 2);
    assert Pow2(n + 6) == 4 * Pow2(n + 4);
  }

  lemma {:induction false} Pow2Monotone(a: nat, b: nat)
    requires a <= b
    ensures Pow2(a) <= Pow2(b)
  {
    if a < b {
      Pow2Monotone(a, b - 1);
    }
  }

  lemma {:induction false} BitOfShiftRight(n: nat, s: nat, k: nat)
    ensures Bit(ShiftRight(n, s), k) == Bit(n, s + k)
    decreases s
  {
    if s == 0 {
    } else {
      BitOfShiftRight(n / 2, s - 1, k);
    }
  }

  lemma {:induction false} ShiftRightTwice(n: nat, a: nat, b: nat)
    ensures ShiftRight(ShiftRight(n, a), b) == ShiftRight(n, a + b)
    decreases a
  {
    if a == 0 {
    } else {
      ShiftRightTwice(n / 2, a - 1, b);
    }
  }

  lemma {:induction false} BitOfMask(n: nat, s: nat, k: nat)
    ensures Bit(Mask(n, s), k) == (k < s && Bit(n, k))
    decreases k
  {
    if s == 0 {
      BitOfZero(k);
    } else {
      var rest := Mask(n / 2, s - 1);
      assert Mask(n, s) % 2 == n % 2 && Mask(n, s) / 2 == rest;
      if k > 0 {
        BitOfMask(n / 2, s - 1, k - 1);
      }
    }
  }

  lemma {:induction false} BitOfZero(k: nat)
    ensures !Bit(0, k)
  {
    if k == 0 {
    } else {
      BitOfZero(k - 1);
    }
  }

  lemma {:induction false} MaskBound(n: nat, s: nat)
    ensures Mask(n, s) < Pow2(s)
    ensures n < Pow2(s) ==> Mask(n, s) == n
    decreases s
  {
    if s == 0 {
    } else {
      MaskBound(n / 2, s - 1);
    }
  }

  /** `a | (b << s)` for `a` below 2^s: the two bit strings stand side by side. */
  lemma {:induction false} BitOfJoin(a: nat, b: nat, s: nat, k: nat)
    requires a < Pow2(s)
    ensures Bit(a + ShiftLeft(b, s), k) == if k < s then Bit(a, k) else Bit(b, k - s)
    decreases s
  {
    if s == 0 {
    } else {
      assert (a + ShiftLeft(b, s)) / 2 == a / 2 + ShiftLeft(b, s - 1);
      if k > 0 {
        BitOfJoin(a / 2, b, s - 1, k - 1);
      }
    }
  }

  lemma {:induction false} JoinBound(a: nat, b: nat, s: nat, t: nat)
    requires a < Pow2(s) && b < Pow2(t)
    ensures a + ShiftLeft(b, s) < Pow2(s + t)
    decreases s
  {
    if s == 0 {
    } else {
      JoinBound(a / 2, b, s - 1, t);
    }
  }

  lemma {:induction false} ShiftRightBound(n: nat, s: nat, t: nat)
    requires n < Pow2(s + t)
    ensures ShiftRight(n, s) < Pow2(t)
    decreases s
  {
    if s == 0 {
    } else {
      ShiftRightBound(n / 2, s - 1, t);
    }
  }

  /** Shift right by `shift`, then keep `taken` bits. */
  lemma BitOfSlice(n: nat, shift: nat, taken: nat, k: nat)
    ensures Bit(Mask(ShiftRight(n, shift), taken), k) == (k < taken && Bit(n, shift + k))
  {
    BitOfMask(ShiftRight(n, shift), taken, k);
    BitOfShiftRight(n, shift, k);
  }

  /** A number below 2^w is its low `w` bits. */
  lemma {:induction false} SameBitsSameNumber(a: nat, b: nat, w: nat)
    requires a < Pow2(w) && b < Pow2(w)
    requires forall k :: 0 <= k < w ==> Bit(a, k) == Bit(b, k)
    ensures a == b
  {
    if w == 0 {
    } else {
      assert Bit(a, 0) == Bit(b, 0);
      forall k | 0 <= k < w - 1
        ensures Bit(a / 2, k) == Bit(b / 2, k)
      {
        assert Bit(a, k + 1) == Bit(b, k + 1);
      }
      SameBitsSameNumber(a / 2, b / 2, w - 1);
    }
  }

  /** Masking forgets whole multiples of 2^s. */
  lemma {:induction false} MaskForgets(a: nat, b: nat, s: nat)
    requires a < Pow2(s)
    ensures Mask(a + ShiftLeft(b, s), s) == a
    decreases s
  {
    if s == 0 {
    } else {
      assert (a + ShiftLeft(b, s)) / 2 == a / 2 + ShiftLeft(b, s - 1);
      MaskForgets(a / 2, b, s - 1);
    }
  }

  /** 2^(s + t) - 2^s is a whole multiple of 2^s. */
  lemma {:induction false} Pow2Difference(s: nat, t: nat)
    ensures Pow2(s + t) - Pow2(s) == ShiftLeft(Pow2(t) - 1, s)
    decreases s
  {
    if s == 0 {
    } else {
      Pow2Difference(s - 1, t);
    }
  }
}
