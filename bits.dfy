/** The kernel helpers the page-table pool is built on: BIT(), order_base_2()
    and __ffs(), over the 16-bit slot masks of a pool. */
module KernelBits {

  /** 2 to the power n. */
  function Pow2(n: nat): (r: nat)
    ensures r >= 1
  {
    if n == 0 then 1 else 2 * Pow2(n - 1)
  }

  lemma {:induction false} Pow2Monotone(m: nat, n: nat)
    requires m < n
    ensures Pow2(m) < Pow2(n)
  {
    if m + 1 < n {
      Pow2Monotone(m, n - 1);
    }
  }

  /** Floor of the base-2 logarithm (the kernel's ilog2). */
  function Log2(n: nat): nat
    requires n >= 1
  {
    if n == 1 then 0 else 1 + Log2(n / 2)
  }

  lemma {:induction false} Log2Bounds(n: nat)
    requires n >= 1
    ensures Pow2(Log2(n)) <= n < Pow2(Log2(n) + 1)
  {
    if n > 1 {
      Log2Bounds(n / 2);
    }
  }

  /** order_base_2(n): 0 for n <= 1, otherwise ilog2(n - 1) + 1. */
  function OrderBase2(n: nat): nat
  {
    if n <= 1 then 0 else Log2(n - 1) + 1
  }

  /** order_base_2(n) is the least r with n <= 2^r. */
  lemma OrderBase2IsCeilingLog(n: nat, r: nat)
    ensures n <= Pow2(OrderBase2(n))
    ensures n <= Pow2(r) ==> OrderBase2(n) <= r
  {
    if n >= 2 {
      Log2Bounds(n - 1);
      if n <= Pow2(r) && r < OrderBase2(n) {
        if r < OrderBase2(n) - 1 {
          Pow2Monotone(r, OrderBase2(n) - 1);
        }
        assert false;
      }
    }
  }

  /** A pool serves alignments above 0x80 and up to 0x1000 with 2^8 .. 2^12 byte slots. */
  lemma PoolShiftRange(align: nat)
    requires 0x80 < align <= 0x1000
    ensures 8 <= OrderBase2(align) <= 12
  {
    var r := OrderBase2(align);
    OrderBase2IsCeilingLog(align, 12);
    assert Pow2(7) == 0x80;
    if r <= 7 {
      if r < 7 {
        Pow2Monotone(r, 7);
      }
      assert false;
    }
  }

  /** BIT(k) in a 16-bit mask; slot indices are kept as bit-vectors. */
  function Bit(k: bv16): bv16
    requires k < 16
  {
    1 << k
  }

  /** The bits of a 16-bit mask below bit k. */
  function BitsBelow(k: bv16): bv16
    requires k < 16
  {
    Bit(k) - 1
  }

  /** __ffs(x): the index of the lowest set bit of a non-zero mask. */
  function LowestSetBit(x: bv16): (k: bv16)
    requires x != 0
    ensures k < 16 && x & Bit(k) != 0 && x & BitsBelow(k) == 0
  {
    LowestSetBitIsSet(x, 0);
    LowestSetBitIsLowest(x, 0);
    LowestSetBitFrom(x, 0)
  }

  /** The lowest set bit of x, none of the bits below `from` being set. */
  function LowestSetBitFrom(x: bv16, from: bv16): (k: bv16)
    requires x != 0 && from < 16 && x & BitsBelow(from) == 0
    ensures k < 16
    decreases 16 - from as int
  {
    if x & Bit(from) != 0 then from
    else
      NextBitsBelow(x, from);
      LowestSetBitFrom(x, from + 1)
  }

  /** A bit below `from` + 1 is a bit below `from` or bit `from` itself; a
      non-zero mask has a set bit at 15 or below. */
  lemma NextBitsBelow(x: bv16, from: bv16)
    requires x != 0 && from < 16 && x & BitsBelow(from) == 0 && x & Bit(from) == 0
    ensures from < 15 && x & BitsBelow(from + 1) == 0
  {
  }

  lemma {:induction false} LowestSetBitIsSet(x: bv16, from: bv16)
    requires x != 0 && from < 16 && x & BitsBelow(from) == 0
    ensures x & Bit(LowestSetBitFrom(x, from)) != 0
    decreases 16 - from as int
  {
    if x & Bit(from) == 0 {
      NextBitsBelow(x, from);
      LowestSetBitIsSet(x, from + 1);
    }
  }

  lemma {:induction false} LowestSetBitIsLowest(x: bv16, from: bv16)
    requires x != 0 && from < 16 && x & BitsBelow(from) == 0
    ensures x & BitsBelow(LowestSetBitFrom(x, from)) == 0
    decreases 16 - from as int
  {
    if x & Bit(from) == 0 {
      NextBitsBelow(x, from);
      LowestSetBitIsLowest(x, from + 1);
    }
  }

  /** No bit below the lowest set bit is set. */
  lemma BelowLowest(x: bv16, j: bv16)
    requires x != 0 && j < LowestSetBit(x)
    ensures x & Bit(j) == 0
  {
    ClearBelow(x, LowestSetBit(x), j);
  }

  lemma ClearBelow(x: bv16, k: bv16, j: bv16)
    requires k < 16 && x & BitsBelow(k) == 0 && j < k
    ensures x & Bit(j) == 0
  {
  }

  /** x << shift in 16 bits, for the slot widths a pool can have. */
  function Shl(x: bv16, shift: bv8): bv16
    requires 8 <= shift <= 12
  {
    x << shift
  }

  /** x >> shift in 16 bits, for the slot widths a pool can have. */
  function Shr(x: bv16, shift: bv8): bv16
    requires 8 <= shift <= 12
  {
    x >> shift
  }

  /** A slot index shifted up to its offset shifts back down to itself. */
  lemma ShlShr(slot: bv16, shift: bv8)
    requires slot < 16 && 8 <= shift <= 12
    ensures Shr(Shl(slot, shift), shift) == slot
  {
  }

  /** Setting a bit of `mask` in a subset of `mask` gives a non-empty subset of `mask`. */
  lemma SetBitWithin(x: bv16, mask: bv16, k: bv16)
    requires k < 16 && mask & Bit(k) != 0 && x & !mask == 0
    ensures (x | Bit(k)) & !mask == 0 && x | Bit(k) != 0
  {
  }

  /** Clearing a set bit and setting it again gives back the original. */
  lemma ClearedBitRestored(x: bv16, k: bv16)
    requires k < 16 && x & Bit(k) != 0
    ensures (x & !Bit(k)) | Bit(k) == x && (x & !Bit(k)) & Bit(k) == 0
  {
  }
}
