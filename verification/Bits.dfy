/**
 The bitmap words of the offset allocator. A machine word is the sequence of its
 bits, lowest bit first: the 32-bit word of the top bins has length 32, an 8-bit
 leaf word has length 8. `m | 1 << i` is `m[i := true]`, `m & ~(1 << i)` is
 `m[i := false]`, and a word is zero when none of its bits is set.
 */
module Bits {

  const NO_SPACE: nat := 0xffff_ffff

  type Word = seq<bool>

  predicate IsZero(m: Word) {
    forall i | 0 <= i < |m| :: !m[i]
  }

  function Zeros(width: nat): (m: Word)
    ensures |m| == width && IsZero(m)
  {
    seq(width, _ => false)
  }

  // `(1 << s) - 1`: exactly the bits below s.
  function MaskBefore(width: nat, s: nat): Word {
    seq(width, i => i < s)
  }

  // `m & ~low`
  function AndNot(m: Word, low: Word): (r: Word)
    requires |m| == |low|
    ensures |r| == |m| && forall i | 0 <= i < |m| :: r[i] <==> m[i] && !low[i]
  {
    seq(|m|, i requires 0 <= i < |m| => m[i] && !low[i])
  }

  // tzcnt_nonzero: the index of the lowest set bit.
  function LowestSetBit(m: Word): (r: nat)
    requires !IsZero(m)
    ensures r < |m| && m[r] && forall i | 0 <= i < r :: !m[i]
  {
    if m[0] then 0
    else
      assert !IsZero(m[1..]);
      1 + LowestSetBit(m[1..])
  }

  // 31 - lzcnt_nonzero: the index of the highest set bit.
  function HighestSetBit(m: Word): (r: nat)
    requires !IsZero(m)
    ensures r < |m| && m[r] && forall i | r < i < |m| :: !m[i]
  {
    if m[|m| - 1] then |m| - 1
    else
      assert !IsZero(m[..|m| - 1]);
      HighestSetBit(m[..|m| - 1])
  }

  // The lowest set bit at or above a start index, NO_SPACE exactly when there is none.
  function FindLowestSetBitAfter(mask: Word, start: nat): (r: nat)
    requires |mask| <= 32
    ensures r == NO_SPACE <==> forall i | start <= i < |mask| :: !mask[i]
    ensures r != NO_SPACE ==> start <= r < |mask| && mask[r] && forall i | start <= i < r :: !mask[i]
  {
    var after := AndNot(mask, MaskBefore(|mask|, start));
    if IsZero(after) then NO_SPACE else LowestSetBit(after)
  }
}
