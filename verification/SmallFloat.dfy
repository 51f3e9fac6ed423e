/**
 The size classes of the offset allocator: unsigned integers as floats with
 three mantissa bits. A shift by n is a division or multiplication by Pow2(n) and
 a mask with 2^n - 1 is a remainder; the left shift of FloatToUint is truncated
 to 32 bits, as the source's is.
 */
module SmallFloat {

  const MANTISSA_VALUE: nat := 8
  const MAX_BIN_SIZE: nat := 4026531840
  const MAX_BIN: nat := 239
  const UINT32: nat := 0x1_0000_0000

  type uint32 = x: int | 0 <= x < UINT32

  function Pow2(n: nat): (p: nat)
    ensures p >= 1
  {
    if n == 0 then 1 else 2 * Pow2(n - 1)
  }

  // 31 - lzcnt_nonzero(v)
  function HighestBit(v: nat): (h: nat)
    requires v >= 1
    ensures Pow2(h) <= v < Pow2(h + 1)
  {
    if v == 1 then 0 else 1 + HighestBit(v / 2)
  }

  function RoundUp(size: nat): nat {
    if size < MANTISSA_VALUE then size
    else
      var start := HighestBit(size) - 3;
      var mantissa := size / Pow2(start) % 8;
      (start + 1) * 8 + (if size % Pow2(start) != 0 then mantissa + 1 else mantissa)
  }

  function RoundDown(size: nat): nat {
    if size < MANTISSA_VALUE then size
    else
      var start := HighestBit(size) - 3;
      (start + 1) * 8 + size / Pow2(start) % 8
  }

  function FloatToUint(f: nat): nat {
    if f / 8 == 0 then f % 8 else (f % 8 + 8) * Pow2(f / 8 - 1) % UINT32
  }

  lemma ValueWidth(f: nat)
    ensures FloatToUint(f) < UINT32
  {}

  // ---- the value of a bin before truncation: it doubles every eight bins ----

  function Val(f: nat): nat {
    if f < 16 then f else 2 * Val(f - 8)
  }

  lemma {:induction false} ValStep(f: nat)
    ensures Val(f) < Val(f + 1)
  {
    if f >= 16 { ValStep(f - 8); }
  }

  lemma {:induction false} ValMono(a: nat, b: nat)
    requires a < b
    ensures Val(a) < Val(b)
  {
    ValStep(b - 1);
    if a < b - 1 { ValMono(a, b - 1); }
  }

  lemma MulMono(a: nat, b: nat, p: nat)
    requires a <= b
    ensures a * p <= b * p
  {}

  lemma DivParts(size: nat, p: nat) returns (q: nat, r: nat)
    requires p >= 1 && 8 * p <= size < 16 * p
    ensures q == size / p && r == size % p < p
    ensures size == q * p + r && 8 <= q < 16
  {
    q, r := size / p, size % p;
    if q <= 7 { MulMono(q, 7, p); assert false; }
    if q >= 16 { MulMono(16, q, p); assert false; }
  }

  // The four leading binary digits q of a size of at least 8 and the rest r.
  lemma Parts(size: nat) returns (start: nat, q: nat, r: nat)
    requires size >= 8
    ensures size == q * Pow2(start) + r && 8 <= q < 16 && r < Pow2(start)
    ensures RoundDown(size) == start * 8 + q
    ensures RoundUp(size) == if r == 0 then start * 8 + q else start * 8 + q + 1
  {
    var h := HighestBit(size);
    start := h - 3;
    assert Pow2(h) == 2 * Pow2(h - 1) && Pow2(h - 1) == 2 * Pow2(h - 2) && Pow2(h - 2) == 2 * Pow2(h - 3);
    q, r := DivParts(size, Pow2(start));
  }

  lemma {:induction false} ValOfParts(start: nat, q: nat)
    requires 8 <= q <= 16
    ensures Val(start * 8 + q) == q * Pow2(start)
  {
    if start == 0 {
    } else {
      ValOfParts(start - 1, q);
      assert q * Pow2(start) == 2 * (q * Pow2(start - 1));
    }
  }

  // RoundDown picks the bin whose half-open range of sizes holds the size;
  // RoundUp is RoundDown on bin values and one more everywhere else.
  lemma Bracket(size: nat)
    ensures Val(RoundDown(size)) <= size < Val(RoundDown(size) + 1)
    ensures RoundUp(size) == if size == Val(RoundDown(size)) then RoundDown(size) else RoundDown(size) + 1
  {
    if size >= 8 {
      var start, q, r := Parts(size);
      ValOfParts(start, q);
      ValOfParts(start, q + 1);
      assert (q + 1) * Pow2(start) == q * Pow2(start) + Pow2(start);
    }
  }

  lemma Truncated(f: nat)
    ensures FloatToUint(f) == Val(f) % UINT32
  {
    if f >= 8 { ValOfParts(f / 8 - 1, f % 8 + 8); }
  }

  // ---- results on 32-bit sizes ----

  lemma TopValues()
    ensures Val(MAX_BIN) == MAX_BIN_SIZE
    ensures Val(MAX_BIN + 1) == UINT32
  {
    assert Pow2(5) == 32;
    assert Pow2(10) == 1024;
    assert Pow2(15) == 32768;
    assert Pow2(20) == 1048576;
    assert Pow2(25) == 33554432;
    assert Pow2(28) == 268435456;
    ValOfParts(28, 15);
    ValOfParts(28, 16);
  }

  lemma NoTruncation(f: nat)
    requires f <= MAX_BIN
    ensures FloatToUint(f) == Val(f) <= MAX_BIN_SIZE
  {
    hide FloatToUint, Val;
    TopValues();
    Truncated(f);
    if f < MAX_BIN { ValMono(f, MAX_BIN); }
    assert Val(f) <= MAX_BIN_SIZE < UINT32;
  }

  // Rounding up is the lower adjoint of the bin value.
  lemma GaloisUp(size: uint32, f: nat)
    requires f <= MAX_BIN
    ensures RoundUp(size) <= f <==> size <= FloatToUint(f)
  {
    hide *;
    NoTruncation(f);
    Bracket(size);
    var d := RoundDown(size);
    if f < d { ValMono(f, d); }
    if d + 1 < f { ValMono(d + 1, f); }
  }

  // Rounding down is the upper adjoint of the bin value.
  lemma GaloisDown(size: uint32, f: nat)
    requires f <= MAX_BIN
    ensures f <= RoundDown(size) <==> FloatToUint(f) <= size
  {
    hide *;
    NoTruncation(f);
    Bracket(size);
    var d := RoundDown(size);
    if f < d { ValMono(f, d); }
    if d + 1 < f { ValMono(d + 1, f); }
  }

  // Every 32-bit size has a bin below; the rounded-up bin exists as a 32-bit
  // value exactly up to MAX_BIN_SIZE, and is bin 240 with value 0 beyond.
  lemma BinRange(size: uint32)
    ensures RoundDown(size) <= MAX_BIN
    ensures RoundUp(size) <= MAX_BIN <==> size <= MAX_BIN_SIZE
    ensures size > MAX_BIN_SIZE ==> RoundUp(size) == MAX_BIN + 1 && FloatToUint(RoundUp(size)) == 0
  {
    hide *;
    TopValues();
    Bracket(size);
    var d := RoundDown(size);
    if d > MAX_BIN {
      if d > MAX_BIN + 1 { ValMono(MAX_BIN + 1, d); }
      assert false;
    }
    NoTruncation(MAX_BIN);
    GaloisUp(size, MAX_BIN);
    if size > MAX_BIN_SIZE {
      Truncated(MAX_BIN + 1);
    }
  }

  // Rounding up never shrinks a request and wastes less than an eighth of it.
  lemma RoundUpWaste(size: uint32)
    requires 1 <= size <= MAX_BIN_SIZE
    ensures size <= FloatToUint(RoundUp(size)) < UINT32
    ensures 8 * (FloatToUint(RoundUp(size)) - size) < size
  {
    BinRange(size);
    GaloisUp(size, RoundUp(size));
    NoTruncation(RoundUp(size));
    Bracket(size);
    if size >= 8 {
      var start, q, r := Parts(size);
      ValOfParts(start, q);
      ValOfParts(start, q + 1);
      assert (q + 1) * Pow2(start) == q * Pow2(start) + Pow2(start);
      MulMono(8, q, Pow2(start));
    }
  }

  // A bin value is in its own bin, rounding either way.
  lemma BinValueRoundTrip(f: nat)
    requires f <= MAX_BIN
    ensures RoundDown(FloatToUint(f)) == f == RoundUp(FloatToUint(f))
  {
    hide *;
    NoTruncation(f);
    var v := FloatToUint(f);
    Bracket(v);
    var d := RoundDown(v);
    if f < d { ValMono(f, d); }
    if d + 1 < f { ValMono(d + 1, f); }
  }
}
