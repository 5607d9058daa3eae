/** The 64-bit Morton code of a vertex: each clipped coordinate is a 21-bit signed
    value, its sign bit is moved to bit 20, its 21 bits are spread three apart and
    the three axes are interleaved, and the three relocated sign bits are inverted.

    A coordinate enters as the 64-bit two's-complement pattern of the clipped integer
    (the bitwise expressions of the script promote the int32 column to 64 bits). All
    operators below are on `bv64`; note that in Dafny `&`, `|` and `^` bind tighter
    than `<<` and `>>`, so every shift is parenthesised. */
module Morton {
  /** Every set bit of `y` is also set in `m`. */
  predicate Fits(y: bv64, m: bv64) {
    y & m == y
  }

  /** SplitBy3Bits21: five mask-and-shift rounds that move bit i of a 21-bit value
      to bit 3i. */
  function SplitBy3Bits21(x: bv64): (r: bv64)
    ensures Fits(r, 0x1249_2492_4924_9249)
  {
    var r1 := (x | (x << 32)) & 0x1f_0000_0000_ffff;
    var r2 := (r1 | (r1 << 16)) & 0x1f_0000_ff00_00ff;
    var r3 := (r2 | (r2 << 8)) & 0x100f_00f0_0f00_f00f;
    var r4 := (r3 | (r3 << 4)) & 0x10c3_0c30_c30c_30c3;
    (r4 | (r4 << 2)) & 0x1249_2492_4924_9249
  }

  /** Reference definition of the spread, one bit at a time: the lowest of `n` bits
      stays at bit 0 and the spread of the remaining bits starts three positions up,
      so bit i lands on bit 3i. */
  function Spread(x: bv64, n: nat): bv64
    decreases n
  {
    if n == 0 then 0 else Peel(x, Spread(x >> 1, n - 1))
  }

  /** The lowest bit of `low` below `rest` shifted up by three. */
  function Peel(low: bv64, rest: bv64): bv64 {
    (low & 1) | (rest << 3)
  }

  /** The lowest `k` bits set. */
  function Mask(k: nat): bv64
    decreases k
  {
    if k == 0 then 0 else (Mask(k - 1) << 1) | 1
  }

  /** The mask rounds compute the one-bit-at-a-time spread of a 21-bit value. */
  lemma SplitIsSpread(x: bv64)
    requires Fits(x, 0x1f_ffff)
    ensures SplitBy3Bits21(x) == Spread(x, 21)
  {
    MaskOf21();
    SplitIsSpreadBelow(x, 21);
  }

  lemma {:induction false} SplitIsSpreadBelow(y: bv64, k: nat)
    requires Fits(y, 0x1f_ffff) && Fits(y, Mask(k))
    ensures SplitBy3Bits21(y) == Spread(y, k)
    decreases k
  {
    if k == 0 {
      SpreadOfZero(y);
    } else {
      ShiftFits(y);
      MaskShift(y, Mask(k - 1));
      SplitIsSpreadBelow(y >> 1, k - 1);
      SpreadStep(y, k);
    }
  }

  lemma SpreadOfZero(y: bv64)
    requires Fits(y, Mask(0))
    ensures SplitBy3Bits21(y) == Spread(y, 0)
  {
    assert y == 0;
  }

  lemma SpreadStep(y: bv64, k: nat)
    requires k > 0 && Fits(y, 0x1f_ffff)
    requires SplitBy3Bits21(y >> 1) == Spread(y >> 1, k - 1)
    ensures SplitBy3Bits21(y) == Spread(y, k)
  {
    SplitPeel(y);
  }

  /** One mask round less: the split of a 21-bit value is its lowest bit below the
      split of the rest, shifted up by three. */
  lemma SplitPeel(y: bv64)
    requires Fits(y, 0x1f_ffff)
    ensures SplitBy3Bits21(y) == Peel(y, SplitBy3Bits21(y >> 1))
  {
  }

  lemma ShiftFits(y: bv64)
    requires Fits(y, 0x1f_ffff)
    ensures Fits(y >> 1, 0x1f_ffff)
  {
  }

  lemma MaskShift(y: bv64, m: bv64)
    requires Fits(y, (m << 1) | 1)
    ensures Fits(y >> 1, m)
  {
  }

  lemma MaskOf21()
    ensures Mask(21) == 0x1f_ffff
  {
    assert Mask(4) == 0xf;
    assert Mask(8) == 0xff;
    assert Mask(12) == 0xfff;
    assert Mask(16) == 0xffff;
    assert Mask(20) == 0xf_ffff;
  }

  /** The spread of a 21-bit value only uses bits 0, 3, ..., 60. */
  lemma SplitLanes(x: bv64)
    requires Fits(x, 0x1f_ffff)
    ensures Fits(SplitBy3Bits21(x), 0x1249_2492_4924_9249)
  {
  }

  /** The inverse of the spread: gathers bits 0, 3, ..., 60 back into bits 0..20. */
  function Compact(c: bv64): (r: bv64)
    ensures Fits(r, 0x1f_ffff)
  {
    var r0 := c & 0x1249_2492_4924_9249;
    var r1 := (r0 | (r0 >> 2)) & 0x10c3_0c30_c30c_30c3;
    var r2 := (r1 | (r1 >> 4)) & 0x100f_00f0_0f00_f00f;
    var r3 := (r2 | (r2 >> 8)) & 0x1f_0000_ff00_00ff;
    var r4 := (r3 | (r3 >> 16)) & 0x1f_0000_0000_ffff;
    (r4 | (r4 >> 32)) & 0x1f_ffff
  }

  lemma CompactSplit(x: bv64)
    requires Fits(x, 0x1f_ffff)
    ensures Compact(SplitBy3Bits21(x)) == x
  {
  }

  /** Three 21-bit values interleaved: x in bits 0 mod 3, y in 1 mod 3, z in 2 mod 3. */
  function Interleave(x: bv64, y: bv64, z: bv64): bv64 {
    SplitBy3Bits21(x) | (SplitBy3Bits21(y) << 1) | (SplitBy3Bits21(z) << 2)
  }

  /** The three 21-bit values a code holds. */
  function Deinterleave(c: bv64): (bv64, bv64, bv64) {
    (Compact(c), Compact(c >> 1), Compact(c >> 2))
  }

  /** The three axes occupy disjoint bits, so the code gives back each of them. */
  lemma DeinterleaveInterleave(x: bv64, y: bv64, z: bv64)
    requires Fits(x, 0x1f_ffff) && Fits(y, 0x1f_ffff) && Fits(z, 0x1f_ffff)
    ensures Deinterleave(Interleave(x, y, z)) == (x, y, z)
  {
    DecodeX(x, y, z);
    DecodeY(x, y, z);
    DecodeZ(x, y, z);
  }

  lemma DecodeX(x: bv64, y: bv64, z: bv64)
    requires Fits(x, 0x1f_ffff) && Fits(y, 0x1f_ffff) && Fits(z, 0x1f_ffff)
    ensures Compact(Interleave(x, y, z)) == x
  {
  }

  lemma DecodeY(x: bv64, y: bv64, z: bv64)
    requires Fits(x, 0x1f_ffff) && Fits(y, 0x1f_ffff) && Fits(z, 0x1f_ffff)
    ensures Compact(Interleave(x, y, z) >> 1) == y
  {
  }

  lemma DecodeZ(x: bv64, y: bv64, z: bv64)
    requires Fits(x, 0x1f_ffff) && Fits(y, 0x1f_ffff) && Fits(z, 0x1f_ffff)
    ensures Compact(Interleave(x, y, z) >> 2) == z
  {
  }

  /** The 64-bit two's-complement pattern of an integer in [-2^20, 2^20), the range
      the coordinates are clipped to. */
  predicate Clipped(p: bv64) {
    Fits(p, 0xf_ffff) || Fits(!p, 0xf_ffff)
  }

  /** The sign bit (bit 31 of the pattern) moved to bit 20, below it the low 20 bits. */
  function RelocateSign(p: bv64): (r: bv64)
    ensures Fits(r, 0x1f_ffff)
  {
    ((p & 0x8000_0000) >> 11) | (p & 0x0f_ffff)
  }

  /** For a clipped coordinate the relocation is exactly the 21-bit two's complement
      of the coordinate, and inverting its sign bit gives the coordinate plus 2^20,
      which is below 2^21. */
  lemma RelocateIsTwosComplement21(p: bv64)
    requires Clipped(p)
    ensures RelocateSign(p) == p & 0x1f_ffff
    ensures RelocateSign(p) ^ 0x10_0000 == p + 0x10_0000
    ensures Fits(p + 0x10_0000, 0x1f_ffff)
  {
    if Fits(p, 0xf_ffff) {
      RelocateNonNegative(p);
      OffsetNonNegative(p);
      OffsetFitsNonNegative(p);
    } else {
      RelocateNegative(p);
      OffsetNegative(p);
      OffsetFitsNegative(p);
    }
  }

  lemma RelocateNonNegative(p: bv64)
    requires Fits(p, 0xf_ffff)
    ensures RelocateSign(p) == p & 0x1f_ffff
  {
  }

  lemma RelocateNegative(p: bv64)
    requires Fits(!p, 0xf_ffff)
    ensures RelocateSign(p) == p & 0x1f_ffff
  {
  }

  lemma OffsetNonNegative(p: bv64)
    requires Fits(p, 0xf_ffff)
    ensures (p & 0x1f_ffff) ^ 0x10_0000 == p + 0x10_0000
  {
  }

  lemma OffsetNegative(p: bv64)
    requires Fits(!p, 0xf_ffff)
    ensures (p & 0x1f_ffff) ^ 0x10_0000 == p + 0x10_0000
  {
  }

  lemma OffsetFitsNonNegative(p: bv64)
    requires Fits(p, 0xf_ffff)
    ensures Fits(p + 0x10_0000, 0x1f_ffff)
  {
  }

  lemma OffsetFitsNegative(p: bv64)
    requires Fits(!p, 0xf_ffff)
    ensures Fits(p + 0x10_0000, 0x1f_ffff)
  {
  }

  /** MortonCode64 of one vertex, from its three clipped coordinates. The three lanes
      fill bits 0 to 62, so the top bit is always clear: as a uint64 the code is below
      2^63. */
  function MortonCode64(px: bv64, py: bv64, pz: bv64): (r: bv64)
    ensures r & 0x8000_0000_0000_0000 == 0
  {
    Interleave(RelocateSign(px), RelocateSign(py), RelocateSign(pz)) ^ 0x7000_0000_0000_0000
  }

  /** The final XOR inverts bits 60, 61 and 62, which hold the relocated sign bits of
      x, y and z: the code is the interleave of the coordinates offset by 2^20 (offset
      binary), each of which lies in [0, 2^21). */
  lemma MortonIsOffsetInterleave(px: bv64, py: bv64, pz: bv64)
    requires Clipped(px) && Clipped(py) && Clipped(pz)
    ensures MortonCode64(px, py, pz)
         == Interleave(px + 0x10_0000, py + 0x10_0000, pz + 0x10_0000)
  {
    CodeFlipsSignBits(px, py, pz);
    RelocateIsTwosComplement21(px);
    RelocateIsTwosComplement21(py);
    RelocateIsTwosComplement21(pz);
  }

  /** Inverting bits 60..62 of the interleave inverts bit 20 of each relocated axis. */
  lemma CodeFlipsSignBits(px: bv64, py: bv64, pz: bv64)
    ensures MortonCode64(px, py, pz)
         == Interleave(RelocateSign(px) ^ 0x10_0000, RelocateSign(py) ^ 0x10_0000,
                       RelocateSign(pz) ^ 0x10_0000)
  {
  }

  /** Two vertices whose clipped coordinates differ get different codes. */
  lemma MortonInjective(px: bv64, py: bv64, pz: bv64, qx: bv64, qy: bv64, qz: bv64)
    requires Clipped(px) && Clipped(py) && Clipped(pz)
    requires Clipped(qx) && Clipped(qy) && Clipped(qz)
    requires MortonCode64(px, py, pz) == MortonCode64(qx, qy, qz)
    ensures px == qx && py == qy && pz == qz
  {
    MortonIsOffsetInterleave(px, py, pz);
    MortonIsOffsetInterleave(qx, qy, qz);
    RelocateIsTwosComplement21(px);
    RelocateIsTwosComplement21(py);
    RelocateIsTwosComplement21(pz);
    RelocateIsTwosComplement21(qx);
    RelocateIsTwosComplement21(qy);
    RelocateIsTwosComplement21(qz);
    DeinterleaveInterleave(px + 0x10_0000, py + 0x10_0000, pz + 0x10_0000);
    DeinterleaveInterleave(qx + 0x10_0000, qy + 0x10_0000, qz + 0x10_0000);
    OffsetCancels(px, qx);
    OffsetCancels(py, qy);
    OffsetCancels(pz, qz);
  }

  lemma OffsetCancels(p: bv64, q: bv64)
    requires p + 0x10_0000 == q + 0x10_0000
    ensures p == q
  {
  }
}
