/** The order-preserving key of a 32-bit float used for GPU depth sorting, and its
    inverse. A float is handled as its IEEE-754 bit pattern (asuint / asfloat are the
    identity on bits), so both maps are functions on `bv32`. */
module SortUtils {
  /** The sign bit of a float pattern is set. */
  predicate Negative(u: bv32) {
    u & 0x8000_0000 != 0
  }

  /** order_preserving_float_map: the mask is all ones for a pattern with the sign bit
      set and only the sign bit otherwise. */
  function FloatKey(u: bv32): (r: bv32)
    ensures !Negative(u) ==> r == u ^ 0x8000_0000
    ensures Negative(u) ==> r == !u
    ensures Negative(u) <==> r < 0x8000_0000
  {
    var mask := (0 - (u >> 31)) | 0x8000_0000;
    u ^ mask
  }

  /** inverse_order_preserving_float_map: the mask is only the sign bit for a key with
      the sign bit set and all ones otherwise. */
  function InverseFloatKey(v: bv32): (r: bv32)
    ensures v >= 0x8000_0000 ==> r == v ^ 0x8000_0000 && !Negative(r)
    ensures v < 0x8000_0000 ==> r == !v && Negative(r)
  {
    var mask := ((v >> 31) - 1) | 0x8000_0000;
    v ^ mask
  }

  lemma KeyThenInverse(u: bv32)
    ensures InverseFloatKey(FloatKey(u)) == u
  {
    if Negative(u) {
      NegativeKey(u);
      NegativeInverse(u);
    } else {
      NonNegativeKey(u);
      NonNegativeInverse(u);
    }
  }

  lemma InverseThenKey(v: bv32)
    ensures FloatKey(InverseFloatKey(v)) == v
  {
    if v < 0x8000_0000 {
      NegativeKey(!v);
      NegativeInverse(!v);
    } else {
      NonNegativeKey(v ^ 0x8000_0000);
      NonNegativeInverse(v ^ 0x8000_0000);
    }
  }

  lemma NegativeKey(u: bv32)
    requires Negative(u)
    ensures FloatKey(u) == !u && !!u == u
  {
  }

  lemma NegativeInverse(u: bv32)
    requires Negative(u)
    ensures InverseFloatKey(!u) == u
  {
  }

  lemma NonNegativeKey(u: bv32)
    requires !Negative(u)
    ensures FloatKey(u) == u ^ 0x8000_0000 && (u ^ 0x8000_0000) ^ 0x8000_0000 == u
  {
  }

  lemma NonNegativeInverse(u: bv32)
    requires !Negative(u)
    ensures InverseFloatKey(u ^ 0x8000_0000) == u
  {
  }

  /** Two different patterns never share a key; with InverseThenKey, the key map is a
      bijection on 32-bit patterns. */
  lemma KeyInjective(a: bv32, b: bv32)
    requires FloatKey(a) == FloatKey(b)
    ensures a == b
  {
    KeyThenInverse(a);
    KeyThenInverse(b);
  }

  /** Unsigned order on 32-bit patterns. Naming it keeps the solver from rewriting the
      comparisons that the lemmas below relate. */
  predicate Below(x: bv32, y: bv32) {
    x < y
  }

  /** The order of the floats two (non-NaN) patterns encode, with -0 placed just below
      +0: negative patterns by decreasing magnitude, then non-negative ones by increasing
      magnitude. Two patterns of the same sign agree on the sign bit, so comparing their
      magnitudes is comparing the patterns as unsigned integers. */
  predicate SignMagnitudeBelow(a: bv32, b: bv32) {
    if Negative(a) && Negative(b) then Below(b, a)
    else if Negative(a) then true
    else if Negative(b) then false
    else Below(a, b)
  }

  /** The key is monotone both ways: unsigned order on keys is exactly the float order
      of the patterns, so sorting keys as unsigned integers sorts the floats. */
  lemma KeyPreservesOrder(a: bv32, b: bv32)
    ensures SignMagnitudeBelow(a, b) <==> Below(FloatKey(a), FloatKey(b))
  {
    if Negative(a) && Negative(b) {
      BothNegative(a, b);
    } else if !Negative(a) && !Negative(b) {
      BothNonNegative(a, b);
    } else {
      MixedSigns(a, b);
    }
  }

  /** Both sign bits set: the key is the complement, which reverses unsigned order. */
  lemma BothNegative(a: bv32, b: bv32)
    requires Negative(a) && Negative(b)
    ensures Below(b, a) <==> Below(FloatKey(a), FloatKey(b))
  {
    NegativeKey(a);
    NegativeKey(b);
    if Below(b, a) {
      ComplementReverses(b, a);
    } else if Below(!a, !b) {
      ComplementReverses(!a, !b);
    }
  }

  /** Both sign bits clear: the key adds 2^31 to two values below 2^31, which keeps
      their order. */
  lemma BothNonNegative(a: bv32, b: bv32)
    requires !Negative(a) && !Negative(b)
    ensures Below(a, b) <==> Below(FloatKey(a), FloatKey(b))
  {
    SetSignBit(a);
    SetSignBit(b);
    OffsetOrder(a, b);
  }

  /** Different signs: every negative key is below 2^31 and every other key is not. */
  lemma MixedSigns(a: bv32, b: bv32)
    requires Negative(a) != Negative(b)
    ensures SignMagnitudeBelow(a, b) <==> Below(FloatKey(a), FloatKey(b))
  {
  }

  /** Complementing every bit reverses unsigned order. */
  lemma ComplementReverses(a: bv32, b: bv32)
    requires Below(a, b)
    ensures Below(!b, !a)
  {
  }

  /** The key of a non-negative pattern is the pattern plus 2^31, without overflow. */
  lemma SetSignBit(u: bv32)
    requires !Negative(u)
    ensures Below(u, 0x8000_0000) && FloatKey(u) == u + 0x8000_0000
  {
  }

  /** Adding 2^31 to two values below 2^31 keeps their order. */
  lemma OffsetOrder(a: bv32, b: bv32)
    requires Below(a, 0x8000_0000) && Below(b, 0x8000_0000)
    ensures Below(a, b) <==> Below(a + 0x8000_0000, b + 0x8000_0000)
  {
  }
}
