/**
 Version-rolling negotiation (BIP 310, section "Extension 'version-rolling'") under the
 mask of BIP 320, section "Specification".
 */
module VersionRolling {
  import opened Bytes
  import opened Wrappers
  import opened Jobs

  const ROLLING_MASK: bv32 := 0x1fffe000

  datatype RollingConfig = RollingConfig(mask: bv32, minBitCount: u32)

  function OnesBelow(v: bv32, n: nat): (k: nat)
    ensures k <= n
    decreases n
  {
    if n == 0 then 0 else (if v & 1 == 1 then 1 else 0) + OnesBelow(v >> 1, n - 1)
  }

  /** `u32::count_ones`. */
  function CountOnes(v: bv32): (k: nat)
    ensures k <= 32
  {
    OnesBelow(v, 32)
  }

  // What is counted

  /** All bits of v lie below bit n. */
  predicate FitsBelow(v: bv32, n: nat)
    decreases n
  {
    if n == 0 then v == 0 else FitsBelow(v >> 1, n - 1)
  }

  lemma {:induction false} FewerFit(v: bv32, w: bv32, n: nat)
    requires Within(v, w) && FitsBelow(w, n)
    ensures FitsBelow(v, n)
    decreases n
  {
    if n == 0 {
      WithinNothing(v);
    } else {
      ShiftWithin(v, w);
      FewerFit(v >> 1, w >> 1, n - 1);
    }
  }

  lemma LargestFits()
    ensures FitsBelow(0xffff_ffff, 32)
  {
    assert FitsBelow(0xff, 8);
    assert FitsBelow(0xffff, 16);
    assert FitsBelow(0x00ff_ffff, 24);
  }

  lemma WithinAll(v: bv32)
    ensures Within(v, 0xffff_ffff)
  {
  }

  lemma AnythingFits(v: bv32)
    ensures FitsBelow(v, 32)
  {
    LargestFits();
    WithinAll(v);
    FewerFit(v, 0xffff_ffff, 32);
  }

  lemma OddLosesLowest(v: bv32)
    requires v & 1 == 1
    ensures (v & (v - 1)) & 1 == 0 && (v & (v - 1)) >> 1 == v >> 1
  {
  }

  lemma EvenKeepsLowest(v: bv32)
    requires v & 1 == 0 && v != 0
    ensures (v & (v - 1)) & 1 == 0 && v >> 1 != 0 && (v & (v - 1)) >> 1 == (v >> 1) & ((v >> 1) - 1)
  {
  }

  lemma LowestBit(v: bv32)
    ensures v & 1 == 0 || v & 1 == 1
  {
  }

  lemma {:induction false} OneFewer(v: bv32, n: nat)
    requires v != 0 && FitsBelow(v, n)
    ensures OnesBelow(v, n) == 1 + OnesBelow(v & (v - 1), n)
    decreases n
  {
    if n > 0 {
      LowestBit(v);
      if v & 1 == 1 {
        OddLosesLowest(v);
      } else {
        EvenKeepsLowest(v);
        OneFewer(v >> 1, n - 1);
      }
    }
  }

  lemma {:induction false} NoOnes(n: nat)
    ensures OnesBelow(0, n) == 0
  {
    if n > 0 {
      assert (0 as bv32) >> 1 == 0;
      NoOnes(n - 1);
    }
  }

  /** The count is that of the one bits: none for zero, and clearing the lowest one bit lowers it by one. */
  lemma CountsOnes(v: bv32)
    ensures CountOnes(0) == 0
    ensures v != 0 ==> CountOnes(v) == 1 + CountOnes(v & (v - 1))
  {
    NoOnes(32);
    if v != 0 {
      AnythingFits(v);
      OneFewer(v, 32);
    }
  }

  function Clamped(mask: bv32, asked: u32): Option<RollingConfig> {
    if mask == 0 then None
    else
      var available := CountOnes(mask);
      Some(RollingConfig(mask, if asked <= available then asked else available))
  }

  /** `negotiate_version_rolling`. */
  function Negotiate(requested: RollingConfig): Option<RollingConfig> {
    Clamped(ROLLING_MASK & requested.mask, requested.minBitCount)
  }

  lemma {:induction false} OnesMonotone(a: bv32, b: bv32, n: nat)
    requires Within(a, b)
    ensures OnesBelow(a, n) <= OnesBelow(b, n)
    decreases n
  {
    if n > 0 {
      ShiftWithin(a, b);
      OnesMonotone(a >> 1, b >> 1, n - 1);
    }
  }

  lemma ShiftWithin(a: bv32, b: bv32)
    requires Within(a, b)
    ensures Within(a >> 1, b >> 1) && (a & 1 == 1 ==> b & 1 == 1)
  {
  }

  /** What a session may roll: only bits of the standard mask, and no promise of more bits than the mask has. */
  predicate SafeConfig(c: RollingConfig) {
    c.mask != 0 && Within(c.mask, ROLLING_MASK) && c.minBitCount <= CountOnes(c.mask)
  }

  /** The outcome is safe, and neither rolls nor promises more than was asked for. */
  predicate AsksNoMore(outcome: Option<RollingConfig>, requested: RollingConfig) {
    outcome.Some? ==>
      && SafeConfig(outcome.value)
      && Within(outcome.value.mask, requested.mask)
      && CountOnes(outcome.value.mask) <= CountOnes(requested.mask)
      && outcome.value.minBitCount <= requested.minBitCount
  }

  /** Whatever is asked for, what is negotiated is safe and asks no more than the miner did. */
  lemma NegotiatedIsSafe(requested: RollingConfig)
    ensures AsksNoMore(Negotiate(requested), requested)
  {
    MaskWithin(requested.mask);
    ClampedIsSafe(ROLLING_MASK & requested.mask, requested);
  }

  lemma ClampedIsSafe(mask: bv32, requested: RollingConfig)
    requires Within(mask, ROLLING_MASK) && Within(mask, requested.mask)
    ensures AsksNoMore(Clamped(mask, requested.minBitCount), requested)
  {
    OnesMonotone(mask, requested.mask, 32);
  }

  lemma MaskWithin(m: bv32)
    ensures Within(ROLLING_MASK & m, ROLLING_MASK) && Within(ROLLING_MASK & m, m)
  {
  }

  /** And it is the most that can be given: bits pass it exactly when both sides allow them. */
  lemma NegotiatedIsLargest(requested: RollingConfig, bits: bv32)
    ensures (Within(bits, ROLLING_MASK) && Within(bits, requested.mask)) <==>
              match Negotiate(requested)
              case Some(c) => Within(bits, c.mask)
              case None => bits == 0
  {
    WithinBoth(bits, ROLLING_MASK, requested.mask);
    WithinNothing(bits);
  }

  lemma WithinBoth(bits: bv32, a: bv32, b: bv32)
    ensures Within(bits, a & b) <==> Within(bits, a) && Within(bits, b)
  {
    OutsideEither(bits, a, b);
    NoBits(bits & !a, bits & !b);
  }

  lemma OutsideEither(bits: bv32, a: bv32, b: bv32)
    ensures bits & !(a & b) == (bits & !a) | (bits & !b)
  {
  }

  lemma NoBits(x: bv32, y: bv32)
    ensures x | y == 0 <==> x == 0 && y == 0
  {
  }

  lemma WithinNothing(bits: bv32)
    ensures Within(bits, 0) <==> bits == 0
  {
  }

  /**
   Negotiation in the terms of the source: nothing when the two masks share no bit, otherwise the
   shared bits and the smaller of the bit count asked for and the number of shared bits.
   */
  lemma NegotiatedExactly(requested: RollingConfig)
    ensures var shared := 0x1fff_e000 & requested.mask;
            && (Negotiate(requested).None? <==> shared == 0)
            && (shared != 0 ==>
                  && Negotiate(requested).value.mask == shared
                  && Negotiate(requested).value.minBitCount <= CountOnes(shared)
                  && Negotiate(requested).value.minBitCount <= requested.minBitCount
                  && Negotiate(requested).value.minBitCount in {CountOnes(shared), requested.minBitCount})
  {
  }
}
