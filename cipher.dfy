/** The SecurityAccess (service 0x27) seed-to-key cipher: a 16-bit shift
    register that is clocked between 1 and 16 times, the count being taken
    from four bits of the seed.

    TD5Tester.py works on unbounded non-negative integers with shifts and
    masks. Every value here stays below 2^16, so each bit operation is
    written as the integer arithmetic it performs on such values:
    `x >> i` is `x / 2^i`, `x & 1` is `x % 2`, `x & m` for a single-bit mask
    `m` is `x / m % 2 * m`, `x | (t << 15)` with `x < 2^15` and `t` a bit is
    `x + t * 2^15`, `x & ~1` is `x - x % 2` and `x | 1` is `x - x % 2 + 1`. */
module Cipher {
  import opened Bytes

  function Pow2(n: nat): (p: nat)
    ensures p >= 1
  {
    if n == 0 then 1 else 2 * Pow2(n - 1)
  }

  /** Bit `i` of `s`, that is `(s >> i) & 1`. */
  function Bit(s: nat, i: nat): (b: nat)
  {
    (s / Pow2(i)) % 2
  }

  /** The iteration count `((seed >> 12) & 8) + ((seed >> 5) & 4) +
      ((seed >> 3) & 2) + (seed & 1) + 1`. */
  function IterationCount(seed: nat): (n: nat)
    requires seed < 0x1_0000
    ensures 1 <= n <= 16
  {
    (seed / 0x1000) / 8 % 2 * 8 + (seed / 0x20) / 4 % 2 * 4 + (seed / 0x8) / 2 % 2 * 2 + seed % 2 + 1
  }

  /** The four terms of the iteration count select bits 15, 7, 4 and 0 of
      the seed, with weights 8, 4, 2 and 1. */
  lemma IterationCountBits(seed: nat)
    requires seed < 0x1_0000
    ensures IterationCount(seed) == 1 + 8 * Bit(seed, 15) + 4 * Bit(seed, 7) + 2 * Bit(seed, 4) + Bit(seed, 0)
  {
    BitOf(seed, 15, 0x8000);
    BitOf(seed, 7, 0x80);
    BitOf(seed, 4, 0x10);
    BitOf(seed, 0, 1);
    assert seed / 0x1000 / 8 == seed / 0x8000;
    assert seed / 0x20 / 4 == seed / 0x80;
    assert seed / 0x8 / 2 == seed / 0x10;
  }

  /** One clock of the register: the tap is the low bit of
      `(s >> 1) + (s >> 2) + (s >> 8) + (s >> 9)`, `s >> 1` gets the tap as
      bit 15, and bit 0 is then cleared when bits 3 and 13 of `s` are both
      set, and set otherwise. */
  function Step(s: nat): (r: nat)
    requires s < 0x1_0000
    ensures r < 0x1_0000
  {
    var tap := (s / 2 + s / 4 + s / 0x100 + s / 0x200) % 2;
    var tmp := s / 2 + tap * 0x8000;
    if (s / 0x8) % 2 == 1 && (s / 0x2000) % 2 == 1 then tmp - tmp % 2 else tmp - tmp % 2 + 1
  }

  /** The register after `n` clocks. */
  function Clock(s: nat, n: nat): (r: nat)
    requires s < 0x1_0000
    ensures r < 0x1_0000
    decreases n
  {
    if n == 0 then s else Clock(Step(s), n - 1)
  }

  /** The key for a 16-bit seed: the high and the low byte of the register
      after `IterationCount(seed)` clocks. */
  function Key(seed: nat): (key: (Byte, Byte))
    requires seed < 0x1_0000
  {
    Split(Clock(seed, IterationCount(seed)))
  }

  /** A 16-bit register as its high and its low byte, `(s >> 8, s & 255)`. */
  function Split(s: nat): (bytes: (Byte, Byte))
    requires s < 0x1_0000
  {
    (s / 256, s % 256)
  }

  /** The key calculation loop: `seed` is clocked in place `count` times. */
  method CalculateKey(seed0: nat) returns (keyHi: Byte, keyLo: Byte)
    requires seed0 < 0x1_0000
    ensures (keyHi, keyLo) == Key(seed0)
  {
    var seed: nat := seed0;
    var count := IterationCount(seed);
    for idx := 0 to count
      invariant seed < 0x1_0000
      invariant Clock(seed, count - idx) == Clock(seed0, count)
    {
      seed := ClockOnce(seed);
    }
    keyHi, keyLo := seed / 256, seed % 256;
  }

  /** The body of the key calculation loop: compute the tap and the
      shifted register, then clear or set bit 0. */
  method ClockOnce(seed: nat) returns (next: nat)
    requires seed < 0x1_0000
    ensures next == Step(seed)
  {
    var tap := (seed / 2 + seed / 4 + seed / 0x100 + seed / 0x200) % 2;
    var tmp := seed / 2 + tap * 0x8000;
    if (seed / 0x8) % 2 == 1 && (seed / 0x2000) % 2 == 1 {
      next := tmp - tmp % 2;
    } else {
      next := tmp - tmp % 2 + 1;
    }
  }

  lemma Parity(a: nat, b: nat, c: nat, d: nat)
    ensures (a + b + c + d) % 2 == (a % 2 + b % 2 + c % 2 + d % 2) % 2
  {
  }

  /** One clock, bit by bit: bit 15 becomes the parity of bits 1, 2, 8 and 9. */
  lemma StepFeedback(s: nat)
    requires s < 0x1_0000
    ensures Bit(Step(s), 15) == (Bit(s, 1) + Bit(s, 2) + Bit(s, 8) + Bit(s, 9)) % 2
  {
    BitOf(Step(s), 15, 0x8000);
    StepHigh(s);
    Feedback(s, Step(s));
  }

  /** A register whose bit 15 is the tap of `s`. */
  lemma Feedback(s: nat, r: nat)
    requires r < 0x1_0000 && r / 0x8000 == (s / 2 + s / 4 + s / 0x100 + s / 0x200) % 2
    ensures r / 0x8000 % 2 == (Bit(s, 1) + Bit(s, 2) + Bit(s, 8) + Bit(s, 9)) % 2
  {
    BitOf(s, 1, 2);
    BitOf(s, 2, 4);
    BitOf(s, 8, 0x100);
    BitOf(s, 9, 0x200);
    Parity(s / 2, s / 4, s / 0x100, s / 0x200);
  }

  /** One clock: bits 1 to 14 are bits 2 to 15 of the old register. */
  lemma StepShifts(s: nat)
    requires s < 0x1_0000
    ensures (Step(s) / 2) % 0x4000 == (s / 4) % 0x4000
  {
    var tap := (s / 2 + s / 4 + s / 0x100 + s / 0x200) % 2;
    StepMiddle(s);
    if tap == 1 {
      assert (s / 4 + 0x4000) % 0x4000 == (s / 4) % 0x4000;
    }
  }

  /** One clock: bit 0 is cleared exactly when bits 3 and 13 were both set. */
  lemma StepLowBit(s: nat)
    requires s < 0x1_0000
    ensures Bit(Step(s), 0) == 0 <==> Bit(s, 3) == 1 && Bit(s, 13) == 1
  {
    BitOf(Step(s), 0, 1);
    BitOf(s, 3, 8);
    BitOf(s, 13, 0x2000);
    StepLow(s);
  }

  /** Bit `i` of `x` once `2^i` is known. */
  lemma BitOf(x: nat, i: nat, p: nat)
    requires i <= 15 && p == [1, 2, 4, 8, 0x10, 0x20, 0x40, 0x80, 0x100, 0x200, 0x400, 0x800, 0x1000, 0x2000, 0x4000, 0x8000][i]
    ensures Bit(x, i) == x / p % 2
  {
    assert Pow2(i) == p by {
      Pow2Table(i);
    }
  }

  lemma {:induction false} Pow2Table(i: nat)
    requires i <= 15
    ensures Pow2(i) == [1, 2, 4, 8, 0x10, 0x20, 0x40, 0x80, 0x100, 0x200, 0x400, 0x800, 0x1000, 0x2000, 0x4000, 0x8000][i]
  {
    if i > 0 {
      Pow2Table(i - 1);
    }
  }

  /** Bit 0 after one clock: cleared when bits 3 and 13 are both set. */
  lemma StepLow(s: nat)
    requires s < 0x1_0000
    ensures Step(s) % 2 == if (s / 0x8) % 2 == 1 && (s / 0x2000) % 2 == 1 then 0 else 1
  {
    var tap := (s / 2 + s / 4 + s / 0x100 + s / 0x200) % 2;
    ClearOrSet(s / 2 + tap * 0x8000);
  }

  /** Clearing or setting bit 0 of `t`. */
  lemma ClearOrSet(t: int)
    ensures (t - t % 2) % 2 == 0 && (t - t % 2 + 1) % 2 == 1
    ensures (t - t % 2) / 2 == t / 2 && (t - t % 2 + 1) / 2 == t / 2
  {
  }

  /** Bits 1 to 15 after one clock: the old register shifted right by one,
      with the tap as the new bit 15. */
  lemma StepMiddle(s: nat)
    requires s < 0x1_0000
    ensures var tap := (s / 2 + s / 4 + s / 0x100 + s / 0x200) % 2;
            Step(s) / 2 == s / 4 + tap * 0x4000
  {
    var tap := (s / 2 + s / 4 + s / 0x100 + s / 0x200) % 2;
    var tmp := s / 2 + tap * 0x8000;
    assert tmp / 2 == s / 4 + tap * 0x4000;
    ClearOrSet(tmp);
  }

  /** Bit 15 after one clock is the tap. */
  lemma StepHigh(s: nat)
    requires s < 0x1_0000
    ensures Step(s) / 0x8000 == (s / 2 + s / 4 + s / 0x100 + s / 0x200) % 2
  {
    StepMiddle(s);
  }

  /** The seed/key pair of the captured SecurityAccess exchange: seed
      0x5225 is clocked twice and gives the key 0x14 0x89. */
  lemma CapturedSeedKey()
    ensures IterationCount(0x5225) == 2
    ensures Key(0x5225) == (0x14, 0x89)
  {
    assert Step(0x5225) == 0x2913;
    assert Step(0x2913) == 0x1489;
  }
}
