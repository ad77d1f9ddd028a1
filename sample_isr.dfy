/** The audio sample routine run from the sample timer: a wrapping 32-bit phase
    accumulator, a sawtooth taken from its top byte, a volume shift set by the
    knob, and the level written to the analogue output. */
module Synth {
  import opened Globals
  import KnobDecoder

  /** Loudest volume: at rotation 8 the sample is not attenuated at all. */
  const MAX_VOLUME: int := 8

  function Pow2(n: nat): (p: nat)
    ensures p >= 1
  {
    if n == 0 then 1 else 2 * Pow2(n - 1)
  }

  lemma {:induction false} Pow2AtLeast(m: nat, n: nat)
    requires m <= n
    ensures Pow2(m) <= Pow2(n)
  {
    if m < n {
      Pow2AtLeast(m, n - 1);
    }
  }

  /** phaseAcc += currentStepSize on a uint32_t: the sum wraps past 2^32 - 1. */
  function AdvancePhase(phase: Uint32, step: Uint32): (r: Uint32)
    ensures phase + step < TWO_32 ==> r == phase + step
    ensures phase + step >= TWO_32 ==> r == phase + step - TWO_32
  {
    (phase + step) % TWO_32
  }

  /** The value an int32_t takes when assigned a uint32_t bit pattern. */
  function ToInt32(x: Uint32): (r: int)
    ensures -0x8000_0000 <= r < 0x8000_0000
    ensures (x - r) % TWO_32 == 0
  {
    if x < 0x8000_0000 then x else x - TWO_32
  }

  /** int32_t Vout = (phaseAcc >> 24) - 128. The subtraction is done in uint32_t
      and wraps below zero; storing into int32_t undoes the wrap, so the sample is
      the top byte of the phase, centred on zero. */
  function RawSample(phase: Uint32): (v: int)
    ensures -128 <= v <= 127
    ensures v + 128 == phase / 0x100_0000
  {
    var top := phase / 0x100_0000;
    ToInt32((top - 128) % TWO_32)
  }

  /** Vout >> shift on int32_t: an arithmetic shift, which is division by 2^shift
      rounded toward minus infinity (Dafny's division by a positive number). A shift
      of 32 or more is undefined in the source, hence the precondition. */
  function ArithShiftRight(v: int, shift: nat): (r: int)
    requires shift < 32
    ensures 0 <= v ==> 0 <= r <= v
    ensures v < 0 ==> v <= r < 0
    ensures shift == 0 ==> r == v
    ensures -128 <= v <= 127 && shift >= 8 ==> r == 0 || r == -1
  {
    ShiftFacts(v, shift);
    v / Pow2(shift)
  }

  lemma MulBounds(q: int, p: int)
    requires p >= 1
    ensures q <= -1 ==> q * p <= -p
    ensures q >= 1 ==> q * p >= p
    ensures q >= 0 ==> q * p >= q
    ensures q <= 0 ==> q * p <= q
    ensures q <= -2 ==> q * p <= -2 * p
  {
  }

  lemma DivNonNegative(v: int, p: int)
    requires 0 <= v && p >= 1
    ensures 0 <= v / p <= v
  {
    MulBounds(v / p, p);
  }

  lemma DivNegative(v: int, p: int)
    requires v < 0 && p >= 1
    ensures v <= v / p < 0
  {
    var q := v / p;
    MulBounds(q, p);
    MulBounds(q + 1, p);
    assert (q + 1) * p == q * p + p;
  }

  lemma DivSmall(v: int, p: int)
    requires p >= 1 && -p <= v < p
    ensures v / p == 0 || v / p == -1
  {
    MulBounds(v / p, p);
  }

  lemma ShiftFacts(v: int, shift: nat)
    requires shift < 32
    ensures 0 <= v ==> 0 <= v / Pow2(shift) <= v
    ensures v < 0 ==> v <= v / Pow2(shift) < 0
    ensures -128 <= v <= 127 && shift >= 8 ==> v / Pow2(shift) == 0 || v / Pow2(shift) == -1
  {
    if 0 <= v {
      DivNonNegative(v, Pow2(shift));
    } else {
      DivNegative(v, Pow2(shift));
    }
    if -128 <= v <= 127 && shift >= 8 {
      Pow2AtLeast(8, shift);
      assert Pow2(8) == 256;
      DivSmall(v, Pow2(shift));
    }
  }

  /** analogWrite level (Vout + 128) / 20. The dividend is never negative, so C's
      truncating division and Dafny's division agree. */
  function OutputLevel(vout: int): (level: int)
    requires -128 <= vout <= 127
    ensures 0 <= level <= 12
    ensures 20 * level <= vout + 128 < 20 * level + 20
  {
    (vout + 128) / 20
  }

  /** The level written for a given phase at a given knob rotation. The shift
      amount MAX_VOLUME - rotation must lie in [0, 31]. */
  function Level(phase: Uint32, rotation: int): (level: int)
    requires MAX_VOLUME - 31 <= rotation <= MAX_VOLUME
    ensures 0 <= level <= 12
  {
    OutputLevel(ArithShiftRight(RawSample(phase), MAX_VOLUME - rotation))
  }

  /** The shift amount stays in [0, 8] exactly when the rotation does, and the two
      ends of that range are full volume and near silence. */
  lemma VolumeRange(phase: Uint32, rotation: int)
    requires KnobDecoder.ROTATION_MIN <= rotation <= KnobDecoder.ROTATION_MAX
    ensures 0 <= MAX_VOLUME - rotation <= 8
    ensures rotation == KnobDecoder.ROTATION_MAX ==> ArithShiftRight(RawSample(phase), MAX_VOLUME - rotation) == RawSample(phase)
    ensures rotation == KnobDecoder.ROTATION_MIN ==>
      var scaled := ArithShiftRight(RawSample(phase), MAX_VOLUME - rotation);
      scaled == 0 || scaled == -1
  {
  }

  function Abs(x: int): nat
  {
    if x < 0 then -x else x
  }

  /** Division is determined by any quotient and remainder that fit. */
  lemma DivUnique(v: int, d: int, x: int, y: int)
    requires d >= 1 && v == d * x + y && 0 <= y < d
    ensures v / d == x
  {
    var x', y' := v / d, v % d;
    assert d * (x - x') == y' - y;
    MulBounds(x - x', d);
    assert d * (x - x') == (x - x') * d;
  }

  /** Shifting by one more bit halves the already shifted value (rounding down). */
  lemma ShiftOneMore(v: int, shift: nat)
    requires shift < 31
    ensures ArithShiftRight(v, shift + 1) == ArithShiftRight(v, shift) / 2
  {
    var p := Pow2(shift);
    var q := v / p;
    assert v == p * q + v % p;
    assert q == 2 * (q / 2) + q % 2;
    assert p * q == (2 * p) * (q / 2) + p * (q % 2);
    assert 0 <= p * (q % 2) <= p;
    DivUnique(v, 2 * p, q / 2, p * (q % 2) + v % p);
  }

  /** A larger rotation never makes a sample quieter: rotation 0 is the quietest
      setting and rotation 8 the loudest. */
  lemma {:induction false} LouderWithRotation(v: int, quiet: int, loud: int)
    requires MAX_VOLUME - 31 <= quiet <= loud <= MAX_VOLUME
    ensures Abs(ArithShiftRight(v, MAX_VOLUME - quiet)) <= Abs(ArithShiftRight(v, MAX_VOLUME - loud))
    decreases loud - quiet
  {
    if quiet < loud {
      LouderWithRotation(v, quiet + 1, loud);
      ShiftOneMore(v, MAX_VOLUME - (quiet + 1));
    }
  }

  lemma MulSucc(m: nat, step: int)
    ensures m * step + step == (m + 1) * step
  {
  }

  /** The phase after n sample periods at a fixed step size. */
  function PhaseAfter(phase: Uint32, step: Uint32, n: nat): Uint32
  {
    if n == 0 then phase else AdvancePhase(PhaseAfter(phase, step, n - 1), step)
  }

  lemma ModAddStep(a: int, step: int)
    ensures (a % TWO_32 + step) % TWO_32 == (a + step) % TWO_32
  {
    DivUnique(a + step, TWO_32, a / TWO_32 + (a % TWO_32 + step) / TWO_32, (a % TWO_32 + step) % TWO_32);
  }

  lemma ModStep(x: int, a: int, step: int, b: int)
    requires x == a % TWO_32 && b == a + step
    ensures (x + step) % TWO_32 == b % TWO_32
  {
    ModAddStep(a, step);
  }

  /** The accumulator is a counter modulo 2^32: after n periods it has advanced by n steps. */
  lemma {:induction false} PhaseCounts(phase: Uint32, step: Uint32, n: nat)
    ensures PhaseAfter(phase, step, n) == (phase + n * step) % TWO_32
  {
    if n > 0 {
      PhaseCounts(phase, step, n - 1);
      var before := PhaseAfter(phase, step, n - 1);
      MulSucc(n - 1, step);
      ModStep(before, phase + (n - 1) * step, step, phase + n * step);
      assert PhaseAfter(phase, step, n) == (before + step) % TWO_32;
    }
  }

  /** The static phase accumulator of the sample routine. */
  class SampleGenerator {
    var phaseAcc: Uint32

    constructor ()
      ensures phaseAcc == 0
    {
      phaseAcc := 0;
    }

    /** One sample period: advance the phase by the current step size and return
        the level written to the output pin. */
    method SampleIsr(shared: SharedState, knob: KnobDecoder.Knob) returns (level: int)
      requires MAX_VOLUME - 31 <= knob.rotation <= MAX_VOLUME
      modifies this
      ensures phaseAcc == AdvancePhase(old(phaseAcc), shared.currentStepSize)
      ensures level == Level(phaseAcc, knob.rotation)
      ensures 0 <= level <= 12
      ensures shared.currentStepSize == 0 ==> phaseAcc == old(phaseAcc) && level == Level(old(phaseAcc), knob.rotation)
    {
      phaseAcc := (phaseAcc + shared.currentStepSize) % TWO_32;
      var vout := RawSample(phaseAcc);
      var rotation := knob.GetRotation();
      vout := ArithShiftRight(vout, MAX_VOLUME - rotation);
      level := OutputLevel(vout);
    }
  }
}
