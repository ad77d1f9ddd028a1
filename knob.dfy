/** The quadrature knob decoder: a state machine over the 2-bit phase code (B<<1)|A
    that records a direction on one-step edges and keeps a rotation clamped to [0, 8]. */
module KnobDecoder {
  import opened Globals

  const ROTATION_MIN: int := 0
  const ROTATION_MAX: int := 8

  /** How the decoder reacts to a pair (previous code, current code). */
  datatype Edge = Forward | Backward | Skip | Ignored

  /** The phase code (knobB << 1) | knobA, truncated to uint8_t. */
  function PhaseCode(knobA: bv8, knobB: bv8): (code: bv8)
    ensures knobA <= 1 && knobB <= 1 ==> code <= 3 && code == 2 * knobB + knobA
  {
    (knobB << 1) | knobA
  }

  /** Position of a 2-bit code on the quadrature cycle 00 -> 01 -> 11 -> 10 -> 00. */
  function CyclePosition(code: bv8): (p: int)
    requires code <= 3
    ensures 0 <= p < 4
  {
    if code == 0 then 0 else if code == 1 then 1 else if code == 3 then 2 else 3
  }

  /** The decision chain of updateState. */
  function Classify(prev: bv8, cur: bv8): (e: Edge)
    ensures e != Ignored ==> prev <= 3 && cur <= 3 && prev != cur
  {
    if prev == 0 && cur == 1 then Forward
    else if prev == 0 && cur == 2 then Backward
    else if prev == 1 && cur == 3 then Forward
    else if prev == 2 && cur == 3 then Backward
    else if prev == 3 && cur == 2 then Forward
    else if prev == 3 && cur == 1 then Backward
    else if (prev == 3 && cur == 0) || (prev == 0 && cur == 3) then Skip
    else Ignored
  }

  /** Measured against the quadrature cycle, a recorded direction is always one step
      in that direction, every one-step edge except those arriving at 00 is recorded,
      and the only skip edges are 00 <-> 11. */
  lemma ClassifyFollowsCycle(prev: bv8, cur: bv8)
    ensures Classify(prev, cur) == Forward <==>
      prev <= 3 && cur <= 3 && cur != 0 && CyclePosition(cur) == (CyclePosition(prev) + 1) % 4
    ensures Classify(prev, cur) == Backward <==>
      prev <= 3 && cur <= 3 && cur != 0 && CyclePosition(cur) == (CyclePosition(prev) + 3) % 4
    ensures Classify(prev, cur) == Skip <==>
      prev <= 3 && cur <= 3 && (prev == 0 || cur == 0) && CyclePosition(cur) == (CyclePosition(prev) + 2) % 4
  {
  }

  /** Two's-complement truncation of an int to int8_t. */
  function Wrap8(x: int): (r: Int8)
    ensures (x - r) % 0x100 == 0
    ensures -0x80 <= x < 0x80 ==> r == x
  {
    (x + 0x80) % 0x100 - 0x80
  }

  /** The saturating clamp of constrainRotation. */
  function ClampRotation(x: int): (r: int)
    ensures ROTATION_MIN <= r <= ROTATION_MAX
    ensures ROTATION_MIN <= x <= ROTATION_MAX ==> r == x
    ensures x > ROTATION_MAX ==> r == ROTATION_MAX
    ensures x < ROTATION_MIN ==> r == ROTATION_MIN
  {
    if x > ROTATION_MAX then ROTATION_MAX else if x < ROTATION_MIN then ROTATION_MIN else x
  }

  /** The decoder's three values: prevKnobState, lastValidRotation and the rotation cell. */
  datatype KnobState = KnobState(prev: bv8, lastDir: Int8, rotation: Int8)

  /** lastValidRotation only ever holds -1, 0 or +1. */
  predicate WellFormed(s: KnobState)
  {
    -1 <= s.lastDir <= 1
  }

  /** State after construction over a rotation cell holding `rotation`. */
  function Initial(rotation: Int8): (s: KnobState)
    ensures WellFormed(s) && s.prev == 0 && s.lastDir == 0 && s.rotation == rotation
  {
    KnobState(0, 0, rotation)
  }

  /** updateState(knobA, knobB). */
  function Update(s: KnobState, knobA: bv8, knobB: bv8): (t: KnobState)
    ensures t.prev == PhaseCode(knobA, knobB)
    ensures Classify(s.prev, t.prev) == Forward ==> t.lastDir == 1 && t.rotation == s.rotation
    ensures Classify(s.prev, t.prev) == Backward ==> t.lastDir == -1 && t.rotation == s.rotation
    ensures Classify(s.prev, t.prev) == Skip ==>
      t.lastDir == s.lastDir && t.rotation == Wrap8(s.rotation + s.lastDir)
    ensures Classify(s.prev, t.prev) == Ignored ==> t.lastDir == s.lastDir && t.rotation == s.rotation
    ensures WellFormed(s) ==> WellFormed(t)
  {
    var code := PhaseCode(knobA, knobB);
    match Classify(s.prev, code)
    case Forward => KnobState(code, 1, s.rotation)
    case Backward => KnobState(code, -1, s.rotation)
    case Skip => KnobState(code, s.lastDir, Wrap8(s.rotation + s.lastDir))
    case Ignored => KnobState(code, s.lastDir, s.rotation)
  }

  /** constrainRotation(): add the recorded direction (in int8_t) and saturate into [0, 8]. */
  function Constrain(s: KnobState): (t: KnobState)
    ensures t.prev == s.prev && t.lastDir == s.lastDir
    ensures ROTATION_MIN <= t.rotation <= ROTATION_MAX
    ensures -0x80 <= s.rotation + s.lastDir < 0x80 ==> t.rotation == ClampRotation(s.rotation + s.lastDir)
  {
    s.(rotation := ClampRotation(Wrap8(s.rotation + s.lastDir)))
  }

  /** Before constrainRotation runs, a skip edge can carry the rotation one step past
      either end of [0, 8], but no further. */
  lemma UpdateStaysNear(s: KnobState, knobA: bv8, knobB: bv8)
    requires WellFormed(s) && ROTATION_MIN <= s.rotation <= ROTATION_MAX
    ensures ROTATION_MIN - 1 <= Update(s, knobA, knobB).rotation <= ROTATION_MAX + 1
  {
  }

  /** The two overshoots do happen: the skip edge 00 -> 11 at rotation 8 moving forward
      leaves 9, and at rotation 0 moving backward leaves -1. */
  lemma UpdateMayOvershoot(s: KnobState)
    requires s.prev == 0 && WellFormed(s)
    ensures s.lastDir == 1 && s.rotation == ROTATION_MAX ==> Update(s, 1, 1).rotation == ROTATION_MAX + 1
    ensures s.lastDir == -1 && s.rotation == ROTATION_MIN ==> Update(s, 1, 1).rotation == ROTATION_MIN - 1
  {
    assert PhaseCode(1, 1) == 3;
  }

  /** What one scan cycle does to the knob: updateState, then constrainRotation. */
  function AfterScan(s: KnobState, knobA: bv8, knobB: bv8): (t: KnobState)
    ensures t.prev == PhaseCode(knobA, knobB)
    ensures ROTATION_MIN <= t.rotation <= ROTATION_MAX
    ensures WellFormed(s) ==> WellFormed(t)
  {
    Constrain(Update(s, knobA, knobB))
  }

  /** The knob after a scan cycle for each reading of (knobA, knobB) in turn. */
  function Run(s: KnobState, readings: seq<(bv8, bv8)>): KnobState
    decreases |readings|
  {
    if readings == [] then s
    else Run(AfterScan(s, readings[0].0, readings[0].1), readings[1..])
  }

  /** However long the knob is turned, and in whatever pattern, the recorded
      direction stays in {-1, 0, +1} and the rotation stays in [0, 8]. */
  lemma {:induction false} RunStaysInRange(s: KnobState, readings: seq<(bv8, bv8)>)
    requires WellFormed(s)
    requires ROTATION_MIN <= s.rotation <= ROTATION_MAX || readings != []
    ensures WellFormed(Run(s, readings))
    ensures ROTATION_MIN <= Run(s, readings).rotation <= ROTATION_MAX
    decreases |readings|
  {
    if readings != [] {
      RunStaysInRange(AfterScan(s, readings[0].0, readings[0].1), readings[1..]);
    }
  }

  /** n scan cycles with the same (knobA, knobB) reading. */
  function Hold(s: KnobState, knobA: bv8, knobB: bv8, n: nat): KnobState
  {
    if n == 0 then s else AfterScan(Hold(s, knobA, knobB, n - 1), knobA, knobB)
  }

  /** A scan cycle that reads the code already recorded only applies constrainRotation. */
  lemma StillCycle(h: KnobState, knobA: bv8, knobB: bv8)
    requires h.prev == PhaseCode(knobA, knobB)
    requires ROTATION_MIN <= h.rotation <= ROTATION_MAX && -1 <= h.lastDir <= 1
    ensures AfterScan(h, knobA, knobB) == h.(rotation := ClampRotation(h.rotation + h.lastDir))
  {
    assert Classify(h.prev, h.prev) == Ignored;
  }

  /** The rotation after n applications of constrainRotation's clamped step by d. */
  function DriftRotation(r: int, d: int, n: nat): int
  {
    if n == 0 then r else ClampRotation(DriftRotation(r, d, n - 1) + d)
  }

  /** Drifting by +1 or -1 saturates: n steps from r land on r + n or r - n, clamped. */
  lemma {:induction false} DriftSaturates(r: int, d: int, n: nat)
    requires ROTATION_MIN <= r <= ROTATION_MAX && -1 <= d <= 1
    ensures d == 1 ==> DriftRotation(r, d, n) == ClampRotation(r + n)
    ensures d == -1 ==> DriftRotation(r, d, n) == ClampRotation(r - n)
    ensures d == 0 ==> DriftRotation(r, d, n) == r
  {
    if n > 0 {
      DriftSaturates(r, d, n - 1);
    }
  }

  /** With the knob held still, each scan cycle still adds the recorded direction:
      after n cycles only the rotation has changed, by n clamped steps of lastValidRotation. */
  lemma {:induction false} HoldingStillDrifts(s: KnobState, knobA: bv8, knobB: bv8, n: nat)
    requires WellFormed(s) && s.prev == PhaseCode(knobA, knobB)
    requires ROTATION_MIN <= s.rotation <= ROTATION_MAX
    ensures Hold(s, knobA, knobB, n) == s.(rotation := DriftRotation(s.rotation, s.lastDir, n))
  {
    if n > 0 {
      HoldingStillDrifts(s, knobA, knobB, n - 1);
      var h := s.(rotation := DriftRotation(s.rotation, s.lastDir, n - 1));
      StillCycle(h, knobA, knobB);
    }
  }

  /** Held still, the knob keeps turning in the recorded direction until it saturates at 0 or 8. */
  lemma HoldingStillSaturates(s: KnobState, knobA: bv8, knobB: bv8, n: nat)
    requires WellFormed(s) && s.prev == PhaseCode(knobA, knobB)
    requires ROTATION_MIN <= s.rotation <= ROTATION_MAX
    ensures Hold(s, knobA, knobB, n).prev == s.prev && Hold(s, knobA, knobB, n).lastDir == s.lastDir
    ensures s.lastDir == 1 ==> Hold(s, knobA, knobB, n).rotation == ClampRotation(s.rotation + n)
    ensures s.lastDir == -1 ==> Hold(s, knobA, knobB, n).rotation == ClampRotation(s.rotation - n)
    ensures s.lastDir == 0 ==> Hold(s, knobA, knobB, n).rotation == s.rotation
  {
    HoldingStillDrifts(s, knobA, knobB, n);
    DriftSaturates(s.rotation, s.lastDir, n);
  }

  /** The decoder object. The rotation cell, an atomic shared with the audio
      routine in the source, is a plain field here. */
  class Knob {
    var rotation: Int8
    var prevKnobState: bv8
    var lastValidRotation: Int8

    ghost function State(): KnobState
      reads this
    {
      KnobState(prevKnobState, lastValidRotation, rotation)
    }

    ghost predicate Valid()
      reads this
    {
      WellFormed(State())
    }

    constructor (initialRotation: Int8)
      ensures Valid() && State() == Initial(initialRotation)
    {
      rotation := initialRotation;
      prevKnobState := 0;
      lastValidRotation := 0;
    }

    method UpdateState(knobA: bv8, knobB: bv8)
      modifies this
      ensures State() == Update(old(State()), knobA, knobB)
      ensures old(Valid()) ==> Valid()
    {
      var currentKnobState := (knobB << 1) | knobA;
      if prevKnobState == 0 && currentKnobState == 1 {
        lastValidRotation := 1;
      } else if prevKnobState == 0 && currentKnobState == 2 {
        lastValidRotation := -1;
      } else if prevKnobState == 1 && currentKnobState == 3 {
        lastValidRotation := 1;
      } else if prevKnobState == 2 && currentKnobState == 3 {
        lastValidRotation := -1;
      } else if prevKnobState == 3 && currentKnobState == 2 {
        lastValidRotation := 1;
      } else if prevKnobState == 3 && currentKnobState == 1 {
        lastValidRotation := -1;
      } else if (prevKnobState == 3 && currentKnobState == 0) || (prevKnobState == 0 && currentKnobState == 3) {
        // a skipped state: assume the last recorded direction (fetch_add wraps in int8_t)
        rotation := Wrap8(rotation + lastValidRotation);
      }
      prevKnobState := currentKnobState;
    }

    method ConstrainRotation()
      modifies this`rotation
      ensures State() == Constrain(old(State()))
      ensures ROTATION_MIN <= rotation <= ROTATION_MAX
    {
      var newRotation := Wrap8(rotation + lastValidRotation);
      if newRotation > ROTATION_MAX {
        newRotation := ROTATION_MAX;
      }
      if newRotation < ROTATION_MIN {
        newRotation := ROTATION_MIN;
      }
      rotation := newRotation;
    }

    method GetRotation() returns (r: Int8)
      ensures r == rotation
    {
      r := rotation;
    }
  }
}
