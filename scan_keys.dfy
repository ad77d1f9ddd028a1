/** One cycle of the key-scanning task: assemble the input snapshot from the 3 x 4 key
    matrix, pick the step size of the last-scanned pressed key, feed row 3 to the knob
    decoder, and emit one press/release frame for every key whose state changed. */
module ScanKeys {
  import opened Globals
  import opened KnobDecoder

  /** The octave byte every emitted frame carries. */
  const OCTAVE: Byte := 4

  /** What readCols() returns while one row is selected: bit c is column c. */
  type Cols = s: seq<bool> | |s| == 4 witness [true, true, true, true]

  /** The column readings of rows 0..3 during one cycle; rows 0..2 are keys, row 3 holds the knob. */
  type Readings = r: seq<Cols> | |r| == 4
    witness [[true, true, true, true], [true, true, true, true], [true, true, true, true], [true, true, true, true]]

  /** The fresh snapshot of a cycle: key row * 4 + col takes that column's reading,
      and no bit from 12 upwards is ever set. */
  function KeySnapshot(readings: Readings): (s: Snapshot)
    ensures forall row, col :: 0 <= row < 3 && 0 <= col < 4 ==> s[row * 4 + col] == readings[row][col]
    ensures forall k :: 0 <= k < NUM_KEYS ==> s[k] == readings[k / 4][k % 4]
    ensures forall i :: NUM_KEYS <= i < SNAPSHOT_BITS ==> !s[i]
  {
    seq(SNAPSHOT_BITS, (i: nat) => if i < NUM_KEYS then readings[i / 4][i % 4] else false)
  }

  /** The highest key below n that reads 0 (pressed), if any. */
  function LastPressedBelow(s: Snapshot, n: nat): (r: Option<nat>)
    requires n <= NUM_KEYS
    ensures r.Some? ==> r.value < n && !s[r.value] && forall j :: r.value < j < n ==> s[j]
    ensures r.None? ==> forall j :: 0 <= j < n ==> s[j]
  {
    if n == 0 then None
    else if !s[n - 1] then Some(n - 1)
    else LastPressedBelow(s, n - 1)
  }

  /** The step size a cycle publishes: the table entry of the highest-index pressed
      key (last one scanned wins), or 0 when no key is pressed. */
  function CycleStepSize(s: Snapshot, stepSizes: StepTable): (r: Uint32)
    ensures (forall k :: 0 <= k < NUM_KEYS ==> s[k]) ==> r == 0
    ensures (exists k :: 0 <= k < NUM_KEYS && !s[k]) ==>
      exists k :: 0 <= k < NUM_KEYS && !s[k] && r == stepSizes[k] && forall j :: k < j < NUM_KEYS ==> s[j]
  {
    match LastPressedBelow(s, NUM_KEYS)
    case None => 0
    case Some(k) => stepSizes[k]
  }

  /** The frame announcing that key `note` was pressed or released. */
  function NoteFrame(pressed: bool, note: Byte): (m: Frame)
    ensures m[0] == (if pressed then PRESS else RELEASE) && m[1] == OCTAVE && m[2] == note
    ensures forall i :: 3 <= i < 8 ==> m[i] == 0
  {
    [if pressed then PRESS else RELEASE, OCTAVE, note, 0, 0, 0, 0, 0]
  }

  /** The frames for keys 0..n-1 whose state differs between prev and cur, in key order. */
  function Messages(prev: Snapshot, cur: Snapshot, n: nat): (m: seq<Frame>)
    requires n <= NUM_KEYS
    ensures |m| <= n
  {
    if n == 0 then []
    else
      var tail := if prev[n - 1] != cur[n - 1] then [NoteFrame(!cur[n - 1], n - 1)] else [];
      Messages(prev, cur, n - 1) + tail
  }

  /** m is the press or release frame of a key below n that changed. */
  predicate Announces(prev: Snapshot, cur: Snapshot, n: nat, m: Frame)
    requires n <= NUM_KEYS
  {
    m[2] < n && prev[m[2]] != cur[m[2]] && m == NoteFrame(!cur[m[2]], m[2])
  }

  /** Every frame is the press or release frame of a key below n that changed. */
  lemma {:induction false} MessagesSound(prev: Snapshot, cur: Snapshot, n: nat)
    requires n <= NUM_KEYS
    ensures forall j :: 0 <= j < |Messages(prev, cur, n)| ==> Announces(prev, cur, n, Messages(prev, cur, n)[j])
  {
    if n > 0 {
      MessagesSound(prev, cur, n - 1);
      var m0 := Messages(prev, cur, n - 1);
      if prev[n - 1] != cur[n - 1] {
        var m := m0 + [NoteFrame(!cur[n - 1], n - 1)];
        assert Messages(prev, cur, n) == m;
        forall j | 0 <= j < |m|
          ensures Announces(prev, cur, n, m[j])
        {
          if j < |m0| { assert m[j] == m0[j]; assert Announces(prev, cur, n - 1, m0[j]); }
        }
      } else {
        assert Messages(prev, cur, n) == m0;
      }
    }
  }

  /** The notes of the frames strictly ascend. */
  lemma {:induction false} MessagesAscending(prev: Snapshot, cur: Snapshot, n: nat)
    requires n <= NUM_KEYS
    ensures forall j, k :: 0 <= j < k < |Messages(prev, cur, n)| ==>
      Messages(prev, cur, n)[j][2] < Messages(prev, cur, n)[k][2]
  {
    if n > 0 {
      MessagesAscending(prev, cur, n - 1);
      MessagesSound(prev, cur, n - 1);
      var m0 := Messages(prev, cur, n - 1);
      if prev[n - 1] != cur[n - 1] {
        var m := m0 + [NoteFrame(!cur[n - 1], n - 1)];
        assert Messages(prev, cur, n) == m;
        forall j, k | 0 <= j < k < |m| ensures m[j][2] < m[k][2] {
          assert m[j] == m0[j] && Announces(prev, cur, n - 1, m0[j]);
          if k < |m0| { assert m[k] == m0[k]; } else { assert m[k][2] == n - 1; }
        }
      } else {
        assert Messages(prev, cur, n) == m0;
      }
    }
  }

  /** The position, among the frames, of the frame for changed key i. */
  lemma {:induction false} FrameOf(prev: Snapshot, cur: Snapshot, n: nat, i: nat) returns (j: nat)
    requires i < n <= NUM_KEYS && prev[i] != cur[i]
    ensures j < |Messages(prev, cur, n)| && Messages(prev, cur, n)[j][2] == i
  {
    var m0 := Messages(prev, cur, n - 1);
    if prev[n - 1] != cur[n - 1] {
      assert Messages(prev, cur, n) == m0 + [NoteFrame(!cur[n - 1], n - 1)];
    } else {
      assert Messages(prev, cur, n) == m0;
    }
    if i == n - 1 {
      j := |m0|;
    } else {
      j := FrameOf(prev, cur, n - 1, i);
    }
  }

  /** Some frame of m carries note i. */
  predicate HasFrameFor(m: seq<Frame>, i: int)
  {
    exists j :: 0 <= j < |m| && m[j][2] == i
  }

  /** Every key below n that changed has a frame. */
  lemma MessagesComplete(prev: Snapshot, cur: Snapshot, n: nat)
    requires n <= NUM_KEYS
    ensures forall i :: 0 <= i < n && prev[i] != cur[i] ==> HasFrameFor(Messages(prev, cur, n), i)
  {
    forall i | 0 <= i < n && prev[i] != cur[i]
      ensures HasFrameFor(Messages(prev, cur, n), i)
    {
      var j := FrameOf(prev, cur, n, i);
    }
  }

  /** Edge detection is exact: every frame is the press or release frame of a key that
      changed, the notes are strictly ascending (so no key is announced twice), and
      every changed key is announced. */
  lemma MessagesExact(prev: Snapshot, cur: Snapshot, n: nat)
    requires n <= NUM_KEYS
    ensures var m := Messages(prev, cur, n);
      forall j :: 0 <= j < |m| ==>
        m[j][2] < n && prev[m[j][2]] != cur[m[j][2]] && m[j] == NoteFrame(!cur[m[j][2]], m[j][2])
    ensures var m := Messages(prev, cur, n);
      forall j, k :: 0 <= j < k < |m| ==> m[j][2] < m[k][2]
    ensures var m := Messages(prev, cur, n);
      forall i :: 0 <= i < n && prev[i] != cur[i] ==> exists j :: 0 <= j < |m| && m[j][2] == i
  {
    MessagesSound(prev, cur, n);
    MessagesAscending(prev, cur, n);
    MessagesComplete(prev, cur, n);
  }

  /** The keys below n whose state changed. */
  function ChangedKeys(prev: Snapshot, cur: Snapshot, n: nat): set<nat>
    requires n <= NUM_KEYS
  {
    set i: nat | i < n && prev[i] != cur[i]
  }

  /** As many frames are emitted as keys changed state: no more, no fewer. */
  lemma {:induction false} MessageCount(prev: Snapshot, cur: Snapshot, n: nat)
    requires n <= NUM_KEYS
    ensures |Messages(prev, cur, n)| == |ChangedKeys(prev, cur, n)|
  {
    if n > 0 {
      MessageCount(prev, cur, n - 1);
      var below := ChangedKeys(prev, cur, n - 1);
      if prev[n - 1] != cur[n - 1] {
        assert ChangedKeys(prev, cur, n) == below + {n - 1};
        assert n - 1 !in below;
      } else {
        assert ChangedKeys(prev, cur, n) == below;
      }
    }
  }

  /** A cycle that sees the previous cycle's snapshot again emits nothing. */
  lemma {:induction false} UnchangedIsSilent(s: Snapshot, n: nat)
    requires n <= NUM_KEYS
    ensures Messages(s, s, n) == []
  {
    UnchangedBelow(s, s, n);
  }

  /** The previous snapshot starts all zero ("all pressed"), so a first cycle with
      no key held releases every key, notes 0..n-1 in order. */
  lemma {:induction false} FirstCycleReleasesAll(cur: Snapshot, n: nat)
    requires n <= NUM_KEYS
    requires forall k :: 0 <= k < NUM_KEYS ==> cur[k]
    ensures |Messages(ZeroSnapshot(), cur, n)| == n
    ensures forall k :: 0 <= k < n ==> Messages(ZeroSnapshot(), cur, n)[k] == NoteFrame(false, k)
  {
    if n > 0 {
      FirstCycleReleasesAll(cur, n - 1);
      assert Messages(ZeroSnapshot(), cur, n) == Messages(ZeroSnapshot(), cur, n - 1) + [NoteFrame(false, n - 1)];
    }
  }

  /** When exactly one key k changed since the last cycle, the cycle emits exactly one
      frame: the press or release of k. Toggling key 0 pressed, released, pressed
      over three cycles therefore sends P, R, P for note 0. */
  lemma {:induction false} SingleChange(prev: Snapshot, cur: Snapshot, k: nat, n: nat)
    requires k < n <= NUM_KEYS
    requires prev[k] != cur[k]
    requires forall i :: 0 <= i < NUM_KEYS && i != k ==> prev[i] == cur[i]
    ensures Messages(prev, cur, n) == [NoteFrame(!cur[k], k)]
  {
    if n - 1 == k {
      UnchangedBelow(prev, cur, k);
    } else {
      SingleChange(prev, cur, k, n - 1);
    }
  }

  lemma {:induction false} UnchangedBelow(prev: Snapshot, cur: Snapshot, n: nat)
    requires n <= NUM_KEYS
    requires forall i :: 0 <= i < n ==> prev[i] == cur[i]
    ensures Messages(prev, cur, n) == []
  {
    if n > 0 {
      UnchangedBelow(prev, cur, n - 1);
    }
  }

  /** The knob lines of row 3: column 0 is A, column 1 is B. */
  function KnobLine(b: bool): (v: bv8)
    ensures v <= 1 && (v == 1 <==> b)
  {
    if b then 1 else 0
  }

  /** The snapshot with keys below m filled in from s and every other bit still 0. */
  function FilledBelow(s: Snapshot, m: nat): Snapshot
  {
    seq(SNAPSHOT_BITS, (i: nat) => if i < m && i < SNAPSHOT_BITS then s[i] else false)
  }

  lemma FillOne(s: Snapshot, m: nat)
    requires m < SNAPSHOT_BITS
    ensures FilledBelow(s, m)[m := s[m]] == FilledBelow(s, m + 1)
  {
  }

  /** The inner loop of step 1) for one row: each column reading goes to key
      row * 4 + col, and a column reading 0 makes that key the last pressed one. */
  method ScanRow(ghost target: Snapshot, row: nat, cols: Cols,
                 inputs: Snapshot, keyPressed: bool, lastPressedKey: Byte)
    returns (inputs': Snapshot, keyPressed': bool, lastPressedKey': Byte)
    requires row < 3
    requires forall col :: 0 <= col < 4 ==> target[row * 4 + col] == cols[col]
    requires inputs == FilledBelow(target, row * 4)
    requires LastPressedBelow(target, row * 4) == if keyPressed then Some(lastPressedKey as nat) else None
    ensures inputs' == FilledBelow(target, row * 4 + 4)
    ensures LastPressedBelow(target, row * 4 + 4) == if keyPressed' then Some(lastPressedKey' as nat) else None
  {
    inputs', keyPressed', lastPressedKey' := inputs, keyPressed, lastPressedKey;
    for col := 0 to 4
      invariant inputs' == FilledBelow(target, row * 4 + col)
      invariant LastPressedBelow(target, row * 4 + col) ==
        if keyPressed' then Some(lastPressedKey' as nat) else None
    {
      var keyIndex := row * 4 + col;
      if keyIndex < NUM_KEYS {
        FillOne(target, keyIndex);
        inputs' := inputs'[keyIndex := cols[col]];
        if !cols[col] {
          lastPressedKey' := keyIndex;
          keyPressed' := true;
        }
      }
    }
  }

  /** Steps 1) and 2) of a cycle: scan rows 0..2 into a fresh snapshot while tracking
      the last pressed key, then look up that key's step size. */
  method ReadKeyMatrix(readings: Readings, stepSizes: StepTable)
    returns (localInputs: Snapshot, localStepSize: Uint32)
    ensures localInputs == KeySnapshot(readings)
    ensures localStepSize == CycleStepSize(localInputs, stepSizes)
  {
    ghost var target := KeySnapshot(readings);
    localInputs := ZeroSnapshot();
    var lastPressedKey: Byte := 255;
    var keyPressed := false;
    localStepSize := 0;
    assert localInputs == FilledBelow(target, 0);

    for row := 0 to 3
      invariant localInputs == FilledBelow(target, row * 4)
      invariant LastPressedBelow(target, row * 4) == if keyPressed then Some(lastPressedKey as nat) else None
    {
      localInputs, keyPressed, lastPressedKey := ScanRow(target, row, readings[row], localInputs, keyPressed, lastPressedKey);
    }
    assert localInputs == target;

    if keyPressed {
      localStepSize := stepSizes[lastPressedKey];
    }
  }

  /** Step 4) of a cycle: compare every key with the previous snapshot and build one
      frame per change, in key order. */
  method DetectChanges(previousInputs: Snapshot, localInputs: Snapshot) returns (sent: seq<Frame>)
    ensures sent == Messages(previousInputs, localInputs, NUM_KEYS)
  {
    sent := [];
    for i := 0 to NUM_KEYS
      invariant sent == Messages(previousInputs, localInputs, i)
    {
      var wasPressed := !previousInputs[i];
      var isPressed := !localInputs[i];
      if wasPressed != isPressed {
        var txMessage := new Byte[8](_ => 0);
        txMessage[0] := if isPressed then PRESS else RELEASE;
        txMessage[1] := OCTAVE;
        txMessage[2] := i;
        assert txMessage[..] == NoteFrame(isPressed, i);
        sent := sent + [txMessage[..]];
      }
    }
  }

  /** The scan task's static state: the previous cycle's snapshot. */
  class KeyScanner {
    var previousInputs: Snapshot

    constructor ()
      ensures previousInputs == ZeroSnapshot()
    {
      previousInputs := ZeroSnapshot();
    }

    /** One pass of the scan loop. The frames handed to the bus are returned in send order. */
    method ScanCycle(readings: Readings, stepSizes: StepTable, knob: Knob, shared: SharedState)
      returns (sent: seq<Frame>)
      modifies this, knob, shared
      ensures sent == Messages(old(previousInputs), KeySnapshot(readings), NUM_KEYS)
      ensures shared.inputs == KeySnapshot(readings) && previousInputs == KeySnapshot(readings)
      ensures shared.currentStepSize == CycleStepSize(KeySnapshot(readings), stepSizes)
      ensures knob.State() == AfterScan(old(knob.State()), KnobLine(readings[3][0]), KnobLine(readings[3][1]))
      ensures old(knob.Valid()) ==> knob.Valid()
      ensures ROTATION_MIN <= knob.rotation <= ROTATION_MAX
    {
      // 1), 2) the key matrix and the step size of the last pressed key
      var localInputs, localStepSize := ReadKeyMatrix(readings, stepSizes);

      // 3) the knob on row 3
      var knobCols := readings[3];
      var knobA := KnobLine(knobCols[0]);
      var knobB := KnobLine(knobCols[1]);
      knob.UpdateState(knobA, knobB);
      knob.ConstrainRotation();

      // 4) one frame per changed key
      sent := DetectChanges(previousInputs, localInputs);

      // 5) publish the snapshot and the step size
      shared.inputs := localInputs;
      shared.currentStepSize := localStepSize;

      // 6) keep the snapshot for the next cycle
      previousInputs := localInputs;
    }
  }

  /** Scanning the same readings twice in a row: the second cycle emits no frame. */
  method ScanTwice(readings: Readings, stepSizes: StepTable, knob: Knob, shared: SharedState, scanner: KeyScanner)
    returns (first: seq<Frame>, second: seq<Frame>)
    modifies scanner, knob, shared
    ensures first == Messages(old(scanner.previousInputs), KeySnapshot(readings), NUM_KEYS)
    ensures second == []
  {
    first := scanner.ScanCycle(readings, stepSizes, knob, shared);
    second := scanner.ScanCycle(readings, stepSizes, knob, shared);
    UnchangedIsSilent(KeySnapshot(readings), NUM_KEYS);
  }
}
