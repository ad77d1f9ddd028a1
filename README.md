# ES-synth-starter keyboard node, modelled in Dafny

This project models the decision logic of one node of the STM32 music-synthesiser
keyboard. The node has four parts:

- **Knob decoder** (`KnobDecoder`, `knob.dfy`). This is the `Knob` class. It is a
  state machine over the 2-bit quadrature phase code `(B << 1) | A`. It records a
  direction of +1 or -1 on six one-step edges. On the two 00 <-> 11 skip edges it
  adds that direction to the rotation. `constrainRotation` adds the direction
  once more and saturates the result into [0, 8].
- **Key scan cycle** (`ScanKeys`, `scan_keys.dfy`). This is one pass of the
  `scanKeysTask` loop. It reads the 3 x 4 key matrix into a 32-bit snapshot and
  takes the step size of the last-scanned pressed key. It feeds row 3 to the knob.
  It emits one 8-byte `P`/`R` frame for each key that changed since the last cycle.
  It then publishes the snapshot and step size and keeps the snapshot for the
  next cycle.
- **Message decoder** (`Decode`, `decode_task.dfy`). This is one pass of the
  `decodeTask` loop. A received frame is copied into the 8-byte message cache. A
  release frame silences the step size, and a press frame selects its note's
  table entry.
- **Audio sample routine** (`Synth`, `sample_isr.dfy`). This is `sampleISR`. A
  wrapping uint32 phase accumulator gives a sawtooth from its top byte. The knob
  sets an arithmetic right shift, and the level written to the DAC is
  `(Vout + 128) / 20`.

`Globals` (`globals.dfy`) holds the fixed-width types and the shared state:
`sysState.inputs`, `currentStepSize` and `RX_Message_Global`.

Each class method has two kinds of contract. First, its `ensures` ties the new
state to a pure function of the old state. For example,
`State() == Update(old(State()), knobA, knobB)`. Second, the properties the
source promises are proved about those functions, either in their own `ensures`
or in lemmas. C's fixed widths are written out explicitly:

- `Wrap8` gives the int8_t wrap-around of `fetch_add` and of the
  `int8_t newRotation` sum.
- `% TWO_32` gives the uint32_t phase accumulator.
- `RawSample` gives the unsigned-then-signed conversion of `(phaseAcc >> 24) - 128`.
- `ArithShiftRight` gives the arithmetic `>>` on int32_t as floor division.

The table of 12 step sizes is a parameter of type `StepTable`. Its values come
from floating-point `pow` and are abstract here. Only its size and indexing are
modelled.

The model follows the code as written:

- `constrainRotation` does more than clamp. It adds `lastValidRotation` on every
  call. A knob that is held still therefore keeps moving in the last recorded
  direction until it saturates. `HoldingStillDrifts` and `HoldingStillSaturates`
  state this.
- `lastValidRotation` starts at 0, not at a direction.
- The scan cycle calls `CAN_TX` directly for each frame rather than queueing it.
  The model returns the frames in send order.

## Model

| member | source | states |
|---|---|---|
| Globals.ZeroSnapshot | src/scanKeys.cpp:48 | the static `previousInputs` bitset starts with all 32 bits 0 |
| Globals.SharedState.constructor | src/globals.cpp:3-14 | the inputs start all 0, `currentStepSize` starts at 0, and the 8-byte message cache starts zeroed |
| KnobDecoder.PhaseCode | include/knob.h:24 | for bit inputs the code (knobB << 1) bitwise-or knobA is in 0..3 and equals 2B + A |
| KnobDecoder.Classify | include/knob.h:26-36 | only a pair of distinct 2-bit codes can record a direction or be a skip; every other pair is ignored |
| KnobDecoder.ClassifyFollowsCycle | include/knob.h:26-33 | against the quadrature cycle 00, 01, 11, 10: an edge records +1 exactly when it is one step forward and does not arrive at 00, records -1 exactly when it is one step backward and does not arrive at 00, and is a skip exactly on 00 <-> 11 |
| KnobDecoder.Wrap8 | include/knob.h:35 | int8_t truncation: the result is congruent to the input modulo 256 and equals it when it fits |
| KnobDecoder.ClampRotation | include/knob.h:46-47 | the result is in [0, 8], equals the input inside the range, and saturates to 8 above it and to 0 below it |
| KnobDecoder.Initial | include/knob.h:17-18 | a new decoder has `prevKnobState` 00, `lastValidRotation` 0 and the rotation cell's value |
| KnobDecoder.Update | include/knob.h:23-39 | `prevKnobState` becomes the new code; forward edges set the direction to +1 and backward edges to -1, both leaving the rotation unchanged; skip edges add the direction (in int8_t) and keep it; every other pair changes nothing but `prevKnobState`; the direction stays in {-1, 0, +1} |
| KnobDecoder.UpdateStaysNear | include/knob.h:32-36 | starting in [0, 8], `updateState` alone leaves the rotation in [-1, 9]: a skip edge can carry it one step past either end |
| KnobDecoder.UpdateMayOvershoot | include/knob.h:32-36 | both overshoots happen: the skip edge 00 -> 11 at rotation 8 with direction +1 leaves 9, and at rotation 0 with direction -1 leaves -1 |
| KnobDecoder.Constrain | include/knob.h:44-49 | only the rotation changes; it becomes clamp(rotation + direction) into [0, 8] |
| KnobDecoder.AfterScan | src/scanKeys.cpp:84-87 | after `updateState` then `constrainRotation`, the recorded code is the one read, the rotation is in [0, 8], and the direction stays in {-1, 0, +1} |
| KnobDecoder.RunStaysInRange | src/scanKeys.cpp:81-87 | over any sequence of knob readings, the direction stays in {-1, 0, +1} and the rotation in [0, 8] |
| KnobDecoder.StillCycle | include/knob.h:38-49 | a cycle that reads the already recorded code only adds the direction and clamps |
| KnobDecoder.DriftSaturates | include/knob.h:44-49 | n clamped steps of +1 (or -1) from r land on clamp(r + n) (or clamp(r - n)); with direction 0 the rotation stays put |
| KnobDecoder.HoldingStillDrifts | include/knob.h:23-49 | n cycles with the same reading change only the rotation, by n clamped steps of the recorded direction |
| KnobDecoder.HoldingStillSaturates | include/knob.h:44-49 | a knob held still for n cycles ends at clamp(rotation + n * direction), keeping its code and direction |
| KnobDecoder.Knob.constructor | include/knob.h:17-18 | the new object is in the initial decoder state over the given rotation cell |
| KnobDecoder.Knob.UpdateState | include/knob.h:23-39 | the object's new state is `Update` of its old state, and the direction invariant is kept |
| KnobDecoder.Knob.ConstrainRotation | include/knob.h:44-49 | the object's new state is `Constrain` of its old state, so the rotation ends in [0, 8] |
| KnobDecoder.Knob.GetRotation | include/knob.h:54-56 | returns the stored rotation and changes nothing |
| ScanKeys.KeySnapshot | src/scanKeys.cpp:53-73 | bit row*4+col takes that column's reading for rows 0..2 and columns 0..3, covering keys 0..11 exactly; bits 12..31 stay 0 |
| ScanKeys.LastPressedBelow | src/scanKeys.cpp:67-70 | finds the highest key below n that reads 0, with every higher key reading 1, or reports that none reads 0 |
| ScanKeys.CycleStepSize | src/scanKeys.cpp:54-78 | 0 when no key reads 0; otherwise the step size of a pressed key k with no pressed key above it (last scanned wins) |
| ScanKeys.NoteFrame | src/scanKeys.cpp:98-107 | the frame is `['P' or 'R', 4, note, 0, 0, 0, 0, 0]` |
| ScanKeys.Messages | src/scanKeys.cpp:91-112 | the frames of the comparison loop over keys 0..n-1, in key order; there are at most n of them |
| ScanKeys.MessagesSound | src/scanKeys.cpp:91-112 | every frame is the P/R frame of a key below n whose state changed |
| ScanKeys.MessagesAscending | src/scanKeys.cpp:91-112 | the notes of the frames strictly ascend |
| ScanKeys.FrameOf | src/scanKeys.cpp:91-112 | for a changed key i, gives the position of a frame carrying note i |
| ScanKeys.MessagesComplete | src/scanKeys.cpp:91-112 | every key below n that changed has a frame |
| ScanKeys.MessagesExact | src/scanKeys.cpp:91-112 | every emitted frame is the P/R frame of a key that changed, the notes strictly ascend (so no key is sent twice), and every changed key is sent |
| ScanKeys.MessageCount | src/scanKeys.cpp:91-112 | the number of frames equals the number of changed keys |
| ScanKeys.UnchangedIsSilent | src/scanKeys.cpp:91-112 | a snapshot equal to the previous one emits no frame |
| ScanKeys.SingleChange | src/scanKeys.cpp:91-112 | when exactly one key changed, exactly its one P/R frame is emitted |
| ScanKeys.UnchangedBelow | src/scanKeys.cpp:91-112 | keys that did not change emit nothing |
| ScanKeys.FirstCycleReleasesAll | src/scanKeys.cpp:48-112 | starting from the all-zero previous snapshot, a first cycle with no key held emits R frames for notes 0..n-1 in order |
| ScanKeys.KnobLine | src/scanKeys.cpp:84-85 | a column bit read as uint8_t is 1 when it reads high and 0 otherwise |
| ScanKeys.ScanRow | src/scanKeys.cpp:63-72 | after one row's column loop, the snapshot holds that row's four keys, and the last-pressed tracking covers them |
| ScanKeys.ReadKeyMatrix | src/scanKeys.cpp:53-78 | the row/column loops build exactly `KeySnapshot`, and the step size is exactly `CycleStepSize` |
| ScanKeys.DetectChanges | src/scanKeys.cpp:91-112 | the comparison loop emits exactly `Messages(previous, local, 12)` |
| ScanKeys.KeyScanner.constructor | src/scanKeys.cpp:48 | the previous snapshot starts all 0 |
| ScanKeys.KeyScanner.ScanCycle | src/scanKeys.cpp:53-122 | the frames sent are those of the changed keys; the shared inputs and `previousInputs` both become the new snapshot; `currentStepSize` becomes the cycle's step size; the knob takes one `updateState` and `constrainRotation` on row 3 and ends in [0, 8] |
| ScanKeys.ScanTwice | src/scanKeys.cpp:91-122 | scanning the same readings twice in a row sends nothing on the second cycle |
| Decode.Decodable | src/decodeTask.cpp:39 | a press frame must carry a note below 12, because `stepSizes[note]` is indexed unchecked; other frames may carry anything |
| Decode.StepAfter | src/decodeTask.cpp:33-40 | 'R' sets 0, 'P' sets the table entry for byte 2, and any other kind leaves the step size unchanged |
| Decode.DecodeFrame | src/decodeTask.cpp:21-40 | all 8 bytes are copied into the message cache, the step size becomes `StepAfter`, and the inputs are untouched; a press frame must carry a note below 12 because the table lookup is unchecked |
| Decode.StepAfterAll | src/decodeTask.cpp:21-40 | successive passes of the decode loop over a queue: the final step size is either the starting value or the value set by one of the press or release frames |
| Decode.StepAfterAllAppend | src/decodeTask.cpp:33-40 | decoding a queue in two parts is decoding the first part, then the second |
| Decode.UnrelatedFramesKeepStep | src/decodeTask.cpp:33-40 | frames that are neither 'P' nor 'R' never change the step size |
| Decode.LastEventDecides | src/decodeTask.cpp:33-40 | the last press or release in a queue alone decides the final step size |
| Decode.PressThenReleaseSilences | src/decodeTask.cpp:33-39 | a press of note 5, any decodable frames, then a release leave the step size at 0 |
| Decode.OctaveIgnored | src/decodeTask.cpp:22-39 | the octave byte is read but does not affect the result |
| Decode.ScannedFrameDecodes | src/decodeTask.cpp:33-39 | a frame built by the key scanner decodes to its key's step size on a press and to 0 on a release |
| Synth.AdvancePhase | src/main.cpp:31-32 | `phaseAcc + currentStepSize` wraps past 2^32 - 1 |
| Synth.PhaseCounts | src/main.cpp:31-32 | after n periods at a fixed step, the phase is (phase + n * step) mod 2^32 |
| Synth.ToInt32 | src/main.cpp:33 | storing a uint32_t bit pattern in int32_t keeps it modulo 2^32 and lands in the int32_t range |
| Synth.RawSample | src/main.cpp:33 | `(phaseAcc >> 24) - 128` lies in [-128, 127] and is the top byte centred on 0 |
| Synth.ArithShiftRight | src/main.cpp:34 | an arithmetic shift keeps the sign and never grows the magnitude; a shift of 0 is the identity; a shift of 8 or more takes any byte-range sample to 0 or -1 |
| Synth.ShiftOneMore | src/main.cpp:34 | shifting one bit further halves the shifted value, rounding down |
| Synth.VolumeRange | src/main.cpp:23-34 | for rotations in [0, 8] the shift amount is in [0, 8]; rotation 8 passes the sample unchanged and rotation 0 leaves only 0 or -1 |
| Synth.LouderWithRotation | src/main.cpp:34 | a larger rotation never makes the scaled sample smaller in magnitude |
| Synth.OutputLevel | src/main.cpp:36 | `(Vout + 128) / 20` lies in [0, 12] and is the floor of the quotient |
| Synth.Level | src/main.cpp:33-36 | the level for any phase and any rotation with a defined shift lies in [0, 12] |
| Synth.SampleGenerator.constructor | src/main.cpp:31 | the static phase accumulator starts at 0 |
| Synth.SampleGenerator.SampleIsr | src/main.cpp:30-37 | the phase advances by the step size modulo 2^32 and the returned level is `Level` of the new phase and the knob's rotation, in [0, 12]; with step 0 the phase and the level stay the same |

## Left out

- RTOS scheduling and blocking are not modelled: `vTaskDelayUntil`, `xQueueReceive`, task creation and priorities. This is concurrency, not sequential logic. Each task is modelled as one pass of its loop.
- The mutex and `LockGuard` are not modelled. The shared state is plain fields, and atomicity between the tasks and the interrupt cannot be stated here.
- `std::atomic<int8_t>` is not modelled. The knob's rotation cell is a plain field of the `Knob` object rather than a reference shared with `main.cpp`, so one rotation cell aliased by two owners is not captured.
- The CAN driver is not modelled: `CAN_TX`, `CAN_RX`, the receive interrupt, the filters and the transmit task in `src/can_tx_task.cpp`. These are foreign I/O. The scan cycle returns its frames, and the decoder takes its frame as a parameter.
- The floating-point computation of the step-size table with `pow` is not modelled. Its 12 values are abstract, so properties such as "higher notes have larger steps" are not stated.
- Pin configuration, `setRow`, `readCols`, `delayMicroseconds`, `analogWrite` and the display are not modelled. This is hardware I/O. Column readings come in as parameters, and the written level is returned.
- The display task in `src/display.cpp` is not part of this model. It is presentation of data modelled elsewhere.
- `setup()`, the mutex-failure halt, the `Serial` prints, and the unused `isSender` and `moduleOctave` globals are not modelled.
- Synth.SampleGenerator.SampleIsr: requires only that the shift amount `8 - rotation` is in [0, 31], which is the range where C defines an int32_t shift. The rotation lies in [0, 8] only at the end of a scan cycle (`AfterScan`, `RunStaysInRange`, the rotation bound in `ScanCycle`); the narrower range is stated as the lemma `VolumeRange`, not as a precondition.
- The audio routine runs from a timer interrupt and can read the rotation cell between `updateState` and `constrainRotation` (src/scanKeys.cpp:86-87). There it can see 9 (`UpdateMayOvershoot`), and the shift `8 - 9 = -1` in src/main.cpp:34 is then undefined in C. The model runs the two as separate calls and does not capture that interleaving; the precondition of `SampleIsr` excludes the case.
