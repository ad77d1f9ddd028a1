/** Fixed-width types, constants and the process-wide shared state of one keyboard node. */
module Globals {

  /** An unsigned 8-bit value (uint8_t). */
  type Byte = x: int | 0 <= x < 0x100

  /** An unsigned 32-bit value (uint32_t). */
  type Uint32 = x: int | 0 <= x < 0x1_0000_0000

  /** A signed 8-bit value (int8_t). */
  type Int8 = x: int | -0x80 <= x < 0x80

  const TWO_32: int := 0x1_0000_0000

  /** Number of keys on one board: one octave, C to B. */
  const NUM_KEYS: nat := 12

  /** Width of the input snapshot (std::bitset<32>). */
  const SNAPSHOT_BITS: nat := 32

  /** The step-size table: one phase increment per semitone. Its values come
      from floating-point arithmetic and are left abstract; only its size matters. */
  type StepTable = t: seq<Uint32> | |t| == NUM_KEYS witness [0, 0, 0, 0, 0, 0, 0, 0, 0, 0, 0, 0]

  /** The input snapshot: bit i is true when key or control i reads high (released, under active-low). */
  type Snapshot = s: seq<bool> | |s| == SNAPSHOT_BITS
    witness seq(SNAPSHOT_BITS, _ => false)

  /** The all-zero snapshot a zero-initialised bitset starts with. */
  function ZeroSnapshot(): (s: Snapshot)
    ensures forall i :: 0 <= i < SNAPSHOT_BITS ==> !s[i]
  {
    seq(SNAPSHOT_BITS, _ => false)
  }

  /** An 8-byte bus payload: [kind, octave, note, reserved x 5]. */
  type Frame = s: seq<Byte> | |s| == 8 witness [0, 0, 0, 0, 0, 0, 0, 0]

  /** Event kinds: the ASCII codes of 'P' (press) and 'R' (release). */
  const PRESS: Byte := 'P' as int
  const RELEASE: Byte := 'R' as int

  datatype Option<T> = None | Some(value: T)

  /** The shared state written by the scan and decode tasks and read by the audio routine:
      sysState.inputs, currentStepSize and the received-message cache RX_Message_Global. */
  class SharedState {
    var inputs: Snapshot
    var currentStepSize: Uint32
    const rxMessage: array<Byte>

    ghost predicate Valid()
      reads this
    {
      rxMessage.Length == 8
    }

    constructor ()
      ensures Valid() && fresh(rxMessage)
      ensures inputs == ZeroSnapshot() && currentStepSize == 0
      ensures forall i :: 0 <= i < rxMessage.Length ==> rxMessage[i] == 0
    {
      inputs := ZeroSnapshot();
      currentStepSize := 0;
      rxMessage := new Byte[8](_ => 0);
    }
  }
}
