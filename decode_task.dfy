/** One pass of the message-decoding task: a received 8-byte frame is cached for the
    display and may change the step size the audio routine plays. */
module Decode {
  import opened Globals
  import ScanKeys

  /** The source indexes stepSizes[note] unchecked, so a press frame must carry a
      note inside the 12-entry table; other frames may carry anything. */
  predicate Decodable(msg: Frame)
  {
    msg[0] == PRESS ==> msg[2] < NUM_KEYS
  }

  /** The step size after decoding msg: a release silences, a press selects its
      note's entry (the octave byte is not used), and any other kind leaves it alone. */
  function StepAfter(msg: Frame, current: Uint32, stepSizes: StepTable): (r: Uint32)
    requires Decodable(msg)
    ensures msg[0] == RELEASE ==> r == 0
    ensures msg[0] == PRESS ==> r == stepSizes[msg[2]]
    ensures msg[0] != PRESS && msg[0] != RELEASE ==> r == current
  {
    if msg[0] == RELEASE then 0
    else if msg[0] == PRESS then stepSizes[msg[2]]
    else current
  }

  /** One pass of the decode loop over a frame taken from the receive queue:
      all 8 bytes go to the message cache, then the step size is updated. */
  method DecodeFrame(localMsg: Frame, stepSizes: StepTable, shared: SharedState)
    requires shared.Valid()
    requires Decodable(localMsg)
    modifies shared, shared.rxMessage
    ensures shared.Valid()
    ensures shared.rxMessage[..] == localMsg
    ensures shared.currentStepSize == StepAfter(localMsg, old(shared.currentStepSize), stepSizes)
    ensures shared.inputs == old(shared.inputs)
  {
    var status := localMsg[0];
    var note := localMsg[2];

    for i := 0 to 8
      modifies shared.rxMessage
      invariant shared.rxMessage[..i] == localMsg[..i]
    {
      shared.rxMessage[i] := localMsg[i];
    }
    assert shared.rxMessage[..] == shared.rxMessage[..8];

    if status == RELEASE {
      shared.currentStepSize := 0;
    } else if status == PRESS {
      shared.currentStepSize := stepSizes[note];
    }
  }

  /** The step size after decoding every frame of msgs in queue order: either the
      starting value or the value set by one of the press or release frames. */
  function StepAfterAll(msgs: seq<Frame>, current: Uint32, stepSizes: StepTable): (r: Uint32)
    requires forall j :: 0 <= j < |msgs| ==> Decodable(msgs[j])
    ensures r == current || exists j :: 0 <= j < |msgs| && Selects(msgs[j], r, stepSizes)
  {
    if msgs == [] then current
    else StepAfter(msgs[|msgs| - 1], StepAfterAll(msgs[..|msgs| - 1], current, stepSizes), stepSizes)
  }

  /** msg is a press or release frame that sets the step size to r. */
  predicate Selects(msg: Frame, r: Uint32, stepSizes: StepTable)
  {
    (msg[0] == RELEASE && r == 0) || (msg[0] == PRESS && msg[2] < NUM_KEYS && r == stepSizes[msg[2]])
  }

  /** A frame that is neither a press nor a release. */
  predicate Unrelated(msg: Frame)
  {
    msg[0] != PRESS && msg[0] != RELEASE
  }

  /** Decoding a queue in two parts is decoding the first part, then the second. */
  lemma {:induction false} StepAfterAllAppend(a: seq<Frame>, b: seq<Frame>, current: Uint32, stepSizes: StepTable)
    requires forall j :: 0 <= j < |a| ==> Decodable(a[j])
    requires forall j :: 0 <= j < |b| ==> Decodable(b[j])
    ensures forall j :: 0 <= j < |a + b| ==> Decodable((a + b)[j])
    ensures StepAfterAll(a + b, current, stepSizes) ==
      StepAfterAll(b, StepAfterAll(a, current, stepSizes), stepSizes)
    decreases |b|
  {
    assert forall j :: 0 <= j < |a + b| ==> Decodable((a + b)[j]) by {
      forall j | 0 <= j < |a + b| ensures Decodable((a + b)[j]) {
        if j < |a| { assert (a + b)[j] == a[j]; } else { assert (a + b)[j] == b[j - |a|]; }
      }
    }
    if b != [] {
      var b' := b[..|b| - 1];
      assert (a + b)[..|a + b| - 1] == a + b';
      assert (a + b)[|a + b| - 1] == b[|b| - 1];
      StepAfterAllAppend(a, b', current, stepSizes);
    } else {
      assert a + b == a;
    }
  }

  /** Frames that are neither presses nor releases never change the step size. */
  lemma {:induction false} UnrelatedFramesKeepStep(msgs: seq<Frame>, current: Uint32, stepSizes: StepTable)
    requires forall j :: 0 <= j < |msgs| ==> Unrelated(msgs[j])
    ensures forall j :: 0 <= j < |msgs| ==> Decodable(msgs[j])
    ensures StepAfterAll(msgs, current, stepSizes) == current
    decreases |msgs|
  {
    if msgs != [] {
      UnrelatedFramesKeepStep(msgs[..|msgs| - 1], current, stepSizes);
    }
  }

  /** Whatever came before, a release followed only by unrelated frames leaves the
      step size at 0, and a press followed only by unrelated frames leaves it at
      that press's table entry. */
  lemma LastEventDecides(before: seq<Frame>, event: Frame, after: seq<Frame>, current: Uint32, stepSizes: StepTable)
    requires forall j :: 0 <= j < |before| ==> Decodable(before[j])
    requires Decodable(event) && (event[0] == PRESS || event[0] == RELEASE)
    requires forall j :: 0 <= j < |after| ==> Unrelated(after[j])
    ensures forall j :: 0 <= j < |before + [event] + after| ==> Decodable((before + [event] + after)[j])
    ensures StepAfterAll(before + [event] + after, current, stepSizes) ==
      if event[0] == RELEASE then 0 else stepSizes[event[2]]
  {
    assert forall j :: 0 <= j < |[event]| ==> Decodable([event][j]);
    StepAfterAllAppend(before, [event], current, stepSizes);
    var mid := StepAfterAll(before + [event], current, stepSizes);
    assert StepAfterAll([event], StepAfterAll(before, current, stepSizes), stepSizes) ==
      StepAfter(event, StepAfterAll(before, current, stepSizes), stepSizes);
    UnrelatedFramesKeepStep(after, mid, stepSizes);
    StepAfterAllAppend(before + [event], after, current, stepSizes);
  }

  /** A press of note 5, any decodable traffic, then a release: the step size ends at 0. */
  lemma PressThenReleaseSilences(press: Frame, between: seq<Frame>, release: Frame,
                                 current: Uint32, stepSizes: StepTable)
    requires press[0] == PRESS && press[2] == 5 && release[0] == RELEASE
    requires forall j :: 0 <= j < |between| ==> Decodable(between[j])
    ensures forall j :: 0 <= j < |[press] + between + [release]| ==> Decodable(([press] + between + [release])[j])
    ensures StepAfterAll([press] + between + [release], current, stepSizes) == 0
  {
    var before := [press] + between;
    assert forall j :: 0 <= j < |before| ==> Decodable(before[j]) by {
      forall j | 0 <= j < |before| ensures Decodable(before[j]) {
        if j == 0 { assert before[j] == press; } else { assert before[j] == between[j - 1]; }
      }
    }
    LastEventDecides(before, release, [], current, stepSizes);
    assert before + [release] + [] == [press] + between + [release];
  }

  /** The octave byte is read but plays no part: two frames that differ only there
      decode to the same step size. */
  lemma OctaveIgnored(msg: Frame, octave: Byte, current: Uint32, stepSizes: StepTable)
    requires Decodable(msg)
    ensures Decodable(msg[1 := octave])
    ensures StepAfter(msg[1 := octave], current, stepSizes) == StepAfter(msg, current, stepSizes)
  {
  }

  /** A frame built by the key scanner, once decoded by a peer, sets exactly the step
      size of the key it announces, or 0 for a release. */
  lemma ScannedFrameDecodes(pressed: bool, note: Byte, current: Uint32, stepSizes: StepTable)
    requires note < NUM_KEYS
    ensures Decodable(ScanKeys.NoteFrame(pressed, note))
    ensures StepAfter(ScanKeys.NoteFrame(pressed, note), current, stepSizes) ==
      if pressed then stepSizes[note] else 0
  {
  }
}
