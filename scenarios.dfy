/**
 * Clients of the model: small scenarios checked against the contracts alone.
 */
module Scenarios {
  import opened Wrappers
  import Text
  import opened Audio
  import opened Accumulator
  import opened Silence
  import opened Translation
  import opened Pipeline

  /** Target 5 and three batches of 2 frames: nothing is emitted after the
      first two batches (4 frames), then one chunk of all 6 samples, and the
      accumulator is empty again. */
  method ChunkSizingScenario() {
    var acc := new ChunkAccumulator(5);
    var b: Batch := [[0.1], [0.2]];
    var c1 := acc.Push(b);
    assert c1.None?;
    var c2 := acc.Push(b);
    assert c2.None? && acc.accumulated == 4;
    var c3 := acc.Push(b);
    assert c3.Some? && |c3.value| == 6;
    assert acc.buf == [] && acc.accumulated == 0;
  }

  /** Threshold 0.005 and a mean absolute amplitude of 0.001: the cycle ends
      without calling any collaborator. */
  method QuietChunkScenario(env: Collaborators) {
    var chunk: Chunk := [0.001, -0.001];
    assert SumAbs(chunk) == 0.002 by {
      assert chunk[1..] == [-0.001];
      assert chunk[1..][1..] == [];
    }
    assert Dispatch(chunk, DEFAULT_CONFIG, env) == Silenced;
  }

  /** A recognizer that finds only blank segments ends the cycle before
      language detection. */
  method EmptyRecognitionScenario(detection: Option<string>, translation: TranslatorOutcome) {
    var chunk: Chunk := [0.5];
    assert SumAbs(chunk) == 0.5 by {
      assert chunk[1..] == [];
    }
    var env := Collaborators(Transcribed(["", "  "]), detection, translation);
    assert Text.Blank("  ") by {
      Text.BlankIffAllSpace("  ");
    }
    assert Dispatch(chunk, DEFAULT_CONFIG, env) == NothingRecognized;
  }
}
