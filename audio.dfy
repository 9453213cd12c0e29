/**
 * Audio values. A capture callback delivers a batch of frames; a frame holds
 * one sample per input channel (there is always at least one channel).
 * Samples are the capture's floating-point values, modelled as exact reals.
 */
module Audio {
  type Sample = real
  type Frame = f: seq<Sample> | |f| > 0 witness [0.0]
  type Batch = seq<Frame>
  /** A single-channel run of samples: what the silence gate and the transcriber get. */
  type Chunk = seq<Sample>
}
