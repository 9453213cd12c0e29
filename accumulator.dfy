/**
 * The chunk accumulator of the processor worker: `buf` holds the batches
 * taken from the queue since the last chunk and `accumulated` their frame
 * count; once the count reaches the target, all of `buf` is concatenated,
 * reduced to its first channel and handed on, and both are reset.
 */
module Accumulator {
  import opened Wrappers
  import opened Audio

  /** The number of frames in `bs` (the sum of `frames.shape[0]`). */
  function TotalFrames(bs: seq<Batch>): nat {
    if bs == [] then 0 else TotalFrames(bs[..|bs| - 1]) + |bs[|bs| - 1]|
  }

  /** `np.concatenate(bs, axis=0)`: the frames of all batches, in order. */
  function Flatten(bs: seq<Batch>): seq<Frame> {
    if bs == [] then [] else Flatten(bs[..|bs| - 1]) + bs[|bs| - 1]
  }

  /** `chunk[:, 0]`: the first sample of every frame. */
  function FirstChannel(frames: seq<Frame>): (c: Chunk)
    ensures |c| == |frames|
    ensures forall i :: 0 <= i < |frames| ==> c[i] == frames[i][0]
  {
    if frames == [] then [] else [frames[0][0]] + FirstChannel(frames[1..])
  }

  /** Concatenating all batches loses and adds no frame. */
  lemma {:induction false} FlattenLength(bs: seq<Batch>)
    ensures |Flatten(bs)| == TotalFrames(bs)
  {
    if bs != [] {
      FlattenLength(bs[..|bs| - 1]);
    }
  }

  /** Concatenation distributes over splitting the list of batches. */
  lemma {:induction false} FlattenAppend(xs: seq<Batch>, ys: seq<Batch>)
    ensures Flatten(xs + ys) == Flatten(xs) + Flatten(ys)
    decreases |ys|
  {
    if ys == [] {
      assert xs + ys == xs;
    } else {
      var init := ys[..|ys| - 1];
      assert (xs + ys)[..|xs + ys| - 1] == xs + init;
      FlattenAppend(xs, init);
    }
  }

  /** Frame counts add up in the same way. */
  lemma {:induction false} TotalFramesAppend(xs: seq<Batch>, ys: seq<Batch>)
    ensures TotalFrames(xs + ys) == TotalFrames(xs) + TotalFrames(ys)
    decreases |ys|
  {
    if ys == [] {
      assert xs + ys == xs;
    } else {
      var init := ys[..|ys| - 1];
      assert (xs + ys)[..|xs + ys| - 1] == xs + init;
      TotalFramesAppend(xs, init);
    }
  }

  /** Frame `k` of batch `j` sits in the concatenation right after the
      frames of the batches before `j`. */
  lemma FlattenAt(bs: seq<Batch>, j: nat, k: nat)
    requires j < |bs| && k < |bs[j]|
    ensures TotalFrames(bs[..j]) + k < |Flatten(bs)|
    ensures Flatten(bs)[TotalFrames(bs[..j]) + k] == bs[j][k]
  {
    assert bs == bs[..j] + [bs[j]] + bs[j + 1..];
    FlattenAppend(bs[..j] + [bs[j]], bs[j + 1..]);
    FlattenAppend(bs[..j], [bs[j]]);
    var one: seq<Batch> := [bs[j]];
    assert Flatten(one) == bs[j] by {
      assert one[..0] == [];
    }
    FlattenLength(bs[..j]);
    FlattenLength(bs);
  }

  class ChunkAccumulator {
    /** `target = int(CHUNK_DURATION * SAMPLE_RATE)`. */
    const target: int
    var buf: seq<Batch>
    var accumulated: int

    /** The counter is the frame count of the pending batches, and pending
        batches never already reach the target. */
    ghost predicate Valid()
      reads this
    {
      accumulated == TotalFrames(buf) && (buf == [] || accumulated < target)
    }

    constructor (target: int)
      ensures Valid() && this.target == target && buf == [] && accumulated == 0
    {
      this.target := target;
      buf := [];
      accumulated := 0;
    }

    /** One batch taken from the queue. When the count reaches the target,
        the chunk is the first channel of all pending batches concatenated in
        order (never truncated to the target) and the state is reset;
        otherwise the batch is kept pending. */
    method Push(batch: Batch) returns (chunk: Option<Chunk>)
      requires Valid()
      modifies this
      ensures Valid()
      ensures chunk.Some? <==> old(accumulated) + |batch| >= target
      ensures chunk.Some? ==> chunk.value == FirstChannel(Flatten(old(buf) + [batch]))
                              && |chunk.value| == old(accumulated) + |batch|
                              && |chunk.value| >= target
                              && buf == [] && accumulated == 0
      ensures chunk.None? ==> buf == old(buf) + [batch] && accumulated == old(accumulated) + |batch|
    {
      buf := buf + [batch];
      assert buf[..|buf| - 1] == old(buf);
      accumulated := accumulated + |batch|;
      if accumulated >= target {
        FlattenLength(buf);
        chunk := Some(FirstChannel(Flatten(buf)));
        buf, accumulated := [], 0;
      } else {
        chunk := None;
      }
    }
  }
}
