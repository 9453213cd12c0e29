/**
 * The bounded frame queue between the capture callback and the worker, and
 * the callback itself: a non-blocking insert that drops the batch when the
 * queue is full.
 */
module Capture {
  import opened Wrappers
  import opened Audio

  /** `audio_q = queue.Queue(maxsize=50)`. */
  const AUDIO_QUEUE_CAPACITY: nat := 50

  /** How many of `offered` batches a queue of `capacity` already holding
      `held` accepts when nothing is taken out meanwhile; as for Python's
      `queue.Queue`, capacity 0 means unbounded. */
  function Admitted(capacity: nat, held: nat, offered: nat): (n: nat)
    ensures n <= offered
    ensures capacity == 0 ==> n == offered
    ensures capacity > 0 && held <= capacity ==> held + n <= capacity
    ensures n < offered ==> capacity > 0 && held + n >= capacity
  {
    if capacity == 0 then offered
    else if held >= capacity then 0
    else if offered <= capacity - held then offered
    else capacity - held
  }

  class FrameQueue {
    const capacity: nat
    var items: seq<Batch>

    ghost predicate Valid()
      reads this
    {
      capacity > 0 ==> |items| <= capacity
    }

    predicate Full()
      reads this
    {
      0 < capacity <= |items|
    }

    constructor (capacity: nat)
      ensures Valid() && this.capacity == capacity && items == []
    {
      this.capacity := capacity;
      items := [];
    }

    /** `put_nowait`: appends at the back unless the queue is full, in which
        case nothing changes and false is returned. */
    method TryEnqueue(b: Batch) returns (ok: bool)
      requires Valid()
      modifies this
      ensures Valid()
      ensures ok <==> !old(Full())
      ensures items == if ok then old(items) + [b] else old(items)
    {
      ok := !Full();
      if ok {
        items := items + [b];
      }
    }

    /** `get(timeout=...)`: the oldest batch, or None (`queue.Empty`) when
        there is none. */
    method Dequeue() returns (r: Option<Batch>)
      requires Valid()
      modifies this
      ensures Valid()
      ensures old(items) == [] ==> r.None? && items == []
      ensures old(items) != [] ==> r == Some(old(items)[0]) && items == old(items)[1..]
    {
      if items == [] {
        r := None;
      } else {
        r := Some(items[0]);
        items := items[1..];
      }
    }
  }

  /** `audio_callback`: forwards a copy of the batch without blocking; a
      batch that does not fit is dropped. */
  method AudioCallback(q: FrameQueue, indata: Batch)
    requires q.Valid()
    modifies q
    ensures q.Valid()
    ensures q.items == if old(q.Full()) then old(q.items) else old(q.items) + [indata]
  {
    var _ := q.TryEnqueue(indata);
  }

  /** The capture callbacks for `arrivals`, one after another, while the
      worker takes nothing out: the oldest batches that fit get in and the
      newest ones are dropped; nothing already queued is evicted. */
  method Deliver(q: FrameQueue, arrivals: seq<Batch>)
    requires q.Valid()
    modifies q
    ensures q.Valid()
    ensures q.items == old(q.items) + arrivals[..Admitted(q.capacity, |old(q.items)|, |arrivals|)]
  {
    ghost var held := q.items;
    for i := 0 to |arrivals|
      invariant q.Valid()
      invariant q.items == held + arrivals[..Admitted(q.capacity, |held|, i)]
    {
      AudioCallback(q, arrivals[i]);
      assert arrivals[..i + 1] == arrivals[..i] + [arrivals[i]];
    }
  }
}
