/**
 * The processor worker and the dispatch cycle it runs for every chunk: the
 * silence gate, transcription, assembly of the recognized text, choice of the
 * language, translation and the caption write. The speech recognizer, the
 * language detector and the translator are represented by their outcomes.
 */
module Pipeline {
  import opened Wrappers
  import opened Text
  import opened Audio
  import opened Segments
  import opened Captions
  import opened Languages
  import opened Translation
  import opened Silence
  import opened Capture
  import opened Accumulator

  /** `int(CHUNK_DURATION * SAMPLE_RATE)` for 5.0 seconds at 16000 Hz. */
  const CHUNK_TARGET: int := 80000

  /** The worker's configuration: the target frame count of a chunk, the
      silence threshold, and the forced language. */
  datatype Config = Config(target: int, threshold: real, forcedLang: Option<string>)

  const DEFAULT_CONFIG: Config := Config(CHUNK_TARGET, SILENCE_THRESHOLD, FORCE_LANG)

  /** What the speech recognizer gives for a chunk: its segment texts, or
      that it raised. */
  datatype Transcription = Transcribed(texts: seq<string>) | TranscriberRaised

  /** The collaborators' outcomes for one cycle. */
  datatype Collaborators = Collaborators(
    transcription: Transcription,
    detection: Option<string>,
    translation: TranslatorOutcome)

  /** How a dispatch cycle ends. Only `Captioned` writes the caption file. */
  datatype CycleOutcome =
    | Silenced
    | TranscriptionFailed
    | NothingRecognized
    | Captioned(lang: string, source: string, translated: string,
                detectorConsulted: bool, translatorCalled: bool)

  /** One chunk through the cycle. A silent chunk reaches no collaborator;
      an empty recognized text ends the cycle before language detection; a
      recognizer failure is caught and ends the cycle without a caption;
      otherwise the caption is the translation of the recognized text, which
      is the recognized text itself for English and when the translator
      fails. */
  function Dispatch(chunk: Chunk, cfg: Config, env: Collaborators): (r: CycleOutcome)
    ensures r.Silenced? <==> IsSilent(chunk, cfg.threshold)
    ensures r.TranscriptionFailed? <==>
              !IsSilent(chunk, cfg.threshold) && env.transcription.TranscriberRaised?
    ensures r.NothingRecognized? <==>
              !IsSilent(chunk, cfg.threshold) && env.transcription.Transcribed?
              && forall i :: 0 <= i < |env.transcription.texts| ==> Blank(env.transcription.texts[i])
    ensures r.Captioned? ==>
              && r.source == RecognizedText(env.transcription.texts)
              && !Blank(r.source)
              && (Forced(cfg.forcedLang) ==> r.lang == cfg.forcedLang.value)
              && (!Forced(cfg.forcedLang) && env.detection.Some? && env.detection.value in SUPPORTED_LANGS ==>
                    r.lang == env.detection.value)
              && (!Forced(cfg.forcedLang) && (env.detection.None? || env.detection.value !in SUPPORTED_LANGS) ==>
                    r.lang == "en")
              && r.detectorConsulted == !Forced(cfg.forcedLang)
              && r.translatorCalled == (r.lang != "en")
              && ((r.lang == "en" || env.translation.TranslatorFailed?) ==> r.translated == r.source)
              && (r.translatorCalled && env.translation.Translated? ==> r.translated == env.translation.text)
  {
    if IsSilent(chunk, cfg.threshold) then
      Silenced
    else
      match env.transcription
      case TranscriberRaised => TranscriptionFailed
      case Transcribed(texts) =>
        var text := RecognizedText(texts);
        if text == [] then
          NothingRecognized
        else
          var choice := ChooseLanguage(cfg.forcedLang, env.detection);
          var t := TranslateToEnglish(text, choice.code, env.translation);
          Captioned(choice.code, text, t.text, choice.detectorConsulted, t.translatorCalled)
  }

  /** What happens around one turn of the worker loop: whether the stop
      flag is set when the loop condition is tested, the batches the capture
      callback delivers while the worker waits in `get`, and the
      collaborators' outcomes for a cycle started in this turn. */
  datatype Tick = Tick(stop: bool, arrivals: seq<Batch>, env: Collaborators)

  /** What one turn of the loop did: `get` timed out, a batch was kept
      pending, or a chunk went through the dispatch cycle. */
  datatype Step = Idle | Pending | Cycle(chunk: Chunk, outcome: CycleOutcome)

  /** The number of turns before the worker sees the stop flag. */
  function FirstStop(ticks: seq<Tick>): (n: nat)
    ensures n <= |ticks|
    ensures forall i :: 0 <= i < n ==> !ticks[i].stop
    ensures n < |ticks| ==> ticks[n].stop
  {
    if ticks == [] || ticks[0].stop then 0 else 1 + FirstStop(ticks[1..])
  }

  /** A step that is a cycle dispatched a chunk of at least `cfg.target`
      frames according to `Dispatch`. */
  predicate DispatchedBy(s: Step, cfg: Config, env: Collaborators) {
    s.Cycle? ==> |s.chunk| >= cfg.target && s.outcome == Dispatch(s.chunk, cfg, env)
  }

  /** A turn that wrote the caption file. */
  predicate Writes(s: Step) {
    s.Cycle? && s.outcome.Captioned?
  }

  /** The caption file after the turns of `log`, starting from `initial`. */
  function LatestCaption(initial: string, log: seq<Step>): string {
    if log == [] then initial
    else if Writes(log[|log| - 1]) then CleanCaption(log[|log| - 1].outcome.translated)
    else LatestCaption(initial, log[..|log| - 1])
  }

  /** Turns that write no caption leave the file as it was. */
  lemma {:induction false} NoWriteKeepsCaption(initial: string, log: seq<Step>)
    requires forall i :: 0 <= i < |log| ==> !Writes(log[i])
    ensures LatestCaption(initial, log) == initial
  {
    if log != [] {
      NoWriteKeepsCaption(initial, log[..|log| - 1]);
    }
  }

  /** The file holds the caption of the last turn that wrote one. */
  lemma {:induction false} LastWriteWins(initial: string, log: seq<Step>, k: nat)
    requires k < |log| && Writes(log[k])
    requires forall i :: k < i < |log| ==> !Writes(log[i])
    ensures LatestCaption(initial, log) == CleanCaption(log[k].outcome.translated)
  {
    if k < |log| - 1 {
      LastWriteWins(initial, log[..|log| - 1], k);
    }
  }

  /** If every chunk the worker dispatched was silent, the caption file is
      never written. */
  lemma SilenceKeepsCaption(initial: string, log: seq<Step>, cfg: Config, ticks: seq<Tick>)
    requires |log| <= |ticks|
    requires forall i :: 0 <= i < |log| ==> DispatchedBy(log[i], cfg, ticks[i].env)
    requires forall i :: 0 <= i < |log| && log[i].Cycle? ==> IsSilent(log[i].chunk, cfg.threshold)
    ensures LatestCaption(initial, log) == initial
  {
    NoWriteKeepsCaption(initial, log);
  }

  /** If the recognizer finds nothing in any chunk, every cycle ends silenced
      or with nothing recognized, so no language detection takes place and
      the caption file is never written. */
  lemma BlankRecognitionKeepsCaption(initial: string, log: seq<Step>, cfg: Config, ticks: seq<Tick>)
    requires |log| <= |ticks|
    requires forall i :: 0 <= i < |log| ==> DispatchedBy(log[i], cfg, ticks[i].env)
    requires forall i :: 0 <= i < |log| && log[i].Cycle? ==>
               ticks[i].env.transcription.Transcribed?
               && forall j :: 0 <= j < |ticks[i].env.transcription.texts| ==>
                    Blank(ticks[i].env.transcription.texts[j])
    ensures forall i :: 0 <= i < |log| && log[i].Cycle? ==>
              log[i].outcome.Silenced? || log[i].outcome.NothingRecognized?
    ensures LatestCaption(initial, log) == initial
  {
    NoWriteKeepsCaption(initial, log);
  }

  /** The queue after the capture callbacks of a turn. */
  function AfterDelivery(capacity: nat, items: seq<Batch>, arrivals: seq<Batch>): seq<Batch> {
    items + arrivals[..Admitted(capacity, |items|, |arrivals|)]
  }

  /** How one turn moves batches: `get` times out exactly when nothing was
      queued and nothing arrived; otherwise the oldest batch leaves the queue
      for the accumulator, where it stays pending or completes the chunk. */
  predicate TurnMoves(capacity: nat, items: seq<Batch>, arrivals: seq<Batch>, items': seq<Batch>,
                      buf: seq<Batch>, accumulated: int, buf': seq<Batch>, accumulated': int, step: Step)
  {
    var queued := AfterDelivery(capacity, items, arrivals);
    var head: Batch := if queued == [] then [] else queued[0];
    && (step.Idle? <==> items == [] && arrivals == [])
    && (queued == [] <==> items == [] && arrivals == [])
    && (queued == [] ==> items' == [])
    && (queued != [] ==> queued == [head] + items')
    && (step.Idle? ==> buf' == buf && accumulated' == accumulated)
    && (step.Pending? ==> queued != [] && buf' == buf + [head])
    && (step.Cycle? ==>
          && queued != []
          && step.chunk == FirstChannel(Flatten(buf) + head)
          && buf' == [] && accumulated' == 0)
  }

  /** A log of dispatched turns stays one when a dispatched turn is added. */
  lemma ExtendLog(log: seq<Step>, step: Step, cfg: Config, ticks: seq<Tick>)
    requires |log| < |ticks|
    requires forall k :: 0 <= k < |log| ==> DispatchedBy(log[k], cfg, ticks[k].env)
    requires DispatchedBy(step, cfg, ticks[|log|].env)
    ensures forall k :: 0 <= k < |log| + 1 ==> DispatchedBy((log + [step])[k], cfg, ticks[k].env)
  {
  }

  /** The caption after one more turn. */
  lemma LatestCaptionSnoc(initial: string, log: seq<Step>, step: Step)
    ensures LatestCaption(initial, log + [step]) ==
              if Writes(step) then CleanCaption(step.outcome.translated) else LatestCaption(initial, log)
  {
  }

  /** The capture callbacks of one turn followed by one `get`: the oldest
      queued batch, or nothing when `get` times out on an empty queue. */
  method Collect(q: FrameQueue, arrivals: seq<Batch>) returns (frames: Option<Batch>)
    requires q.Valid()
    modifies q
    ensures q.Valid()
    ensures frames.None? <==> old(q.items) == [] && arrivals == []
    ensures frames.None? ==> q.items == []
    ensures frames.Some? ==> AfterDelivery(q.capacity, old(q.items), arrivals) == [frames.value] + q.items
  {
    Deliver(q, arrivals);
    frames := q.Dequeue();
  }

  /** The body of the worker loop, after the stop flag was found unset: the
      callback's deliveries, one `get`, and the cycle when a chunk is
      complete. `get` times out exactly when nothing was queued and nothing
      arrived; otherwise the oldest batch goes to the accumulator. The
      caption file is written exactly when the cycle ends with a caption. */
  method WorkerTurn(q: FrameQueue, acc: ChunkAccumulator, sink: CaptionSink, cfg: Config, tick: Tick)
    returns (step: Step)
    requires q.Valid() && acc.Valid() && acc.target == cfg.target
    modifies q, acc, sink
    ensures q.Valid() && acc.Valid() && acc.target == cfg.target
    ensures TurnMoves(q.capacity, old(q.items), tick.arrivals, q.items,
                      old(acc.buf), old(acc.accumulated), acc.buf, acc.accumulated, step)
    ensures DispatchedBy(step, cfg, tick.env)
    ensures sink.content == if Writes(step) then CleanCaption(step.outcome.translated) else old(sink.content)
  {
    var frames := Collect(q, tick.arrivals);
    step := Idle;
    if frames.Some? {
      ghost var pending := acc.buf;
      var chunk := acc.Push(frames.value);
      if chunk.None? {
        step := Pending;
      } else {
        assert (pending + [frames.value])[..|pending|] == pending;
        var outcome := Dispatch(chunk.value, cfg, tick.env);
        if outcome.Captioned? {
          sink.Write(outcome.translated);
        }
        step := Cycle(chunk.value, outcome);
      }
    }
  }

  /** One more turn of the loop, recorded at the end of the log of the
      turns before it. */
  method LoggedTurn(q: FrameQueue, acc: ChunkAccumulator, sink: CaptionSink, cfg: Config,
                    ticks: seq<Tick>, log: seq<Step>, ghost initial: string)
    returns (log': seq<Step>)
    requires |log| < |ticks|
    requires q.Valid() && acc.Valid() && acc.target == cfg.target
    requires forall k :: 0 <= k < |log| ==> DispatchedBy(log[k], cfg, ticks[k].env)
    requires sink.content == LatestCaption(initial, log)
    modifies q, acc, sink
    ensures q.Valid() && acc.Valid() && acc.target == cfg.target
    ensures |log'| == |log| + 1 && log'[..|log|] == log
    ensures forall k :: 0 <= k < |log'| ==> DispatchedBy(log'[k], cfg, ticks[k].env)
    ensures sink.content == LatestCaption(initial, log')
  {
    var step := WorkerTurn(q, acc, sink, cfg, ticks[|log|]);
    ExtendLog(log, step, cfg, ticks);
    LatestCaptionSnoc(initial, log, step);
    log' := log + [step];
  }

  /** `processor_worker`, for a finite run of loop turns. The worker stops
      at the first turn whose stop flag is set; every chunk it dispatches has
      at least the target frame count and is handled by `Dispatch`; and the
      caption file ends up holding the caption of the last cycle that wrote
      one. Batches still pending at the stop are discarded. */
  method ProcessorWorker(q: FrameQueue, sink: CaptionSink, cfg: Config, ticks: seq<Tick>)
    returns (log: seq<Step>)
    requires q.Valid()
    modifies q, sink
    ensures q.Valid()
    ensures |log| == FirstStop(ticks)
    ensures forall i :: 0 <= i < |log| ==> DispatchedBy(log[i], cfg, ticks[i].env)
    ensures sink.content == LatestCaption(old(sink.content), log)
  {
    var acc := new ChunkAccumulator(cfg.target);
    log := [];
    var i := 0;
    while i < |ticks| && !ticks[i].stop
      invariant i == |log| <= FirstStop(ticks)
      invariant q.Valid() && acc.Valid() && acc.target == cfg.target
      invariant forall k :: 0 <= k < |log| ==> DispatchedBy(log[k], cfg, ticks[k].env)
      invariant sink.content == LatestCaption(old(sink.content), log)
      decreases |ticks| - i
    {
      log := LoggedTurn(q, acc, sink, cfg, ticks, log, old(sink.content));
      i := i + 1;
    }
  }

  /** `main`: the caption file is cleared to an empty line, then the worker
      runs on a fresh queue of capacity 50 with the configured settings, so
      the file ends up empty-lined unless some cycle wrote a caption. */
  method RunSession(sink: CaptionSink, ticks: seq<Tick>) returns (q: FrameQueue, log: seq<Step>)
    modifies sink
    ensures fresh(q) && q.capacity == AUDIO_QUEUE_CAPACITY && q.Valid()
    ensures |log| == FirstStop(ticks)
    ensures forall i :: 0 <= i < |log| ==> DispatchedBy(log[i], DEFAULT_CONFIG, ticks[i].env)
    ensures sink.content == LatestCaption("\n", log)
  {
    sink.Write("");
    assert Blank("");
    q := new FrameQueue(AUDIO_QUEUE_CAPACITY);
    log := ProcessorWorker(q, sink, DEFAULT_CONFIG, ticks);
  }
}
