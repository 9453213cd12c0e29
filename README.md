# Live transcription captions: a Dafny model of the capture-to-caption pipeline

The program listens to a microphone, cuts the audio into chunks of about five
seconds, drops silent chunks, sends the rest to a speech recognizer, picks the
source language, translates the text to English and writes the latest caption
to a text file for a streaming overlay. This project models the policy code
around those collaborators and proves what it promises:

- the bounded frame queue (capacity 50) between the capture callback and the
  worker, whose non-blocking insert drops a batch when the queue is full;
- the chunk accumulator of the worker (`buf`, `accumulated`), which emits the
  first channel of all pending batches once the frame count reaches the target
  and then resets;
- the silence gate on the mean absolute amplitude, stated multiplied out
  (`sum |s| < threshold * n`) so that no division is needed;
- the assembly of the recognized text (strip every segment, drop blank ones,
  join with one space);
- the language choice (forced language, else the detected one if supported,
  else "en");
- `translate_to_english` (blank gives "", English is returned unchanged, a
  translator failure returns the original text);
- the caption cleaning of `write_caption` and the single-slot caption file;
- the worker loop, driven by a finite sequence of turns, and the session that
  clears the caption file first.

Python's `str.strip()` is modelled with Python's own whitespace set
(`Text.IsSpace`). Audio samples are exact reals. The speech recognizer, the
language detector and the translator appear only through their outcomes,
which the caller supplies (`Pipeline.Collaborators`): segment texts or a raised
exception, a detected code or a failure, a translation or a failure. What
the result records ("the detector was consulted", "the translator was
called") are ordinary fields of the returned values.

Modules, one per component: `Wrappers` (Option), `Text`, `Segments`,
`Captions`, `Languages`, `Translation`, `Audio` (sample, frame, batch and chunk
types), `Capture` (frame queue and audio callback), `Accumulator`, `Silence`,
`Pipeline` (dispatch cycle, worker, session) and `Scenarios` (client methods
that replay three concrete cases against the contracts).

`write_caption` replaces each line feed by one space and then strips; it does
not collapse runs of whitespace, and other inner whitespace (a carriage
return, a tab) stays in the caption.

## Model

| member | source | states |
|---|---|---|
| Text.Strip | live_transcribe_translate_captions.py:63 | `strip()` gives the slice of the input after its maximal whitespace prefix, with only whitespace after it; the result has no whitespace at either end and is empty exactly when the input is all whitespace |
| Text.Blank | live_transcribe_translate_captions.py:50 | the test `not text.strip()` (also the filter `if s.text.strip()` negated); characterized by Text.BlankIffAllSpace |
| Text.BlankIffAllSpace | live_transcribe_translate_captions.py:50 | the test `not text.strip()` holds exactly for text made only of whitespace |
| Text.StripTrimmed | live_transcribe_translate_captions.py:109 | stripping a string with no whitespace at its ends returns it unchanged |
| Text.StripIdempotent | live_transcribe_translate_captions.py:63 | stripping twice is stripping once |
| Text.StripKeepsCharacters | live_transcribe_translate_captions.py:63 | every character of the stripped text occurs in the original |
| Segments.Kept | live_transcribe_translate_captions.py:109 | the kept segment texts are non-empty and have no whitespace at their ends, there are no more of them than segments, and there are none exactly when every segment is blank |
| Segments.Join | live_transcribe_translate_captions.py:109 | `" ".join` of the kept parts; characterized by Segments.JoinShape and Segments.JoinSnoc |
| Segments.JoinShape | live_transcribe_translate_captions.py:109 | joining non-empty stripped parts with a space is empty only for no parts, has no whitespace at its ends and starts with the first part |
| Segments.JoinSnoc | live_transcribe_translate_captions.py:109 | one more part adds exactly one space and that part at the end |
| Segments.RecognizedText | live_transcribe_translate_captions.py:109-110 | the recognized text is empty exactly when every segment text is blank; otherwise it is not blank and has no whitespace at its ends |
| Segments.KeptSnoc | live_transcribe_translate_captions.py:109 | one more segment adds its stripped text to the kept parts when it is not blank, and nothing otherwise |
| Segments.RecognizedTextSnoc | live_transcribe_translate_captions.py:109 | one more segment leaves the recognized text unchanged when blank, is the whole text when it is the first non-blank one, and otherwise adds one space and its stripped text |
| Captions.ReplaceNewlines | live_transcribe_translate_captions.py:63 | same length; every line feed becomes a space and every other character is kept in place |
| Captions.NoNewlinesUnchanged | live_transcribe_translate_captions.py:63 | a text without line feeds is not changed by the replacement |
| Captions.CleanCaption | live_transcribe_translate_captions.py:62-65 | the caption content ends with a line feed, holds no other line feed, has no whitespace at the ends of its text, and is a lone line feed exactly when the text is blank |
| Captions.CleanCaptionVerbatim | live_transcribe_translate_captions.py:62-65 | a clean text (no line feed, no whitespace at its ends) is written verbatim followed by a line feed, so reading the file back gives the text |
| Captions.CleanCaptionIdempotent | live_transcribe_translate_captions.py:62-65 | writing back the text of a caption file reproduces the same content |
| Captions.CaptionSink.constructor | live_transcribe_translate_captions.py:29 | the sink starts with whatever the caption file already holds |
| Captions.CaptionSink.Write | live_transcribe_translate_captions.py:62-65 | a write replaces the whole content with the cleaned caption, whatever was there before |
| Languages.Forced | live_transcribe_translate_captions.py:116 | the truthiness test `if FORCE_LANG:`: an override is present and non-empty; its effect is stated by Languages.ChooseLanguage and Languages.ForcedIgnoresDetector |
| Languages.ChooseLanguage | live_transcribe_translate_captions.py:116-124 | a forced language (non-empty override) is used without consulting the detector; otherwise the detector is consulted, a supported answer is kept, and an unsupported answer or a detector failure gives "en" |
| Languages.ChosenLanguageAllowed | live_transcribe_translate_captions.py:116-124 | the chosen language is the forced one or one of the supported languages |
| Languages.FailureAndUnsupportedCollapse | live_transcribe_translate_captions.py:119-124 | a detector failure and an unsupported detected code give the same choice |
| Languages.ForcedIgnoresDetector | live_transcribe_translate_captions.py:116-117 | with a forced language the detector's outcome has no effect |
| Translation.TranslateToEnglish | live_transcribe_translate_captions.py:49-59 | blank text gives "" and English text is returned as is, both without calling the translator; the translator is called exactly for non-blank non-English text, and its failure returns the original text |
| Translation.TextKeptUnlessTranslated | live_transcribe_translate_captions.py:52-59 | non-blank text comes back unchanged when the language is English or the translator fails |
| Translation.OutcomeIrrelevantUnlessCalled | live_transcribe_translate_captions.py:50-53 | for blank or English text the translator's outcome does not affect the result |
| Capture.Admitted | live_transcribe_translate_captions.py:72-74 | of the batches offered to a queue, those that fit are admitted, never more than the capacity allows; fewer are admitted only when the queue is full; capacity 0 admits all |
| Capture.FrameQueue.constructor | live_transcribe_translate_captions.py:40 | a new queue is empty and has the given capacity |
| Capture.FrameQueue.Full | live_transcribe_translate_captions.py:72-73 | the condition under which `put_nowait` raises `queue.Full`: a bounded queue holding at least its capacity; Capture.FrameQueue.TryEnqueue states that insertion fails exactly then |
| Capture.FrameQueue.TryEnqueue | live_transcribe_translate_captions.py:72-74 | insertion succeeds exactly when the queue is not full: on success the batch is appended at the back, on failure the contents are unchanged; the length never exceeds the capacity |
| Capture.FrameQueue.Dequeue | live_transcribe_translate_captions.py:85-87 | an empty queue gives nothing (the timeout) and stays empty; otherwise the oldest batch is removed and returned |
| Capture.AudioCallback | live_transcribe_translate_captions.py:68-74 | the callback appends the batch unless the queue is full, and then drops it without changing the queue |
| Capture.Deliver | live_transcribe_translate_captions.py:68-74 | a run of callbacks appends the oldest arrivals that fit and drops the newest ones; nothing queued before is evicted |
| Accumulator.TotalFrames | live_transcribe_translate_captions.py:89 | the running sum of `frames.shape[0]` over the pending batches; Accumulator.TotalFramesAppend and Accumulator.FlattenLength characterize it |
| Accumulator.Flatten | live_transcribe_translate_captions.py:92 | `np.concatenate(buf, axis=0)`: the frames of the pending batches in order; characterized by Accumulator.FlattenLength, Accumulator.FlattenAppend and Accumulator.FlattenAt |
| Accumulator.FirstChannel | live_transcribe_translate_captions.py:93-94 | one sample per frame, the first channel's, in order |
| Accumulator.FlattenLength | live_transcribe_translate_captions.py:89-92 | concatenating the pending batches gives exactly as many frames as the counter adds up |
| Accumulator.FlattenAppend | live_transcribe_translate_captions.py:92 | concatenation of a split list of batches is the concatenation of the parts |
| Accumulator.TotalFramesAppend | live_transcribe_translate_captions.py:89 | frame counts of a split list of batches add up |
| Accumulator.FlattenAt | live_transcribe_translate_captions.py:92 | frame k of batch j sits in the chunk at position (frames before batch j) + k, so the chunk keeps every batch, in order |
| Accumulator.ChunkAccumulator.constructor | live_transcribe_translate_captions.py:78-80 | the worker starts with no pending batch and a zero counter |
| Accumulator.ChunkAccumulator.Push | live_transcribe_translate_captions.py:88-94 | the counter stays the frame count of the pending batches; a chunk is emitted exactly when the count reaches the target, it is the first channel of all pending batches concatenated with the new one, at least the target long and never truncated, and the state is then empty; otherwise the batch is appended and counted |
| Silence.SumAbs | live_transcribe_translate_captions.py:97 | the sum of absolute amplitudes is non-negative and zero exactly for an all-zero chunk |
| Silence.IsSilent | live_transcribe_translate_captions.py:97-98 | the gate `np.abs(chunk).mean() < SILENCE_THRESHOLD`, multiplied out by the chunk length; Silence.SilentIffMeanBelow and Silence.EmptyNeverSilent tie it to the mean test |
| Silence.SilentIffMeanBelow | live_transcribe_translate_captions.py:97-98 | for a non-empty chunk the multiplied-out test is the test "mean absolute amplitude below the threshold" |
| Silence.EmptyNeverSilent | live_transcribe_translate_captions.py:97-98 | an empty chunk is not silent, as the comparison with the mean of an empty array is false |
| Silence.ZeroChunkSilent | live_transcribe_translate_captions.py:97-98 | an all-zero chunk is silent exactly when it is non-empty and the threshold is positive |
| Silence.SumAbsAppend | live_transcribe_translate_captions.py:97 | the amplitude sum of a concatenation is the sum of the parts' sums |
| Silence.SilentPiecesSilentWhole | live_transcribe_translate_captions.py:92-98 | if two pieces are silent, their concatenation is silent |
| Pipeline.Dispatch | live_transcribe_translate_captions.py:96-133 | a cycle ends silenced exactly for a silent chunk (no collaborator called), fails exactly when the recognizer raises, ends with nothing recognized exactly when all segments are blank (no detection); otherwise the caption is from the non-blank recognized text; its language is the forced one, else the detected one when supported, else "en", and the detector is consulted exactly when no language is forced; the translator is called exactly for non-English text, and English text or a translator failure keeps the recognized text |
| Pipeline.FirstStop | live_transcribe_translate_captions.py:83 | the number of turns run is the position of the first set stop flag, or all turns when none is set |
| Pipeline.NoWriteKeepsCaption | live_transcribe_translate_captions.py:127 | turns without a caption write leave the caption file unchanged |
| Pipeline.LastWriteWins | live_transcribe_translate_captions.py:64 | the caption file holds the cleaned caption of the last turn that wrote one |
| Pipeline.SilenceKeepsCaption | live_transcribe_translate_captions.py:97-100 | if every dispatched chunk is silent, the caption file is never written |
| Pipeline.BlankRecognitionKeepsCaption | live_transcribe_translate_captions.py:109-113 | if every recognition is blank, every cycle ends silenced or with nothing recognized (so the detector is never consulted) and the caption file is never written |
| Pipeline.Collect | live_transcribe_translate_captions.py:68-87 | after the turn's callbacks, `get` times out exactly when nothing was queued and nothing arrived (the queue is then empty); otherwise it returns the oldest batch of the delivered queue and leaves the rest |
| Pipeline.WorkerTurn | live_transcribe_translate_captions.py:84-133 | one loop turn keeps the queue and the accumulator valid; `get` times out exactly when nothing was queued or delivered; otherwise the oldest batch leaves the queue and is kept pending or completes the chunk, which is the first channel of all pending batches and is dispatched through the cycle, emptying the accumulator; the caption file is written exactly when the cycle ends with a caption |
| Pipeline.LoggedTurn | live_transcribe_translate_captions.py:84-133 | a turn adds exactly one step to the log, keeps every logged step dispatched by the cycle, and keeps the caption file equal to the caption of the last writing step |
| Pipeline.LatestCaptionSnoc | live_transcribe_translate_captions.py:127 | one more turn changes the caption file only when its cycle wrote a caption |
| Pipeline.ProcessorWorker | live_transcribe_translate_captions.py:77-139 | the worker runs until the first set stop flag, every chunk it dispatches is at least the target long and handled by the cycle, and the caption file ends up holding the caption of the last cycle that wrote one |
| Pipeline.RunSession | live_transcribe_translate_captions.py:141-156 | the caption file is first cleared to a lone line feed and then holds the last written caption; the worker runs with the configured settings on a new queue of capacity 50, which is returned still within its capacity |

## Left out

- Threads and timing: the capture callback and the worker run concurrently in the program; the model interleaves them once per loop turn (the callbacks of a turn run while the worker waits in `get`), and the 0.5 s `get` timeout becomes "the queue is empty".
- The loop of `main` (`time.sleep`, `KeyboardInterrupt`, `stop_event.set()`, `worker.join()`), which only decides when the stop flag is set; the stop flag is an input of each turn.
- Audio capture through `sd.InputStream`, the callback's `status` report and all printed log lines: I/O.
- The temporary WAV file (creation, writing, deletion): the recognizer works on the chunk directly.
- The speech recognizer, the language detector and the translator: their results are inputs; model loading, `beam_size` and the detector seed are left out with them.
- Floating point: samples and the threshold are exact reals, so float32 rounding of the mean is not modelled; `int(CHUNK_DURATION * SAMPLE_RATE)` is the constant 80000 and the target is a parameter of the accumulator.
- Exceptions outside the `try` block (in the concatenation, the silence test or the WAV write) would end the worker thread; the model has no such failures. A failure of the caption write itself, which the outer `except` would catch, is not modelled: the write always succeeds.
- The reset of `buf` and `accumulated` happens in `Push`, when the chunk is emitted, instead of on each exit path of the cycle; every path resets before the next `get`, so the next turn sees the same state.
- A one-dimensional chunk (no channel axis) never arises here, because the capture stream always delivers frames with a channel axis; every frame has at least one channel.
- `confirm_argostranslate_works.py` is not part of this model: it only installs a translation package and calls the library.
- Pipeline.ProcessorWorker: does not state which queued batches were consumed or what stays in the queue and the accumulator after the stop, only that both stay valid; the effect of each turn is stated by Pipeline.WorkerTurn.
- Pipeline.RunSession: shares the gap of Pipeline.ProcessorWorker: it does not state which captured batches reached the log or what is left in the queue at the stop.
- The caption file is opened in text mode with UTF-8 encoding: the model's content is the string passed to `f.write`, not the bytes on disk, so the platform's newline translation (a final `"\r\n"` on Windows) and the encoding are not modelled.
