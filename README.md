# StreetWise in Dafny

StreetWise is a spoken question-and-answer service with three parts:

- **The speech appliance.** A person types a four-digit number on a keypad. They then record a question, which is cut off by a silence detector. The appliance uploads the question, speaks the number assigned to it, and later fetches and plays the answer.
- **The PHP server.** It numbers and stores questions, reserves them for answerers, lists open questions and recent answers, and stores answers.
- **The Android answer app.** It records a spoken answer, encodes it as AAC and uploads it.

This project models the decision logic of all three and proves properties about it. One Dafny module stands for each core source file:

| module | file | form |
|---|---|---|
| `AudioCapture` | AudioSoftwarePoller.java | classes `AudioSoftwarePoller` and `RecorderTask`; the capture loop is specified by `RunTicks` |
| `AudioEncoding` | AudioEncoder.java | classes `AudioEncoder` and `EncoderTask`; the codec's output is a script of events; the `drainEncoder` loop is specified by `Drain` |
| `SilenceRecorder` | SilenceDetectingAudioRecorder.java | class `SilenceDetectingAudioRecorder`, with the per-frame stop policy |
| `KeypadIO` | PssIO.kt | class `PssIO`, with its four-slot display buffer |
| `Appliance` | Pss2.java | file-name patterns, server replies, `NumberPlaybackCallback` |
| `Sounds` | SoundPlayer.java | sound names, resource files, class `SoundPlayer` |
| `Downloader` | AnswerDownloader.java | answer-list parsing, the download filter, `downloadAnswer` |
| `QuestionApi` | question.php | number allocation and question storage |
| `ReserveApi` | reserve.php | the reservation protocol |
| `ResponsesApi` | responses.php | single lookup, answered list, unanswered list |
| `AnswerApi` | answer.php | answer storage and the duplicate rule |

Two shared modules sit beside these:

- `Common` holds decimal rendering, Java's `Integer.parseInt`, PHP's `intval` and `explode`, Java's `split`, `int` wrap-around and truncating division, and the `SimpleDateFormat` shape used in file names.
- `ServerCommon` holds the server's configuration, directory listings as name/mtime entries, the file operations a script performs, the key check, the upload checks and the `preg_grep` patterns.

Each PHP script is a function or method of the request and the directory listings. It returns the echoed text and the ordered file operations it performs; the clock and the random draws are parameters. The Java and Kotlin classes keep their fields, and each of their methods states its new state against a specification function. The properties are proved about those functions.

## Model

| member | source | states |
|---|---|---|
| AudioCapture.RecordBufferSize | streetwise-app/app/src/main/java/ac/robinson/streetwise/AudioSoftwarePoller.java:100-104 | Both products are 32-bit `int` arithmetic, so the size is always an `int`. It is 24 frames whenever that product fits and reaches the device minimum. It is undefined (a division by zero) exactly when the frame size is 0 and the minimum is positive. |
| AudioCapture.EnlargedBufferSize | streetwise-app/app/src/main/java/ac/robinson/streetwise/AudioSoftwarePoller.java:101-104 | When the wrapped 24-frame product is below a non-negative device minimum and the enlarged product fits in an `int`, the size is a multiple of the frame size and strictly greater than the minimum. |
| AudioCapture.RecordBufferSizeWraps | streetwise-app/app/src/main/java/ac/robinson/streetwise/AudioSoftwarePoller.java:100-104 | A frame of 100 000 000 samples wraps the 24-frame product to a negative `int`, so the enlarged size of 200 000 000 is chosen for a 4096-byte minimum. |
| AudioCapture.MicrosecondsPerFrame | streetwise-app/app/src/main/java/ac/robinson/streetwise/AudioSoftwarePoller.java:61-66 | The corrected duration of one frame: the whole number of microseconds that `samplesPerFrame` samples last at 16 kHz, rounded down. |
| AudioCapture.MicrosecondsPerFrameAsWritten | streetwise-app/app/src/main/java/ac/robinson/streetwise/AudioSoftwarePoller.java:64-66 | The formula as written divides by zero exactly for a zero frame size and always gives an `int`. From 8 samples up it is a non-negative whole number of seconds in microseconds, and above 16 000 samples it is 0. |
| AudioCapture.FramesPerSecondScaled | streetwise-app/app/src/main/java/ac/robinson/streetwise/AudioSoftwarePoller.java:64-66 | From 8 samples up, the truncated frames per second lie in 0..2000 and their product with 1 000 000 fits in an `int`. |
| AudioCapture.MicrosecondsPerFrameDiscrepancy | streetwise-app/app/src/main/java/ac/robinson/streetwise/AudioSoftwarePoller.java:64-66 | The formula as written gives 7 000 000 for a 2048-sample frame, where the duration is 128 000. For a 1-sample frame the `int` product wraps to a negative value. |
| AudioCapture.OfferAll | streetwise-app/app/src/main/java/ac/robinson/streetwise/AudioSoftwarePoller.java:72-74 | Recycled buffers are appended while the pool has room and dropped once it holds 50. The pool never exceeds 50. |
| AudioCapture.Acquire | streetwise-app/app/src/main/java/ac/robinson/streetwise/AudioSoftwarePoller.java:126-137 | A non-empty pool yields its head. An empty pool yields a freshly allocated buffer and charges the emergency budget. |
| AudioCapture.IterateOffersRead | streetwise-app/app/src/main/java/ac/robinson/streetwise/AudioSoftwarePoller.java:139-155 | One pass offers the read's timestamp exactly when the read succeeded. A failed read adds one to the error count. |
| AudioCapture.Iterate | streetwise-app/app/src/main/java/ac/robinson/streetwise/AudioSoftwarePoller.java:123-155 | One pass keeps the pool within 50 and never turns recording back on; a stop request ends it. A failed read adds one error. A successful read with an encoder attached offers exactly one new frame, stamped with the time taken before the read, and the earlier frames stay. |
| AudioCapture.RunTicks | streetwise-app/app/src/main/java/ac/robinson/streetwise/AudioSoftwarePoller.java:123-156 | The loop keeps the pool within 50, never restarts recording, never lowers the error count, and only appends to the frames offered. |
| AudioCapture.RunOffersSuccessfulReads | streetwise-app/app/src/main/java/ac/robinson/streetwise/AudioSoftwarePoller.java:123-156 | With an encoder attached, the frames offered are exactly the successful reads, in order, each with the timestamp taken before it. The error count is cumulative. |
| AudioCapture.RunTimesSuccessfulReads | streetwise-app/app/src/main/java/ac/robinson/streetwise/AudioSoftwarePoller.java:123-156 | With an encoder attached, the offered timestamps grow by exactly those of the successful reads the loop ran, in order. |
| AudioCapture.RunCountsReadErrors | streetwise-app/app/src/main/java/ac/robinson/streetwise/AudioSoftwarePoller.java:139-150 | The error count grows by exactly the failed reads the loop ran. |
| AudioCapture.RunStaysBounded | streetwise-app/app/src/main/java/ac/robinson/streetwise/AudioSoftwarePoller.java:123-150 | From a bounded start, the pool stays within 50, at most 25 emergency buffers are added, and at most 10 reads fail; the loop runs only while both budgets remain. Every issued buffer is counted as added. |
| AudioCapture.RunEndsForAReason | streetwise-app/app/src/main/java/ac/robinson/streetwise/AudioSoftwarePoller.java:123-150 | The loop ends early only because a budget was used up or the recording flag was cleared. |
| AudioCapture.RecorderTask.constructor | streetwise-app/app/src/main/java/ac/robinson/streetwise/AudioSoftwarePoller.java:90-94 | A new task has the default 2048-sample frame, an empty pool and nothing issued. |
| AudioCapture.AudioSoftwarePoller.constructor | streetwise-app/app/src/main/java/ac/robinson/streetwise/AudioSoftwarePoller.java:41-43 | A new poller is not recording, has no encoder and has offered nothing. |
| AudioCapture.AudioSoftwarePoller.SetAudioEncoder | streetwise-app/app/src/main/java/ac/robinson/streetwise/AudioSoftwarePoller.java:45-47 | Attaches the encoder; nothing else changes. |
| AudioCapture.AudioSoftwarePoller.SetSamplesPerFrame | streetwise-app/app/src/main/java/ac/robinson/streetwise/AudioSoftwarePoller.java:55-59 | The frame size changes only when not recording; the pool is untouched. |
| AudioCapture.AudioSoftwarePoller.RecycleInputBuffer | streetwise-app/app/src/main/java/ac/robinson/streetwise/AudioSoftwarePoller.java:72-74 | The buffer is appended to a pool with room and dropped from a full one. |
| AudioCapture.AudioSoftwarePoller.StopPolling | streetwise-app/app/src/main/java/ac/robinson/streetwise/AudioSoftwarePoller.java:86-88 | Only the recording flag is cleared. |
| AudioCapture.AudioSoftwarePoller.RecycleAll | streetwise-app/app/src/main/java/ac/robinson/streetwise/AudioSoftwarePoller.java:72-74 | The pool becomes `OfferAll` of the old pool and the recycled buffers. |
| AudioCapture.AudioSoftwarePoller.AcquireBuffer | streetwise-app/app/src/main/java/ac/robinson/streetwise/AudioSoftwarePoller.java:126-137 | The buffer and the new pool are those `Acquire` gives. |
| AudioCapture.AudioSoftwarePoller.CaptureOnce | streetwise-app/app/src/main/java/ac/robinson/streetwise/AudioSoftwarePoller.java:123-155 | One pass of the loop body leaves the state that `Iterate` gives. |
| AudioCapture.AudioSoftwarePoller.Run | streetwise-app/app/src/main/java/ac/robinson/streetwise/AudioSoftwarePoller.java:97-160 | The outcome is decided by the inputs, each case both ways. It is the division by zero exactly when `RecordBufferSize` has no value, which is a zero frame size with a positive device minimum. Otherwise it is the negative-array-size exception exactly when the frame size is negative. Otherwise it is the queue-full exception exactly when the pool already held more than 25 buffers. In every other case it is a normal stop. On the two early exceptions the pool is unchanged. On queue-full the pool is filled with new buffers up to 50. On a normal stop 25 new buffers are appended and the capture runs as `RunTicks` says. Every outcome other than a stop leaves the recording flag and the encoder queue untouched. On every outcome the encoder attachment stays as it was, since only `setAudioEncoder` changes it. |
| AudioCapture.AudioSoftwarePoller.PreFill | streetwise-app/app/src/main/java/ac/robinson/streetwise/AudioSoftwarePoller.java:104-106 | The pre-fill loop adds 25 buffers of the frame size. It fails with the negative-array-size exception exactly when the frame size is negative, and then adds nothing. It fails with the queue-full exception exactly when the frame size is non-negative and the pool held more than 25, and then the pool is filled to 50. Otherwise it succeeds with 25 fresh buffers appended. |
| AudioEncoding.HandleEvent | streetwise-app/app/src/main/java/ac/robinson/streetwise/AudioEncoder.java:278-348 | Handling one dequeued result leaves the codec's output, inputs and release flag and the muxer's presence as they were, and a stop never hangs. What it writes and releases is stated by `HandleEventAccounting`. |
| AudioEncoding.Drain | streetwise-app/app/src/main/java/ac/robinson/streetwise/AudioEncoder.java:270-350 | A drain only consumes the codec's output. It leaves the inputs, the release flag and the muxer's presence unchanged. |
| AudioEncoding.DrainTakesPrefix | streetwise-app/app/src/main/java/ac/robinson/streetwise/AudioEncoder.java:277-349 | A drain consumes a prefix of the output and leaves the rest. Unless it hangs, it takes at least one result, or there was none and it was not waiting for END_OF_STREAM. |
| AudioEncoding.DrainIgnoresInputs | streetwise-app/app/src/main/java/ac/robinson/streetwise/AudioEncoder.java:270-350 | The queued input does not change how the output is drained. |
| AudioEncoding.HandleEventKeepsMuxerProtocol | streetwise-app/app/src/main/java/ac/robinson/streetwise/AudioEncoder.java:291-334 | One event keeps the muxer protocol: track before start, start once one track is added, no write before start, a format change after start throws. |
| AudioEncoding.FormatChangeStartsMuxer | streetwise-app/app/src/main/java/ac/robinson/streetwise/AudioEncoder.java:291-306 | The first format change adds the one track and starts the muxer. |
| AudioEncoding.BufferKeepsMuxerProtocol | streetwise-app/app/src/main/java/ac/robinson/streetwise/AudioEncoder.java:310-347 | An output buffer writes to the started muxer's track, or writes nothing. Codec-config buffers are never written. |
| AudioEncoding.DrainKeepsMuxerProtocol | streetwise-app/app/src/main/java/ac/robinson/streetwise/AudioEncoder.java:270-350 | A whole drain keeps the muxer protocol, whatever the codec produces. |
| AudioEncoding.HandleEventAccounting | streetwise-app/app/src/main/java/ac/robinson/streetwise/AudioEncoder.java:310-347 | What one event adds to the release log and to the write log, and when the loop goes on after it. |
| AudioEncoding.DrainAccounting | streetwise-app/app/src/main/java/ac/robinson/streetwise/AudioEncoder.java:277-349 | A drain that returns has released every dequeued buffer exactly once, in order, and written exactly the non-empty media buffers. |
| AudioEncoding.DrainEncoderState | streetwise-app/app/src/main/java/ac/robinson/streetwise/AudioEncoder.java:270-276 | `drainEncoder` keeps the control flags, the codec's inputs and its release flag. |
| AudioEncoding.CloseEncoderAndMuxerState | streetwise-app/app/src/main/java/ac/robinson/streetwise/AudioEncoder.java:153-162 | Closing keeps the control flags and the codec's inputs; its effect on `Good` is stated by `CloseKeepsGood`. |
| AudioEncoding.SendEndOfStreamState | streetwise-app/app/src/main/java/ac/robinson/streetwise/AudioEncoder.java:236-249 | Sending END_OF_STREAM keeps the codec's inputs, the start time and the byte count. |
| AudioEncoding.QueueInputState | streetwise-app/app/src/main/java/ac/robinson/streetwise/AudioEncoder.java:225-257 | Queueing input keeps the start time and the byte count. |
| AudioEncoding.PrepareIsGood | streetwise-app/app/src/main/java/ac/robinson/streetwise/AudioEncoder.java:94-133 | `prepare` establishes the encoder invariant `Good`. |
| AudioEncoding.DrainEncoderKeepsGood | streetwise-app/app/src/main/java/ac/robinson/streetwise/AudioEncoder.java:270-350 | Draining preserves `Good`. |
| AudioEncoding.CloseKeepsGood | streetwise-app/app/src/main/java/ac/robinson/streetwise/AudioEncoder.java:153-180 | Closing the encoder and muxer preserves `Good`. |
| AudioEncoding.SendEndOfStreamKeepsGood | streetwise-app/app/src/main/java/ac/robinson/streetwise/AudioEncoder.java:236-249 | Sending END_OF_STREAM preserves `Good`. |
| AudioEncoding.QueueInputKeepsGood | streetwise-app/app/src/main/java/ac/robinson/streetwise/AudioEncoder.java:225-257 | Queueing input preserves `Good`. |
| AudioEncoding.OfferFrameKeepsGood | streetwise-app/app/src/main/java/ac/robinson/streetwise/AudioEncoder.java:196-258 | Handling a frame preserves `Good`. |
| AudioEncoding.RunTaskKeepsGood | streetwise-app/app/src/main/java/ac/robinson/streetwise/AudioEncoder.java:430-455 | One task, frame or finalize, preserves `Good`. |
| AudioEncoding.RunTasksKeepsGood | streetwise-app/app/src/main/java/ac/robinson/streetwise/AudioEncoder.java:430-455 | From `prepare`, every sequence of tasks keeps `Good`. |
| AudioEncoding.FrameAfterEosIsIgnored | streetwise-app/app/src/main/java/ac/robinson/streetwise/AudioEncoder.java:202-219 | After END_OF_STREAM was sent, a frame queues nothing, recycles nothing and fires no callback. |
| AudioEncoding.FinalizeThenFrame | streetwise-app/app/src/main/java/ac/robinson/streetwise/AudioEncoder.java:147-151 | After a stop request, the next frame is queued with END_OF_STREAM. When both drains return, the codec and muxer are released and the encoder finishes. |
| AudioEncoding.SendEndOfStreamFinishes | streetwise-app/app/src/main/java/ac/robinson/streetwise/AudioEncoder.java:236-249 | After a stop request with the muxer started, sending END_OF_STREAM releases both and finishes. |
| AudioEncoding.PresentationTime | streetwise-app/app/src/main/java/ac/robinson/streetwise/AudioEncoder.java:197-199 | Presentation times are `(ns - start) / 1000`, counted from the first frame after `prepare`. |
| AudioEncoding.QueueInputAppends | streetwise-app/app/src/main/java/ac/robinson/streetwise/AudioEncoder.java:236-252 | Before END_OF_STREAM, exactly the one frame is queued. It is flagged END_OF_STREAM once a stop request arrived. |
| AudioEncoding.EncoderTask.Frame | streetwise-app/app/src/main/java/ac/robinson/streetwise/AudioEncoder.java:392-395 | An initialised ENCODE_FRAME task carries its frame and timestamp. |
| AudioEncoding.EncoderTask.Finalize | streetwise-app/app/src/main/java/ac/robinson/streetwise/AudioEncoder.java:375-390 | An initialised FINALIZE_ENCODER task. |
| AudioEncoding.AudioEncoder.constructor | streetwise-app/app/src/main/java/ac/robinson/streetwise/AudioEncoder.java:71-76 | A new encoder is in the prepared state, `Good` holds, and its service is running with no task pending. |
| AudioEncoding.AudioEncoder.SetAudioSoftwarePoller | streetwise-app/app/src/main/java/ac/robinson/streetwise/AudioEncoder.java:90-92 | Records the poller; the encoder state is unchanged. |
| AudioEncoding.AudioEncoder.SetEncodingCompletedCallback | streetwise-app/app/src/main/java/ac/robinson/streetwise/AudioEncoder.java:86-88 | Records the callback; the encoder state is unchanged. |
| AudioEncoding.AudioEncoder.Prepare | streetwise-app/app/src/main/java/ac/robinson/streetwise/AudioEncoder.java:94-133 | Resets the flags and the byte count to the prepared state. |
| AudioEncoding.AudioEncoder.Stop | streetwise-app/app/src/main/java/ac/robinson/streetwise/AudioEncoder.java:135-142 | Submits a FINALIZE task unless the service is shut down. |
| AudioEncoding.AudioEncoder.OfferAudioEncoder | streetwise-app/app/src/main/java/ac/robinson/streetwise/AudioEncoder.java:185-191 | Submits an ENCODE_FRAME task unless the service is shut down. |
| AudioEncoding.AudioEncoder.HandleOutput | streetwise-app/app/src/main/java/ac/robinson/streetwise/AudioEncoder.java:278-348 | One pass of the drain loop's body leaves the state that `HandleEvent` gives. |
| AudioEncoding.AudioEncoder.DrainLoop | streetwise-app/app/src/main/java/ac/robinson/streetwise/AudioEncoder.java:277-349 | The drain loop leaves the state that `Drain` gives. |
| AudioEncoding.AudioEncoder.DrainEncoder | streetwise-app/app/src/main/java/ac/robinson/streetwise/AudioEncoder.java:270-350 | `drainEncoder` leaves the state that `DrainEncoderState` gives. |
| AudioEncoding.AudioEncoder.CloseMuxer | streetwise-app/app/src/main/java/ac/robinson/streetwise/AudioEncoder.java:175-180 | Stopping a muxer that never started throws, and the release is skipped. |
| AudioEncoding.AudioEncoder.CloseEncoderAndMuxer | streetwise-app/app/src/main/java/ac/robinson/streetwise/AudioEncoder.java:153-162 | Leaves the state that `CloseEncoderAndMuxerState` gives. |
| AudioEncoding.AudioEncoder.Finish | streetwise-app/app/src/main/java/ac/robinson/streetwise/AudioEncoder.java:243-249 | Shuts the service down and fires the completion callback. |
| AudioEncoding.AudioEncoder.SendEndOfStream | streetwise-app/app/src/main/java/ac/robinson/streetwise/AudioEncoder.java:236-249 | Leaves the state that `SendEndOfStreamState` gives. |
| AudioEncoding.AudioEncoder.QueueInput | streetwise-app/app/src/main/java/ac/robinson/streetwise/AudioEncoder.java:225-257 | Leaves the state that `QueueInputState` gives. |
| AudioEncoding.AudioEncoder.OfferFrame | streetwise-app/app/src/main/java/ac/robinson/streetwise/AudioEncoder.java:196-258 | `_offerAudioEncoder` leaves the state that `OfferFrameState` gives. |
| AudioEncoding.AudioEncoder.RunTask | streetwise-app/app/src/main/java/ac/robinson/streetwise/AudioEncoder.java:430-455 | An uninitialised task changes nothing. An initialised one runs its body and clears the flag when it completes, so each body runs at most once. |
| AudioEncoding.AudioEncoder.RunNextTask | streetwise-app/app/src/main/java/ac/robinson/streetwise/AudioEncoder.java:50 | The oldest pending task is removed and run. |
| SilenceRecorder.MsToFrames | streetwise-appliance/src/main/java/ac/robinson/pss2/SilenceDetectingAudioRecorder.java:97-102 | The frame count is `round(ms / 16)`, rounding halves up. |
| SilenceRecorder.DefaultThresholdValues | streetwise-appliance/src/main/java/ac/robinson/pss2/SilenceDetectingAudioRecorder.java:29-31 | 3000, 5000 and 15000 ms are 188, 313 and 938 frames. |
| SilenceRecorder.StopCallsAsWritten | streetwise-appliance/src/main/java/ac/robinson/pss2/SilenceDetectingAudioRecorder.java:173-198 | How many times one frame calls `stopRecording`: zero, one or two. |
| SilenceRecorder.StopCalls | streetwise-appliance/src/main/java/ac/robinson/pss2/SilenceDetectingAudioRecorder.java:185-198 | The corrected frame calls `stopRecording` at most once, and always once when it completes the maximum duration. |
| SilenceRecorder.TrailingSilentMeaning | streetwise-appliance/src/main/java/ac/robinson/pss2/SilenceDetectingAudioRecorder.java:174-180 | The silent counter is the length of the trailing run of non-loud frames: those frames are all silent, and the one before them is loud. |
| SilenceRecorder.StopPolicy | streetwise-appliance/src/main/java/ac/robinson/pss2/SilenceDetectingAudioRecorder.java:173-198 | The next frame stops the recording exactly when it completes the maximum duration, or when it ends a silence of the timeout's length and at least the minimum came before it. |
| SilenceRecorder.MaximumStops | streetwise-appliance/src/main/java/ac/robinson/pss2/SilenceDetectingAudioRecorder.java:193-198 | The frame that reaches the maximum count stops the recording, however loud it is. |
| SilenceRecorder.StopCallsCorrected | streetwise-appliance/src/main/java/ac/robinson/pss2/SilenceDetectingAudioRecorder.java:185-198 | The corrected frame stops exactly when the written one does, and never twice. |
| SilenceRecorder.DoubleStop | streetwise-appliance/src/main/java/ac/robinson/pss2/SilenceDetectingAudioRecorder.java:185-198 | 750 loud frames followed by silence make frame 938 call `stopRecording` twice; no earlier frame stops the recording. |
| SilenceRecorder.Mp3NameOfRecording | streetwise-appliance/src/main/java/ac/robinson/pss2/SilenceDetectingAudioRecorder.java:91-93 | The mp3 name is the raw `<millis>_<date>.wav` name with only the extension replaced. |
| SilenceRecorder.SilenceDetectingAudioRecorder.constructor | streetwise-appliance/src/main/java/ac/robinson/pss2/SilenceDetectingAudioRecorder.java:73-79 | A new recorder has no dispatcher, has done nothing, and has a mixer only when one is given. |
| SilenceRecorder.SilenceDetectingAudioRecorder.StartRecording | streetwise-appliance/src/main/java/ac/robinson/pss2/SilenceDetectingAudioRecorder.java:81-136 | Refused, with nothing changed, without a mixer or while a dispatcher exists. Otherwise the counters start at 0, the thresholds are set, and a line that opens starts the dispatcher. |
| SilenceRecorder.SilenceDetectingAudioRecorder.StopRecording | streetwise-appliance/src/main/java/ac/robinson/pss2/SilenceDetectingAudioRecorder.java:138-170 | The callback hears "encoding started", then exactly one of completed or failed; the dispatcher is cleared on both paths. A null dispatcher throws. |
| SilenceRecorder.SilenceDetectingAudioRecorder.Process | streetwise-appliance/src/main/java/ac/robinson/pss2/SilenceDetectingAudioRecorder.java:172-201 | The counters follow the frames. A frame that stops once returns true with the recording finished; one that stops twice throws. |
| KeypadIO.CharFromKeycode | streetwise-appliance/src/main/java/ac/robinson/pss2/PssIO.kt:214-228 | A number key reads as its digit; any other code reads as '0'. |
| KeypadIO.KeyCodes | streetwise-appliance/src/main/java/ac/robinson/pss2/PssIO.kt:198-228 | The number keys are exactly VK_0 to VK_9, and each types its own digit. |
| KeypadIO.Blank | streetwise-appliance/src/main/java/ac/robinson/pss2/PssIO.kt:139-146 | A reset buffer has four '_' slots and no position. |
| KeypadIO.Type | streetwise-appliance/src/main/java/ac/robinson/pss2/PssIO.kt:163-177 | A character goes into the next slot. On a full buffer it clears the buffer and becomes the first. The position stays in -1..3. |
| KeypadIO.TypeAll | streetwise-appliance/src/main/java/ac/robinson/pss2/PssIO.kt:163-177 | Typing a sequence of keys keeps the buffer four slots long with its position in range. |
| KeypadIO.TypeAllShowsOpenGroup | streetwise-appliance/src/main/java/ac/robinson/pss2/PssIO.kt:163-177 | The buffer shows the keys typed since the last rollover followed by blanks, positioned at the last of them. |
| KeypadIO.FourDigits | streetwise-appliance/src/main/java/ac/robinson/pss2/PssIO.kt:178-186 | Four digit characters parse to the number they spell, leading zeros dropped, within 0..9999. |
| KeypadIO.PublishStep | streetwise-appliance/src/main/java/ac/robinson/pss2/PssIO.kt:181-188 | Exactly the key that completes a group of four digits publishes that group's value. |
| KeypadIO.PublishedGroups | streetwise-appliance/src/main/java/ac/robinson/pss2/PssIO.kt:163-189 | Typing digits publishes one number per complete group of four, in order, each at most 9999. |
| KeypadIO.PublishedSnoc | streetwise-appliance/src/main/java/ac/robinson/pss2/PssIO.kt:163-189 | A key that completes a group of four publishes that group's value, at most 9999; any other key publishes nothing. |
| KeypadIO.Clamp | streetwise-appliance/src/main/java/ac/robinson/pss2/PssIO.kt:244-246 | A column height lies within -31..31 and equals the level when the level is in range. |
| KeypadIO.PlottedIndices | streetwise-appliance/src/main/java/ac/robinson/pss2/PssIO.kt:242-243 | The plotted samples are exactly those at indices congruent to 1 modulo 8. |
| KeypadIO.Oscilloscope | streetwise-appliance/src/main/java/ac/robinson/pss2/PssIO.kt:235-253 | Column x is the clamped level of sample 8x + 1, for every such sample. |
| KeypadIO.PssIO.constructor | streetwise-appliance/src/main/java/ac/robinson/pss2/PssIO.kt:28-44 | A new keypad has a blank buffer, shows and publishes nothing, and starts with input enabled and the fading flag set, as the fields are initialised. |
| KeypadIO.PssIO.ResetBuffer | streetwise-appliance/src/main/java/ac/robinson/pss2/PssIO.kt:139-146 | All four slots become '_' and the position -1. |
| KeypadIO.PssIO.ClearDisplay | streetwise-appliance/src/main/java/ac/robinson/pss2/PssIO.kt:148-160 | The buffer is reset; the screen is blanked unless a number is fading. |
| KeypadIO.PssIO.DisplayNumber | streetwise-appliance/src/main/java/ac/robinson/pss2/PssIO.kt:122-127 | The number replaces whatever was shown. |
| KeypadIO.PssIO.AddToDisplay | streetwise-appliance/src/main/java/ac/robinson/pss2/PssIO.kt:163-189 | The first key during a fade clears the buffer. The key is then typed, and the fourth slot disables input and publishes the number. |
| KeypadIO.PssIO.EnableUserInput | streetwise-appliance/src/main/java/ac/robinson/pss2/PssIO.kt:81-109 | Input is enabled. With fade, only the buffer is reset and a fade timer starts. Without fade, the display is cleared. A fade timer that was still pending is overwritten without being disposed: it is kept as one more orphaned timer, which will still fire. |
| KeypadIO.PssIO.BlockUserInput | streetwise-appliance/src/main/java/ac/robinson/pss2/PssIO.kt:113-118 | Input and fading are both cleared. Only the timer the field refers to is cancelled, so the orphaned timers remain. |
| KeypadIO.PssIO.FadeElapsed | streetwise-appliance/src/main/java/ac/robinson/pss2/PssIO.kt:87-91 | When a fade timer fires, whether it is an orphan or the current one, fading stops and the display and the shown text are cleared. Orphans fire first. With no timer pending, nothing changes. |
| KeypadIO.PssIO.StaleFadeWipesDigit | streetwise-appliance/src/main/java/ac/robinson/pss2/PssIO.kt:81-118 | Witness of the lost timer. Enabling input with fade twice and then blocking leaves one orphaned timer. When it fires after input was re-enabled without fade, it wipes a digit typed since: the entry holding '7' becomes blank. |
| KeypadIO.PssIO.Timeout | streetwise-appliance/src/main/java/ac/robinson/pss2/PssIO.kt:61-63 | Three seconds without a key, while the pipeline is subscribed, clear the buffer, and the screen unless a number is fading. Otherwise nothing changes. |
| KeypadIO.PssIO.KeyEvent | streetwise-appliance/src/main/java/ac/robinson/pss2/PssIO.kt:55-60 | Only the release of a number key is seen. While input is enabled, it is typed as `AddToDisplay` does and publishes a completed number. While input is disabled, it ends the pipeline. |
| Appliance.MatchId | streetwise-appliance/src/main/java/ac/robinson/pss2/Pss2.java:79-84 | A full match of the question or answer pattern gives its group 1: a non-empty run of digits at the start of the name. |
| Appliance.MatchComposed | streetwise-appliance/src/main/java/ac/robinson/pss2/Pss2.java:79-85 | A name built from the pattern's parts matches it, with its number as group 1. |
| Appliance.MatchEndsInExtension | streetwise-appliance/src/main/java/ac/robinson/pss2/Pss2.java:79-84 | Every matching name ends in one of the pattern's extensions. |
| Appliance.ArchivedNameUnmatched | streetwise-appliance/src/main/java/ac/robinson/pss2/Pss2.java:446-459 | A name with ".<time>.old" appended matches neither pattern. |
| Appliance.NumberedNameRoundTrip | streetwise-appliance/src/main/java/ac/robinson/pss2/Pss2.java:82-85 | `"%d_question_%s"` and `"%d_answer_%s"` of a recorded name match their pattern, and group 1 parses back to the number. |
| Appliance.GetLocalAudioFile | streetwise-appliance/src/main/java/ac/robinson/pss2/Pss2.java:374-395 | The loop returns `FirstHit` of the listing: the first listed file that matches and whose number is the one asked for. It returns none when there is no such file or the listing failed. |
| Appliance.FirstHit | streetwise-appliance/src/main/java/ac/robinson/pss2/Pss2.java:377-392 | None exactly when no listed file is a hit; otherwise the index of a hit with no hit before it. |
| Appliance.FirstHitAt | streetwise-appliance/src/main/java/ac/robinson/pss2/Pss2.java:377-392 | A hit with no hit before it is the first hit. |
| Appliance.ArchivedNameHidden | streetwise-appliance/src/main/java/ac/robinson/pss2/Pss2.java:446-459 | An archived file is never found again by number. |
| Appliance.ArchiveExisting | streetwise-appliance/src/main/java/ac/robinson/pss2/Pss2.java:441-460 | The renames are exactly `ArchiveOf`: one rename of the first local file of the number to its ".<time>.old" name when there is one, and none otherwise. The file renamed matches the pattern and carries the number. |
| Appliance.ArchiveOfCount | streetwise-appliance/src/main/java/ac/robinson/pss2/Pss2.java:441-460 | At most one file is archived, and one is exactly when the listing has a file of the number. |
| Appliance.ArchiveOfFirstHit | streetwise-appliance/src/main/java/ac/robinson/pss2/Pss2.java:441-460 | When the first hit is at index k, the archive is the single rename of file k to its archived name. |
| Appliance.RenameForNumber | streetwise-appliance/src/main/java/ac/robinson/pss2/Pss2.java:437-475 | The renames are the question archive, then the answer archive, then the recording taking its numbered name. Their count is one plus one for each kind of older file present. Every archive rename moves a listed file of the number to its archived name, and the first question hit and the first answer hit are the ones renamed. |
| Appliance.ParseUploadResponse | streetwise-appliance/src/main/java/ac/robinson/pss2/Pss2.java:421-436 | No body or "error" fails the upload. A reply that splits into fewer than two fields crashes. Any other failure is a reply whose first field is not a positive `int`. |
| Appliance.UploadAcceptedMeaning | streetwise-appliance/src/main/java/ac/robinson/pss2/Pss2.java:421-436 | An accepted upload carries a positive number, exactly the one in the response's first field. "error" is a failure. |
| Appliance.UploadResponseRoundTrip | streetwise-appliance/src/main/java/ac/robinson/pss2/Pss2.java:421-436 | The reply "<n>,<url>" is accepted with that number and address. |
| Appliance.UploadResponseWithoutAddress | streetwise-appliance/src/main/java/ac/robinson/pss2/Pss2.java:428-436 | A reply holding only the number, with no comma and no address, is read past the end of its split, and the upload counts as crashed. |
| Appliance.ParseAnswerResponse | streetwise-appliance/src/main/java/ac/robinson/pss2/Pss2.java:579-621 | No body or "unanswered" plays the answer error. "error", and only it, plays "question not found". A reply that is neither and splits into fewer than two fields, and only such a reply, crashes. |
| Appliance.GetAndPlayAnswer | streetwise-appliance/src/main/java/ac/robinson/pss2/Pss2.java:520-541 | 1234 plays the local hint without any lookup. A cached local answer is played before the server is asked. |
| Appliance.DownloadMeaning | streetwise-appliance/src/main/java/ac/robinson/pss2/Pss2.java:579-621 | "unanswered" means not ready and "error" means not found. A download starts only for a reply whose leading id is the requested number. |
| Appliance.AnswerResponseRoundTrip | streetwise-appliance/src/main/java/ac/robinson/pss2/Pss2.java:579-621 | The reply "<id>,<url>" for the requested number downloads that address; for another number it does not. |
| Appliance.DigitsOf | streetwise-appliance/src/main/java/ac/robinson/pss2/Pss2.java:501 | One digit per character of `String.valueOf(n)`. |
| Appliance.DigitsOfNat | streetwise-appliance/src/main/java/ac/robinson/pss2/Pss2.java:501 | For n ≥ 0, these are the decimal digits of n, most significant first. |
| Appliance.PlaysSpellNumber | streetwise-appliance/src/main/java/ac/robinson/pss2/Pss2.java:500-517 | Successive completions play each digit once, in order, and only the last with the final callback. |
| Appliance.NumberPlaybackCallback.constructor | streetwise-appliance/src/main/java/ac/robinson/pss2/Pss2.java:495-498 | A new callback has played nothing. Its digits are the single digit 0, standing in for the null digit array of the Java object; the upload handler initialises the callback (Pss2.java:467) before it starts the prompts that end in it (Pss2.java:470-471), so no playback reads that placeholder. |
| Appliance.NumberPlaybackCallback.Initialise | streetwise-appliance/src/main/java/ac/robinson/pss2/Pss2.java:500-504 | Stores the digits of the number and resets the position to 0. |
| Appliance.NumberPlaybackCallback.OnPlaybackCompleted | streetwise-appliance/src/main/java/ac/robinson/pss2/Pss2.java:506-517 | Plays the current digit; every digit but the last carries this callback and advances. |
| Sounds.SoundNamesDistinct | streetwise-appliance/src/main/java/ac/robinson/pss2/SoundPlayer.java:15-36 | Distinct sounds have distinct names. |
| Sounds.SoundForNumber | streetwise-appliance/src/main/java/ac/robinson/pss2/SoundPlayer.java:70-96 | 0..9 map to the sounds named `number_0`..`number_9`; every other number, and only those, maps to the error prompt. |
| Sounds.SoundForDigitsDistinct | streetwise-appliance/src/main/java/ac/robinson/pss2/SoundPlayer.java:70-96 | Different digits are spoken with different sounds. |
| Sounds.ResourceFilename | streetwise-appliance/src/main/java/ac/robinson/pss2/SoundPlayer.java:98-100 | The file is the name, "_", the language code and ".wav". |
| Sounds.ResourceFilenameInjective | streetwise-appliance/src/main/java/ac/robinson/pss2/SoundPlayer.java:98-100 | For one language, the file name gives the sound name back. |
| Sounds.GetSoundFallback | streetwise-appliance/src/main/java/ac/robinson/pss2/SoundPlayer.java:61-68 | The sound's own resource when present; otherwise the error prompt. |
| Sounds.GetSound | streetwise-appliance/src/main/java/ac/robinson/pss2/SoundPlayer.java:61-68 | A resource found is present, and is either the sound's own file or the error prompt's. |
| Sounds.SoundPlayer.constructor | streetwise-appliance/src/main/java/ac/robinson/pss2/SoundPlayer.java:57-59 | No clip is current. |
| Sounds.SoundPlayer.PlaySoundResource | streetwise-appliance/src/main/java/ac/robinson/pss2/SoundPlayer.java:102-132 | Any current clip is stopped first; the new clip becomes current and carries its callback. |
| Sounds.SoundPlayer.StopEvent | streetwise-appliance/src/main/java/ac/robinson/pss2/SoundPlayer.java:116-124 | A clip's callback runs only on its STOP event. The clip closed is whichever is current at that moment. |
| Sounds.NewClipKeepsInvariant | streetwise-appliance/src/main/java/ac/robinson/pss2/SoundPlayer.java:115-124 | Obtaining a clip that has not stopped and making it current keeps the player's invariant. |
| Sounds.StartKeepsInvariant | streetwise-appliance/src/main/java/ac/robinson/pss2/SoundPlayer.java:126 | Starting a clip keeps the player's invariant. |
| Downloader.FileExtensionOfCleanUrl | streetwise-appliance/src/main/java/ac/robinson/pss2/AnswerDownloader.java:183 | For an address without blanks, the extension is the text from its last '.'; with no '.', the call throws. |
| Downloader.FileExtensionSuffix | streetwise-appliance/src/main/java/ac/robinson/pss2/AnswerDownloader.java:183 | Whatever the blanks, an extension found is a tail of the trimmed address; an address without a '.' has none. |
| Downloader.FileExtensionOfPaddedUrl | streetwise-appliance/src/main/java/ac/robinson/pss2/AnswerDownloader.java:183 | With a leading blank, the index taken on the untrimmed address drops the dot. |
| Downloader.OutputNameFound | streetwise-appliance/src/main/java/ac/robinson/pss2/AnswerDownloader.java:185-188 | A downloaded answer's name is found again as the answer of its number. |
| Downloader.LeftAsWritten | streetwise-appliance/src/main/java/ac/robinson/pss2/AnswerDownloader.java:193-275 | Only the answer's name and the temporary file can be left. The answer's name is left exactly when the placeholder was created and the answer arrived, the request failed, the response was unsuccessful or an exception arose inside onResponse. The temporary file is left exactly after such an exception once its sink was opened. |
| Downloader.LeftCorrected | streetwise-appliance/src/main/java/ac/robinson/pss2/AnswerDownloader.java:193-275 | With every failure deleting the placeholder, the answer's name is left exactly when the placeholder was created and the transfer succeeded. |
| Downloader.ReadAll | streetwise-appliance/src/main/java/ac/robinson/pss2/AnswerDownloader.java:238-244 | The total is the sum of the chunk sizes read before the end marker. |
| Downloader.DownloadAnswer | streetwise-appliance/src/main/java/ac/robinson/pss2/AnswerDownloader.java:181-276 | No '.' throws. The files left are `LeftAsWritten`. Success needs a positive total equal to the content length and a completed rename. The callback hears the outcome, except when there is no callback or an exception escapes onResponse. |
| Downloader.PlaceholderSurvivesFailedRequest | streetwise-appliance/src/main/java/ac/robinson/pss2/AnswerDownloader.java:213-247 | As written, a failed request, an unsuccessful response or an exception while reading leaves the empty file that carries the number's answer name. |
| Downloader.LeftCorrectedOnlyOnSuccess | streetwise-appliance/src/main/java/ac/robinson/pss2/AnswerDownloader.java:213-266 | With the correction, a file with the answer name is left exactly when the answer arrived. It leaves a subset of what the code as written leaves, and differs from it exactly after a failed request, an unsuccessful response or an exception while reading. |
| Downloader.IdsMeaning | streetwise-appliance/src/main/java/ac/robinson/pss2/AnswerDownloader.java:127-143 | A number is among the listed ids exactly when some listed file is a hit for it. |
| Downloader.ListedAnswerNotFetched | streetwise-appliance/src/main/java/ac/robinson/pss2/AnswerDownloader.java:127-168 | A listed file with a number's answer name stops that number from being fetched again. |
| Downloader.DropDownloaded | streetwise-appliance/src/main/java/ac/robinson/pss2/AnswerDownloader.java:123-150 | Numbers whose answer is listed leave the map; the pass stops early once the map is empty. |
| Downloader.StartDownloads | streetwise-appliance/src/main/java/ac/robinson/pss2/AnswerDownloader.java:152-174 | A download starts only for a number with a listed question, at most once, and the number leaves the map. |
| Downloader.CheckAndDownload | streetwise-appliance/src/main/java/ac/robinson/pss2/AnswerDownloader.java:117-179 | The downloads are exactly the map's numbers with a listed question and no listed answer, each once. An unlistable directory starts nothing. |
| Downloader.TasksBeforeError | streetwise-appliance/src/main/java/ac/robinson/pss2/AnswerDownloader.java:92-105 | The tasks parsed before the first malformed entry, in order. |
| Downloader.AnswerMapOfMeaning | streetwise-appliance/src/main/java/ac/robinson/pss2/AnswerDownloader.java:96-101 | Every parsed number is in the map, with the address of its last task. |
| Downloader.BuildAnswerMap | streetwise-appliance/src/main/java/ac/robinson/pss2/AnswerDownloader.java:92-105 | The parsing loop builds the map of the tasks before the first error. |
| Downloader.OnAnswerList | streetwise-appliance/src/main/java/ac/robinson/pss2/AnswerDownloader.java:74-112 | A missing body or "error" does nothing. Otherwise the tasks parsed before a JSON error are checked, and an empty map downloads nothing. |
| ServerCommon.QuestionIdOf | streetwise-server/reserve.php:14-20 | An id is accepted exactly when it is set and its `intval` is positive, and then it is that value. |
| ServerCommon.QuestionIdRoundTrip | streetwise-server/reserve.php:17 | A positive number printed in decimal is read back as itself. |
| ServerCommon.UploadRejected | streetwise-server/question.php:33-54 | An upload passes exactly with error code OK and at most 1 500 000 bytes. Each rejection has its own reason, in the script's order. |
| ServerCommon.Grep | streetwise-server/responses.php:48 | `preg_grep` keeps exactly the matching entries, in listing order. |
| ServerCommon.LeadingNumbersMeaning | streetwise-server/question.php:17-20 | A number is among the leading numbers exactly when some entry's name starts with it. |
| ServerCommon.StoredNameNumber | streetwise-server/question.php:58-62 | A stored name `"<n>-<sha1>.<ext>"` gives n back through `intval(explode('-', name)[0])`. |
| ServerCommon.StoredNameMatchesId | streetwise-server/answer.php:55-59 | A stored name matches its own id's anchored and unanchored patterns. |
| ServerCommon.UnanchoredIsAnchored | streetwise-server/responses.php:21-23 | For a four-digit id, on a name whose only '-' follows its leading number, the unanchored pattern matches exactly when the anchored one does. |
| ServerCommon.StoredNameMatchesFourDigits | streetwise-server/responses.php:48 | A stored name with a four-digit number matches the listing pattern `\d{4}-.*`. |
| ServerCommon.ReservationNameFields | streetwise-server/reserve.php:37 | A reservation file records its requester and its question number. |
| ServerCommon.ReservationNameMatches | streetwise-server/reserve.php:35-37 | A reservation file is found by its question's reservation pattern, and by the listing pattern for a four-digit number. |
| QuestionApi.UsedNumbersMeaning | streetwise-server/question.php:15-20 | A number is used exactly when it is 0, 1234, or the leading number of a stored ".mp3" file. |
| QuestionApi.CollectUsedNumbers | streetwise-server/question.php:15-20 | The loop builds the used numbers of the listing. |
| QuestionApi.AllocateNumber | streetwise-server/question.php:23-28 | The redraw loop settles on `Allocation`'s number, or runs out of draws. |
| QuestionApi.Allocation | streetwise-server/question.php:23-28 | A number settled on is not among the used ones; with draws from `mt_rand(0, 8999)` and an in-range start it is at most 9999. |
| QuestionApi.AllocationUnused | streetwise-server/question.php:26-28 | The number settled on is unused, and is the start value or 1000 plus a draw. |
| QuestionApi.AllocationNone | streetwise-server/question.php:26-28 | The draws run out exactly when the start and every drawn number are used. |
| QuestionApi.AllocatedNumberFresh | streetwise-server/question.php:23-28 | An allocated number lies in 1000..9999, is not 1234, and is no stored question's number. |
| QuestionApi.AllNumbersUsedHangs | streetwise-server/question.php:26-28 | When all of 1000..9999 are used, no draw ends the loop. |
| QuestionApi.StoredQuestionCounted | streetwise-server/question.php:18-19 | A stored question's number counts as used. |
| QuestionApi.NumberNeverReused | streetwise-server/question.php:15-28 | A number is never allocated while its question is stored. |
| QuestionApi.ArchivedQuestionIgnored | streetwise-server/question.php:65-68 | An archived question no longer ends in ".mp3", so it no longer counts. |
| QuestionApi.HandleQuestion | streetwise-server/question.php:6-104 | A wrong key or a rejected upload gives "error" and no file change. Otherwise a fresh number is allocated. A taken name is archived and the upload moved into place, and the reply is "<n>,<url>". A failed move gives "error". |
| QuestionApi.QuestionReplyUnderstood | streetwise-server/question.php:77-79 | The appliance accepts the reply with the question's number and the stored file's address. |
| ReserveApi.Admitted | streetwise-server/reserve.php:7-32 | Admitted exactly when the answer-app key matches, the id is positive, a question of that id is stored and no answer of it is. |
| ReserveApi.Reservation | streetwise-server/reserve.php:6-63 | A request that is not admitted echoes "error" and touches no file; one that does not fail was admitted. |
| ReserveApi.VisitReservations | streetwise-server/reserve.php:42-57 | The loop over the reservation files stops at the first that throws. |
| ReserveApi.VisitAllStops | streetwise-server/reserve.php:42-57 | Once a pass throws, the later files change nothing. |
| ReserveApi.HandleReserve | streetwise-server/reserve.php:6-63 | The request echoes and does what `Reservation` says; every failure ends in "error". |
| ReserveApi.FirstReservation | streetwise-server/reserve.php:35-39 | Without a reservation, "success", and the one reservation file afterwards records the requester. |
| ReserveApi.OneReservation | streetwise-server/reserve.php:42-56 | A live reservation of the requester gives "success"; a live one of another gives "error"; both change nothing. An expired one is replaced by the requester's. |
| ReserveApi.SingleReservationFile | streetwise-server/reserve.php:35 | With distinct names, one reservation name means exactly one listed reservation file. |
| ReserveApi.ReplacedReservation | streetwise-server/reserve.php:52-53 | Deleting the expired file and creating the requester's leaves exactly the requester's. |
| ReserveApi.AtMostOneReservation | streetwise-server/reserve.php:35-57 | From at most one reservation file, every admitted request leaves exactly one, recording the requester whenever it succeeds. |
| ResponsesApi.AnswerReply | streetwise-server/responses.php:22-39 | "error" exactly when no question was found; "unanswered" exactly when a question but no answer was found; otherwise "<id>,<url>". |
| ResponsesApi.SingleResponse | streetwise-server/responses.php:14-39 | With anchored patterns: "error" exactly when the id is not positive or no question starts "<id>-"; "unanswered" exactly when a question but no answer does. |
| ResponsesApi.SingleResponseAsWritten | streetwise-server/responses.php:21-39 | With the unanchored patterns: "error" exactly when the id is not positive or no question name contains "<id>-"; "unanswered" exactly when a question but no answer does; otherwise the id and the address of an answer whose name contains "<id>-". |
| ResponsesApi.UnanchoredAgreesOnStoredListings | streetwise-server/responses.php:21-39 | On directories that hold only stored uploads, the lookup as written answers a four-digit id exactly as the anchored one does. |
| ResponsesApi.AnchoredLeadingNumber | streetwise-server/responses.php:21-23 | A name matched by the anchored pattern of n has n as its leading number. |
| ResponsesApi.SingleResponseOwnAnswer | streetwise-server/responses.php:23-29 | Any answer the anchored lookup returns is a stored answer file of the requested question. |
| ResponsesApi.StoredAnswerDownloaded | streetwise-server/responses.php:14-31 | A stored four-digit question with its stored answer, in directories holding only stored uploads, is found by the lookup as written. The answer named belongs to the question, and the appliance downloads the file named in the reply. |
| ResponsesApi.ReplyDownloaded | streetwise-server/responses.php:29 | The appliance downloads the address in the reply "<id>,<url>" for its own number. |
| ResponsesApi.FiveInsideQuestion | streetwise-server/responses.php:21 | "1005-a.mp3" matches the unanchored pattern for question 5. |
| ResponsesApi.FiveNotAtStartOfQuestion | streetwise-server/responses.php:21 | "1005-a.mp3" does not match the anchored pattern for question 5. |
| ResponsesApi.FiveInsideAnswer | streetwise-server/responses.php:23 | "1005-b.m4a" matches the unanchored answer pattern for 5. |
| ResponsesApi.ThousandFiveLookups | streetwise-server/responses.php:21-29 | For id 5 beside question 1005, the lookup as written answers with 1005's file; the anchored lookup says "error". |
| ResponsesApi.UnanchoredLookupAnswersOtherQuestion | streetwise-server/responses.php:21-23 | As written, a request for question 5 returns question 1005's answer, and the appliance downloads it as the answer to 5. |
| ResponsesApi.JoinCommaEnds | streetwise-server/responses.php:51-60 | Commas appear only between objects, and an empty list is "[]". |
| ResponsesApi.Younger | streetwise-server/responses.php:52-58 | Keeps exactly the entries younger than the age limit. |
| ResponsesApi.AnsweredList | streetwise-server/responses.php:47-61 | The answered list is the JSON array of the recent answers, in listing order. |
| ResponsesApi.StoredAnswerListed | streetwise-server/responses.php:48-57 | An answer stored less than 600 s ago for a four-digit question is listed with its id and address. |
| ResponsesApi.RecentAnswersMeaning | streetwise-server/responses.php:48-54 | An answer is listed exactly when it matches `\d{4}-.*\.m4a` and is younger than 600 s. |
| ResponsesApi.HeldNumbers | streetwise-server/responses.php:74-79 | The numbers held by live reservations of other requesters. |
| ResponsesApi.ExpiredUnlinks | streetwise-server/responses.php:80-82 | Exactly the expired reservations are deleted. |
| ResponsesApi.Unblocked | streetwise-server/responses.php:86-92 | Keeps exactly the question files whose number is not blocked. |
| ResponsesApi.CollectAnswered | streetwise-server/responses.php:70-73 | The first loop collects the leading number of every answer file. |
| ResponsesApi.ReviewReservations | streetwise-server/responses.php:74-83 | The second loop adds the held numbers and deletes the expired reservations. |
| ResponsesApi.ListUnblocked | streetwise-server/responses.php:85-93 | The third loop echoes the array of unblocked questions. |
| ResponsesApi.UnansweredList | streetwise-server/responses.php:63-94 | The unanswered list is the array of open questions, and the deletions are the expired reservations. |
| ResponsesApi.OpenQuestionsMeaning | streetwise-server/responses.php:65-92 | A question is listed exactly when it matches the pattern, no answer has its number, and no live reservation of another requester holds it. |
| ResponsesApi.ReservedQuestionHidden | streetwise-server/responses.php:74-79 | A question reserved less than 240 s ago is not offered to another requester. |
| ResponsesApi.AnsweredQuestionHidden | streetwise-server/responses.php:70-73 | A question with a stored answer is never offered. |
| ResponsesApi.HolderStillSeesQuestion | streetwise-server/responses.php:74-92 | The holder of a live reservation still sees its unanswered question. |
| ResponsesApi.HandleResponses | streetwise-server/responses.php:6-104 | A wrong key gives "error". An id gives the lookup as written, with unanchored patterns. The type is compared ignoring case: "answered" and "unanswered" give their lists, and anything else gives "error". |
| AnswerApi.AlternativeName | streetwise-server/answer.php:70-73 | The set-aside name extends the stored name and ends in ".new". |
| AnswerApi.AnswerUpload | streetwise-server/answer.php:7-90 | The reply is the success reply exactly when the request is admissible and either the name exists with the same size or a new file is moved in. A different size is set aside under ".<ms>.new" and refused; a refused request moves nothing. |
| AnswerApi.RetryRepeatsReply | streetwise-server/answer.php:63-67 | A retry of a stored recording gets the same reply and changes nothing. |
| AnswerApi.AlternativeNeverAnswer | streetwise-server/answer.php:68-78 | A set-aside recording matches none of the answer patterns. |
| AnswerApi.ConflictingAnswerSetAside | streetwise-server/answer.php:68-78 | A different recording for an answered question is refused, the stored answer stays, and the recording is kept, if at all, under a name no answer pattern matches. |
| AnswerApi.UploadedAnswerServed | streetwise-server/answer.php:55-59 | A stored answer to a stored four-digit question, in directories holding only stored uploads, is what responses.php's lookup as written returns. The appliance downloads it as the answer to its own question. |
| AnswerApi.UnanchoredCheckAcceptsOtherQuestion | streetwise-server/answer.php:24-27 | The question check is unanchored: an answer to question 5 passes it when only question 1005 is listed. |
| Common.NatToStringValue | streetwise-server/question.php:79 | The decimal rendering of a number reads back as that number. |
| Common.JavaParseIntRoundTrip | streetwise-appliance/src/main/java/ac/robinson/pss2/Pss2.java:431 | `Integer.parseInt` reads back every `int` printed in decimal. |
| Common.PhpIntvalOfPrefix | streetwise-server/responses.php:72 | `intval` reads back the number printed before a separator. |
| Common.ExplodeFirst | streetwise-server/question.php:18-19 | `explode`'s first field is everything before the first separator, and the other fields are those of the rest. |
| Common.JavaSplitPair | streetwise-appliance/src/main/java/ac/robinson/pss2/Pss2.java:428 | "<a>,<b>" with no comma in a or b and a non-empty b splits into exactly a and b. |
| Common.JavaSplit | streetwise-appliance/src/main/java/ac/robinson/pss2/Pss2.java:428 | No field contains the separator, and with two fields or more the trailing empty fields are gone. |
| Common.JavaParseInt | streetwise-appliance/src/main/java/ac/robinson/pss2/Pss2.java:431 | A number read is an `int`, from a non-empty text that ends in a digit; a negative one starts with '-'. |
| Common.PhpIntval | streetwise-server/reserve.php:17 | A negative value comes from a text whose first non-blank is '-'. A text that is blank, or whose first non-blank is neither a digit nor a sign, gives 0. |
| Common.Explode | streetwise-server/question.php:18 | There is always at least one field, and no field contains the separator. |
| Common.ReplaceSuffix | streetwise-appliance/src/main/java/ac/robinson/pss2/SilenceDetectingAudioRecorder.java:144-145 | Replacing in a string whose only occurrence is its final suffix swaps only that suffix. |
| Common.FormatDateShape | streetwise-appliance/src/main/java/ac/robinson/pss2/SilenceDetectingAudioRecorder.java:92-93 | The formatted date has the `yyyy-MM-dd_HH-mm-ss` shape and contains no '.'. |
| Common.JavaDiv | streetwise-app/app/src/main/java/ac/robinson/streetwise/AudioSoftwarePoller.java:103 | Division truncates toward zero, as Java's does: for a negative dividend it is the negated quotient of its magnitude. |
| Common.WrapInt | streetwise-app/app/src/main/java/ac/robinson/streetwise/AudioSoftwarePoller.java:65 | The result of `int` arithmetic is a 32-bit signed value, and a value that fits is unchanged. |

## Left out

- Threads and concurrency. The capture thread and the encoder's executor are modelled as sequential steps: the recycling of buffers and clearing of the flag by other threads are explicit method calls between passes. Rx scheduling in PssIO (timeouts, delays, `takeWhile`) becomes explicit events (`KeyEvent`, `Timeout`, `FadeElapsed`).
- MediaCodec, MediaMuxer and AudioRecord internals. The codec's output is an input script of events, a read's result an input number, and a timestamp an input.
- The encoder's `prepare()` inside `_offerAudioEncoder` (AudioEncoder.java:208-209) cannot run: it is guarded by `!mStopReceived` inside a branch that needs `mStopReceived`. The model leaves it out.
- TarsosDSP, jump3r, amixer, mplayer and wget. The sound pressure level becomes a loud/quiet flag per frame, and MP3 encoding becomes a success flag. `SoundPlayer.playAnswer` shells out to mplayer and is not part of this model.
- Floating point. The frame threshold `bufferToMsFactor` is the exact integer rounding of ms/16; the oscilloscope levels are inputs already scaled to whole pixels; PHP's `pow(10, log10(1000) + 1)` is the constant 10000.
- GPIO, LEDs, PWM and OLED drawing. Pss2's `initialise`, `destroy`, `setLedState`, the progress updater, `LedFader` and the internet check are not part of this model, and the screen is reduced to what it shows.
- Pss2.java:150 passes two arguments to a three-argument recorder constructor. The recorder's mixer is an optional input.
- OkHttp, the file system, `scandir`, `touch`, `unlink`, `rename`, `move_uploaded_file` and `sha1_file`. Listings are sequences of name/mtime entries in listing order, a hash is any 40-digit lower-case hex string, file operations are returned as a sequence, and whether a move or a rename succeeds is an input.
- `File.getAbsolutePath` is the directory, "/" and the name.
- `time()`, `microtime`, `new Date()` and `mt_rand`. They are inputs: `now`, `millis`, a `Clock` value and a sequence of draws. When the draws run out before an unused number is found, the request is taken never to finish.
- `SimpleDateFormat`'s quoting is reduced to the text it produces. PCRE's `$`, which also matches before a final newline, is read as the end of the name.
- Firebase notifications, logging, the Android UI files, `_globals.php` and `_include.php`. `$REQUEST_SOURCE` is a `nat`: `_include.php` replies "error" to a negative source before any script runs.
- answer.php:24 lists `$BASE_HUMAN_QUESTION_DIRECTORY`, which no file defines. Its listing is an input, `questions`.
- AnswerDownloader's constructor, its scheduling and `stop()` only start and stop a timer. They are not part of this model.
- JSON parsing of the answer list is reduced to a sequence of parsed tasks or a parse error.
- Downloader.DownloadAnswer: the outcome of the asynchronous request is an input, `Transfer`. An `IOException` thrown inside `onResponse` is its `ReadFailed` case: the callback is not called, and the temporary file stays once its sink was opened. The method states the files left and the callback's notice, not the order in which the OkHttp threads run, and not what OkHttp does with the escaped exception.
- RecordBufferSize: Java wraps after each multiplication and the model wraps once at the end of each product. The two agree, because wrapping commutes with multiplication modulo 2^32.
- EnlargedBufferSize: holds only for a non-negative device minimum and an enlarged product that fits in an `int`. Outside that range the size wraps, as `RecordBufferSize` states and `RecordBufferSizeWraps` shows, and need not exceed the minimum.
- PhpIntval: does not model exponent or decimal notation (PHP 7.1 and later read "1e3" as 1000), a leading "0x" or "0b", or the saturation at PHP_INT_MAX and PHP_INT_MIN of a numeral too long for a 64-bit integer. The model reads the leading decimal digits as an unbounded integer.
- QuestionIdOf: inherits `PhpIntval`'s omissions. An id such as "1e3" is read as 1, not 1000, and a numeral beyond PHP_INT_MAX is read as itself, not as PHP_INT_MAX.
- FileExtension: has no contract of its own, because a stated property is costly in every caller's proof; what it computes from AnswerDownloader.java:183 is stated by `FileExtensionOfCleanUrl`, `FileExtensionSuffix` and `FileExtensionOfPaddedUrl`.
- OutputName: has no contract of its own; what its name means is stated by `OutputNameFound`.
- AnswerApi.RetryRepeatsReply: follows directly from `AnswerUpload`'s contract, so it restates that case rather than adding a new proof.

## Findings

| source | as written | input that shows it | evidently intended | confidence | as-written member | corrected member |
|---|---|---|---|---|---|---|
| streetwise-app/app/src/main/java/ac/robinson/streetwise/AudioSoftwarePoller.java:64-66 | `getMicrosecondsPerFrame` returns `(16000 / spf) * 1000000`, which is frames per second times a million | the default `spf` = 2048 gives 7 000 000 (seven seconds); `spf` = 1 overflows `int` to a negative value | `spf * 1000000 / 16000`, i.e. 128 000 µs for 2048 samples | not executed | AudioCapture.MicrosecondsPerFrameDiscrepancy | AudioCapture.MicrosecondsPerFrame |
| streetwise-appliance/src/main/java/ac/robinson/pss2/SilenceDetectingAudioRecorder.java:185-198 | the silence stop and the maximum-duration stop are two independent `if`s, so both can call `stopRecording` in one frame; the second call dereferences the cleared `mDispatcher` | 750 loud frames followed by silence: frame 938 ends a 188-frame silence and reaches the 938-frame maximum together | stop once per recording (`else if`) | not executed | SilenceRecorder.DoubleStop | SilenceRecorder.StopCallsCorrected |
| streetwise-appliance/src/main/java/ac/robinson/pss2/AnswerDownloader.java:213-247 | after a failed request or an unsuccessful response only the temporary file is deleted, and an exception while reading deletes nothing; the empty placeholder created under the answer's name stays | any download whose request fails: the next check sees an answer file for that number and never fetches it again | delete the placeholder on every failure, as the failed-check path does | not executed | Downloader.PlaceholderSurvivesFailedRequest | Downloader.LeftCorrectedOnlyOnSuccess |
| streetwise-server/responses.php:21-23 | the single-question patterns `~<id>-.*\.mp3$~` and `~<id>-.*\.m4a$~` have no `^`, so they find any name containing "<id>-" | id 5 with only question "1005-a.mp3" and answer "1005-b.m4a": the reply is 1005's answer, and the appliance takes it as the answer to 5 | anchor the patterns at the start of the name, as reserve.php does | not executed | ResponsesApi.UnanchoredLookupAnswersOtherQuestion | ResponsesApi.SingleResponseOwnAnswer |
