# VANTA voice pipeline core, modelled in Dafny

This project models the listening and deciding half of VANTA, a local voice assistant. It follows a stretch of microphone audio through voice-activity detection and speech-to-text to the decision whether the assistant should answer. Each Python source file of that core becomes one Dafny module. Objects whose methods update fields in place become Dafny classes. Each method of such a class is proved to update its fields exactly as a pure step function of the old state says. The properties the source promises are then proved as lemmas about those step functions.

Modules:

- `Vad` (`vad.py`): the voice-activity detector's hysteresis over 30 ms frames. Speech starts after 5 consecutive speech frames. It ends after 16 silent frames, or is forced to end after 150 speech frames. The model also covers the WebRTC-or-volume frame rule and the SPEECH_DETECTED / SPEECH_COMPLETE events.
- `Stt` (`stt_service.py`): the speech-to-text service. It buffers captured audio while speech is active and bounds the number of pending jobs. On the end of speech it submits one job of at most five seconds.
- `Manager` (`transcription_manager.py`): the transcription manager's choice between the Whisper worker and the basic recogniser. It covers minimum durations, timeouts and the failure counter that switches to fallback mode.
- `Supervisor` (`whisper_process.py`): the Whisper subprocess supervisor. It covers start-up, liveness, the throttled restart, request/response over the pipe and the base64 float32 payload.
- `Worker`, `Base64`, `Payload` (`whisper_worker.py`): the worker's command loop, with one reply per request line and an exit on the `exit` command. Base64 and little-endian float32 packing are proved to round-trip.
- `BasicStt` (`basic_stt.py`): the fallback recogniser. It covers silence, the speech-content heuristics, the frame-energy duration estimate and the duration ladder of canned transcriptions.
- `Transcripts` (`transcript_processor.py`): the transcript buffer. It drops blank text, keeps a bounded history of user and system lines, and publishes the TRANSCRIPTION_PROCESSED event.
- `Decider`, `Cues`, `Responder` (`speak_decider.py`, `response_generator.py`): whether the assistant should speak, which weighs questions and greetings in the latest user line against penalties for speaking now and for having spoken in the last five seconds, and the SHOULD_RESPOND event it publishes. Also the template reply it speaks.
- `Status` (`system_status.py`): the system state machine, its counters and its report.
- `Bus` (`event_bus.py`): the subscriber registry and the dispatch of one event.
- `Settings` (`app_settings.py`): the configuration merge and the environment-variable overrides, which split a `VANTA_A_B` name on `_` into a key path.
- `Time` (`time_utils.py`): duration formatting, with a reader that shows the format loses nothing.
- `Wrappers`, `Json`, `Text`, `Seqs`: an Option type, JSON values, the string helpers and the first-occurrence search the modules share.

Clock readings, the WebRTC classifier's verdicts, Whisper's results, process liveness and random choices cannot be computed inside the model. They are parameters of the operations that use them.

## Model

| member | source | states |
|---|---|---|
| Vad.ProcessAudioStep | vanta/voice/listener/vad.py:126-217 | `process_audio`: the gated exits, then one frame's counter update with its start and end reports; pinned by `Vad.GatedFrameChangesNothing`, `Vad.Transition`, `Vad.StartExactlyAtMinSpeechFrames`, `Vad.EndExactlyAtMaxSilenceFrames` |
| Vad.AudioEventStep | vanta/voice/listener/vad.py:219-295 | `handle_audio_event`: the admission gates, the frame step, the forced end at 150 frames, and the publications; pinned by `Vad.HandleAudioEventIsSegment`, `Vad.HandleAudioEventKeepsInv`, `Vad.LongSpeechIsForcedToEnd` |
| Vad.Transition | vanta/voice/listener/vad.py:180-212 | one classified frame keeps the hysteresis invariant (at most one counter nonzero, an idle detector has no silence count); a speech frame zeroes the silence count and adds one to the speech count, a non-speech frame zeroes the speech count; start and end are never reported for the same frame |
| Vad.GatedFrameChangesNothing | vanta/voice/listener/vad.py:137-158 | without a classifier, with a frame shorter than `sample_rate*30/1000` samples, or when the classifier raises, nothing is reported and the state is unchanged |
| Vad.FrameConstants | vanta/voice/listener/vad.py:54-78 | a 30 ms frame at 16 kHz is 480 samples and the silence hangover `int(500/30)` is 16 frames |
| Vad.AndModeIsStricter | vanta/voice/listener/vad.py:169-178 | with sensitivity 2 or more a frame counts as speech only if the OR rule would also count it, and only if its level is above the threshold |
| Vad.QuietFrameIsNotSpeech | vanta/voice/listener/vad.py:169-178 | a frame the classifier rejects, at or below the amplitude threshold, is silence under either rule |
| Vad.StartExactlyAtMinSpeechFrames | vanta/voice/listener/vad.py:181-192 | `speech_start` is reported iff the frame is speech, the detector is idle and the speech count reaches 5 on it; the detector is then active with count 5 |
| Vad.EndExactlyAtMaxSilenceFrames | vanta/voice/listener/vad.py:195-212 | `speech_end` is reported iff the frame is silent, the detector is active and the silence count reaches 16 on it; both counters are then zero and the detector idle |
| Vad.SilenceCountedOnlyWhileActive | vanta/voice/listener/vad.py:195-212 | the silence count grows by one only on a silent frame of an active segment below the hangover, and is zero otherwise |
| Vad.HandleAudioEventKeepsInv | vanta/voice/listener/vad.py:219-287 | `handle_audio_event` keeps the invariant, changes nothing for an event that is not running, has no audio or has a level below 0.0001, and never leaves a segment active with 150 or more speech frames |
| Vad.HandleAudioEventIsSegment | vanta/voice/listener/vad.py:246-295 | for an admitted, classified event the new state is the frame step followed by the forced-end check; SPEECH_DETECTED is published iff a start is reported and SPEECH_COMPLETE iff an end (natural or forced) is |
| Vad.SilenceNeverStarts | vanta/voice/listener/vad.py:181-196 | over any run of silent frames no start is ever reported |
| Vad.SpeechRun | vanta/voice/listener/vad.py:181-194 | a run of speech frames counts up one per frame and reports a start only on the frame where the count reaches 5 |
| Vad.SilenceRun | vanta/voice/listener/vad.py:195-212 | a run of silent frames during an active segment counts up one per frame and reports an end only on the 16th, after which the detector is idle |
| Vad.SilenceAfterSpeech | vanta/voice/listener/vad.py:198-212 | after an active segment, 16 or more silent frames give exactly one end, on the 16th, and leave the detector idle |
| Vad.SpeechThenSilence | vanta/voice/listener/vad.py:181-212 | from idle, 5 to 149 speech frames then 16 or more silent frames give exactly one start (5th frame) and exactly one end (16th silent frame), ending idle |
| Vad.LongSpeechIsForcedToEnd | vanta/voice/listener/vad.py:275-287 | 150 uninterrupted speech frames from idle force an end on the 150th frame and reset flag and counters |
| Vad.VoiceActivityDetector.constructor | vanta/voice/listener/vad.py:39-78 | a new detector is idle, not running, and has no classifier yet |
| Vad.VoiceActivityDetector.GetVad | vanta/voice/listener/vad.py:82-93 | the classifier is created on first use when `webrtcvad` is importable, and is reported available exactly then |
| Vad.VoiceActivityDetector.ResetState | vanta/voice/listener/vad.py:95-99 | the flag and both counters are cleared; nothing else changes |
| Vad.VoiceActivityDetector.Start | vanta/voice/listener/vad.py:101-113 | a second start does nothing; the first sets `running` and creates the classifier |
| Vad.VoiceActivityDetector.Stop | vanta/voice/listener/vad.py:115-124 | `running` is cleared and the detection state kept |
| Vad.VoiceActivityDetector.ProcessAudio | vanta/voice/listener/vad.py:126-217 | the field updates equal the frame step `ProcessAudioStep`, so the invariant is kept |
| Vad.VoiceActivityDetector.HandleAudioEvent | vanta/voice/listener/vad.py:219-295 | the field updates, event flags and publications equal `AudioEventStep` |
| Vad.RunAppend | vanta/voice/listener/vad.py:180-212 | feeding two batches of frames one after the other gives the same state and reports as feeding them as one batch |
| Vad.IdleStaysIdle | vanta/voice/listener/vad.py:194-196 | an idle detector fed only non-speech frames stays idle and reports neither start nor end |
| Stt.ConcatLength | vanta/voice/listener/stt_service.py:256-267 | the combined audio's length is the sum of the chunk lengths |
| Stt.ConcatAppend | vanta/voice/listener/stt_service.py:256-267 | concatenating two chunk lists back to back concatenates their combined audio |
| Stt.ConcatPush | vanta/voice/listener/stt_service.py:119-120 | appending one chunk to the buffer appends exactly its samples to the combined audio |
| Stt.ConcatContainsChunk | vanta/voice/listener/stt_service.py:256-267 | every chunk occupies its own contiguous range of the combined audio, in buffer order |
| Stt.AudioCapturedStep | vanta/voice/listener/stt_service.py:96-140 | `handle_audio_captured`: the segment opened by a speech flag, the chunk appended while active, and the processing tasks scheduled; pinned by `Stt.InactiveIgnoresNonSpeech`, `Stt.ActiveAppendsChunk`, `Stt.SpeechFlagOpensSegment`, `Stt.NoAudioNoGrowth`, `Stt.ScheduledRequests` |
| Stt.BeginStep | vanta/voice/listener/stt_service.py:150-207 | `process_speech_segment` up to the manager call: the empty-buffer, shedding and too-short exits, or the submitted job; pinned by `Stt.EmptyBufferTranscribesNothing`, `Stt.OverloadSheds`, `Stt.PendingOnlyForSubmitted`, `Stt.FinalResetsBuffer`, `Stt.SubmittedJob` |
| Stt.FinishStep | vanta/voice/listener/stt_service.py:221-254 | `process_speech_segment` after `_transcribe_audio` returns: publish non-blank text, clear speech on a raised publication, release the pending slot; pinned by `Stt.PublishesOnlyNonBlank`, `Stt.FailureEndsSpeech`, `Stt.ManagerErrorIsEmptyText`, `Stt.PendingBalanced` |
| Stt.EmptyBufferTranscribesNothing | vanta/voice/listener/stt_service.py:157-162 | an empty buffer produces no transcription; a final request clears `speech_active` and nothing else changes |
| Stt.OverloadSheds | vanta/voice/listener/stt_service.py:164-170 | with more than two pending transcriptions the segment is dropped, pending is unchanged, a final request empties the buffer and clears `speech_active`, and a non-final one changes nothing |
| Stt.PendingOnlyForSubmitted | vanta/voice/listener/stt_service.py:157-207 | pending grows by one exactly when a segment is submitted, and a segment is submitted iff the buffer is non-empty, at most two are pending and the combined duration is at least 0.3 s |
| Stt.FinalResetsBuffer | vanta/voice/listener/stt_service.py:172-180 | a final segment leaves the buffer empty and speech inactive before transcription; a non-final one leaves both alone |
| Stt.SubmittedJob | vanta/voice/listener/stt_service.py:182-204 | the submitted audio is the pre-reset snapshot's combined audio, whole when it has at most `int(5*sample_rate)` samples and cut to exactly that many with duration 5.0 otherwise; it lasts between 0.3 s and 5 s, with duration = samples / rate and end = start + duration |
| Stt.PendingCountsInFlight | vanta/voice/listener/stt_service.py:150-254 | over any interleaving of event handlers and processing steps, pending equals its start value plus the segments submitted less those that returned |
| Stt.PendingBalanced | vanta/voice/listener/stt_service.py:206-254 | the increment before the transcription and the decrement in `finally` cancel out whatever runs in between: pending changes only by what the steps in between submitted and returned, and is back to its value when only event handlers ran |
| Stt.PublishesOnlyNonBlank | vanta/voice/listener/stt_service.py:227-236 | TRANSCRIPTION_COMPLETE is published iff the text is not blank, with the segment's times, finality, duration and confidence 1.0, and pending drops by one |
| Stt.FailureEndsSpeech | vanta/voice/listener/stt_service.py:226-254 | when publishing the result raises, nothing is published, `speech_active` is cleared and the pending slot is released |
| Stt.ManagerErrorIsEmptyText | vanta/voice/listener/stt_service.py:288-310 | a manager exception, caught by `_transcribe_audio` and returned as "", publishes nothing, leaves `speech_active` alone and releases the pending slot |
| Stt.InactiveIgnoresNonSpeech | vanta/voice/listener/stt_service.py:103-112 | while inactive, an event not flagged as speech changes nothing and schedules nothing |
| Stt.ActiveAppendsChunk | vanta/voice/listener/stt_service.py:110-120 | while active, an event carrying audio appends exactly that one chunk |
| Stt.SpeechFlagOpensSegment | vanta/voice/listener/stt_service.py:103-120 | a speech-flagged event on an idle service opens a fresh segment at the event's timestamp holding just its chunk |
| Stt.NoAudioNoGrowth | vanta/voice/listener/stt_service.py:114-117 | an event without audio never grows the buffer and schedules no processing |
| Stt.ScheduledRequests | vanta/voice/listener/stt_service.py:127-140 | at most two processing tasks are scheduled, only for an active segment that just received audio, and always one when the VAD flagged the end |
| Stt.SttService.constructor | vanta/voice/listener/stt_service.py:34-54 | a new service has an empty buffer, is inactive, starts at time 0 and has nothing pending |
| Stt.SttService.HandleSpeechDetected | vanta/voice/listener/stt_service.py:83-93 | the buffer is emptied, speech becomes active and the segment starts at the event's timestamp (the clock when it has none) |
| Stt.SttService.HandleAudioCaptured | vanta/voice/listener/stt_service.py:96-140 | the field updates and the number of scheduled tasks equal `AudioCapturedStep` |
| Stt.SttService.BeginSegment | vanta/voice/listener/stt_service.py:150-207 | the field updates and the outcome up to the call into the manager equal `BeginStep` |
| Stt.SttService.FinishSegment | vanta/voice/listener/stt_service.py:227-254 | the field updates and the publication after the manager returns equal `FinishStep` |
| Manager.DefaultConfig | vanta/voice/listener/transcription_manager.py:46-57 | the defaults: at most 3 failures, a 300 s backoff, a 60 s retry delay, a short timeout below the standard one and a positive sample rate |
| Manager.FailureStep | vanta/voice/listener/transcription_manager.py:183-193 | `_handle_failure`: one more failure, the failure time, and fallback once the count reaches `max_failures`; pinned by `Manager.FailureFallsThrough`, `Manager.FailuresEnterFallback` |
| Manager.TranscribeStep | vanta/voice/listener/transcription_manager.py:100-151 | `transcribe`: the too-short rejection, the recovery attempt, the basic or primary route, and the failure fall-through; pinned by `Manager.TooShortChangesNothing`, `Manager.BasicRouting`, `Manager.PrimaryRouting`, `Manager.SuccessResetsFailures`, `Manager.FailureFallsThrough`, `Manager.TranscribeKeepsInv` |
| Manager.InitialInv | vanta/voice/listener/transcription_manager.py:63-86 | the fresh manager, and the manager after `start` whether the worker was built or not, satisfy the invariant "failures at the threshold means fallback" |
| Manager.TranscribeKeepsInv | vanta/voice/listener/transcription_manager.py:100-151 | every `transcribe` call keeps that invariant |
| Manager.TooShortChangesNothing | vanta/voice/listener/transcription_manager.py:113-119 | audio under 0.3 s gets the "Audio too short" error and leaves every field untouched, the last-transcription stamp included |
| Manager.BasicRouting | vanta/voice/listener/transcription_manager.py:124-131 | in fallback mode (after any recovery) or under 0.5 s, the basic heuristic answers and the failure count is unchanged |
| Manager.PrimaryRouting | vanta/voice/listener/transcription_manager.py:128-151 | the worker is consulted iff the manager is not in fallback and the segment lasts at least 0.5 s, and then with the short timeout below 1 s and the standard one otherwise |
| Manager.SuccessResetsFailures | vanta/voice/listener/transcription_manager.py:134-140 | a primary answer with text or without an error is returned unchanged and clears the failure count |
| Manager.EmptyTextWithoutErrorSucceeds | vanta/voice/listener/transcription_manager.py:137 | empty text without an "error" key counts as a success |
| Manager.FailureFallsThrough | vanta/voice/listener/transcription_manager.py:141-151 | a failed primary call adds exactly one failure, stamps the failure time read after the worker answered, enters fallback iff the count reaches `max_failures`, and returns the basic answer |
| Manager.NoWorkerIsFailure | vanta/voice/listener/transcription_manager.py:160-162 | without a worker the primary answer is the "Whisper process not initialized" error, a failure |
| Manager.ThrownIsFailure | vanta/voice/listener/transcription_manager.py:165-171 | a worker that raises yields an error answer, a failure |
| Manager.RecoveryGate | vanta/voice/listener/transcription_manager.py:122-126 | recovery is attempted iff in fallback and more than `retry_delay` has passed since the last retry; otherwise only the transcription time is stamped |
| Manager.RecoveryOutcome | vanta/voice/listener/transcription_manager.py:195-222 | recovery always stamps the retry time; within the backoff nothing else changes; after it the count is cleared and fallback ends iff the worker was rebuilt |
| Manager.FailuresEnterFallback | vanta/voice/listener/transcription_manager.py:183-193 | consecutive failing calls (the worker raised, or answered no text with an "error") from outside fallback count one failure each and enter fallback exactly when the count reaches `max_failures` |
| Manager.FailingCallCounts | vanta/voice/listener/transcription_manager.py:141-151 | outside fallback a failing call, raised or answered with an error, is the transcription stamp followed by `_handle_failure` at the failure time |
| Manager.TwoFailuresWithLimitTwo | vanta/voice/listener/transcription_manager.py:183-193 | with `max_failures` 2, two failing calls from a fresh manager leave it in fallback |
| Manager.TranscriptionManager.constructor | vanta/voice/listener/transcription_manager.py:31-67 | a new manager has no worker, no failures, zero timestamps and is not in fallback |
| Manager.TranscriptionManager.Start | vanta/voice/listener/transcription_manager.py:71-86 | the field updates equal `StartStep` |
| Manager.TranscriptionManager.HandleFailure | vanta/voice/listener/transcription_manager.py:183-193 | the field updates equal `FailureStep` |
| Manager.TranscriptionManager.AttemptRecovery | vanta/voice/listener/transcription_manager.py:195-222 | the field updates equal `RecoveryStep` |
| Manager.TranscriptionManager.Transcribe | vanta/voice/listener/transcription_manager.py:100-181 | the field updates and the answer equal `TranscribeStep`, with the call stamped at the start time and a failure stamped at the time read after the worker answered |
| Supervisor.RestartStep | vanta/voice/listener/whisper_process.py:142-158 | `_restart_if_needed`: nothing while the process lives, otherwise the throttled, counted restart; pinned by `Supervisor.RestartNotNeededWhileAlive`, `Supervisor.RestartCounts`, `Supervisor.ResetOnlyAfterFailedStart`, `Supervisor.RestartKeepsInv` |
| Supervisor.ReadResponse | vanta/voice/listener/whisper_process.py:357-376 | `_read_response`: "Empty response from worker" for a blank line, "Invalid JSON response from worker" for text that is not JSON, else the object as metadata with its text; pinned by `Supervisor.BlankReply`, `Supervisor.UnparsableReply`, `Supervisor.ObjectReply` |
| Supervisor.TranscribeStep | vanta/voice/listener/whisper_process.py:293-355 | `transcribe`: the restart check, the "not available" error, the command sent, the reply read or the timeout; pinned by `Supervisor.UnavailableWorker`, `Supervisor.CommandCarriesSamples`, `Supervisor.TimeoutRestartsOnlyExited`, `Supervisor.TranscribeKeepsInv` |
| Supervisor.InitialInv | vanta/voice/listener/whisper_process.py:53-57 | the fresh supervisor has no process and is not running, which satisfies "a process is held exactly while running" |
| Supervisor.StopProcessEffect | vanta/voice/listener/whisper_process.py:116-140 | stopping without a process changes nothing; afterwards there is never a process and, under the invariant, nothing running |
| Supervisor.StartProcessEffect | vanta/voice/listener/whisper_process.py:63-102 | a successful spawn leaves a running process stamped with the start time; a failed one leaves none and keeps the old stamp; both keep the invariant |
| Supervisor.RestartNotNeededWhileAlive | vanta/voice/listener/whisper_process.py:142-144 | a live process is left alone and nothing is counted |
| Supervisor.RestartCounts | vanta/voice/listener/whisper_process.py:142-158 | a missing or exited process is restarted and counted once (or the count is reset); the restart throttles iff the last start was under 60 s ago and 3 restarts are counted; a process exists afterwards iff the spawn succeeded |
| Supervisor.ResetOnlyAfterFailedStart | vanta/voice/listener/whisper_process.py:152-158 | the count returns to zero iff the start failed and more than 300 s passed since the last successful start (measured after the throttle's 5 s sleep) |
| Supervisor.RestartKeepsInv | vanta/voice/listener/whisper_process.py:142-158 | the restart check keeps the invariant |
| Supervisor.TranscribeKeepsInv | vanta/voice/listener/whisper_process.py:293-355 | a whole `transcribe` exchange keeps the invariant |
| Supervisor.UnavailableWorker | vanta/voice/listener/whisper_process.py:305-309 | with no running worker after the restart check, nothing is sent and the answer is "Transcription process not available" |
| Supervisor.CommandCarriesSamples | vanta/voice/listener/whisper_process.py:317-330 | the command sent has action "transcribe" and an "audio" string that base64-decodes back to exactly the float32 samples |
| Supervisor.TimeoutRestartsOnlyExited | vanta/voice/listener/whisper_process.py:341-348 | a timed-out read answers with an error starting "Transcription timed out or failed" and re-runs the restart check, which changes nothing while the worker is alive |
| Supervisor.BlankReply | vanta/voice/listener/whisper_process.py:360-363 | a reply line that strips to nothing is the "Empty response from worker" error |
| Supervisor.UnparsableReply | vanta/voice/listener/whisper_process.py:365-376 | a non-blank line that is not JSON is the "Invalid JSON response from worker" error |
| Supervisor.ObjectReply | vanta/voice/listener/whisper_process.py:365-372 | a decoded object is passed on whole as metadata, its "text" returned only when it has no "error" key |
| Supervisor.WhisperProcess.constructor | vanta/voice/listener/whisper_process.py:42-61 | a new supervisor is the initial state after one `_start_process` |
| Supervisor.WhisperProcess.StopProcess | vanta/voice/listener/whisper_process.py:116-140 | the field updates equal `StopStep` |
| Supervisor.WhisperProcess.StartProcess | vanta/voice/listener/whisper_process.py:63-102 | the field updates equal `StartStep` |
| Supervisor.WhisperProcess.RestartIfNeeded | vanta/voice/listener/whisper_process.py:142-158 | the field updates and the restart outcome equal `RestartStep` |
| Supervisor.WhisperProcess.Transcribe | vanta/voice/listener/whisper_process.py:293-376 | the field updates and the exchange equal `TranscribeStep` |
| Worker.StartupStep | vanta/voice/listener/whisper_worker.py:27-86 | the start-up outcome: exit 1 for a missing argument or a non-numeric memory limit, 2 when NumPy fails, 3 when Whisper fails, else ready; pinned by `Worker.StartupExitCodes` |
| Worker.Dispatch | vanta/voice/listener/whisper_worker.py:100-203 | the action for one input line: skip a blank line, "Invalid JSON command" for text that is not JSON, "Worker error: ..." for JSON that is not an object, else the command's action; pinned by `Worker.DispatchKinds`, `Worker.BlankLinesSkipped`, `Worker.BadJsonReply`, `Worker.PingReply`, `Worker.UnknownActionReply` |
| Worker.TranscribeReply | vanta/voice/listener/whisper_worker.py:113-161 | the reply to "transcribe": "No audio data provided" for missing or falsy audio, the model's stripped text, time and audio duration on success, and the exception text when decoding, dividing or the model raises; pinned by `Worker.MissingAudio`, `Worker.TranscribeSuccess`, `Worker.BooleanSampleRate` |
| Worker.SampleRate | vanta/voice/listener/whisper_worker.py:131-132 | the divisor is 16000 when "sample_rate" is absent and the named non-zero integer or float otherwise (`true` as 1); there is none exactly when dividing by the rate raises (0, 0.0, `false`, or not a number) |
| Worker.CommandAction | vanta/voice/listener/whisper_worker.py:107-179 | a decoded command stops the loop iff its action is "exit", and is never skipped |
| Worker.ServeStep | vanta/voice/listener/whisper_worker.py:89-111 | one loop turn: a blank line is skipped, "exit" ends the loop with nothing more written, a reply is written before the rest |
| Worker.FirstStop | vanta/voice/listener/whisper_worker.py:109-111 | the index of the first exit command, with no exit command before it |
| Worker.RepliesCount | vanta/voice/listener/whisper_worker.py:163-203 | one reply per responding line |
| Worker.RepliesPrepend | vanta/voice/listener/whisper_worker.py:163-203 | replies are written in input order |
| Worker.OneReplyPerCommand | vanta/voice/listener/whisper_worker.py:89-206 | the loop writes exactly the replies of the lines before the first exit command, one per non-blank line, in order, and ends iff an exit command arrives |
| Worker.LinesServed | vanta/voice/listener/whisper_worker.py:89-206 | over the raw lines: the loop serves the lines up to the first exit command, writes one reply per non-blank line among them, in order, and ends iff some line is an exit command |
| Worker.RespondingLines | vanta/voice/listener/whisper_worker.py:100-111 | among lines with no exit command, exactly the non-blank ones get a reply |
| Worker.DispatchKinds | vanta/voice/listener/whisper_worker.py:100-111 | a line is skipped iff it is blank, and stops the loop iff it decodes to an object whose action is "exit" |
| Worker.BlankLinesSkipped | vanta/voice/listener/whisper_worker.py:100-103 | whitespace-only lines get no reply |
| Worker.BadJsonReply | vanta/voice/listener/whisper_worker.py:185-192 | a non-blank line that is not JSON gets "Invalid JSON command" and the loop goes on |
| Worker.PingReply | vanta/voice/listener/whisper_worker.py:168-173 | "ping" answers status "ok" with the clock |
| Worker.UnknownActionReply | vanta/voice/listener/whisper_worker.py:175-179 | any other action is named in an "Unknown action: ..." error |
| Worker.MissingAudio | vanta/voice/listener/whisper_worker.py:115-119 | "transcribe" with missing or falsy audio answers "No audio data provided" |
| Worker.TranscribeSuccess | vanta/voice/listener/whisper_worker.py:121-155 | decodable audio without a sample rate answers the stripped text, the model's time and audio_duration = samples / 16000 |
| Worker.BooleanSampleRate | vanta/voice/listener/whisper_worker.py:131-155 | a "sample_rate" of `true` divides as 1, so audio_duration is the sample count; `false` makes the division raise and the reply is the error text |
| Worker.SupervisorCommandDecodes | vanta/voice/listener/whisper_worker.py:117-128 | the supervisor's audio text for non-empty samples is non-empty and decodes back to exactly those samples |
| Worker.Base64EncodeNonEmpty | vanta/voice/listener/whisper_worker.py:117 | non-empty bytes encode to a non-empty, hence truthy, string |
| Worker.StartupExitCodes | vanta/voice/listener/whisper_worker.py:30-86 | too few arguments exit 1, a NumPy failure exits 2, a Whisper failure exits 3, and the memory limit defaults to 2048 MB |
| Worker.ServeLoop | vanta/voice/listener/whisper_worker.py:89-111 | the loop's replies and whether it exited equal `Serve` |
| Worker.RunWorker | vanta/voice/listener/whisper_worker.py:27-206 | the worker's run equals `MainStep`: start-up exit code, or the served replies and exit code 0 after "exit" |
| Base64.Encode | vanta/voice/listener/whisper_process.py:321-323 | the encoding's length is a multiple of four |
| Base64.IndexOfCharOf | vanta/voice/listener/whisper_process.py:321-323 | every 6-bit value has its own alphabet character, which decodes back to it |
| Base64.CharOfIndexOf | vanta/voice/listener/whisper_worker.py:122-124 | every alphabet character is the character of its own value |
| Base64.GroupBits | vanta/voice/listener/whisper_process.py:321-323 | three bytes split into four sextets join back to the same bytes |
| Base64.SextetBits | vanta/voice/listener/whisper_worker.py:122-124 | four sextets joined into three bytes split back to the same sextets |
| Base64.DecodeEncode | vanta/voice/listener/whisper_worker.py:122-124 | decoding the encoding of any bytes gives those bytes back |
| Base64.EncodeDecode | vanta/voice/listener/whisper_worker.py:122-124 | every string the strict decoder accepts is the encoding of what it decodes to |
| Base64.DecodeCases | vanta/voice/listener/whisper_worker.py:122-124 | an accepted non-empty string is a final padded group or a full group followed by an accepted rest |
| Base64.EncodeLength | vanta/voice/listener/whisper_process.py:321-323 | the encoding has 4 characters per started group of 3 bytes |
| Payload.ToBytes | vanta/voice/listener/whisper_process.py:322 | `tobytes` gives four bytes per float32 sample |
| Payload.FromBytes | vanta/voice/listener/whisper_worker.py:126-128 | `frombuffer` gives one sample per four bytes |
| Payload.SampleRoundTrip | vanta/voice/listener/whisper_worker.py:126-128 | a sample's four little-endian bytes join back to that sample |
| Payload.BytesRoundTrip | vanta/voice/listener/whisper_worker.py:126-128 | `frombuffer(tobytes(samples))` gives the samples back |
| Payload.PayloadRoundTrip | vanta/voice/listener/whisper_process.py:317-323 | the worker decodes exactly the samples the supervisor encoded |
| Base64.DecodeEncodeOne | vanta/voice/listener/whisper_worker.py:122-124 | a lone final byte decodes back from its group of two characters and two pads |
| Base64.DecodeEncodeTwo | vanta/voice/listener/whisper_worker.py:122-124 | two final bytes decode back from their group of three characters and one pad |
| Base64.EncodeDecodeOne | vanta/voice/listener/whisper_process.py:321-323 | an accepted group with two pads is the encoding of its byte |
| Base64.EncodeDecodeTwo | vanta/voice/listener/whisper_process.py:321-323 | an accepted group with one pad is the encoding of its two bytes |
| BasicStt.Peak | vanta/voice/listener/basic_stt.py:26 | the peak bounds every sample's magnitude and is reached by one of them |
| BasicStt.Scale | vanta/voice/listener/basic_stt.py:26 | dividing by the peak keeps the length and divides every sample |
| BasicStt.FrameCount | vanta/voice/listener/basic_stt.py:33 | there is always at least one frame |
| BasicStt.PieceSizes | vanta/voice/listener/basic_stt.py:33 | one piece size per frame |
| BasicStt.DivisionIdentity | vanta/voice/listener/basic_stt.py:33 | `n == k*(n//k) + n%k` with `n%k < k` for the subtraction-based division |
| BasicStt.PieceSizesPrefix | vanta/voice/listener/basic_stt.py:33 | the first `m` pieces hold `m*(n//k)` samples plus one for each of them among the first `n%k` |
| BasicStt.PieceSizesTotal | vanta/voice/listener/basic_stt.py:33 | the piece sizes add up to the number of samples |
| BasicStt.Split | vanta/voice/listener/basic_stt.py:33 | one piece per requested size |
| BasicStt.SplitFlattens | vanta/voice/listener/basic_stt.py:33 | the pieces put back together give the audio, in order, each of its requested size |
| BasicStt.ArraySplit | vanta/voice/listener/basic_stt.py:33 | `array_split` makes exactly `k` frames |
| BasicStt.ArraySplitIsPartition | vanta/voice/listener/basic_stt.py:33 | the frames partition the audio in order, and their sizes differ by at most one |
| BasicStt.FlattenMembers | vanta/voice/listener/basic_stt.py:33-37 | every sample of a frame is a sample of the audio |
| BasicStt.ActiveCount | vanta/voice/listener/basic_stt.py:34-38 | at most every frame is active |
| BasicStt.ActiveShare | vanta/voice/listener/basic_stt.py:40 | the estimate lies between zero and the audio's length in seconds |
| BasicStt.EstimatedDuration | vanta/voice/listener/basic_stt.py:30-41 | the estimate lies between zero and the audio's length in seconds |
| BasicStt.EstimateSpeechDuration | vanta/voice/listener/basic_stt.py:30-41 | the frame loop computes `EstimatedDuration` |
| BasicStt.QuietFramesAreInactive | vanta/voice/listener/basic_stt.py:36-38 | frames with no sample above 0.01 in magnitude are all inactive |
| BasicStt.QuietAudioHasZeroDuration | vanta/voice/listener/basic_stt.py:30-41 | audio with no sample above 0.01 in magnitude has an estimated duration of zero |
| BasicStt.SumSqBelow | vanta/voice/listener/basic_stt.py:11-14 | samples all below the threshold in magnitude have a mean square below its square |
| BasicStt.IsSilence | vanta/voice/listener/basic_stt.py:11-14 | RMS below the threshold, stated as mean square below its square; pinned by `BasicStt.SilenceByAmplitude` |
| BasicStt.DetectSpeechContent | vanta/voice/listener/basic_stt.py:16-28 | not silent, and the normalised signal's standard deviation above 0.05; pinned by `BasicStt.ConstantAudioIsNotSpeech`, `BasicStt.TranscriptionNeedsSpeech` |
| BasicStt.SilenceByAmplitude | vanta/voice/listener/basic_stt.py:11-14 | samples all below the threshold make silence, and one sample whose square reaches `n` times the squared threshold rules it out |
| BasicStt.Deviation | vanta/voice/listener/basic_stt.py:27 | the sum of squared deviations from any point is never negative |
| BasicStt.SpreadNonNegative | vanta/voice/listener/basic_stt.py:27 | the variance is never negative, so `std > 0.05` is `variance > 0.0025` |
| BasicStt.ConstantHasNoSpread | vanta/voice/listener/basic_stt.py:27 | a constant signal has no variance |
| BasicStt.ConstantAudioIsNotSpeech | vanta/voice/listener/basic_stt.py:16-28 | a constant signal (silence or a DC offset) is never taken for speech |
| BasicStt.Ladder | vanta/voice/listener/basic_stt.py:59-70 | the ladder always yields one of its four markers |
| BasicStt.LadderBands | vanta/voice/listener/basic_stt.py:59-70 | each marker is reached only from its own band of durations: 0.5 s, 1 s and 2 s upwards |
| BasicStt.LadderNeedsAudio | vanta/voice/listener/basic_stt.py:59-70 | since the estimate never exceeds the audio's length, each marker needs that many seconds of audio |
| BasicStt.SimpleTranscription | vanta/voice/listener/basic_stt.py:43-72 | the result is "" or one of the four markers |
| BasicStt.TranscriptionNeedsSpeech | vanta/voice/listener/basic_stt.py:48-57 | a non-empty result needs present audio of at least 0.2 s with speech content, and is then the ladder's marker for the estimate |
| BasicStt.TranscriptionNeedsAudio | vanta/voice/listener/basic_stt.py:43-72 | "short phrase", "sentence" and "longer speech" need at least 0.5 s, 1 s and 2 s of audio |
| BasicStt.NoSpeechGivesNothing | vanta/voice/listener/basic_stt.py:48-54 | missing audio, audio under 0.2 s, or a constant signal all give "" |
| Transcripts.ToDict | vanta/voice/listener/transcript_processor.py:40-48 | the dictionary has exactly the keys text, start_time, end_time, is_user and duration, with duration = end − start |
| Transcripts.DictRoundTrip | vanta/voice/listener/transcript_processor.py:40-48 | the dictionary records the entry completely: reading it back gives the entry |
| Transcripts.Dicts | vanta/voice/listener/transcript_processor.py:176-183 | one dictionary per buffered entry, in buffer order, each reading back to its entry |
| Transcripts.Prune | vanta/voice/listener/transcript_processor.py:149-152 | the pruned buffer is a suffix whose front started within 60 s of now, and every dropped entry started more than 60 s before now |
| Transcripts.PruneIdempotent | vanta/voice/listener/transcript_processor.py:149-152 | pruning again at the same instant removes nothing more |
| Transcripts.RecentEntryKept | vanta/voice/listener/transcript_processor.py:140-152 | an entry that started within the window survives its own pruning as the newest entry |
| Transcripts.BlankTextIgnored | vanta/voice/listener/transcript_processor.py:93-95 | blank or missing text leaves buffer and log unchanged and publishes nothing, in both handlers |
| Transcripts.BufferIsRecentSuffix | vanta/voice/listener/transcript_processor.py:86-152 | after either handler the buffer is unchanged or a suffix of the old buffer plus the new entry, in order, whose front started within 60 s |
| Transcripts.SpeakerRecorded | vanta/voice/listener/transcript_processor.py:97-103 | a recent user transcription is stored as the newest entry, marked as the user's, with its text |
| Transcripts.AssistantSpeechRecorded | vanta/voice/listener/transcript_processor.py:132-137 | recent system speech is stored as the newest entry, marked as the assistant's |
| Transcripts.PublishedIffFinal | vanta/voice/listener/transcript_processor.py:99-119 | a transcription is published iff its text is not blank and it is final (the default); the payload carries the entry's dictionary and the whole new buffer, and exactly the published ones are logged |
| Transcripts.SystemSpeechLogged | vanta/voice/listener/transcript_processor.py:128-138 | non-blank system speech is always logged |
| Transcripts.TranscriptProcessor.constructor | vanta/voice/listener/transcript_processor.py:63-65 | a new processor has an empty buffer and an empty log |
| Transcripts.TranscriptProcessor.AddToBuffer | vanta/voice/listener/transcript_processor.py:140-152 | appending and the front-popping loop leave `Prune(old buffer + [entry], now)` and do not touch the log |
| Transcripts.TranscriptProcessor.HandleTranscription | vanta/voice/listener/transcript_processor.py:86-119 | the field updates and the publication equal `TranscriptionStep` |
| Transcripts.TranscriptProcessor.HandleSystemSpeech | vanta/voice/listener/transcript_processor.py:121-138 | the field updates equal `SystemSpeechStep` |
| Transcripts.TranscriptProcessor.GetBufferForShouldRespond | vanta/voice/listener/transcript_processor.py:176-183 | one dictionary per buffered entry, in buffer order, each reading back to its entry |
| Decider.DefaultConfig | vanta/reasoning/decision/speak_decider.py:33-35 | the default thresholds: base 0.6, interrupt penalty 0.3, recency penalty 0.1 |
| Decider.LatestUser | vanta/reasoning/decision/speak_decider.py:133-138 | the found entry is the user's and no later entry is; none is found iff no entry is the user's |
| Decider.Clamp | vanta/reasoning/decision/speak_decider.py:157-158 | the result lies in [0, 1], equals its input inside that range, and is 0 below it and 1 above it |
| Decider.Decide | vanta/reasoning/decision/speak_decider.py:98-163 | `should_respond`: the clamped score of the penalties, the cue bonuses and the noise, and speaking iff it exceeds the base threshold; pinned by `Decider.DecisionShape`, `Decider.QuestionAnswered`, `Decider.NeutralIsCoinFlip`, `Decider.NoInterruptWithoutCue` |
| Cues.IsQuestion | vanta/reasoning/decision/speak_decider.py:131-146 | the lowered text holds one of the ten question indicators; pinned by `Decider.QuestionAnswered`, `Responder.CategoryRules` |
| Cues.IsGreeting | vanta/reasoning/decision/speak_decider.py:148-152 | the lowered text holds one of the seven greetings; pinned by `Decider.BonusValues`, `Responder.CategoryRules` |
| Decider.DecisionShape | vanta/reasoning/decision/speak_decider.py:111-163 | the confidence lies in [0, 1] and the assistant speaks iff it exceeds the base threshold |
| Decider.InterruptPenalty | vanta/reasoning/decision/speak_decider.py:116-119 | speaking costs exactly the interrupt penalty |
| Decider.RecencyPenaltyBounds | vanta/reasoning/decision/speak_decider.py:121-127 | within 5 s of the last response the penalty lies in (0, recency_penalty]; afterwards it is zero |
| Decider.NoiseBounds | vanta/reasoning/decision/speak_decider.py:154-155 | the random term lies in [−0.05, 0.05) |
| Decider.OnlyLatestUserCounts | vanta/reasoning/decision/speak_decider.py:133-152 | only the most recent user entry's text affects the score; earlier entries and later non-user entries do not |
| Decider.BonusValues | vanta/reasoning/decision/speak_decider.py:140-152 | the content bonus is 0, 0.2 or 0.4 |
| Decider.QuestionAnswered | vanta/reasoning/decision/speak_decider.py:111-163 | with the defaults, a question is always answered while silent and more than 5 s after the last response |
| Decider.NeutralIsCoinFlip | vanta/reasoning/decision/speak_decider.py:111-163 | with the defaults, no penalty and no cue, the decision is `draw > 0.5` |
| Decider.NoInterruptWithoutCue | vanta/reasoning/decision/speak_decider.py:111-163 | with the defaults, the assistant never interrupts itself unless the latest user message is a question or greeting |
| Decider.EmptyInputIgnored | vanta/reasoning/decision/speak_decider.py:64-68 | an empty transcription or context changes nothing and publishes nothing |
| Decider.RequestIffDecided | vanta/reasoning/decision/speak_decider.py:70-86 | otherwise the user's speech time is recorded and SHOULD_RESPOND is published iff the decision says to speak, carrying its confidence and the context |
| Decider.SpeakDecider.constructor | vanta/reasoning/decision/speak_decider.py:29-40 | a new decider is not speaking, with zero response and user-speech times |
| Decider.SpeakDecider.HandleSpeechComplete | vanta/reasoning/decision/speak_decider.py:88-96 | speaking stops and the response time becomes now |
| Decider.SpeakDecider.ShouldRespond | vanta/reasoning/decision/speak_decider.py:98-163 | the reversed search and the scoring compute `Decide` |
| Decider.SpeakDecider.HandleTranscription | vanta/reasoning/decision/speak_decider.py:56-86 | the field updates and the request equal `TranscriptionStep` |
| Responder.Templates | vanta/reasoning/decision/response_generator.py:32-53 | every category has at least four templates, none of them empty |
| Responder.Categorize | vanta/reasoning/decision/response_generator.py:113-126 | greeting when a greeting occurs, else question when a question indicator occurs, else default; pinned by `Responder.CategoryRules` |
| Responder.HandleShouldRespond | vanta/reasoning/decision/response_generator.py:68-91 | nothing for empty context or transcription, else a SPEAK_TEXT with a generated template; pinned by `Responder.PublishesIffInput` |
| Responder.CategoryRules | vanta/reasoning/decision/response_generator.py:113-126 | the category is greeting iff the text greets, question iff it asks without greeting, default iff neither |
| Responder.GenerateResponse | vanta/reasoning/decision/response_generator.py:93-132 | the response is a non-empty template of the text's category |
| Responder.EveryTemplateReachable | vanta/reasoning/decision/response_generator.py:129-130 | every template of the category is chosen by some choice |
| Responder.PublishesIffInput | vanta/reasoning/decision/response_generator.py:68-91 | SPEAK_TEXT is published iff both transcription and context are non-empty, with a non-empty template of the right category and the context passed along |
| Status.StateNamesDistinct | vanta/core/system_status.py:70 | distinct states report distinct names |
| Status.Initial | vanta/core/system_status.py:31-42 | a new tracker is INITIALIZING with no error and all counters zero |
| Status.SameStateIsNoOp | vanta/core/system_status.py:87-88 | setting the current state again changes nothing, not even the timestamps |
| Status.StateChange | vanta/core/system_status.py:90-96 | a real change records the state and refreshes both timestamps; the error counter rises by one iff the new state is ERROR; the rest stays |
| Status.ErrorWhileInError | vanta/core/system_status.py:98-107 | `set_error` while in ERROR only stores the message, and counts nothing |
| Status.ErrorFromElsewhere | vanta/core/system_status.py:98-107 | `set_error` from any other state enters ERROR, stores the message and counts one error |
| Status.SpeakingCountsEveryCall | vanta/core/system_status.py:125-128 | every `set_speaking` counts a response, even when already SPEAKING, and leaves the other counters alone |
| Status.TranscriptionCounted | vanta/core/system_status.py:138-141 | `increment_transcription` counts one transcription and refreshes only the activity time |
| Status.InitialInv | vanta/core/system_status.py:31-42 | a new tracker satisfies "in ERROR implies at least one error counted" |
| Status.ApplyKeepsInv | vanta/core/system_status.py:80-141 | every update keeps that invariant |
| Status.CountersCountCalls | vanta/core/system_status.py:80-141 | from a new tracker, the response counter equals the number of `set_speaking` calls and the transcription counter the number of `increment_transcription` calls |
| Status.MetricsReport | vanta/core/system_status.py:64-73 | the metrics dictionary has exactly the three counters, uptime_start, uptime, current_state, time_in_state and idle_time |
| Status.Report | vanta/core/system_status.py:143-151 | the report has exactly the keys state, uptime, idle_time, metrics and error |
| Status.ReportReflectsState | vanta/core/system_status.py:143-151 | two trackers with the same report at the same instant agree on state, error and every counter |
| Status.FreshReport | vanta/core/system_status.py:143-151 | a new tracker reports zero uptime, no error and INITIALIZING |
| Status.SystemStatus.GetReport | vanta/core/system_status.py:143-150 | `report()` of the current fields; pinned by `Status.Report`, `Status.ReportReflectsState`, `Status.FreshReport` |
| Status.SystemStatus.constructor | vanta/core/system_status.py:31-42 | the new fields equal `Initial(now)` |
| Status.SystemStatus.SetState | vanta/core/system_status.py:80-96 | the field updates equal `SetStateStep` |
| Status.SystemStatus.SetError | vanta/core/system_status.py:98-107 | the field updates equal `SetErrorStep` |
| Status.SystemStatus.SetSpeaking | vanta/core/system_status.py:125-128 | the field updates equal `SetSpeakingStep` |
| Status.SystemStatus.IncrementTranscription | vanta/core/system_status.py:138-141 | the field updates equal `IncrementTranscriptionStep` |
| Bus.SubscribeAppends | vanta/core/event_bus.py:103-110 | subscribing appends at the back of the topic's list, marks the id active, and leaves every other topic alone |
| Bus.UnsubscribeUnknownTopic | vanta/core/event_bus.py:123-124 | unsubscribing from a topic never subscribed to fails and changes nothing |
| Bus.UnsubscribeRemovesFirst | vanta/core/event_bus.py:126-133 | unsubscribing succeeds iff the id is in the topic's list; it then removes only its first occurrence, keeps the order of the rest, drops the id from the active set and leaves other topics alone; otherwise nothing changes |
| Bus.SubscribeThenUnsubscribe | vanta/core/event_bus.py:92-133 | subscribing a new callback and unsubscribing it again succeeds and restores every topic's list |
| Bus.EventBus.constructor | vanta/core/event_bus.py:58-65 | a new bus has no subscribers and no active ids |
| Bus.EventBus.Subscribe | vanta/core/event_bus.py:92-110 | the field updates equal `SubscribeStep`, and the returned id is the callback's |
| Bus.EventBus.Unsubscribe | vanta/core/event_bus.py:112-133 | the index scan's field updates and result equal `UnsubscribeStep` |
| Bus.EventBus.HandleEvent | vanta/core/event_bus.py:193-204 | every subscriber of the topic is called once, in subscription order, and a raising callback does not stop the rest |
| Bus.Singleton.constructor | vanta/core/event_bus.py:50 | the class starts without an instance |
| Bus.Singleton.New | vanta/core/event_bus.py:52-56 | the first construction creates and initialises the bus; later ones return that same bus |
| Bus.Singleton.NewTwice | vanta/core/event_bus.py:52-56 | constructing the bus twice yields the same object |
| Settings.DeepMerge | vanta/config/app_settings.py:40-59 | the merge has exactly the keys of both sides |
| Settings.MergeRules | vanta/config/app_settings.py:51-59 | per key: an override value wins unless both sides are dictionaries, two dictionaries are merged recursively, and a key only in the base keeps its value |
| Settings.MergeEmpty | vanta/config/app_settings.py:51-59 | merging an empty override gives the base back |
| Settings.MergeSelf | vanta/config/app_settings.py:40-59 | merging a configuration with itself changes nothing, at any depth |
| Settings.MergeOverrideTwice | vanta/config/app_settings.py:40-59 | applying the same override twice is the same as applying it once |
| Seqs.FirstIndex | vanta/config/app_settings.py:128 | the position found holds the first occurrence (the first dot of a value string, the first matching callback), and no earlier element is one; the length when there is none |
| Settings.Pow10 | vanta/config/app_settings.py:128-129 | the fraction's divisor is at least one |
| Settings.ParseEnvValue | vanta/config/app_settings.py:122-131 | the value an environment variable sets: boolean, integer, float, or the text; pinned by `Settings.ParseBooleans`, `Settings.ParseDigits`, `Settings.ParseDecimal`, `Settings.ParseOtherIsString` |
| Settings.ParseBooleans | vanta/config/app_settings.py:122-125 | a value is a boolean iff it lowercases to "true" or "false", and then it is that boolean, in any letter case |
| Settings.ParseDigits | vanta/config/app_settings.py:126-127 | a string of decimal digits, leading zeros included, is the integer it denotes |
| Settings.ParseNatural | vanta/config/app_settings.py:126-127 | a rendered natural number parses back to that integer |
| Settings.ParseMinusOne | vanta/config/app_settings.py:126-131 | "-1" stays a string, since a minus sign is not a digit |
| Settings.ParseHalf | vanta/config/app_settings.py:126-131 | "0.5" becomes the float 0.5 |
| Settings.ParseDecimal | vanta/config/app_settings.py:128-129 | digits, one point, digits (not both sides empty) is the float of the integer part plus the fraction over the power of ten |
| Settings.DotBetweenDigits | vanta/config/app_settings.py:128 | removing the first point from digits, a point, digits leaves the digits on both sides |
| Settings.ParseOtherIsString | vanta/config/app_settings.py:130-131 | a non-boolean value holding a character other than a digit or a point stays the text itself |
| Settings.KeyPath | vanta/config/app_settings.py:107-109 | a `VANTA_` variable designates a key path of at least one key |
| Settings.SetPath | vanta/config/app_settings.py:112-131 | the walk down the key path, creating missing dictionaries, with none where a non-dictionary makes Python raise; pinned by `Settings.SetThenGet`, `Settings.FreshPathSucceeds` |
| Settings.ApplyAll | vanta/config/app_settings.py:104-131 | every prefixed variable applied in turn; pinned by `Settings.UnprefixedIgnored`, `Settings.UntargetedKeyKept`, `Settings.ApplyEnvOverrides` |
| Settings.SetThenGet | vanta/config/app_settings.py:111-131 | after a successful walk the path holds the value, and every other top-level key is untouched |
| Settings.FreshPathSucceeds | vanta/config/app_settings.py:113-116 | a path through keys that do not exist yet always succeeds, creating the dictionaries on the way |
| Settings.UnprefixedIgnored | vanta/config/app_settings.py:106-107 | variables without the `VANTA_` prefix change nothing |
| Settings.UntargetedKeyKept | vanta/config/app_settings.py:104-131 | a top-level key no variable targets keeps its presence and value |
| Settings.LaterSourcesWin | vanta/config/app_settings.py:62-88 | for a key no variable targets, a plain value in the custom file wins, then one in the user's file, and a key neither file has keeps its default |
| Settings.ApplyEnvOverrides | vanta/config/app_settings.py:91-131 | the loop over the environment computes `ApplyAll`, including the cases where Python raises |
| Time.Trunc | vanta/core/utils/time_utils.py:124 | `int()` truncates toward zero: the result is the whole part of a non-negative input and rounds a negative one up |
| Time.Components | vanta/core/utils/time_utils.py:124-126 | days·86400 + hours·3600 + minutes·60 + seconds gives the input back, with hours below 24 and minutes and seconds below 60 |
| Time.PartsPresence | vanta/core/utils/time_utils.py:128-137 | days appear iff nonzero, hours iff they or days are nonzero, minutes iff any larger unit is; seconds are always last |
| Time.EndsWithSeconds | vanta/core/utils/time_utils.py:137-139 | the rendering ends with the seconds modulo sixty and "s" |
| Time.JoinEndsWithLast | vanta/core/utils/time_utils.py:139 | a join ends with its last part |
| Time.ReadOnePart | vanta/core/utils/time_utils.py:131-137 | a rendered part reads back as its count times its unit's seconds |
| Time.NoSpaceInPart | vanta/core/utils/time_utils.py:131-137 | a part holds no space |
| Time.PartsHaveNoSpace | vanta/core/utils/time_utils.py:128-137 | no rendered part holds the separator |
| Time.PartsSum | vanta/core/utils/time_utils.py:124-137 | the parts of a non-negative count of seconds add back up to it |
| Time.FormatDuration | vanta/core/utils/time_utils.py:114-138 | the "Nd Nh Nm Ns" rendering of `int(seconds)`; pinned by `Time.RoundTrip`, `Time.EndsWithSeconds`, `Time.FormatZero`, `Time.FormatOneHour`, `Time.FormatNegativeWraps` |
| Time.RoundTrip | vanta/core/utils/time_utils.py:114-139 | for a non-negative duration, reading the rendering back gives `int(seconds)`: nothing is lost |
| Time.FormatZero | vanta/core/utils/time_utils.py:114-139 | zero seconds render as "0s" |
| Time.FormatOneHour | vanta/core/utils/time_utils.py:114-139 | 3600 seconds render as "1h 0m 0s", keeping the zero minutes and seconds |
| Time.FormatNegativeWraps | vanta/core/utils/time_utils.py:124-139 | −1 second renders as "23h 59m 59s": floor division wraps it into the previous day, and the negative day count is dropped |
| Text.TrimLeft | vanta/voice/listener/transcript_processor.py:94 | leading trim keeps a suffix, drops only whitespace, and leaves no whitespace in front |
| Text.TrimRight | vanta/voice/listener/transcript_processor.py:94 | trailing trim keeps a prefix, drops only whitespace, and leaves no whitespace at the end |
| Text.StripIsTrimmedInfix | vanta/voice/listener/transcript_processor.py:94 | `strip()` keeps a contiguous piece of the input, drops only whitespace, and leaves none at either end |
| Text.StripEmptyIffBlank | vanta/voice/listener/transcript_processor.py:94 | `not s.strip()` holds exactly for whitespace-only strings |
| Text.Lower | vanta/config/app_settings.py:109 | lowercasing keeps the length and lowers each character |
| Text.NatToString | vanta/core/utils/time_utils.py:131-137 | a rendered number is all digits |
| Text.NatToStringRoundTrip | vanta/config/app_settings.py:126-127 | `int(str(n)) == n` |
| Text.Split | vanta/config/app_settings.py:109 | `split` gives at least one piece, none of which holds the separator |
| Text.JoinSplit | vanta/config/app_settings.py:109 | joining the pieces of a split gives the text back |
| Text.SplitJoin | vanta/core/utils/time_utils.py:139 | splitting a join of separator-free pieces gives the pieces back |
| Json.ErrorObject | vanta/voice/listener/whisper_process.py:309 | an error object has the single key "error" holding the message |

## Left out

- Logging, file writes, asyncio scheduling, threads, subprocess pipes, `setrlimit` and `sleep` are not modelled. A clock reading, a process's liveness, a pipe's reply and a spawn's success are parameters.
- `_create_worker_script` writes the worker script to disk. That file write is not modelled. The worker itself is modelled as `Worker`.
- The WebRTC classifier and the Whisper model are not modelled. Their verdicts and results are parameters.
- Floating-point rounding is not modelled anywhere: every Python float is an exact real. This covers samples (the payload carries their float32 bit patterns), clock readings, durations, thresholds, the decider's score and random draw, and the floats `ParseEnvValue` reads ("0.1" is exactly 1/10 here). Comparisons such as the decider's score against 0.5 are therefore exact. Square roots and standard deviations are stated as comparisons of squares.
- int16 conversion of audio is not modelled.
- `int()` of an infinite or NaN float is not modelled, because reals have neither.
- BasicStt.Peak: numpy raises on an empty array, but the model gives 0 for no samples.
- BasicStt.EstimateSpeechDuration requires non-empty audio. Its only caller has already rejected clips shorter than 0.2 s.
- BasicStt.SimpleTranscription requires a positive sample rate. The source divides by it.
- Manager.Duration requires a positive sample rate, for the same reason.
- Manager.TranscribeStep takes the clock readings made before the worker call (the transcription stamp, the retry check and the recovery stamp) as one `now`. The failure time, which the source reads after the worker returns, is a separate `failedAt`.
- Stt.SubmittedJob requires a positive sample rate, for the same reason.
- Stt.FinishStep makes the TRANSCRIPTION_COMPLETE publication and the decrement of pending one step. The source awaits the publication first, so other steps may run between the two. The pending count is the same either way, since its updates only add and subtract one.
- Base64.Decode is the strict decoder: it checks padding and zero unused bits. Python's `b64decode` is more lenient. The round trip is proved for the strict decoder.
- Worker.Display shows a float, list or object value as the placeholder "<value>". Only strings, integers, booleans and null are rendered exactly.
- Worker.StartupStep reads the memory-limit argument only when it is all decimal digits.
- Worker.RunWorker models the worker's `main`, which cannot keep its name here. Input that runs out before an `exit` command leaves the exit code unset: there the source's loop reads an empty line, sleeps 0.1 s and polls again forever.
- Worker.Dispatch models the non-interactive read, where standard input is not a terminal. On a terminal the source reads with `input()`, and a blank line then reaches `json.loads` and is answered "Invalid JSON command" instead of being skipped.
- Worker.ServeLoop takes the already-dispatched action of each input line, not the raw lines.
- A reply from the worker that is not a JSON object is not modelled. A `text` field that is not a string reads as "".
- Supervisor: every call reads the clock once, except the throttled restart, which reads it again 5 s later.
- `process_speech_segment` computes a local `timeout` (5 s or 10 s) and never uses it. The model leaves it out; the manager applies its own timeout.
- Text.Lower: `lower()` maps ASCII letters only, and `isdigit()` accepts the ASCII digits only. No Unicode case mapping or Unicode digits are modelled. The whitespace test `Text.IsSpace` does follow Python's Unicode whitespace set.
- Vad: after a natural end of speech, the SPEECH_COMPLETE duration is always 0.0. The silence counter is reset before the duration is computed; the model keeps this.
- The `stop()` and `shutdown()` methods of the service, manager and supervisor are not modelled, since they only cancel tasks and close processes.
- Transcripts: the strftime-formatted context strings are not modelled. Entries keep their raw timestamps.
- Bus: a callback that subscribes or unsubscribes during dispatch is not modelled. Dispatch runs over a snapshot of the list.
- Settings.SetPath: when an override path meets a value that is not a dictionary, Python raises partway through the update. The model returns None and keeps the old configuration.
- Settings: `load_yaml` and `save_user_config` are file I/O and are not modelled. A YAML file that parses to None is not modelled either.
- Status.SetState covers `set_initializing` through `set_shutdown`, which are one-line wrappers of `set_state`.
- Responder.GenerateResponse: `random.choice` is a parameter, taken modulo the number of templates. Likewise `random.random` in `speak_decider.py` is a draw parameter.
- Time: the datetime helpers of `time_utils.py` are not modelled, because they only read the OS clock or wrap `strftime` and `strptime`. A negative duration renders as the source computes it, wrapping into the previous day (see `Time.FormatNegativeWraps`).
