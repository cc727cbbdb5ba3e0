# quick-stt recording core, modelled in Dafny

quick-stt is a browser speech-to-text page. Speech arrives from one of three sources: the
browser's continuous speech recognizer, a fallback that records audio chunks and uploads
them for transcription, or a mock simulator that emits canned phrases on a timer. The page
merges interim and final results into one transcript with a confidence score. A small
server side validates summarization and transcription requests, delegates them to
injected provider services and maps errors to HTTP responses.

This project models:

- **The recording/transcript state machine** of `src/app/page.tsx`, lifted out of the React
  component into the class `Session.RecordingSession`. React state and refs become fields.
  Every user action, recognizer callback (`onresult`, `onerror`, `onend`), timer firing (the
  mock interval, the 500 ms mock final, the 100 ms restart) and upload completion becomes a
  method. Timers carry no clock: the model admits every order in which events could arrive.
  The exception is the 500 ms mock finals, which all have the same delay and so fire in the
  order they were scheduled. `isRecording` and `isRecordingRef` are separate fields, and
  `SyncRecordingRef` is the effect that copies the state into the ref after a render. Every
  speech recognizer the page creates is kept, in creation order, in the field `recognizers`;
  the last one is `recognitionRef.current`. The recognizer effect (`RecognizerEffectRuns`)
  appends a fresh one at each render that changes one of its dependencies. `start()` and
  `stop()` reach only the current one, while the callbacks of every running one stay live and
  name the recognizer that fires them. The ghost field `committed` lists the final fragments.
  `Valid()` keeps the transcript equal to their space-join.
- **The pure transcript helpers** (`Transcript`): the space-joined append, the displayed-text
  projection, the `onresult` merge loop (`MergeBatch`) with its specification functions, the
  cyclic mock phrases and the chunk append.
- **The races** (`Races`): each one is a method that runs the event sequence on a session
  and proves its outcome from the class contracts alone. Examples are stop then `onend`, stop
  inside the 100 ms restart delay, and stop inside the 500 ms mock gap.
- **The use-case and error boundary**: `SummarizeText.Execute` and `TranscribeAudio.Execute`
  take the service as a function parameter. `ServiceCall` names the call the use case makes,
  or None when validation refuses the input. The error taxonomy is `Errors`, and
  `Http.HandleHttpError` maps any thrown value to a response.

Behaviour of the page that the model keeps as written:

- A transcribed upload chunk is appended whether or not recording is still on.
  `sendOpenAIChunk` (src/app/page.tsx:168-187) does not look at `isRecording` before it
  appends. See `ChunkUploadFinished`.
- A mode switch does not stop the upload recorder. `toggleMockMode` stops only the mock
  timer or the speech recognizer (src/app/page.tsx:472-476). See
  `Races.SwitchToMockWhileUploading`. This is latent. The upload fallback runs only when
  `toggleRecording` is called without speech recognition and outside mock mode. Its one
  caller is the record button, which is disabled in exactly that case
  (src/app/page.tsx:800-807). `Session.RecordingSession.PressRecordButton` models that click.
- `onerror` only switches `isRecording` and `isProcessing` off (src/app/page.tsx:317-325).
  It leaves `isRecordingRef` on, and no other state records that an error happened. See
  `OnError` and `Races.ErrorThenEnd`.
- `onresult` keeps no position of its own. Each batch is merged from the browser's
  `resultIndex` to the end of `event.results` (src/app/page.tsx:285-297), and what the browser
  puts in that window is taken as given. See `MergeBatch`.

Other behaviour the model exposes:

- The recognizer effect (src/app/page.tsx:263-411) creates a new recognizer each time it runs.
  Its dependencies include `isRecording` and `rightText`, and its cleanup stops no recognizer.
  A start therefore causes a render that replaces `recognitionRef.current` with a fresh
  recognizer that was never started. A later stop (src/app/page.tsx:455) or mode switch
  (src/app/page.tsx:475) reaches that fresh one, and the capturing one goes on capturing. See
  `Races.StartThenRender`, `Races.StopAfterRenderMissesCapturing` and
  `Races.SwitchToMockAfterRender`. Its finals are still appended after the stop
  (`Races.LateFinalAfterStop`). A second start reaches the fresh recognizer, so two capture
  at once (`Races.StartAgainRunsTwo`).
- The cleanup of the recognizer effect (src/app/page.tsx:400-410) runs whenever `isRecording`
  or `rightText` changes, and it clears the mock interval timer. Starting mock recording
  therefore loses its interval at the next render. See `Races.MockStartThenRender`. As a
  result no mock tick fires in the page as written. The mock races that start from a running
  interval (`Races.Simulating`) describe the timers' own logic, which the page does not reach.
- The delayed mock final checks only the recording flag. A stop followed by a new start
  inside the 500 ms gap would still commit the old phrase. See `Races.RestartInsideFinalGap`.
- In the upload fallback, a microphone grant that arrives after the user stopped still
  starts a recorder. See `Races.StopBeforeMicrophoneOpens`. This too is latent: only a call
  of `toggleRecording` that bypasses the disabled record button reaches the fallback.
- An `AppError` whose status the `Response` constructor rejects is not turned into a
  response. `handleHttpError` itself then throws. See `Http.RejectedStatuses`.

## Model

| member | source | states |
|---|---|---|
| `JsText.Trim` | src/application/transcription/SummarizeTextUseCase.ts:14-15 | `trim()` returns the infix of the input that starts where its leading white space ends and is followed only by white space. The result neither starts nor ends with white space, and it is empty exactly when the input is all white space. Input without white space at either end is unchanged |
| `Errors.NewAppError` | src/shared/errors.ts:1-11 | an `AppError` keeps its message and cause; its status is the given one or 500 when none is given; its name is "AppError" |
| `Errors.NewValidationError` | src/shared/errors.ts:14-18 | always status 400; message defaults to "Validation error"; the cause is kept |
| `Errors.NewUnauthorizedError` | src/shared/errors.ts:20-24 | always status 401; message defaults to "Unauthorized"; no cause |
| `Errors.NewNotFoundError` | src/shared/errors.ts:26-30 | always status 404; message defaults to "Not found"; no cause |
| `Errors.IsAppError` | src/shared/errors.ts:32-34 | `error instanceof AppError` holds exactly for the values that are instances of `AppError` or a subclass, and each of them is named after one of the four classes of the taxonomy |
| `Errors.IsAppErrorExactlyForAppErrors` | src/shared/errors.ts:32-34 | `isAppError` accepts what each of the four constructors builds, for any arguments, and rejects every value that is not an `AppError` |
| `Http.JsonError` | src/shared/http.ts:8-10 | the body is the message, and the status is the given one or 500, taken modulo 2^16. The `Response` constructor throws a `RangeError` when that status is outside 200 to 599. It throws a `TypeError` for 204, 205 and 304, which forbid a body. Otherwise a response is built |
| `Http.HandleHttpError` | src/shared/http.ts:12-18 | an `AppError` whose status, taken modulo 2^16, the `Response` constructor accepts gets a response with that status and its own message. One with a rejected status makes `handleHttpError` throw the constructor's error, which is not an `AppError`. Anything else gets 500 and the fixed body "Internal server error", and only an `AppError` can make it throw |
| `Http.TaxonomyStatuses` | src/shared/http.ts:12-18 | validation, unauthorized and not-found errors reach the client as responses 400, 401 and 404 with their messages; a default validation error reads "Validation error" |
| `Http.RejectedStatuses` | src/shared/http.ts:8-14 | status 599 is answered; 600 and 204 make `handleHttpError` throw; 65936 wraps around to a 400 response |
| `Http.ForeignErrorsIndistinguishable` | src/shared/http.ts:16-17 | any two non-`AppError` values get the same response, which always exists, so the original message is never leaked |
| `SummarizeText.ResolveLanguage` | src/application/transcription/SummarizeTextUseCase.ts:15 | the language is the trimmed input, or "en" when the input is undefined or only white space; never empty |
| `SummarizeText.ServiceCall` | src/application/transcription/SummarizeTextUseCase.ts:14-19 | there is no service call exactly when the text is undefined or blank after trimming; otherwise the call gets the trimmed text and the resolved language |
| `SummarizeText.Execute` | src/application/transcription/SummarizeTextUseCase.ts:13-20 | a refused input fails with `ValidationError("Missing text")`; otherwise the result is exactly what the service returns or throws |
| `SummarizeText.ServiceGetsTrimmedText` | src/application/transcription/SummarizeTextUseCase.ts:14-19 | the service receives the input text with its leading and trailing white space cut off: a non-empty infix of the input, with only white space before and after it, and no white space at either of its own ends |
| `SummarizeText.RejectionIgnoresService` | src/application/transcription/SummarizeTextUseCase.ts:16-18 | on blank or missing text the outcome is the same for every service (it is not called), and the HTTP answer is 400 "Missing text" |
| `SummarizeText.ServiceFailurePropagates` | src/application/transcription/SummarizeTextUseCase.ts:19 | a service failure reaches the caller unchanged; there is no catch and no retry |
| `SummarizeText.Examples` | src/application/transcription/SummarizeTextUseCase.ts:13-20 | `{text: "  "}` is refused; `{text: "hello"}` without a language is summarized in "en" |
| `TranscribeAudio.Execute` | src/application/transcription/TranscribeAudioUseCase.ts:12-17 | without a file the result is a `ValidationError` with status 400 and message "Missing file"; with a file it is exactly the service's result for that file |
| `TranscribeAudio.MissingFileIgnoresService` | src/application/transcription/TranscribeAudioUseCase.ts:13-15 | without a file the outcome is the same for every service, and the HTTP answer is 400 "Missing file" |
| `TranscribeAudio.StubServiceExample` | src/application/transcription/TranscribeAudioUseCase.ts:16 | a stub service answering `{text: "hi"}` makes the use case answer `{text: "hi"}` |
| `Transcript.SpaceAppendJoins` | src/app/page.tsx:307-309 | appending a fragment to the space-join of non-empty fragments gives the space-join of the list extended by that fragment, so the transcript is always the finals joined by single spaces in arrival order |
| `Transcript.SpaceAppend` | src/app/page.tsx:147 | `prev + (prev ? " " : "") + x`, also at lines 179, 308 and 792: the result is as long as its parts plus one separator exactly when the old text is non-empty, and it is empty only when both parts are. `SpaceAppendExtends` places the parts and `SpaceAppendJoins` ties it to the space-join of all fragments |
| `Transcript.SpaceAppendExtends` | src/app/page.tsx:307-309 | an append only extends the text: the old text is a prefix and the fragment a suffix, with a space right after a non-empty old text |
| `Transcript.Displayed` | src/app/page.tsx:790-794 | the displayed text starts with the committed text; it differs from it exactly while processing a non-empty interim, and then it ends with that interim |
| `Transcript.DisplayedPreviewsCommit` | src/app/page.tsx:790-794 | while an interim is shown, the display is the transcript as it would read with the interim committed |
| `Transcript.BestFinalConfidence` | src/app/page.tsx:280-293 | the batch confidence is at least 0, bounds every final candidate's confidence, and is either 0 or the confidence of some final candidate; interim candidates play no part |
| `Transcript.MergeBatch` | src/app/page.tsx:285-297 | the loop over `[resultIndex, results.length)` yields the final text, interim text and best confidence of exactly that window, and nothing when `resultIndex` is past the end |
| `Transcript.FinalTextIsFinals` | src/app/page.tsx:291-292 | the final text is the transcripts of exactly the final candidates, in order |
| `Transcript.InterimTextIsNonFinals` | src/app/page.tsx:294-295 | the interim text is the transcripts of exactly the non-final candidates, in order |
| `Transcript.FilterPartitions` | src/app/page.tsx:285-297 | each candidate of the batch lands in exactly one of the two groups |
| `Transcript.MockPhrase` | src/app/page.tsx:132-135 | each tick's phrase is a non-empty entry of the ten mock transcripts |
| `Transcript.MockPhrasesCycle` | src/app/page.tsx:132-136 | the phrase sequence repeats with period ten |
| `Transcript.WhitespaceChunkAddsDanglingSpace` | src/app/page.tsx:178-180 | as written, a chunk whose text is " " turns "Hello" into "Hello " |
| `Transcript.ChunkAppendAsWritten` | src/app/page.tsx:178-180 | the chunk append as written only extends the transcript. It differs from the corrected rule `ChunkAppend` exactly when the transcript is non-empty and the chunk text is non-empty but all white space, and then only by one dangling space |
| `Transcript.ChunkAppend` | src/app/page.tsx:178-180 | the corrected rule of the finding below: a chunk with no text after trimming leaves the transcript unchanged; otherwise its trimmed text is space-appended |
| `Transcript.ChunkAppendKeepsCleanEnd` | src/app/page.tsx:178-180 | a chunk never leaves the transcript ending in white space unless it already did |
| `Session.StartCurrent` | src/app/page.tsx:463 | `recognitionRef.current?.start()` starts the newest recognizer only; every older one is untouched |
| `Session.StopCurrent` | src/app/page.tsx:455 | `recognitionRef.current?.stop()` stops the newest recognizer only; an older capturing one keeps capturing |
| `Session.RecordingSession.constructor` | src/app/page.tsx:97-121 | the page's initial state: not recording, real mode, empty transcript, no confidence, "en-US", index 0, no timers, no recorder. With speech recognition, the first effect run has created one idle recognizer in "en-US"; without it there is none |
| `Session.RecordingSession.CommitFragment` | src/app/page.tsx:307-309 | the transcript becomes the space-append of the fragment; the committed list grows by it, and the join invariant is kept |
| `Session.RecordingSession.ToggleRecording` | src/app/page.tsx:420-467 | recording flips. Mock mode: state and ref are set together and the interval is started or cleared, with processing off on stop. Fallback: only the state changes, and a start asks for the microphone while a stop drops the recorder. Recognizer: a stop clears the ref and processing and calls `stop()` on the current recognizer only, and a start sets the ref and calls `start()` on it |
| `Session.RecordingSession.PressRecordButton` | src/app/page.tsx:799-807 | the record button is enabled only with speech recognition or in mock mode. A click flips recording with the ref in step, asks for no microphone and leaves any recorder as it is |
| `Session.RecordingSession.StartMockRecording` | src/app/page.tsx:124-158 | the mock interval timer is set, replacing any previous one |
| `Session.RecordingSession.StopMockRecording` | src/app/page.tsx:160-166 | the mock interval is cleared and processing is off |
| `Session.RecordingSession.ToggleMockMode` | src/app/page.tsx:469-489 | the mode flips and the index resets to 0. While recording, the mock interval is cleared or `stop()` reaches the current recognizer only, and recording, ref and processing end up off. Recording never resumes |
| `Session.RecordingSession.ClearRightText` | src/app/page.tsx:496-502 | the transcript, the pending interim and the committed list are emptied, confidence is None and processing is off; the display is empty |
| `Session.RecordingSession.EditRightText` | src/app/page.tsx:795 | a user edit replaces the transcript, which becomes its own single committed fragment |
| `Session.RecordingSession.SetLanguage` | src/app/page.tsx:643-644 | the selection changes `selectedLanguage` only; no recognizer changes until the render's effects run, and the copy at lines 414-418 then reaches only the recognizer the recognizer effect has just created, which already has that language (`Races.SelectLanguageThenRender`) |
| `Session.RecordingSession.LanguageEffectRuns` | src/app/page.tsx:413-418 | the selected language is written onto `recognitionRef.current` when there is one; every older recognizer keeps its language |
| `Session.RecordingSession.SyncRecordingRef` | src/app/page.tsx:259-261 | the ref takes the value of the recording state |
| `Session.RecordingSession.RecognizerEffectRuns` | src/app/page.tsx:263-411 | the cleanup clears the mock interval timer and stops no recognizer; with speech recognition a fresh, idle recognizer in the selected language becomes the current one, and every older recognizer keeps its state |
| `Session.RecordingSession.OnResult` | src/app/page.tsx:277-315 | delivered by any running recognizer, current or not: a non-empty final of the window is appended. Confidence becomes that batch's best final confidence, not a running maximum; the last transcript becomes the final and processing stops. Otherwise a non-empty interim starts processing and becomes the last transcript, and the transcript is untouched. The transcript only grows |
| `Session.RecordingSession.OnError` | src/app/page.tsx:317-325 | fired by any running recognizer: recording state and processing are switched off; nothing is scheduled |
| `Session.RecordingSession.OnEnd` | src/app/page.tsx:327-337 | processing is off, the recognizer that ended is inactive and no other changes, and one restart is scheduled exactly when the ref says recording |
| `Session.RecordingSession.RestartTimerFires` | src/app/page.tsx:331-335 | the timer is consumed; the current recognizer, possibly newer than the one that ended, is started only if it exists and the ref still says recording |
| `Session.RecordingSession.MockTick` | src/app/page.tsx:129-141 | while the ref says recording, the tick emits `MOCK_TRANSCRIPTS[index mod 10]` as the pending interim, increments the index and schedules its final; otherwise nothing changes |
| `Session.RecordingSession.MockFinalFires` | src/app/page.tsx:143-154 | the earliest scheduled final is consumed. If the ref still says recording, its phrase is appended with a confidence in [0.85, 0.95) and processing stops; otherwise the state is unchanged |
| `Session.RecordingSession.MicrophoneOpened` | src/app/page.tsx:189-204 | a granted microphone starts a recorder, whether or not recording is still on |
| `Session.RecordingSession.ChunkAvailable` | src/app/page.tsx:194-198 | a non-empty chunk starts an upload and sets processing |
| `Session.RecordingSession.CommitChunkText` | src/app/page.tsx:178-180 | under the corrected rule, the committed text becomes `ChunkAppend` of the old text and the chunk, only grows, and records the trimmed text as a fragment exactly when it is non-empty |
| `Session.RecordingSession.ChunkUploadFinished` | src/app/page.tsx:168-187 | the upload is consumed and processing stops, also on failure; transcribed text is appended by `ChunkAppend` whether or not recording is on; the transcript only grows |
| `Races.StartThenRender` | src/app/page.tsx:263-273 | after a start and the render it causes, the capturing recognizer is no longer the current one; the current one is fresh and idle |
| `Races.StopAfterRenderMissesCapturing` | src/app/page.tsx:450-455 | a stop after that render switches recording, ref and processing off, but the capturing recognizer keeps capturing |
| `Races.LateFinalAfterStop` | src/app/page.tsx:300-313 | that recognizer's final is appended to the transcript after the stop; its end restarts nothing |
| `Races.StartAgainRunsTwo` | src/app/page.tsx:460-464 | a start after the stop's render starts the fresh recognizer while the first still captures: two capture at once |
| `Races.SwitchToMockAfterRender` | src/app/page.tsx:469-483 | a mode switch after the start's render leaves the capturing recognizer capturing in mock mode |
| `Races.SelectLanguageThenRender` | src/app/page.tsx:263-273 | a language selection and its render: the recognizer effect (its dependencies at line 411) runs before the language effect (lines 414-418), so the only change to the recognizers is one fresh, idle recognizer in the new language; the recognizer that was current at the selection keeps its old language |
| `Races.StopThenEndNeverRestarts` | src/app/page.tsx:450-455 | stop before any render, then `onend`: the stopped recognizer ends, no restart is scheduled, and every pending restart timer fires without starting any recognizer |
| `Races.UnexpectedEndRestartsOnce` | src/app/page.tsx:327-337 | an `onend` while recording leads to exactly one restart after the delay; a render inside the delay makes it start the fresh recognizer instead of the one that ended |
| `Races.StopDuringRestartDelay` | src/app/page.tsx:331-335 | a stop inside the 100 ms delay leaves the current recognizer inactive when the timer fires |
| `Races.ErrorThenEnd` | src/app/page.tsx:317-337 | after `onerror`, `onend` schedules a restart only if the ref was not yet synchronized |
| `Races.TickThenFinal` | src/app/page.tsx:129-154 | with the interval running, a tick and its final append the phrase at the current index and advance the index; the page as written does not reach this |
| `Races.StopInsideFinalGap` | src/app/page.tsx:143-154 | with the interval running, a stop inside the 500 ms gap leaves transcript and confidence unchanged; the page as written does not reach this |
| `Races.TwoTicksOneFinal` | src/app/page.tsx:129-154 | with the interval running, two ticks with a stop before the second final commit exactly one phrase; the page as written does not reach this |
| `Races.RestartInsideFinalGap` | src/app/page.tsx:143-154 | with the interval running, a stop and restart inside the gap still commit the earlier phrase; the page as written does not reach this |
| `Races.MockStartThenRender` | src/app/page.tsx:400-432 | starting mock recording and rendering leaves recording on with no mock interval |
| `Races.SwitchToMockWhileListening` | src/app/page.tsx:469-483 | a switch before any render since the start stops the capturing recognizer; its `onend` restarts nothing; the next start runs the simulator at index 0 |
| `Races.SwitchToMockWhileUploading` | src/app/page.tsx:469-483 | a switch while the fallback records leaves its recorder running and uploading; reachable only past the disabled record button |
| `Races.StopBeforeMicrophoneOpens` | src/app/page.tsx:189-213 | a stop before the microphone answers does not prevent the recorder from starting; reachable only past the disabled record button |

## Left out

- Rendering, styling, toasts, i18n lookups, `changeAppLanguage`, the keyboard shortcuts and `switchTextarea`, `exportAsText` and `exportAsDocx`: presentation, DOM focus and foreign libraries.
- `summarizeLeftText` (src/app/page.tsx:536-557) and the left text area: a `fetch` to the summarize route, whose server side is modelled by `SummarizeText.Execute`.
- `getUserMedia`, `MediaRecorder`, `fetch` and the transcription endpoint: I/O. Their outcomes are the parameters of `MicrophoneOpened`, `ChunkAvailable` and `ChunkUploadFinished`. A second granted recorder replacing a running one is not tracked separately.
- When a recognizer ends by itself, and the `onerror` event kind: the browser decides both. `OnError` and `OnEnd` may fire for any running recognizer at any time.
- `intervalRef`: it is cleared in several places but never assigned, so clearing it has no effect.
- Timing: `mockSpeed` and the 100 ms, 500 ms and 2000 ms delays are not modelled. Events may arrive in any order, which includes every timed order.
- React's scheduling: each event sees the state of the latest render. Stale closures and batched updates within one handler are not modelled separately. Setters applied in sequence give the same final state.
- Only the first alternative of each recognition result is read, as in the source.
- `Math.random()` in the mock final is a parameter in [0.85, 0.95). Confidence percentages and `toFixed` are display only.
- Provider services (`OpenAI*Service`, `DeepSeek*Service`), their clients, `config/env.ts`, route files and the request handlers: the services are function parameters of the use cases.
- `src/openai_stream.mjs`: a standalone network and audio loop.
- `Transcript.BestFinalConfidence`: models `Math.max` on numbers that are not NaN.
- `Http.HandleHttpError`: the `console.error` call (src/shared/http.ts:16) is logging I/O and is not modelled.
- `Http.JsonError`: status codes are integers. A fractional JavaScript number, which the conversion to `unsigned short` truncates, and NaN or an infinity, which become 0, are not modelled. The thrown `RangeError` and `TypeError` are modelled by their kind only; their message text is the runtime's.
- `Session.RecordingSession.ChunkUploadFinished`: appends only chunks whose text is non-empty after trimming, the corrected behaviour of the finding below. As written, a whitespace-only text also appends a separator.
- `Session.RecordingSession.CommitChunkText`: uses the corrected rule `ChunkAppend`, so a whitespace-only chunk text leaves the transcript unchanged. As written (src/app/page.tsx:178-179), it appends a dangling separator to a non-empty transcript; `Transcript.ChunkAppendAsWritten` keeps that behaviour.
- Diagnostics in src/app/page.tsx change no modelled state and are not modelled: the `console.log` calls (lines 157, 283, 289), the `console.error` calls (lines 182, 201, 318), the `new Date()` latency bookkeeping (lines 275-284) and the `debugger` statements (lines 130 and 144).

## Findings

| source | as written | input that shows it | evidently intended | confidence | as-written member | corrected member |
|---|---|---|---|---|---|---|
| src/app/page.tsx:178-180 | `if (data.text)` tests the untrimmed text, then appends `data.text.trim()` | transcript "Hello", chunk text " " gives "Hello " (the next chunk then adds a double space) | append only when the trimmed text is non-empty | medium, not executed; latent, reachable only by calling `toggleRecording` past the record button, which is disabled exactly when this branch would run (src/app/page.tsx:807) | `Transcript.WhitespaceChunkAddsDanglingSpace` | `Transcript.ChunkAppend`, `Transcript.ChunkAppendKeepsCleanEnd` |
