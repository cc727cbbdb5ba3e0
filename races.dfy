/**
 * The races of the recording state machine, each written as the sequence of events that
 * produces it and proved from the contracts of `RecordingSession` alone.
 */
module Races {
  import opened Transcript
  import opened Session

  /** Real mode, not recording, and the current recognizer idle. */
  ghost predicate Idle(s: RecordingSession)
    reads s
  {
    && s.Valid() && s.isSupported && !s.isMockMode && !s.isRecording && !s.isRecordingRef
    && s.recognizers[|s.recognizers| - 1].state == Inactive
  }

  /**
   * Real mode, recording, ref in step, and the current recognizer capturing. The page is here
   * only until the next render: every render re-runs the recognizer effect, which replaces the
   * current recognizer by a fresh one (see `StartThenRender`).
   */
  ghost predicate Listening(s: RecordingSession)
    reads s
  {
    && s.Valid() && s.isSupported && !s.isMockMode && s.isRecording && s.isRecordingRef
    && s.recognizers[|s.recognizers| - 1].state == Capturing
  }

  /**
   * A start changes `isRecording`, so a render follows and the recognizer effect runs again:
   * the recognizer that captures is no longer `recognitionRef.current`, which is now a fresh
   * one that was never started.
   */
  method StartThenRender(s: RecordingSession) returns (capturing: nat)
    requires Idle(s)
    modifies s
    ensures s.Valid() && s.isRecording && s.isRecordingRef && !s.isMockMode && s.isSupported
    ensures s.rightText == old(s.rightText) && s.pendingRestarts == old(s.pendingRestarts)
    ensures capturing == |old(s.recognizers)| - 1 && |s.recognizers| == capturing + 2
    ensures s.recognizers[capturing].state == Capturing
    ensures s.recognizers[capturing + 1] == Recognizer(Inactive, s.selectedLanguage)
  {
    capturing := |s.recognizers| - 1;
    s.PressRecordButton();
    s.SyncRecordingRef();
    s.RecognizerEffectRuns();
  }

  /**
   * Stop after that render: `stop()` reaches the fresh recognizer, which is not running, and the
   * one that captures goes on capturing although recording is off.
   */
  method StopAfterRenderMissesCapturing(s: RecordingSession) returns (capturing: nat)
    requires Idle(s)
    modifies s
    ensures s.Valid() && !s.isRecording && !s.isRecordingRef && !s.isProcessing && s.isSupported && !s.isMockMode
    ensures s.rightText == old(s.rightText) && s.pendingRestarts == old(s.pendingRestarts)
    ensures capturing == |old(s.recognizers)| - 1 && |s.recognizers| == capturing + 2
    ensures s.recognizers[capturing].state == Capturing
    ensures s.recognizers[capturing + 1].state == Inactive
  {
    capturing := StartThenRender(s);
    s.PressRecordButton();
  }

  /**
   * The recognizer that kept capturing after the stop delivers a final: it is appended to the
   * transcript although recording is off. Its end, with the ref off, restarts nothing.
   */
  method LateFinalAfterStop(s: RecordingSession, results: seq<SpeechResult>, resultIndex: nat)
    requires Idle(s) && FinalText(Window(results, resultIndex)) != ""
    modifies s
    ensures s.Valid() && !s.isRecording && s.pendingRestarts == old(s.pendingRestarts)
    ensures s.rightText == SpaceAppend(old(s.rightText), FinalText(Window(results, resultIndex)))
    ensures forall i :: |old(s.recognizers)| - 1 <= i < |s.recognizers| ==> s.recognizers[i].state == Inactive
  {
    var capturing := StopAfterRenderMissesCapturing(s);
    s.OnResult(capturing, results, resultIndex);
    s.OnEnd(capturing);
  }

  /**
   * Stop and start again, each followed by its render: the second start reaches the fresh
   * recognizer while the first one still captures, so two recognizers capture at once and
   * both deliver their finals.
   */
  method StartAgainRunsTwo(s: RecordingSession) returns (first: nat, second: nat)
    requires Idle(s)
    modifies s
    ensures s.Valid() && s.isRecording && first < second < |s.recognizers|
    ensures s.recognizers[first].state == Capturing && s.recognizers[second].state == Capturing
  {
    first := StopAfterRenderMissesCapturing(s);
    second := first + 2;
    s.RecognizerEffectRuns();
    s.PressRecordButton();
  }

  /**
   * Switching to mock mode after the start's render: `stop()` again reaches the fresh
   * recognizer, and the capturing one keeps feeding the transcript in mock mode.
   */
  method SwitchToMockAfterRender(s: RecordingSession) returns (capturing: nat)
    requires Idle(s)
    modifies s
    ensures s.Valid() && s.isMockMode && !s.isRecording && !s.isRecordingRef
    ensures capturing < |s.recognizers| && s.recognizers[capturing].state == Capturing
  {
    capturing := StartThenRender(s);
    s.ToggleMockMode();
  }

  /**
   * A language selection and its render. The recognizer effect depends on `selectedLanguage`
   * and comes first, so it creates a fresh recognizer in the new language; the language
   * effect then writes that same language onto the fresh one. Every older recognizer,
   * including the one that was current at the selection, keeps its language.
   */
  method SelectLanguageThenRender(s: RecordingSession, code: string)
    requires s.Valid()
    modifies s
    ensures s.Valid() && s.selectedLanguage == code && !s.mockIntervalActive
    ensures s.recognizers == old(s.recognizers) + (if s.isSupported then [Recognizer(Inactive, code)] else [])
  {
    s.SetLanguage(code);
    s.RecognizerEffectRuns();
    s.LanguageEffectRuns();
  }

  /**
   * Stop before any render, then the recognizer's `onend`: no restart is scheduled, and even
   * the restart timers already pending leave every recognizer as it was when they fire.
   */
  method StopThenEndNeverRestarts(s: RecordingSession)
    requires Listening(s)
    modifies s
    ensures s.Valid() && !s.isRecording && !s.isRecordingRef && s.pendingRestarts == 0
    ensures |s.recognizers| == |old(s.recognizers)| && s.recognizers[|s.recognizers| - 1].state == Inactive
    ensures forall i :: 0 <= i < |s.recognizers| - 1 ==> s.recognizers[i] == old(s.recognizers)[i]
  {
    var current := |s.recognizers| - 1;
    s.PressRecordButton();
    assert s.recognizers[current].state == Stopping && !s.isRecordingRef;
    var before := s.pendingRestarts;
    s.OnEnd(current);
    assert s.pendingRestarts == before;
    ghost var ended := s.recognizers;
    while s.pendingRestarts > 0
      invariant s.Valid() && !s.isRecording && !s.isRecordingRef && s.recognizers == ended
      decreases s.pendingRestarts
    {
      s.RestartTimerFires();
    }
  }

  /**
   * An `onend` nobody asked for, while recording: exactly one restart, after the delay. A render
   * inside the delay makes the restart start the fresh recognizer instead of the one that ended.
   */
  method UnexpectedEndRestartsOnce(s: RecordingSession, rendered: bool)
    requires Listening(s) && s.pendingRestarts == 0
    modifies s
    ensures Listening(s) && s.pendingRestarts == 0
    ensures |s.recognizers| == |old(s.recognizers)| + (if rendered then 1 else 0)
    ensures s.recognizers[|old(s.recognizers)| - 1].state == (if rendered then Inactive else Capturing)
  {
    var current := |s.recognizers| - 1;
    s.OnEnd(current);
    assert s.pendingRestarts == 1;
    if rendered {
      s.RecognizerEffectRuns();
    }
    s.RestartTimerFires();
  }

  /** A stop issued inside the 100 ms delay: the timer fires and finds recording off. */
  method StopDuringRestartDelay(s: RecordingSession)
    requires Listening(s) && s.pendingRestarts == 0
    modifies s
    ensures s.Valid() && !s.isRecording && s.pendingRestarts == 0
    ensures |s.recognizers| == |old(s.recognizers)| && s.recognizers[|s.recognizers| - 1].state == Inactive
  {
    s.OnEnd(|s.recognizers| - 1);
    s.PressRecordButton();
    s.RestartTimerFires();
  }

  /**
   * `onerror` switches the state off but not the ref: once the ref has been synchronized the
   * following `onend` schedules nothing; before that it schedules a restart.
   */
  method ErrorThenEnd(s: RecordingSession, synced: bool)
    requires Listening(s)
    modifies s
    ensures s.Valid() && !s.isRecording
    ensures |s.recognizers| == |old(s.recognizers)| && s.recognizers[|s.recognizers| - 1].state == Inactive
    ensures s.pendingRestarts == old(s.pendingRestarts) + (if synced then 0 else 1)
  {
    var current := |s.recognizers| - 1;
    s.OnError(current);
    if synced {
      s.SyncRecordingRef();
    }
    s.OnEnd(current);
  }

  /**
   * Mock recording with the interval set and no final scheduled. The page as written does not
   * reach this state: the render that follows the start clears the interval (see
   * `MockStartThenRender`), so no tick fires. The races that start here describe the mock
   * timers' own logic, as it would play out if the interval survived that render.
   */
  ghost predicate Simulating(s: RecordingSession)
    reads s
  {
    s.Valid() && s.isMockMode && s.isRecording && s.isRecordingRef && s.mockIntervalActive
    && s.pendingMockFinals == []
  }

  /**
   * A tick, then its final 500 ms later: the phrase is appended to the transcript. Not reached
   * by the page as written (see `Simulating`).
   */
  method TickThenFinal(s: RecordingSession, confidence: real)
    requires Simulating(s) && 0.85 <= confidence < 0.95
    modifies s
    ensures Simulating(s) && s.mockIndex == old(s.mockIndex) + 1
    ensures s.committed == old(s.committed) + [MockPhrase(old(s.mockIndex))]
    ensures s.rightText == SpaceAppend(old(s.rightText), MockPhrase(old(s.mockIndex)))
    ensures s.confidenceScore.Some? && s.confidenceScore.value == confidence && !s.isProcessing
  {
    s.MockTick();
    s.MockFinalFires(confidence);
  }

  /**
   * A stop inside the 500 ms gap: the delayed final finds recording off and changes nothing.
   * Not reached by the page as written (see `Simulating`).
   */
  method StopInsideFinalGap(s: RecordingSession, confidence: real)
    requires Simulating(s) && 0.85 <= confidence < 0.95
    modifies s
    ensures s.Valid() && !s.isRecording && !s.isProcessing && s.pendingMockFinals == []
    ensures s.rightText == old(s.rightText) && s.committed == old(s.committed)
    ensures s.confidenceScore == old(s.confidenceScore)
  {
    s.MockTick();
    s.PressRecordButton();
    s.MockFinalFires(confidence);
  }

  /**
   * Two ticks with the stop between the second tick and its final: exactly one phrase
   * reaches the transcript. Not reached by the page as written (see `Simulating`).
   */
  method TwoTicksOneFinal(s: RecordingSession, c1: real, c2: real)
    requires Simulating(s) && 0.85 <= c1 < 0.95 && 0.85 <= c2 < 0.95
    modifies s
    ensures s.Valid() && !s.isRecording && s.pendingMockFinals == []
    ensures s.committed == old(s.committed) + [MockPhrase(old(s.mockIndex))]
    ensures s.rightText == SpaceAppend(old(s.rightText), MockPhrase(old(s.mockIndex)))
  {
    TickThenFinal(s, c1);
    StopInsideFinalGap(s, c2);
  }

  /**
   * Stop and start again inside the 500 ms gap: the delayed final only checks the recording
   * flag, so the phrase of the earlier run is still appended. Not reached by the page as
   * written (see `Simulating`).
   */
  method RestartInsideFinalGap(s: RecordingSession, confidence: real)
    requires Simulating(s) && 0.85 <= confidence < 0.95
    modifies s
    ensures s.Valid() && s.isRecording
    ensures s.rightText == SpaceAppend(old(s.rightText), MockPhrase(old(s.mockIndex)))
  {
    s.MockTick();
    s.PressRecordButton();
    s.PressRecordButton();
    s.MockFinalFires(confidence);
  }

  /**
   * Starting mock recording changes `isRecording`, so the render that follows runs the
   * effect cleanup, which clears the interval just set: no tick can fire afterwards.
   */
  method MockStartThenRender(s: RecordingSession)
    requires s.Valid() && s.isMockMode && !s.isRecording
    modifies s
    ensures s.Valid() && s.isRecording && s.isRecordingRef && !s.mockIntervalActive
  {
    s.PressRecordButton();
    assert s.mockIntervalActive;
    s.SyncRecordingRef();
    s.RecognizerEffectRuns();
  }

  /**
   * Switching to mock mode before any render since the start stops the current recognizer,
   * which is then the capturing one, leaves recording off and the index at 0; its `onend`
   * restarts nothing, and the next start runs the simulator, not the recognizer. After a
   * render the switch misses the capturing recognizer instead (see `SwitchToMockAfterRender`).
   */
  method SwitchToMockWhileListening(s: RecordingSession)
    requires Listening(s) && !s.mockIntervalActive
    modifies s
    ensures s.Valid() && s.isMockMode && s.isRecording && s.mockIntervalActive
    ensures |s.recognizers| == |old(s.recognizers)| && s.recognizers[|s.recognizers| - 1].state == Inactive
    ensures s.pendingRestarts == old(s.pendingRestarts) && s.mockIndex == 0
  {
    var current := |s.recognizers| - 1;
    s.ToggleMockMode();
    assert !s.isRecording && !s.isRecordingRef && !s.isProcessing && s.recognizers[current].state == Stopping;
    s.OnEnd(current);
    s.PressRecordButton();
  }

  /**
   * In the upload fallback a mode switch stops nothing: a recorder that was running keeps
   * running and its next chunk is still uploaded. Only a call of `toggleRecording` that
   * bypasses the disabled record button starts such a recorder.
   */
  method SwitchToMockWhileUploading(s: RecordingSession)
    requires s.Valid() && !s.isSupported && !s.isMockMode && s.isRecording && s.recorderActive
    modifies s
    ensures s.Valid() && s.isMockMode && !s.isRecording && s.recorderActive
    ensures s.isProcessing && s.uploadsInFlight == old(s.uploadsInFlight) + 1
  {
    s.ToggleMockMode();
    s.ChunkAvailable(1);
  }

  /**
   * A stop issued before the microphone answers: the recorder starts anyway once it does.
   * Only calls of `toggleRecording` that bypass the disabled record button get here.
   */
  method StopBeforeMicrophoneOpens(s: RecordingSession)
    requires s.Valid() && !s.isSupported && !s.isMockMode && !s.isRecording && !s.recorderActive
    modifies s
    ensures s.Valid() && !s.isRecording && s.recorderActive
  {
    s.ToggleRecording();
    s.ToggleRecording();
    s.MicrophoneOpened(true);
  }
}
