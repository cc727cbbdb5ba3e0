/**
 * The recording/transcript state machine of the page component (src/app/page.tsx), lifted
 * out of React into one object. Every user action, recognizer callback, timer firing and
 * upload completion is a method; a race between them is a sequence of calls.
 *
 * React state and refs become fields. `isRecording` (state) and `isRecordingRef` (the ref the
 * callbacks and timers read) are separate fields: the handlers set both, except where the
 * source sets only the state, and `SyncRecordingRef` is the effect that copies one into the
 * other after a render. Timers and callbacks are untimed events, so the model allows every
 * order in which they could arrive.
 */
module Session {
  import opened Wrappers
  import opened JsText
  import opened Transcript

  /** The browser speech recognizer: not running, capturing audio, or asked to stop and not yet ended. */
  datatype RecognizerState = Inactive | Capturing | Stopping

  /** `recognition.start()`: an inactive recognizer starts; a running one throws and is left as it is. */
  function Started(r: RecognizerState): RecognizerState
  {
    if r == Inactive then Capturing else r
  }

  /** `recognition.stop()`: a capturing recognizer begins to stop; otherwise nothing happens. */
  function Stopped(r: RecognizerState): RecognizerState
  {
    if r == Capturing then Stopping else r
  }

  /**
   * One `SpeechRecognition` object the page created: where it is in its lifecycle and the
   * `lang` it was given. Its `onresult`, `onerror` and `onend` handlers stay attached for its
   * whole life and read only refs and state setters, so every recognizer's callbacks behave alike.
   */
  datatype Recognizer = Recognizer(state: RecognizerState, lang: string)

  /**
   * `recognitionRef.current?.start()`: only the newest recognizer is started; every older one,
   * whatever it is doing, is untouched. With no recognizer nothing happens.
   */
  function StartCurrent(rs: seq<Recognizer>): (r: seq<Recognizer>)
    ensures |r| == |rs| && forall i :: 0 <= i < |rs| - 1 ==> r[i] == rs[i]
    ensures rs != [] ==> r[|rs| - 1].state == Started(rs[|rs| - 1].state) && r[|rs| - 1].lang == rs[|rs| - 1].lang
  {
    if rs == [] then rs else rs[|rs| - 1 := rs[|rs| - 1].(state := Started(rs[|rs| - 1].state))]
  }

  /**
   * `recognitionRef.current?.stop()`: only the newest recognizer is asked to stop; an older one
   * that is still capturing goes on capturing. With no recognizer nothing happens.
   */
  function StopCurrent(rs: seq<Recognizer>): (r: seq<Recognizer>)
    ensures |r| == |rs| && forall i :: 0 <= i < |rs| - 1 ==> r[i] == rs[i]
    ensures rs != [] ==> r[|rs| - 1].state == Stopped(rs[|rs| - 1].state) && r[|rs| - 1].lang == rs[|rs| - 1].lang
  {
    if rs == [] then rs else rs[|rs| - 1 := rs[|rs| - 1].(state := Stopped(rs[|rs| - 1].state))]
  }

  /** What the transcription endpoint answers for one uploaded chunk; a missing `text` is the empty string. */
  datatype ChunkReply = UploadFailed | Transcribed(text: string)

  /** The recognition language selected when the page loads. */
  const InitialLanguage: string := "en-US"

  class RecordingSession {
    /** Whether the browser offers speech recognition; without it, real mode records audio chunks for upload. */
    const isSupported: bool
    var isMockMode: bool
    var isRecording: bool
    var isRecordingRef: bool
    /** The committed transcript. */
    var rightText: string
    /** The latest interim or final text, shown while processing. */
    var lastTranscript: string
    var isProcessing: bool
    var confidenceScore: Option<real>
    var selectedLanguage: string
    /**
     * Every recognizer the page has created, oldest first; the last one is
     * `recognitionRef.current`. Without speech recognition there are none.
     */
    var recognizers: seq<Recognizer>
    /** Number of scheduled 100 ms restart timers that have not fired yet. */
    var pendingRestarts: nat
    /** `mockTranscriptIndexRef.current`. */
    var mockIndex: nat
    /** Whether the mock interval timer is set. */
    var mockIntervalActive: bool
    /** Phrases of the scheduled 500 ms mock finals, in the order they will fire. */
    var pendingMockFinals: seq<string>
    /** Number of microphone requests (`getUserMedia`) not answered yet. */
    var pendingMicrophones: nat
    /** Whether `mediaRecorderRef.current` holds a running recorder. */
    var recorderActive: bool
    /** Number of chunk uploads awaiting their answer. */
    var uploadsInFlight: nat
    /** The fragments committed since the last clear or edit, in order. */
    ghost var committed: seq<string>

    /** The committed text is always the space-joined list of non-empty committed fragments. */
    ghost predicate Valid()
      reads this`rightText, this`committed, this`recognizers, this`pendingMockFinals
    {
      && rightText == SpaceJoined(committed)
      && AllNonEmpty(committed)
      && (isSupported <==> recognizers != [])
      && (forall i :: 0 <= i < |pendingMockFinals| ==> pendingMockFinals[i] in MockTranscripts)
    }

    /** The page's initial state, with the result of probing for speech recognition. */
    constructor (isSupported: bool)
      ensures Valid() && this.isSupported == isSupported
      ensures !isMockMode && !isRecording && !isRecordingRef && !isProcessing
      ensures rightText == "" && lastTranscript == "" && confidenceScore == None
      ensures selectedLanguage == InitialLanguage && pendingRestarts == 0
      ensures recognizers == if isSupported then [Recognizer(Inactive, InitialLanguage)] else []
      ensures mockIndex == 0 && !mockIntervalActive && pendingMockFinals == []
      ensures pendingMicrophones == 0 && !recorderActive && uploadsInFlight == 0
    {
      this.isSupported := isSupported;
      isMockMode, isRecording, isRecordingRef, isProcessing := false, false, false, false;
      rightText, lastTranscript, confidenceScore := "", "", None;
      selectedLanguage, pendingRestarts := InitialLanguage, 0;
      recognizers := if isSupported then [Recognizer(Inactive, InitialLanguage)] else [];
      mockIndex, mockIntervalActive, pendingMockFinals := 0, false, [];
      pendingMicrophones, recorderActive, uploadsInFlight := 0, false, 0;
      committed := [];
    }

    /**
     * `setRightText((prev) => prev + (prev ? " " : "") + fragment)`: the one way a final
     * fragment enters the transcript, keeping it the space-join of the committed fragments.
     */
    method CommitFragment(fragment: string)
      requires Valid() && fragment != ""
      modifies this`rightText, this`committed
      ensures Valid()
      ensures committed == old(committed) + [fragment]
      ensures rightText == SpaceAppend(old(rightText), fragment)
      ensures old(rightText) <= rightText
    {
      SpaceAppendJoins(committed, fragment);
      rightText := SpaceAppend(rightText, fragment);
      committed := committed + [fragment];
    }

    // -------------------------------------------------------------------------
    // User actions

    /**
     * `toggleRecording`: start or stop the source of the current mode. Mock mode and the
     * recognizer set the state and the ref together, and a stop clears them before the source
     * is stopped; the upload fallback sets only the state and asks for the microphone.
     */
    method ToggleRecording()
      requires Valid()
      modifies this`isRecording, this`isRecordingRef, this`isProcessing, this`recognizers,
        this`mockIntervalActive, this`pendingMicrophones, this`recorderActive
      ensures Valid()
      ensures isRecording == !old(isRecording)
      ensures isMockMode ==> (isRecordingRef == isRecording && mockIntervalActive == isRecording
        && recognizers == old(recognizers) && pendingMicrophones == old(pendingMicrophones)
        && recorderActive == old(recorderActive)
        && isProcessing == (isRecording && old(isProcessing)))
      ensures !isMockMode && !isSupported ==> (isRecordingRef == old(isRecordingRef)
        && isProcessing == old(isProcessing) && mockIntervalActive == old(mockIntervalActive)
        && recognizers == old(recognizers))
      ensures !isMockMode && !isSupported && isRecording ==>
        pendingMicrophones == old(pendingMicrophones) + 1 && recorderActive == old(recorderActive)
      ensures !isMockMode && !isSupported && !isRecording ==>
        pendingMicrophones == old(pendingMicrophones) && !recorderActive
      ensures !isMockMode && isSupported ==> (isRecordingRef == isRecording
        && mockIntervalActive == old(mockIntervalActive) && pendingMicrophones == old(pendingMicrophones)
        && recorderActive == old(recorderActive))
      ensures !isMockMode && isSupported && !isRecording ==> !isProcessing && recognizers == StopCurrent(old(recognizers))
      ensures !isMockMode && isSupported && isRecording ==> isProcessing == old(isProcessing) && recognizers == StartCurrent(old(recognizers))
    {
      if isMockMode {
        if isRecording {
          isRecording := false;
          isRecordingRef := false;
          StopMockRecording();
        } else {
          isRecording := true;
          isRecordingRef := true;
          StartMockRecording();
        }
      } else if !isSupported {
        if isRecording {
          isRecording := false;
          recorderActive := false;
        } else {
          isRecording := true;
          pendingMicrophones := pendingMicrophones + 1;
        }
      } else if isRecording {
        isRecording := false;
        isRecordingRef := false;
        isProcessing := false;
        recognizers := StopCurrent(recognizers);
      } else {
        isRecording := true;
        isRecordingRef := true;
        recognizers := StartCurrent(recognizers);
      }
    }

    /**
     * A click on the record button. The button is disabled while neither speech recognition
     * nor mock mode is available, so a click never reaches the upload fallback of
     * `ToggleRecording`: it asks for no microphone and stops no recorder.
     */
    method PressRecordButton()
      requires Valid() && (isSupported || isMockMode)
      modifies this`isRecording, this`isRecordingRef, this`isProcessing, this`recognizers,
        this`mockIntervalActive, this`pendingMicrophones, this`recorderActive
      ensures Valid()
      ensures isRecording == !old(isRecording) && isRecordingRef == isRecording
      ensures pendingMicrophones == old(pendingMicrophones) && recorderActive == old(recorderActive)
      ensures isRecording ==> isProcessing == old(isProcessing)
      ensures !isRecording ==> !isProcessing
      ensures isMockMode ==> recognizers == old(recognizers) && mockIntervalActive == isRecording
      ensures !isMockMode ==> (mockIntervalActive == old(mockIntervalActive)
        && recognizers == if isRecording then StartCurrent(old(recognizers)) else StopCurrent(old(recognizers)))
    {
      ToggleRecording();
    }

    /** `startMockRecording`: replace any mock interval timer by a new one. */
    method StartMockRecording()
      modifies this`mockIntervalActive
      ensures mockIntervalActive
    {
      mockIntervalActive := true;
    }

    /** `stopMockRecording`: clear the mock interval timer and stop processing; scheduled finals stay scheduled. */
    method StopMockRecording()
      modifies this`mockIntervalActive, this`isProcessing
      ensures !mockIntervalActive && !isProcessing
    {
      mockIntervalActive := false;
      isProcessing := false;
    }

    /**
     * `toggleMockMode`: stop whatever records in the current mode, then flip the mode and
     * reset the phrase index. Recording is never resumed. In real mode only the recognizer is
     * stopped; an upload recorder keeps running.
     */
    method ToggleMockMode()
      requires Valid()
      modifies this`isMockMode, this`mockIndex, this`isRecording, this`isRecordingRef,
        this`isProcessing, this`mockIntervalActive, this`recognizers
      ensures Valid()
      ensures isMockMode == !old(isMockMode) && mockIndex == 0
      ensures old(isRecording) ==> !isRecording && !isRecordingRef && !isProcessing
      ensures old(isRecording) && old(isMockMode) ==> !mockIntervalActive && recognizers == old(recognizers)
      ensures old(isRecording) && !old(isMockMode) ==>
        recognizers == StopCurrent(old(recognizers)) && mockIntervalActive == old(mockIntervalActive)
      ensures !old(isRecording) ==> (!isRecording && isRecordingRef == old(isRecordingRef)
        && isProcessing == old(isProcessing) && mockIntervalActive == old(mockIntervalActive)
        && recognizers == old(recognizers))
    {
      if isRecording {
        if isMockMode {
          StopMockRecording();
        } else {
          recognizers := StopCurrent(recognizers);
        }
        isRecording := false;
        isRecordingRef := false;
        isProcessing := false;
      }
      isMockMode := !isMockMode;
      mockIndex := 0;
    }

    /** `clearRightText`: forget the transcript, the confidence and the pending interim. */
    method ClearRightText()
      requires Valid()
      modifies this`rightText, this`committed, this`confidenceScore, this`lastTranscript, this`isProcessing
      ensures Valid()
      ensures rightText == "" && committed == [] && confidenceScore == None
      ensures lastTranscript == "" && !isProcessing
      ensures Displayed(rightText, isProcessing, lastTranscript) == ""
    {
      rightText := "";
      committed := [];
      confidenceScore := None;
      lastTranscript := "";
      isProcessing := false;
    }

    /** The text area's `onChange`: the user's edit replaces the committed text wholesale. */
    method EditRightText(value: string)
      requires Valid()
      modifies this`rightText, this`committed
      ensures Valid()
      ensures rightText == value && committed == (if value == "" then [] else [value])
    {
      rightText := value;
      committed := if value == "" then [] else [value];
    }

    /**
     * Selecting a recognition language sets `selectedLanguage` and nothing else. The render
     * that follows runs the recognizer effect and then the language effect; see
     * `RecognizerEffectRuns` and `LanguageEffectRuns`.
     */
    method SetLanguage(code: string)
      requires Valid()
      modifies this`selectedLanguage
      ensures Valid() && selectedLanguage == code
    {
      selectedLanguage := code;
    }

    /**
     * The language effect: copies `selectedLanguage` onto `recognitionRef.current`, if there
     * is one, and onto no older recognizer.
     */
    method LanguageEffectRuns()
      requires Valid()
      modifies this`recognizers
      ensures Valid() && |recognizers| == |old(recognizers)|
      ensures forall i :: 0 <= i < |recognizers| - 1 ==> recognizers[i] == old(recognizers)[i]
      ensures recognizers != [] ==>
        recognizers[|recognizers| - 1] == old(recognizers)[|recognizers| - 1].(lang := selectedLanguage)
    {
      if recognizers != [] {
        var last := |recognizers| - 1;
        recognizers := recognizers[last := recognizers[last].(lang := selectedLanguage)];
      }
    }

    // -------------------------------------------------------------------------
    // Effects that run after a render

    /** The effect `isRecordingRef.current = isRecording`. */
    method SyncRecordingRef()
      modifies this`isRecordingRef
      ensures isRecordingRef == isRecording
    {
      isRecordingRef := isRecording;
    }

    /**
     * The recognizer/keyboard effect runs again after a render in which one of its dependencies
     * (among them `rightText`, `isRecording` and `selectedLanguage`) changed. Its cleanup clears
     * the mock interval timer and stops no recognizer. The effect then creates a fresh, inactive
     * recognizer with the selected language and makes it `recognitionRef.current`; every older
     * recognizer keeps its state, and a capturing one keeps delivering results and its end.
     */
    method RecognizerEffectRuns()
      requires Valid()
      modifies this`mockIntervalActive, this`recognizers
      ensures Valid()
      ensures !mockIntervalActive
      ensures recognizers == old(recognizers) + (if isSupported then [Recognizer(Inactive, selectedLanguage)] else [])
    {
      mockIntervalActive := false;
      if isSupported {
        recognizers := recognizers + [Recognizer(Inactive, selectedLanguage)];
      }
    }

    // -------------------------------------------------------------------------
    // Recognizer callbacks and the restart timer

    /**
     * `onresult`: merge the new entries of the batch. A non-empty interim is shown as pending;
     * a non-empty final is appended to the transcript, reported with the best final confidence
     * of this batch alone, and ends processing. Recognizer `id`, any running one and not
     * necessarily the current one, delivers the batch.
     */
    method OnResult(id: nat, results: seq<SpeechResult>, resultIndex: nat)
      requires Valid() && id < |recognizers| && recognizers[id].state != Inactive
      modifies this`rightText, this`committed, this`lastTranscript, this`isProcessing, this`confidenceScore
      ensures Valid()
      ensures old(rightText) <= rightText
      ensures var w := Window(results, resultIndex); var f := FinalText(w);
        f != "" ==> (committed == old(committed) + [f] && rightText == SpaceAppend(old(rightText), f)
          && confidenceScore == Some(BestFinalConfidence(w)) && lastTranscript == f && !isProcessing)
      ensures var w := Window(results, resultIndex); var f := FinalText(w); var m := InterimText(w);
        f == "" ==> (committed == old(committed) && rightText == old(rightText)
          && confidenceScore == old(confidenceScore)
          && isProcessing == (m != "" || old(isProcessing))
          && lastTranscript == (if m != "" then m else old(lastTranscript)))
    {
      var finalText, interimText, bestConfidence := MergeBatch(results, resultIndex);
      if interimText != "" {
        isProcessing := true;
        lastTranscript := interimText;
      }
      if finalText != "" {
        CommitFragment(finalText);
        confidenceScore := Some(bestConfidence);
        lastTranscript := finalText;
        isProcessing := false;
      }
    }

    /**
     * `onerror` of running recognizer `id`: the recording state (not the ref) and processing
     * are switched off; nothing restarts. The recognizer's end follows as a separate event.
     */
    method OnError(id: nat)
      requires Valid() && id < |recognizers| && recognizers[id].state != Inactive
      modifies this`isRecording, this`isProcessing
      ensures !isRecording && !isProcessing
    {
      isRecording := false;
      isProcessing := false;
    }

    /**
     * `onend` of running recognizer `id`: that recognizer is inactive again, and a restart (of
     * whichever recognizer is current when the timer fires) is scheduled only while the ref
     * says recording.
     */
    method OnEnd(id: nat)
      requires Valid() && id < |recognizers| && recognizers[id].state != Inactive
      modifies this`isProcessing, this`recognizers, this`pendingRestarts
      ensures Valid()
      ensures !isProcessing && recognizers == old(recognizers)[id := old(recognizers)[id].(state := Inactive)]
      ensures pendingRestarts == old(pendingRestarts) + (if isRecordingRef then 1 else 0)
    {
      isProcessing := false;
      recognizers := recognizers[id := recognizers[id].(state := Inactive)];
      if isRecordingRef {
        pendingRestarts := pendingRestarts + 1;
      }
    }

    /**
     * The 100 ms restart timer fires: `recognitionRef.current`, which may be a newer recognizer
     * than the one that ended, is started only if recording is still on.
     */
    method RestartTimerFires()
      requires Valid() && pendingRestarts > 0
      modifies this`pendingRestarts, this`recognizers
      ensures Valid()
      ensures pendingRestarts == old(pendingRestarts) - 1
      ensures recognizers == if isRecordingRef then StartCurrent(old(recognizers)) else old(recognizers)
    {
      pendingRestarts := pendingRestarts - 1;
      if isRecordingRef {
        recognizers := StartCurrent(recognizers);
      }
    }

    // -------------------------------------------------------------------------
    // Mock timers

    /**
     * The mock interval fires: while recording, emit the next phrase of the cycle as the
     * pending interim and schedule its final 500 ms later.
     */
    method MockTick()
      requires Valid() && mockIntervalActive
      modifies this`mockIndex, this`isProcessing, this`lastTranscript, this`pendingMockFinals
      ensures Valid()
      ensures isRecordingRef ==> (mockIndex == old(mockIndex) + 1 && isProcessing
        && lastTranscript == MockPhrase(old(mockIndex))
        && pendingMockFinals == old(pendingMockFinals) + [MockPhrase(old(mockIndex))])
      ensures !isRecordingRef ==> (mockIndex == old(mockIndex) && isProcessing == old(isProcessing)
        && lastTranscript == old(lastTranscript) && pendingMockFinals == old(pendingMockFinals))
    {
      if isRecordingRef {
        var transcript := MockPhrase(mockIndex);
        mockIndex := mockIndex + 1;
        isProcessing := true;
        lastTranscript := transcript;
        pendingMockFinals := pendingMockFinals + [transcript];
      }
    }

    /**
     * The earliest 500 ms mock timer fires with a random confidence in [0.85, 0.95): its phrase
     * is committed only if recording is still on, otherwise nothing but the timer changes.
     */
    method MockFinalFires(confidence: real)
      requires Valid() && pendingMockFinals != []
      requires 0.85 <= confidence < 0.95
      modifies this`pendingMockFinals, this`rightText, this`committed, this`confidenceScore,
        this`lastTranscript, this`isProcessing
      ensures Valid()
      ensures pendingMockFinals == old(pendingMockFinals)[1..]
      ensures old(rightText) <= rightText
      ensures isRecordingRef ==> (var phrase := old(pendingMockFinals)[0];
        committed == old(committed) + [phrase] && rightText == SpaceAppend(old(rightText), phrase)
        && confidenceScore == Some(confidence) && lastTranscript == phrase && !isProcessing)
      ensures !isRecordingRef ==> (committed == old(committed) && rightText == old(rightText)
        && confidenceScore == old(confidenceScore) && lastTranscript == old(lastTranscript)
        && isProcessing == old(isProcessing))
    {
      var transcript := pendingMockFinals[0];
      pendingMockFinals := pendingMockFinals[1..];
      if isRecordingRef {
        assert transcript in MockTranscripts;
        CommitFragment(transcript);
        confidenceScore := Some(confidence);
        lastTranscript := transcript;
        isProcessing := false;
      }
    }

    // -------------------------------------------------------------------------
    // Upload fallback

    /** The microphone request is answered; a granted one starts a recorder, whatever `isRecording` is by then. */
    method MicrophoneOpened(granted: bool)
      requires pendingMicrophones > 0
      modifies this`pendingMicrophones, this`recorderActive
      ensures pendingMicrophones == old(pendingMicrophones) - 1
      ensures recorderActive == (granted || old(recorderActive))
    {
      pendingMicrophones := pendingMicrophones - 1;
      if granted {
        recorderActive := true;
      }
    }

    /** The recorder delivers a chunk of `size` bytes; a non-empty one is uploaded and processing starts. */
    method ChunkAvailable(size: nat)
      modifies this`isProcessing, this`uploadsInFlight
      ensures size > 0 ==> isProcessing && uploadsInFlight == old(uploadsInFlight) + 1
      ensures size == 0 ==> isProcessing == old(isProcessing) && uploadsInFlight == old(uploadsInFlight)
    {
      if size > 0 {
        isProcessing := true;
        uploadsInFlight := uploadsInFlight + 1;
      }
    }

    /**
     * An upload is answered: transcribed text with any content is trimmed and appended (whether
     * or not recording is still on) and processing ends, also when the upload failed.
     */
    method ChunkUploadFinished(reply: ChunkReply)
      requires Valid() && uploadsInFlight > 0
      modifies this`uploadsInFlight, this`rightText, this`committed, this`isProcessing
      ensures Valid()
      ensures uploadsInFlight == old(uploadsInFlight) - 1 && !isProcessing
      ensures old(rightText) <= rightText
      ensures reply.UploadFailed? ==> rightText == old(rightText) && committed == old(committed)
      ensures reply.Transcribed? ==> (rightText == ChunkAppend(old(rightText), reply.text)
        && committed == old(committed) + (if Trim(reply.text) == "" then [] else [Trim(reply.text)]))
    {
      uploadsInFlight := uploadsInFlight - 1;
      if reply.Transcribed? {
        CommitChunkText(reply.text);
      }
      isProcessing := false;
    }

    /** `setRightText` with the text of a chunk: its trimmed text is committed when it has any. */
    method CommitChunkText(text: string)
      requires Valid()
      modifies this`rightText, this`committed
      ensures Valid()
      ensures old(rightText) <= rightText
      ensures rightText == ChunkAppend(old(rightText), text)
      ensures committed == old(committed) + (if Trim(text) == "" then [] else [Trim(text)])
    {
      var fragment := Trim(text);
      if fragment != "" {
        CommitFragment(fragment);
      }
    }
  }
}
