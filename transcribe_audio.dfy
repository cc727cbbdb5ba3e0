/**
 * `TranscribeAudioUseCase.execute` (src/application/transcription/TranscribeAudioUseCase.ts):
 * refuse a missing file with a `ValidationError`, otherwise hand the file to the injected
 * transcription service unchanged.
 */
module TranscribeAudio {
  import opened Wrappers
  import opened Errors
  import opened Http

  /** An uploaded audio file; its content is opaque to the use case. */
  datatype AudioFile = AudioFile(name: string, bytes: seq<bv8>)

  /** `TranscribeAudioInput`: the file may be `null`. */
  datatype TranscribeAudioInput = TranscribeAudioInput(file: Option<AudioFile>)

  /** `TranscriptionResult` as the service returns it. */
  datatype TranscriptionResult = TranscriptionResult(text: string)

  /** The injected `TranscriptionService`: it either returns a transcription or throws. */
  type TranscriptionService = AudioFile -> Result<TranscriptionResult, Thrown>

  /** The message of the error raised for a missing file. */
  const MissingFile: string := "Missing file"

  /** `execute(input)`: a 400 `ValidationError` without a file, otherwise exactly what the service gives. */
  function Execute(input: TranscribeAudioInput, service: TranscriptionService): (r: Result<TranscriptionResult, Thrown>)
    ensures input.file.None? ==> r.Failure? && r.error.App?
    ensures input.file.None? ==> r.error.error.statusCode == 400 && r.error.error.message == MissingFile
    ensures input.file.None? ==> Name(r.error.error) == "ValidationError"
    ensures input.file.Some? ==> r == service(input.file.value)
  {
    match input.file
    case None => Failure(App(NewValidationError(Some(MissingFile), None)))
    case Some(f) => service(f)
  }

  /**
   * Without a file the service is not consulted: the outcome does not depend on it, and the
   * HTTP boundary answers 400 "Missing file".
   */
  lemma MissingFileIgnoresService(s1: TranscriptionService, s2: TranscriptionService)
    ensures Execute(TranscribeAudioInput(None), s1) == Execute(TranscribeAudioInput(None), s2)
    ensures HandleHttpError(Execute(TranscribeAudioInput(None), s1).error) == Success(Response(400, MissingFile))
  {
  }

  /** With a stub service answering {text: "hi"}, the use case answers {text: "hi"}. */
  lemma StubServiceExample(f: AudioFile, service: TranscriptionService)
    requires service(f) == Success(TranscriptionResult("hi"))
    ensures Execute(TranscribeAudioInput(Some(f)), service) == Success(TranscriptionResult("hi"))
  {
  }
}
