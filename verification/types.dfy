/**
 * The application's shared vocabulary: transition kinds, processing states,
 * uploaded files and images, settings, progress, errors and the format
 * whitelists (app/types/index.ts).
 */
module Types {
  import opened Wrappers

  datatype TransitionType = Fade | FadeToBlack | WipeLeft | WipeUp

  datatype ProcessingState = Idle | Processing | Completed | Error

  datatype ProcessingSubstate = LoadingFfmpeg | AnalyzingFiles | MixingAudio | RenderingVideo | Finalizing

  /**
   * A browser `File`, reduced to what the core reads: its name, MIME type and
   * size in bytes. `id` stands for the file's identity and contents, which the
   * core only passes along.
   */
  datatype FileRef = FileRef(name: string, mimeType: string, size: nat, id: nat)

  /** An uploaded image with its decoded pixel size and its position in the slideshow. */
  datatype ImageFile = ImageFile(file: FileRef, name: string, url: string, width: nat, height: nat, order: int)

  datatype Resolution = Resolution(width: nat, height: nat)

  datatype VideoSettings = VideoSettings(
    transitionType: TransitionType,
    backgroundMusicVolume: int,
    outputResolution: Option<Resolution>)

  datatype ProgressInfo = ProgressInfo(
    percentage: nat,
    currentStep: string,
    substate: ProcessingSubstate,
    estimatedTimeRemaining: Option<real>)

  datatype ErrorCode =
    | InvalidFileType
    | FileTooLarge
    | OutOfMemory
    | FfmpegInitFailed
    | FfmpegProcessingFailed
    | AudioLoadFailed
    | ImageLoadFailed
    | InsufficientFiles
    | BrowserNotSupported

  datatype AppError = AppError(code: ErrorCode, message: string, details: Option<string>, recoverable: bool)

  /** What a `catch` clause receives: an `Error` with its message, or a thrown `AppError` record. */
  datatype Thrown = ErrorObject(message: string) | AppErrorObject(error: AppError)

  /** `error instanceof Error ? error.message : fallback`. */
  function DetailsOf(t: Thrown, fallback: string): string {
    match t
    case ErrorObject(m) => m
    case AppErrorObject(_) => fallback
  }

  const SupportedAudioFormats: seq<string> := [
    "audio/mpeg", "audio/mp3", "audio/wav", "audio/wave", "audio/x-wav",
    "audio/aac", "audio/x-aac", "audio/m4a", "audio/x-m4a"
  ]

  const SupportedImageFormats: seq<string> := ["image/jpeg", "image/jpg", "image/png", "image/webp"]

  datatype ValidationResult = ValidationResult(valid: bool, error: Option<AppError>)
}
