# Audio-to-slideshow video generator: a Dafny model of its core

The application turns one audio track, an optional background track and a list of images into an MP4 slideshow. Each image is shown for an equal share of the audio's length, with `xfade` transitions between consecutive images. The work is done in the browser by FFmpeg.wasm.

This project models the logic that decides what FFmpeg is asked to do, and how the application's state changes. It proves what that logic promises.

| module (file) | models |
|---|---|
| `Duration` (duration.dfy) | the timing planner: per-image duration, contiguous slots, clock formatting |
| `Transitions` (transitions.dfy) | the transition filter synthesiser: a typed filter graph plus its `;`-joined text |
| `ImageLoader` (image_loader.dfy) | picking the output canvas, and the digit-run-aware image order |
| `Validation` (validation.dfy) | MIME whitelists, size limits, and the accepted/rejected split of a batch |
| `Store` (store.dfy) | the application store's actions as pure reducers on `AppState` |
| `Generator` (generator.dfy) | the render pipeline as a script of engine calls, run against an abstract engine |
| `EngineInit` (engine_init.dfy) | the FFmpeg initialisation state machine |
| `PerformanceLogger` (performance_logger.dfy) | the step and sub-step timer bookkeeping |
| `Types`, `Text`, `Wrappers` | shared records, decimal digits, `split`/`join`, and `Option`/`Result` |

How the model stands in for things it cannot run:

- **The engine.** It is an oracle `engine(k, call)`: the `k`-th engine call either returns (with data, for a read) or throws. The pipeline itself is a fixed script of steps (`Notify`, `Do`, `Try`). Running that script yields the trace of progress notifications and engine calls. It also yields either the video URL or the one error `generateVideo` throws.
- **Browser services** are inputs of the run: the result of initialisation, the probed audio length, number-to-text, and blob-URL creation.
- **Number-to-text for JavaScript numbers** is a caller-supplied `show: real -> string`. Integer indices and sizes use a concrete decimal rendering, `Text.Decimal`.
- **The clock** of the performance logger is a `now: real` parameter, in milliseconds.
- **`localeCompare`** is a parameter `(string, string) -> int`.

Four behaviours of the code that a reader might not expect, all modelled as written:

- The `xfade` offset `imageDuration - 1` is not clamped at zero, so it is negative for slots shorter than one second (`Transitions.OffsetNotClamped`).
- A failed run does not delete the intermediate files. Clean-up runs only after a successful read-back (`Generator.FailedRun`).
- A cached initialisation failure reaches the caller of `generateVideo` as `FFMPEG_PROCESSING_FAILED`. It comes with the details "Unknown error occurred", because the thrown `AppError` is not an `Error` (`Generator.InitFailureLosesDetails`).
- A caller of `initializeFFmpeg` that waits on another caller's load stops polling once the load is over. If the instance was terminated in the meantime, there is neither a loaded object nor an error, and that caller's promise never settles (`EngineInit.WaiterAbandonedAfterTerminate`).

## Model

| member | source | states |
|---|---|---|
| Duration.CalculateImageDuration | app/lib/audio/duration.ts:35-40 | fails with "Image count must be greater than 0" exactly when the count is not positive; otherwise the per-image duration times the count gives back the total |
| Duration.CalculateImageTimings | app/lib/audio/duration.ts:48-67 | inherits the non-positive-count failure; otherwise exactly one slot per image, slot `i` has index `i` and spans `[i*d, (i+1)*d]`, and the slots tile `[0, total]` with no gap |
| Duration.UniformSlotsContiguous | app/lib/audio/duration.ts:55-64 | equal slots laid end to end from zero start at 0, meet each other, end at the total, and each has end minus start equal to its duration |
| Duration.SlotsCoverTotal | app/lib/audio/duration.ts:55-64 | the durations of a successful plan add up to the whole audio length |
| Duration.ClockFields | app/lib/audio/duration.ts:75-77 | minutes and seconds are below 60, and hours*3600 + minutes*60 + seconds is the input |
| Duration.Pad2 | app/lib/audio/duration.ts:79-82 | a padded field is exactly two digits and reads back as the number |
| Duration.FormatDuration | app/lib/audio/duration.ts:74-83 | three `:`-separated fields from one hour on, two below; the padded fields have two digits; every field is a non-empty digit string; read as numbers, the fields are the hours, minutes and seconds of the input (minutes and seconds only below one hour) |
| Duration.FormatDurationRoundTrip | app/lib/audio/duration.ts:74-83 | reading the clock text back gives the number of seconds, so formatting loses nothing |
| Transitions.EffectFilter | app/lib/ffmpeg/transitions.ts:18-54 | each of the four filter builders keeps its effect, uses a given duration or offset (zero included), and defaults to 1.0 and 0 when one is absent |
| Transitions.Config | app/lib/ffmpeg/transitions.ts:59-84 | the table entry for a kind is filed under that kind and has a non-empty display name and description |
| Transitions.ConfigsWellFormed | app/lib/ffmpeg/transitions.ts:59-84 | every configuration is filed under its own kind; fade, fadeToBlack, wipeLeft and wipeUp map to fade, fadeblack, wiperight and wipedown, and distinct kinds map to distinct effects |
| Transitions.GetTransitionFilter | app/lib/ffmpeg/transitions.ts:93-100 | the configured effect, with 1.0 for a missing or zero duration and 0 for a missing or zero offset, and the given value otherwise |
| Transitions.Plan | app/lib/ffmpeg/transitions.ts:109-142 | one image gives the single plain scale segment; N > 1 images give N scale segments (segment `i` reads input `i`, is shifted by `i*d` and writes `v{i}`) followed by N-1 transitions; transition `j` reads `v0` or `vt{j-1}` on the left and `v{j+1}` on the right, writes `vt{j}` or, for the last, `vout`, and each transition reads the previous one's output |
| Transitions.MultiImagePlanShape | app/lib/ffmpeg/transitions.ts:119-141 | for N > 1 images, the scale segments followed by the transition chain have the layout that `Plan` promises |
| Transitions.ChainShape | app/lib/ffmpeg/transitions.ts:128-139 | the loop over transitions threads the current label: each transition's output is the next one's left input, and every transition uses duration 1.0 and the same offset |
| Transitions.OffsetNotClamped | app/lib/ffmpeg/transitions.ts:133-134 | with slots shorter than the one-second transition, every transition starts at a negative offset |
| Transitions.BuildTransitionFilterComplex | app/lib/ffmpeg/transitions.ts:114-117 | one image gives exactly `[0:v]scale=iw:ih[v0]` |
| Transitions.FilterComplexSegments | app/lib/ffmpeg/transitions.ts:119-141 | if number text never contains `;`, splitting the graph text at `;` gives back exactly the rendered segments, 2N-1 of them |
| Transitions.RenderSeparatorFree | app/lib/ffmpeg/transitions.ts:122-139 | no rendered segment contains the `;` separator |
| ImageLoader.FindHighestResolution | app/lib/utils/image-loader.ts:59-77 | no canvas exactly for an empty list; otherwise the width is the largest width, the height is the largest height among images of that width, and the size is that of an input image |
| ImageLoader.ScanIsLargest | app/lib/utils/image-loader.ts:64-76 | the `forEach` scan ends on the size of an input image that no image exceeds in (width, height) order |
| ImageLoader.FindHighestResolutionOrderIndependent | app/lib/utils/image-loader.ts:64-76 | any reordering of the input gives the same canvas |
| ImageLoader.FindHighestResolutionExample | app/lib/utils/image-loader.ts:67-73 | sizes (100,200), (150,150), (150,180) give the canvas (150,180) |
| ImageLoader.DigitRunsEmptyIff | app/lib/utils/image-loader.ts:87-88 | a name has digit runs exactly when it contains a digit, as the `/\d+/g` match is null exactly without a digit |
| ImageLoader.DigitRunsOfNumberedName | app/lib/utils/image-loader.ts:87-88 | a number between digit-free text is read as that number's value, its only run |
| ImageLoader.CompareCases | app/lib/utils/image-loader.ts:87-107 | the first run value that differs decides, smaller first; a name with digits precedes one without; otherwise the locale order of the names decides |
| ImageLoader.NumberedNamesCompareByValue | app/lib/utils/image-loader.ts:90-97 | names that differ only in their number sort by the number's value, so `img2` precedes `img10` |
| ImageLoader.CompareAntisymmetric | app/lib/utils/image-loader.ts:84-109 | if the locale order is antisymmetric, so is the comparator |
| ImageLoader.SortImagesIntelligently | app/lib/utils/image-loader.ts:84-85 | the result is a permutation of the input, which is taken by value and so left unchanged |
| ImageLoader.InsertKeepsSorted | app/lib/utils/image-loader.ts:84-109 | inserting into a list whose neighbours are in comparator order keeps it that way |
| ImageLoader.SortIsLocallySorted | app/lib/utils/image-loader.ts:84-109 | every adjacent pair of the sorted list is in comparator order |
| Validation.ValidateAudioFile | app/lib/utils/validation.ts:21-45 | valid exactly for a whitelisted type of at most 500 MiB; the type is checked first (`INVALID_FILE_TYPE`), then the size (`FILE_TOO_LARGE`), with the source's messages; a valid result carries no error |
| Validation.ValidateImageFile | app/lib/utils/validation.ts:50-74 | the same type-then-size order with the image whitelist and a 20 MiB limit |
| Validation.ValidationErrorsRecoverable | app/lib/utils/validation.ts:24-44 | every error either validator produces is recoverable, and a type outside the whitelist is reported as a type error whatever the size |
| Validation.SizeLimitsInclusive | app/lib/utils/validation.ts:15-16 | exactly 500 MiB of audio and exactly 20 MiB of image pass; one byte more fails |
| Validation.PartitionCounts | app/lib/utils/validation.ts:87-94 | the accepted files and the rejected files together are the input, with nothing lost or duplicated |
| Validation.ValidateImageFiles | app/lib/utils/validation.ts:79-101 | every file lands in `validFiles` or in `errors`, both in input order; the valid files are exactly the accepted ones; each error is its file's validation error; the batch is valid exactly when no error was recorded |
| Store.SetPrimaryAudio | app/store/index.ts:82-89 | sets the primary track and changes nothing else |
| Store.SetBackgroundMusic | app/store/index.ts:91-98 | sets the background track and changes nothing else |
| Store.AddImages | app/store/index.ts:100-110 | appends the new images after the existing ones, which stay where they were; the lengths add |
| Store.RemoveImage | app/store/index.ts:112-122 | an in-range index drops exactly that image and shifts the later ones down without renumbering their `order`; any other index leaves the state as it was |
| Store.RemoveUndoesAdd | app/store/index.ts:100-122 | removing the image just appended gives back the original state |
| Store.Move | app/store/index.ts:127-129 | the splice-out-and-insert is a permutation that puts the moved element at its target and shifts the elements between by one |
| Store.MoveBack | app/store/index.ts:127-129 | moving an element and moving it back restores the list |
| Store.ReorderImages | app/store/index.ts:124-138 | the images are the moved list with every `order` renumbered to its position, using `splice`'s clamping of the indices; nothing else changes |
| Store.ReorderRoundTrip | app/store/index.ts:124-138 | on a numbered list, reordering from `a` to `b` and back from `b` to `a` gives back the original state |
| Store.ClearImages | app/store/index.ts:140-147 | empties the image list and keeps both audio tracks and everything else |
| Store.SetTransitionType | app/store/index.ts:150-157 | sets only the transition kind |
| Store.SetBackgroundMusicVolume | app/store/index.ts:159-166 | sets only the background volume |
| Store.SetOutputResolution | app/store/index.ts:168-178 | sets only the output resolution |
| Store.SetProcessingState | app/store/index.ts:181-188 | sets only the processing state, keeping progress and error |
| Store.SetProgress | app/store/index.ts:190-197 | sets only the progress, keeping state and error |
| Store.SetError | app/store/index.ts:199-206 | sets only the error, keeping state and progress |
| Store.SetGeneratedVideoUrl | app/store/index.ts:209-210 | sets only the generated video URL |
| Store.Reset | app/store/index.ts:54-71 | the initial state: no files, transition fade, volume 25, no resolution, idle with no progress or error, no video URL |
| Store.RevokedOnReset | app/store/index.ts:213-220 | reset releases every image preview URL in order, then the video URL, last, if it is a non-empty string |
| Store.ResetForgets | app/store/index.ts:213-225 | reset gives the initial state whatever the state before, and resetting twice is resetting once |
| Store.CanGenerateCharacterised | app/store/index.ts:227-234 | generation needs a primary track, at least one image and no run in progress; reset, clearing the images or starting a run rule it out; the setters for settings, progress, error and video URL leave it unchanged |
| Generator.Extension | app/lib/video/generator.ts:121 | the extension used in a staged name is never empty and contains no dot |
| Generator.ExtensionOfDottedName | app/lib/video/generator.ts:121 | the extension is the text after the last dot, or `jpg` when that text is empty |
| Generator.ExtensionOfUndottedName | app/lib/video/generator.ts:121 | a name without a dot is its own extension |
| Generator.StagingCalls | app/lib/video/generator.ts:105-124 | `primary_audio.mp3` is written first, then `background_music.mp3` exactly when there is a background track, then every image in order; every staging call is a write |
| Generator.ImageWrites | app/lib/video/generator.ts:120-123 | image `i` is written as `image_{i}.{ext}` from its own file |
| Generator.StagedNamesDistinct | app/lib/video/generator.ts:112-123 | no two staged files share a name, so no write overwrites another |
| Generator.ImagesStaged | app/lib/video/generator.ts:120-123 | every image is staged under its position-based name |
| Generator.ImageFileNameInjective | app/lib/video/generator.ts:122 | two image names are equal only at the same position |
| Generator.RenderArgs | app/lib/video/generator.ts:129-182 | one image gives the single looped input over the whole track with the scale-and-pad filter; N > 1 images give N six-argument input groups `-loop 1 -t d -i image_{i}.{ext}` followed by the transition graph, `-map [vout]`, the pixel format, the length and `video_only.mp4` |
| Generator.InputArgsShape | app/lib/video/generator.ts:158-161 | input group `j` of the argument list is image `j`'s `-loop 1 -t d -i` group |
| Generator.RenderReadsImages | app/lib/video/generator.ts:139-180 | the render reads every staged image under the name it was written with |
| Generator.RenderOutput | app/lib/video/generator.ts:139-180 | the render writes the video file the mux reads, whatever the number of images |
| Generator.MixArgs | app/lib/video/generator.ts:187-209 | without a background track the primary track is copied; with one, the two are mixed at `volume/100` |
| Generator.SilentBackgroundStillMixed | app/lib/video/generator.ts:193-207 | a background track at volume 0 still goes through the mix, attenuated to 0, rather than being dropped |
| Generator.MixConnects | app/lib/video/generator.ts:187-209 | the mix reads the tracks under the names they were staged with, and writes the audio file the mux reads |
| Generator.MuxArgs | app/lib/video/generator.ts:214-228 | the mux reads `video_only.mp4` and `audio_mixed.mp3` and writes `output.mp4` |
| Generator.CleanupDeletesIntermediates | app/lib/video/generator.ts:233-246 | clean-up deletes exactly the two intermediate files the mux read |
| Generator.CleanupNeverThrows | app/lib/video/generator.ts:233-246 | clean-up tries both deletions whatever the engine answers, and never aborts the run |
| Generator.Interpret | app/lib/video/generator.ts:47-99 | a run stops only at a `Do` step whose call threw, and that call is the one it stopped at; a run that does not throw goes to the end |
| Generator.EarlierCallsReturned | app/lib/video/generator.ts:47-90 | every aborting call before the one the run stopped at returned normally |
| Generator.ProcessingFailed | app/lib/video/generator.ts:91-98 | the one error thrown is `FFMPEG_PROCESSING_FAILED`, "Video generation failed", recoverable, with the thrown error's message or "Unknown error occurred" as details |
| Generator.ScriptReports | app/lib/video/generator.ts:58-88 | a script run to its end reports 15, 30, 60, 80, 95, 100, and makes the staging writes, the three execs, the read-back and the two deletions in that order |
| Generator.SucceededScript | app/lib/video/generator.ts:58-90 | a successful script reports every checkpoint from 5 to 100 in order and makes every call in order |
| Generator.GenerateVideo | app/lib/video/generator.ts:36-99 | every run first reports 5; a failed initialisation ends there with the re-wrapped error; otherwise 10 follows; success needs a ready engine, an audio length and at least one image; every failure is the recoverable `FFMPEG_PROCESSING_FAILED` |
| Generator.SuccessfulRun | app/lib/video/generator.ts:36-90 | a successful run had a ready engine, an audio length and at least one image; it reports 5, 10, 15, 30, 60, 80, 95, 100 in order, and makes exactly the staging writes, the render, mix and mux execs, the read-back and the two deletions; the trace ends with 100 followed by the two deletions |
| Generator.FailureInsideWork | app/lib/video/generator.ts:58-88 | a failing script stopped before the clean-up steps |
| Generator.FailedScriptReports | app/lib/video/generator.ts:58-98 | a failing script reported a prefix of 5 … 95, never 100, and made no deletion |
| Generator.FailedScriptLastCall | app/lib/video/generator.ts:47-98 | a failing script ends with the call that threw, and no later call was made |
| Generator.FailedRun | app/lib/video/generator.ts:36-99 | a failed run reported a non-empty prefix of 5 … 95, deleted nothing, and its last event, if it made a call, is the call that threw |
| Generator.FailedBeforeScript | app/lib/video/generator.ts:47-55 | a run that fails at initialisation, the audio probe or the duration split reports 5, or 5 and 10, and makes no engine call |
| Generator.FailedRunError | app/lib/video/generator.ts:91-98 | whatever went wrong, the error is `FFMPEG_PROCESSING_FAILED`, "Video generation failed", recoverable |
| Generator.InitFailureLosesDetails | app/lib/video/generator.ts:47-98 | a failed initialisation reports only 5, makes no call, and loses its details to "Unknown error occurred" |
| Generator.AudioProbeFailure | app/lib/video/generator.ts:52-98 | a failed audio probe reports 5 and 10, makes no call, and carries the probe's message |
| Generator.NoImagesFailsBeforeStaging | app/lib/video/generator.ts:55-59 | with no images the run fails at the duration split, before any write |
| EngineInit.GetFFmpegInstance | app/lib/ffmpeg/init.ts:18-23 | returns the stored object, or creates and stores one unloaded object |
| EngineInit.GetFFmpegInstanceOnce | app/lib/ffmpeg/init.ts:18-23 | a second call returns the same object and changes nothing, and at most one object is created |
| EngineInit.InitializeFFmpeg | app/lib/ffmpeg/init.ts:30-62 | a loaded instance is returned without loading; otherwise a cached failure is rethrown; otherwise a load in flight makes the caller wait; otherwise this call starts the load and marks it in flight |
| EngineInit.FinishLoad | app/lib/ffmpeg/init.ts:80-92 | a load that ends clears the in-flight flag; success returns the loaded object, and failure caches and returns `FFMPEG_INIT_FAILED`, not recoverable |
| EngineInit.PollTick | app/lib/ffmpeg/init.ts:44-58 | a poll keeps waiting exactly while a load is in flight; after that it resolves with the loaded object exactly when one is stored, rejects with the cached error exactly when there is one and nothing is loaded, and otherwise stops without ever settling |
| EngineInit.WaiterAbandonedAfterTerminate | app/lib/ffmpeg/init.ts:44-58 | a caller that waits on a load which is then terminated and succeeds is abandoned: its promise never settles |
| EngineInit.IsFFmpegLoadedMeansReady | app/lib/ffmpeg/init.ts:99-101 | `isFFmpegLoaded` holds exactly when `initializeFFmpeg` returns at once; a successful load of the stored object makes it hold, and terminating never makes it hold |
| EngineInit.TerminateFFmpeg | app/lib/ffmpeg/init.ts:106-115 | with an instance, forgets it and the cached error even if terminating throws; without one, changes nothing |
| EngineInit.SuccessfulLoad | app/lib/ffmpeg/init.ts:30-82 | a fresh load makes concurrent callers wait, and then hands them and every later caller the same loaded object without loading again |
| EngineInit.FailedLoad | app/lib/ffmpeg/init.ts:30-91 | a failed load clears the in-flight flag, returns and caches the init error, and later calls rethrow it |
| EngineInit.FailureIsSticky | app/lib/ffmpeg/init.ts:39-41 | after a failure, any number of later calls throw the same cached error and never load |
| EngineInit.TerminateAllowsRetry | app/lib/ffmpeg/init.ts:30-115 | after terminate, the next initialisation creates a new object and loads again |
| EngineInit.ConsistentPreserved | app/lib/ffmpeg/init.ts:18-115 | every operation keeps "a cached failure means no load in flight" |
| PerformanceLogger.NewLogger | app/lib/utils/performance-logger.ts:22-24 | a new logger has no entries and no active timers |
| PerformanceLogger.Start | app/lib/utils/performance-logger.ts:29-33 | sets the start time and empties both the entries and the active timers |
| PerformanceLogger.StartStep | app/lib/utils/performance-logger.ts:39-44 | sets or overwrites the step's timer with no children and keeps every other timer |
| PerformanceLogger.SubStepKey | app/lib/utils/performance-logger.ts:51-101 | the sub-step key is the parent name, a colon, then the sub-step name |
| PerformanceLogger.StartSubStep | app/lib/utils/performance-logger.ts:51-57 | starts a timer under the sub-step key, leaving the parent's timer and the entries alone |
| PerformanceLogger.StopStep | app/lib/utils/performance-logger.ts:65-87 | an unknown step returns 0 and changes nothing; an active one returns its elapsed seconds, appends one entry with its name and duration, children present exactly when it collected some, and removes its timer |
| PerformanceLogger.StopSubStep | app/lib/utils/performance-logger.ts:96-124 | an unknown key returns 0 and changes nothing; otherwise the sub-timer is removed and, only if the parent is active, a child entry is appended to the parent |
| PerformanceLogger.TotalDuration | app/lib/utils/performance-logger.ts:130-154 | the seconds since `start` |
| PerformanceLogger.ValidPreserved | app/lib/utils/performance-logger.ts:22-124 | every operation keeps the entries two levels deep, with children present only when non-empty |
| PerformanceLogger.GetTimingsRecordsStops | app/lib/utils/performance-logger.ts:144-146 | the reported timings are empty after `start`, unchanged by starting a step or stopping an unknown one, and gain exactly one entry at the end, under the step's name, when a running step stops |
| PerformanceLogger.StopStepTwice | app/lib/utils/performance-logger.ts:66-70 | stopping a step a second time returns 0 and changes nothing |
| PerformanceLogger.OrphanSubStepDropped | app/lib/utils/performance-logger.ts:109-117 | a sub-step whose parent is not active is dropped: its timer goes and nothing is recorded |
| PerformanceLogger.StepWithSubStep | app/lib/utils/performance-logger.ts:29-146 | start, a step, a sub-step inside it and both stops record exactly one entry with one child and their durations, leaving no timer active |
| PerformanceLogger.StepWithoutSubSteps | app/lib/utils/performance-logger.ts:39-87 | a step with no sub-steps records one entry without children |
| Text.DecimalRoundTrip | app/lib/audio/duration.ts:79-82 | the decimal text of a number reads back as that number |
| Text.SplitJoin | app/lib/video/generator.ts:121 | splitting at a separator that none of the parts contains gives back the parts that were joined |

## Left out

- The React components and pages (UI rendering, DOM events, confirmation dialogs) are not modelled. They are thin glue over the store actions.
- `getAudioDuration`, `loadImageWithMetadata` and `loadImagesWithMetadata` decode media in the browser. The probed audio length is an input of `Generator.GenerateVideo`, and image sizes are fields of `ImageFile`.
- `checkBrowserSupport` is runtime feature probing and is not modelled.
- The 100 ms polling wait in `initializeFFmpeg` is concurrency on a timer. `EngineInit.InitializeFFmpeg` returns `Waiting`, and `EngineInit.PollTick` says what one tick of the poll does; the timer loop itself is not modelled.
- The load of the FFmpeg core, `fetchFile`, `toBlobURL`, `Blob`, `URL.createObjectURL` and `URL.revokeObjectURL` are foreign calls:
  - the load's outcome is a parameter of `EngineInit.FinishLoad`;
  - `fetchFile` is folded into the write, which names the input it reads;
  - URL creation is the `blobUrl` parameter;
  - `Store.RevokedOnReset` lists the URLs that `reset` releases.
- The return value of `exec` is ignored by the code, so an engine call fails only by throwing.
- JavaScript numbers are `real` and `nat`. Number-to-text (`toString`, `toFixed`, template literals) is the uninterpreted `show` or `mb` parameter, and the precision loss of `parseInt` on long digit runs is not modelled.
- `localeCompare` is a parameter. Sortedness is proved only when it is antisymmetric.
- Console logging in the logger, in clean-up and in initialisation is not modelled. The logger's `prefix` is stored but never printed. `performance.now()` is the `now` parameter.
- `onProgress` is optional in the source. The model always records the progress notifications; a missing callback simply ignores them.
- ImageLoader.SortImagesIntelligently: modelled as a stable insertion sort, whereas the JavaScript engine uses its own sort (TimSort in V8). The two agree whenever the comparator is a consistent total order. The comparator is not always transitive: "b1", "a1_5" and "c1_3" form a cycle, because equal leading runs with different run counts fall back to the locale order. On such inputs the order the browser produces is not modelled.
- Store.ReorderImages: requires a non-empty list and a start index below its length. For a start index at or past the end, the source's `splice` removes nothing and inserts `undefined`, which is not an `ImageFile`. Negative indices are modelled with `splice`'s clamping.
- Duration.FormatDuration: takes a natural number of seconds. `Math.floor` on fractional or negative input is not modelled.
- PerformanceLogger.GetTimings returns the list of entries. The source returns the live array, so a caller could mutate the logger through it; aliasing is not modelled.
- PerformanceLogger.SubStepKey: a step whose own name contains a colon can collide with a sub-step key, as in the source. No lemma rules this out, and none is claimed.
- `app/lib/utils/cn.ts` and the build configuration are not part of this model.
