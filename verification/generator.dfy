/**
 * Render pipeline orchestration (app/lib/video/generator.ts).
 *
 * The FFmpeg engine is an oracle: the `k`-th engine call (counting from 0)
 * made with call `c` gets the response `engine(k, c)`, either a normal
 * return (with data, for `readFile`) or a thrown value. Browser services the
 * pipeline uses are further inputs: the outcome of `initializeFFmpeg`, the
 * probed audio duration, number-to-text and blob-URL creation. A run yields
 * its trace of progress notifications and engine calls, and either the video
 * URL or the single error the source throws.
 */
module Generator {
  import opened Wrappers
  import opened Text
  import opened Types
  import opened Duration
  import opened Transitions

  /** A request to the engine; `WriteFile` names the staged file and the input it comes from. */
  datatype Call =
    | WriteFile(name: string, source: nat)
    | Exec(args: seq<string>)
    | ReadFile(name: string)
    | DeleteFile(name: string)

  datatype Response = Ok(data: seq<bv8>) | Threw(thrown: Thrown)

  datatype Event = Progress(percentage: nat, step: string) | Invoked(call: Call)

  /**
   * One step of the pipeline script: a progress notification, an engine call
   * whose failure aborts the run, or an engine call whose failure is swallowed.
   */
  datatype Step = Notify(percentage: nat, step: string) | Do(call: Call) | Try(call: Call)

  datatype VideoGenerationOptions = VideoGenerationOptions(
    primaryAudio: FileRef,
    backgroundMusic: Option<FileRef>,
    images: seq<ImageFile>,
    transitionType: TransitionType,
    backgroundMusicVolume: int,
    outputResolution: Resolution)

  /** Everything outside the pipeline's own logic that a run depends on. */
  datatype Environment = Environment(
    init: Result<(), AppError>,
    audioDuration: Option<real>,
    engine: (nat, Call) -> Response,
    show: real -> string,
    blobUrl: seq<bv8> -> string)

  datatype Outcome = Outcome(trace: seq<Event>, result: Result<string, AppError>)

  /* ---------- File names and argument lists ---------- */

  /** `name.split(".").pop() || "jpg"`: the text after the last dot (the whole name if there is none), or `jpg` if that is empty. */
  function Extension(name: string): (e: string)
    ensures e != "" && '.' !in e
  {
    var last := Last(Split(name, '.'));
    if last == "" then "jpg" else last
  }

  /** A name ending in `.ext`, `ext` being non-empty and dot-free, keeps `ext`; a name ending in a dot gets `jpg`. */
  lemma ExtensionOfDottedName(base: string, ext: string)
    requires '.' !in ext
    ensures Extension(base + "." + ext) == (if ext == "" then "jpg" else ext)
  {
    ExtensionLastPart(base, ext);
  }

  lemma {:induction false} SplitAtLeastTwo(x: string, y: string, sep: char)
    ensures |Split(x + [sep] + y, sep)| >= 2
    decreases |x|
  {
    var s := x + [sep] + y;
    if |x| == 0 {
      assert s[0] == sep;
    } else {
      assert s[1..] == x[1..] + [sep] + y;
      SplitAtLeastTwo(x[1..], y, sep);
    }
  }

  /** The last field lies after the last separator. */
  lemma {:induction false} SplitLast(x: string, y: string, sep: char)
    ensures Last(Split(x + [sep] + y, sep)) == Last(Split(y, sep))
    decreases |x|
  {
    var s := x + [sep] + y;
    if |x| == 0 {
      assert s[0] == sep;
      assert s[1..] == y;
    } else {
      assert s[1..] == x[1..] + [sep] + y;
      SplitLast(x[1..], y, sep);
      if s[0] != sep {
        SplitAtLeastTwo(x[1..], y, sep);
      }
    }
  }

  lemma ExtensionLastPart(base: string, ext: string)
    requires '.' !in ext
    ensures Last(Split(base + "." + ext, '.')) == ext
  {
    SplitNoSeparator(ext, '.');
    SplitLast(base, ext, '.');
  }

  /** A name without any dot is used whole as the extension. */
  lemma ExtensionOfUndottedName(name: string)
    requires '.' !in name && name != ""
    ensures Extension(name) == name
  {
    SplitNoSeparator(name, '.');
  }

  function ImageFileName(i: nat, img: ImageFile): string {
    "image_" + Decimal(i) + "." + Extension(img.name)
  }

  const PrimaryAudioName: string := "primary_audio.mp3"
  const BackgroundMusicName: string := "background_music.mp3"
  const VideoOnlyName: string := "video_only.mp4"
  const AudioMixedName: string := "audio_mixed.mp3"
  const OutputName: string := "output.mp4"

  /** The image uploads, each under its position-based name. */
  function ImageWrites(images: seq<ImageFile>): (ws: seq<Call>)
    ensures |ws| == |images|
    ensures forall i :: 0 <= i < |images| ==> ws[i] == WriteFile(ImageFileName(i, images[i]), images[i].file.id)
  {
    seq(|images|, i requires 0 <= i < |images| => WriteFile(ImageFileName(i, images[i]), images[i].file.id))
  }

  /** `writeFilesToFFmpeg`: the primary track, the background track if any, then every image in order. */
  function StagingCalls(primaryAudio: FileRef, backgroundMusic: Option<FileRef>, images: seq<ImageFile>): (cs: seq<Call>)
    ensures |cs| == 1 + (if backgroundMusic.Some? then 1 else 0) + |images|
    ensures cs[0] == WriteFile(PrimaryAudioName, primaryAudio.id)
    ensures backgroundMusic.Some? ==> cs[1] == WriteFile(BackgroundMusicName, backgroundMusic.value.id)
    ensures cs[|cs| - |images| ..] == ImageWrites(images)
    ensures forall i :: 0 <= i < |cs| ==> cs[i].WriteFile?
  {
    var head := [WriteFile(PrimaryAudioName, primaryAudio.id)]
      + (if backgroundMusic.Some? then [WriteFile(BackgroundMusicName, backgroundMusic.value.id)] else []);
    var writes := ImageWrites(images);
    assert (head + writes)[|head| ..] == writes;
    head + writes
  }

  /** `-loop 1 -t <d> -i image_<i>.<ext>` for image `i`. */
  function InputGroup(i: nat, img: ImageFile, imageDuration: real, show: real -> string): seq<string> {
    ["-loop", "1", "-t", show(imageDuration), "-i", ImageFileName(i, img)]
  }

  /** The input arguments of images `i ..` of the list. */
  function InputArgs(images: seq<ImageFile>, i: nat, imageDuration: real, show: real -> string): (args: seq<string>)
    requires i <= |images|
    ensures |args| == 6 * (|images| - i)
    decreases |images| - i
  {
    if i == |images| then []
    else InputGroup(i, images[i], imageDuration, show) + InputArgs(images, i + 1, imageDuration, show)
  }

  lemma {:induction false} InputArgsShape(images: seq<ImageFile>, i: nat, imageDuration: real, show: real -> string)
    requires i <= |images|
    ensures forall j :: i <= j < |images| ==>
      InputArgs(images, i, imageDuration, show)[6 * (j - i) .. 6 * (j - i) + 6]
        == InputGroup(j, images[j], imageDuration, show)
    decreases |images| - i
  {
    if i < |images| {
      InputArgsShape(images, i + 1, imageDuration, show);
      var g := InputGroup(i, images[i], imageDuration, show);
      var rest := InputArgs(images, i + 1, imageDuration, show);
      var all := InputArgs(images, i, imageDuration, show);
      assert all == g + rest;
      forall j | i <= j < |images|
        ensures all[6 * (j - i) .. 6 * (j - i) + 6] == InputGroup(j, images[j], imageDuration, show)
      {
        if j > i {
          SliceAfter(g, rest, 6 * (j - i), 6 * (j - i) + 6);
        } else {
          assert all[..6] == g;
        }
      }
    }
  }

  lemma SliceAfter<T>(a: seq<T>, b: seq<T>, lo: nat, hi: nat)
    requires |a| <= lo <= hi <= |a| + |b|
    ensures (a + b)[lo .. hi] == b[lo - |a| .. hi - |a|]
  {
  }

  function ScalePadFilter(r: Resolution): string {
    var w := Decimal(r.width);
    var h := Decimal(r.height);
    "scale=" + w + ":" + h + ":force_original_aspect_ratio=decrease,pad=" + w + ":" + h + ":(ow-iw)/2:(oh-ih)/2"
  }

  /**
   * `generateImageVideo`: one looped image for the whole track with the
   * scale-and-pad filter, or one input per image joined by the transition graph.
   */
  function RenderArgs(images: seq<ImageFile>, imageDuration: real, t: TransitionType, resolution: Resolution,
                      totalDuration: real, show: real -> string): (args: seq<string>)
    ensures |images| == 1 ==> args == ["-loop", "1", "-i", ImageFileName(0, images[0]), "-t", show(totalDuration),
                                       "-vf", ScalePadFilter(resolution), "-pix_fmt", "yuv420p", VideoOnlyName]
    ensures |images| > 1 ==>
      && |args| == 6 * |images| + 9
      && (forall j :: 0 <= j < |images| ==> args[6 * j .. 6 * j + 6] == InputGroup(j, images[j], imageDuration, show))
      && args[6 * |images| ..] == ["-filter_complex", BuildTransitionFilterComplex(|images|, imageDuration, t, show),
                                   "-map", "[vout]", "-pix_fmt", "yuv420p", "-t", show(totalDuration), VideoOnlyName]
  {
    if |images| == 1 then
      ["-loop", "1", "-i", ImageFileName(0, images[0]), "-t", show(totalDuration),
       "-vf", ScalePadFilter(resolution), "-pix_fmt", "yuv420p", VideoOnlyName]
    else
      InputArgsShape(images, 0, imageDuration, show);
      var inputs := InputArgs(images, 0, imageDuration, show);
      var tail := ["-filter_complex", BuildTransitionFilterComplex(|images|, imageDuration, t, show),
                   "-map", "[vout]", "-pix_fmt", "yuv420p", "-t", show(totalDuration), VideoOnlyName];
      GroupsThenTail(inputs, tail, |images|);
      inputs + tail
  }

  /** Appending to a sequence of `n` six-element groups leaves the groups in place. */
  lemma GroupsThenTail<T>(groups: seq<T>, tail: seq<T>, n: nat)
    requires |groups| == 6 * n
    ensures (groups + tail)[6 * n ..] == tail
    ensures forall j :: 0 <= j < n ==> (groups + tail)[6 * j .. 6 * j + 6] == groups[6 * j .. 6 * j + 6]
  {
    forall j | 0 <= j < n
      ensures (groups + tail)[6 * j .. 6 * j + 6] == groups[6 * j .. 6 * j + 6]
    {
      assert (groups + tail)[..|groups|] == groups;
    }
  }

  function AmixGraph(backgroundVolume: int, show: real -> string): string {
    "[1:a]volume=" + show(backgroundVolume as real / 100.0)
      + ",aloop=loop=-1:size=2e+09[bg];[0:a][bg]amix=inputs=2:duration=first:dropout_transition=2"
  }

  /**
   * `mixAudioTracks`: without background music the primary track is copied
   * unchanged; with it, the two are mixed at `volume / 100`, zero included.
   */
  function MixArgs(backgroundMusic: Option<FileRef>, backgroundVolume: int, show: real -> string): (args: seq<string>)
    ensures backgroundMusic.None? ==> args == ["-i", PrimaryAudioName, "-c", "copy", AudioMixedName]
    ensures backgroundMusic.Some? ==>
      args == ["-i", PrimaryAudioName, "-i", BackgroundMusicName, "-filter_complex",
               AmixGraph(backgroundVolume, show), AudioMixedName]
  {
    if backgroundMusic.None? then ["-i", PrimaryAudioName, "-c", "copy", AudioMixedName]
    else ["-i", PrimaryAudioName, "-i", BackgroundMusicName, "-filter_complex",
          AmixGraph(backgroundVolume, show), AudioMixedName]
  }

  /** A background track at volume 0 still goes through the mix, attenuated to 0. */
  lemma SilentBackgroundStillMixed(bg: FileRef, show: real -> string)
    ensures MixArgs(Some(bg), 0, show) != MixArgs(None, 0, show)
    ensures MixArgs(Some(bg), 0, show)[5] == AmixGraph(0, show)
    ensures AmixGraph(0, show) == "[1:a]volume=" + show(0.0)
      + ",aloop=loop=-1:size=2e+09[bg];[0:a][bg]amix=inputs=2:duration=first:dropout_transition=2"
  {
  }

  /** `combineVideoAndAudio`: copy the video stream, encode the audio as AAC. */
  function MuxArgs(): (args: seq<string>)
    ensures |args| == 11 && args[1] == VideoOnlyName && args[3] == AudioMixedName && args[|args| - 1] == OutputName
  {
    ["-i", VideoOnlyName, "-i", AudioMixedName, "-c:v", "copy", "-c:a", "aac", "-strict", "experimental", OutputName]
  }

  /** The slideshow render writes the video file the mux reads, whatever the number of images. */
  lemma RenderOutput(images: seq<ImageFile>, imageDuration: real, t: TransitionType, resolution: Resolution,
                     totalDuration: real, show: real -> string)
    requires |images| > 0
    ensures var render := RenderArgs(images, imageDuration, t, resolution, totalDuration, show);
      render[|render| - 1] == MuxArgs()[1]
  {
    var render := RenderArgs(images, imageDuration, t, resolution, totalDuration, show);
    if |images| > 1 {
      assert render[|render| - 1] == render[6 * |images| ..][8];
    }
  }

  /** The mix reads the staged tracks under the names they were written with, and writes the audio file the mux reads. */
  lemma MixConnects(primaryAudio: FileRef, backgroundMusic: Option<FileRef>, images: seq<ImageFile>,
                    volume: int, show: real -> string)
    ensures var staging := StagingCalls(primaryAudio, backgroundMusic, images);
      var mix := MixArgs(backgroundMusic, volume, show);
      && mix[1] == staging[0].name
      && (backgroundMusic.Some? ==> mix[3] == staging[1].name)
      && mix[|mix| - 1] == MuxArgs()[3]
  {
    var staging := StagingCalls(primaryAudio, backgroundMusic, images);
    assert staging[0].name == PrimaryAudioName;
    assert backgroundMusic.Some? ==> staging[1].name == BackgroundMusicName;
    MixNames(backgroundMusic, volume, show);
  }

  lemma MixNames(backgroundMusic: Option<FileRef>, volume: int, show: real -> string)
    ensures var mix := MixArgs(backgroundMusic, volume, show);
      && mix[1] == PrimaryAudioName
      && (backgroundMusic.Some? ==> mix[3] == BackgroundMusicName)
      && mix[|mix| - 1] == AudioMixedName
  {
    var mix := MixArgs(backgroundMusic, volume, show);
    if backgroundMusic.Some? {
      assert mix[1] == PrimaryAudioName && mix[3] == BackgroundMusicName && mix[6] == AudioMixedName;
    } else {
      assert mix[1] == PrimaryAudioName && mix[4] == AudioMixedName;
    }
  }

  /** The clean-up deletes exactly the two intermediate files the mux read. */
  lemma CleanupDeletesIntermediates()
    ensures CleanupSteps == [Try(DeleteFile(MuxArgs()[1])), Try(DeleteFile(MuxArgs()[3]))]
  {
  }

  /** `cleanupFFmpegFiles`: delete the two intermediate files, ignoring failures. */
  const CleanupSteps: seq<Step> := [Try(DeleteFile(VideoOnlyName)), Try(DeleteFile(AudioMixedName))]

  function DoAll(cs: seq<Call>): (steps: seq<Step>)
    ensures |steps| == |cs| && forall i :: 0 <= i < |cs| ==> steps[i] == Do(cs[i])
  {
    seq(|cs|, i requires 0 <= i < |cs| => Do(cs[i]))
  }

  /** The three engine runs and the read-back, each announced by its progress step. */
  function Stages(renderArgs: seq<string>, mixArgs: seq<string>): seq<Step>
  {
    [Notify(30, "Creating image slideshow..."),
     Do(Exec(renderArgs)),
     Notify(60, "Mixing audio..."),
     Do(Exec(mixArgs)),
     Notify(80, "Finalizing video..."),
     Do(Exec(MuxArgs())),
     Notify(95, "Preparing download..."),
     Do(ReadFile(OutputName))]
  }

  /** The script from "Loading files..." up to reading the output back. */
  function Work(staging: seq<Call>, renderArgs: seq<string>, mixArgs: seq<string>): seq<Step>
  {
    [Notify(15, "Loading files...")] + DoAll(staging) + Stages(renderArgs, mixArgs)
  }

  const Finish: seq<Step> := [Notify(100, "Complete!")] + CleanupSteps

  /** Everything `generateVideo` asks of the engine once the image duration is known. */
  function Script(opts: VideoGenerationOptions, totalDuration: real, imageDuration: real, show: real -> string): seq<Step>
  {
    Work(StagingCalls(opts.primaryAudio, opts.backgroundMusic, opts.images),
         RenderArgs(opts.images, imageDuration, opts.transitionType, opts.outputResolution, totalDuration, show),
         MixArgs(opts.backgroundMusic, opts.backgroundMusicVolume, show))
      + Finish
  }

  /* ---------- Running a script against the engine ---------- */

  predicate IsCall(s: Step) {
    s.Do? || s.Try?
  }

  /** Number of engine calls among the steps. */
  function CallCount(steps: seq<Step>): nat
  {
    if |steps| == 0 then 0 else (if IsCall(steps[0]) then 1 else 0) + CallCount(steps[1..])
  }

  function EventOf(s: Step): Event {
    match s
    case Notify(p, l) => Progress(p, l)
    case Do(c) => Invoked(c)
    case Try(c) => Invoked(c)
  }

  function EventsOf(steps: seq<Step>): seq<Event>
  {
    seq(|steps|, i requires 0 <= i < |steps| => EventOf(steps[i]))
  }

  lemma EventsOfCons(steps: seq<Step>, k: nat)
    requires 0 < k <= |steps|
    ensures EventsOf(steps[..k]) == [EventOf(steps[0])] + EventsOf(steps[1..][..k - 1])
  {
    assert steps[..k][1..] == steps[1..][..k - 1];
  }

  /** How far a script got: how many steps ran, and the last data read or what was thrown. */
  datatype Execution = Execution(stopped: nat, outcome: Result<seq<bv8>, Thrown>)

  /**
   * Runs the steps in order from engine call number `n`. A `Do` whose call
   * throws ends the run with that thrown value; a `Try` ignores the response.
   * The events of the run are those of the steps it ran, `EventsOf(steps[..stopped])`.
   */
  function Interpret(engine: (nat, Call) -> Response, steps: seq<Step>, n: nat, data: seq<bv8>): (x: Execution)
    ensures x.stopped <= |steps|
    ensures x.outcome.Success? ==> x.stopped == |steps|
    ensures x.outcome.Failure? ==>
      && x.stopped > 0
      && steps[x.stopped - 1].Do?
      && engine(n + CallCount(steps[..x.stopped - 1]), steps[x.stopped - 1].call) == Threw(x.outcome.error)
    decreases |steps|
  {
    if |steps| == 0 then Execution(0, Success(data))
    else
      var s := steps[0];
      if s.Do? && engine(n, s.call).Threw? then
        assert steps[..0] == [];
        Execution(1, Failure(engine(n, s.call).thrown))
      else
        var x := Interpret(engine, steps[1..], n + (if IsCall(s) then 1 else 0),
                           if s.Do? && s.call.ReadFile? then engine(n, s.call).data else data);
        CallCountCons(steps, x.stopped);
        Execution(x.stopped + 1, x.outcome)
  }

  lemma CallCountCons(steps: seq<Step>, j: nat)
    requires j < |steps|
    ensures 0 < j ==> CallCount(steps[..j + 1][..j]) == (if IsCall(steps[0]) then 1 else 0) + CallCount(steps[1..][..j - 1])
    ensures 0 < j ==> CallCount(steps[..j]) == (if IsCall(steps[0]) then 1 else 0) + CallCount(steps[1..][..j - 1])
  {
    if 0 < j {
      assert steps[..j][1..] == steps[1..][..j - 1];
      assert steps[..j + 1][..j] == steps[..j];
    }
  }

  /** A first step that does not abort hands the rest of the script the next call number and data. */
  lemma InterpretStep(engine: (nat, Call) -> Response, steps: seq<Step>, n: nat, data: seq<bv8>)
    requires |steps| > 0
    requires Interpret(engine, steps, n, data).stopped > 1 || Interpret(engine, steps, n, data).outcome.Success?
    ensures !(steps[0].Do? && engine(n, steps[0].call).Threw?)
    ensures var s := steps[0];
      var y := Interpret(engine, steps[1..], n + (if IsCall(s) then 1 else 0),
                         if s.Do? && s.call.ReadFile? then engine(n, s.call).data else data);
      Interpret(engine, steps, n, data) == Execution(y.stopped + 1, y.outcome)
  {
  }

  /** Every aborting call before the one the run stopped at returned normally. */
  lemma {:induction false} EarlierCallsReturned(engine: (nat, Call) -> Response, steps: seq<Step>, n: nat, data: seq<bv8>, j: nat)
    requires j < Interpret(engine, steps, n, data).stopped
    requires j < Interpret(engine, steps, n, data).stopped - 1 || Interpret(engine, steps, n, data).outcome.Success?
    requires steps[j].Do?
    ensures !engine(n + CallCount(steps[..j]), steps[j].call).Threw?
    decreases j
  {
    InterpretStep(engine, steps, n, data);
    if j == 0 {
      assert steps[..0] == [];
    } else {
      var s := steps[0];
      var n' := n + if IsCall(s) then 1 else 0;
      var data' := if s.Do? && s.call.ReadFile? then engine(n, s.call).data else data;
      var y := Interpret(engine, steps[1..], n', data');
      assert Interpret(engine, steps, n, data) == Execution(y.stopped + 1, y.outcome);
      assert j - 1 < y.stopped && (j - 1 < y.stopped - 1 || y.outcome.Success?);
      CallCountCons(steps, j);
      assert steps[1..][j - 1] == steps[j];
      EarlierCallsReturned(engine, steps[1..], n', data', j - 1);
      assert n + CallCount(steps[..j]) == n' + CallCount(steps[1..][..j - 1]);
    }
  }

  /* ---------- The pipeline ---------- */

  /** The single error `generateVideo` throws, whatever went wrong. */
  function ProcessingFailed(t: Thrown): (e: AppError)
    ensures e.code == FfmpegProcessingFailed && e.recoverable
    ensures e.message == "Video generation failed"
    ensures e.details == Some(DetailsOf(t, "Unknown error occurred"))
  {
    AppError(FfmpegProcessingFailed, "Video generation failed", Some(DetailsOf(t, "Unknown error occurred")), true)
  }

  const P5: Event := Progress(5, "Initializing video processor...")
  const P10: Event := Progress(10, "Analyzing audio...")

  /** The outcome of a run that got past the audio probe and the duration split. */
  function RunScript(engine: (nat, Call) -> Response, script: seq<Step>, blobUrl: seq<bv8> -> string): Outcome
  {
    var x := Interpret(engine, script, 0, []);
    Outcome([P5, P10] + EventsOf(script[..x.stopped]),
            if x.outcome.Success? then Success(blobUrl(x.outcome.value))
            else Failure(ProcessingFailed(x.outcome.error)))
  }

  /** `generateVideo`. */
  function GenerateVideo(opts: VideoGenerationOptions, env: Environment): (o: Outcome)
    ensures |o.trace| > 0 && o.trace[0] == P5
    ensures env.init.Failure? ==> o == Outcome([P5], Failure(ProcessingFailed(AppErrorObject(env.init.error))))
    ensures env.init.Success? ==> |o.trace| >= 2 && o.trace[1] == P10
    ensures o.result.Success? ==> env.init.Success? && env.audioDuration.Some? && |opts.images| > 0
    ensures o.result.Failure? ==> o.result.error.code == FfmpegProcessingFailed && o.result.error.recoverable
  {
    if env.init.Failure? then Outcome([P5], Failure(ProcessingFailed(AppErrorObject(env.init.error))))
    else if env.audioDuration.None? then
      Outcome([P5, P10], Failure(ProcessingFailed(ErrorObject("Failed to load audio file: " + opts.primaryAudio.name))))
    else
      var total := env.audioDuration.value;
      var d := CalculateImageDuration(total, |opts.images|);
      if d.Failure? then Outcome([P5, P10], Failure(ProcessingFailed(d.error)))
      else RunScript(env.engine, Script(opts, total, d.value, env.show), env.blobUrl)
  }

  /* ---------- What a run reports ---------- */

  /** The percentages reported, in order. */
  function Progresses(events: seq<Event>): seq<nat>
  {
    if |events| == 0 then []
    else (if events[0].Progress? then [events[0].percentage] else []) + Progresses(events[1..])
  }

  /** The engine calls made, in order. */
  function Calls(events: seq<Event>): seq<Call>
  {
    if |events| == 0 then []
    else (if events[0].Invoked? then [events[0].call] else []) + Calls(events[1..])
  }

  lemma {:induction false} ProgressesConcat(a: seq<Event>, b: seq<Event>)
    ensures Progresses(a + b) == Progresses(a) + Progresses(b)
    decreases |a|
  {
    if |a| > 0 {
      assert (a + b)[1..] == a[1..] + b;
      ProgressesConcat(a[1..], b);
    } else {
      assert a + b == b;
    }
  }

  lemma {:induction false} CallsConcat(a: seq<Event>, b: seq<Event>)
    ensures Calls(a + b) == Calls(a) + Calls(b)
    decreases |a|
  {
    if |a| > 0 {
      assert (a + b)[1..] == a[1..] + b;
      CallsConcat(a[1..], b);
    } else {
      assert a + b == b;
    }
  }

  /** One engine call is reported per call step. */
  lemma {:induction false} CallsCounted(steps: seq<Step>)
    ensures |Calls(EventsOf(steps))| == CallCount(steps)
    decreases |steps|
  {
    if |steps| > 0 {
      assert EventsOf(steps) == [EventOf(steps[0])] + EventsOf(steps[1..]);
      CallsConcat([EventOf(steps[0])], EventsOf(steps[1..]));
      CallsCounted(steps[1..]);
    }
  }

  /** A run of aborting calls reports exactly those calls and no progress. */
  lemma {:induction false} DoAllReports(cs: seq<Call>)
    ensures Progresses(EventsOf(DoAll(cs))) == []
    ensures Calls(EventsOf(DoAll(cs))) == cs
    decreases |cs|
  {
    if |cs| > 0 {
      var e := EventsOf(DoAll(cs));
      assert e == [Invoked(cs[0])] + EventsOf(DoAll(cs[1..]));
      ProgressesConcat([Invoked(cs[0])], EventsOf(DoAll(cs[1..])));
      CallsConcat([Invoked(cs[0])], EventsOf(DoAll(cs[1..])));
      DoAllReports(cs[1..]);
      assert [cs[0]] + cs[1..] == cs;
    } else {
      assert EventsOf(DoAll(cs)) == [];
    }
  }

  lemma EventsOfConcat(a: seq<Step>, b: seq<Step>)
    ensures EventsOf(a + b) == EventsOf(a) + EventsOf(b)
  {
  }

  /** The checkpoints a complete run reports after the audio probe. */
  const ScriptCheckpoints: seq<nat> := [15, 30, 60, 80, 95, 100]

  lemma Single(e: Event)
    ensures Progresses([e]) == (if e.Progress? then [e.percentage] else [])
    ensures Calls([e]) == (if e.Invoked? then [e.call] else [])
  {
    assert [e][1..] == [];
  }

  /** A progress step followed by a call reports the one percentage and the one call. */
  lemma Announced(p: nat, l: string, c: Call)
    ensures Progresses([Progress(p, l), Invoked(c)]) == [p]
    ensures Calls([Progress(p, l), Invoked(c)]) == [c]
  {
    Single(Progress(p, l));
    Single(Invoked(c));
    ProgressesConcat([Progress(p, l)], [Invoked(c)]);
    CallsConcat([Progress(p, l)], [Invoked(c)]);
    assert [Progress(p, l)] + [Invoked(c)] == [Progress(p, l), Invoked(c)];
  }

  lemma StagesReport(renderArgs: seq<string>, mixArgs: seq<string>)
    ensures Progresses(EventsOf(Stages(renderArgs, mixArgs))) == [30, 60, 80, 95]
    ensures Calls(EventsOf(Stages(renderArgs, mixArgs))) ==
      [Exec(renderArgs), Exec(mixArgs), Exec(MuxArgs()), ReadFile(OutputName)]
  {
    var e1 := [Progress(30, "Creating image slideshow..."), Invoked(Exec(renderArgs))];
    var e2 := [Progress(60, "Mixing audio..."), Invoked(Exec(mixArgs))];
    var e3 := [Progress(80, "Finalizing video..."), Invoked(Exec(MuxArgs()))];
    var e4 := [Progress(95, "Preparing download..."), Invoked(ReadFile(OutputName))];
    assert EventsOf(Stages(renderArgs, mixArgs)) == e1 + e2 + e3 + e4;
    Announced(30, "Creating image slideshow...", Exec(renderArgs));
    Announced(60, "Mixing audio...", Exec(mixArgs));
    Announced(80, "Finalizing video...", Exec(MuxArgs()));
    Announced(95, "Preparing download...", ReadFile(OutputName));
    ProgressesConcat(e1, e2);
    ProgressesConcat(e1 + e2, e3);
    ProgressesConcat(e1 + e2 + e3, e4);
    CallsConcat(e1, e2);
    CallsConcat(e1 + e2, e3);
    CallsConcat(e1 + e2 + e3, e4);
  }

  lemma FinishReports()
    ensures EventsOf(Finish) == [Progress(100, "Complete!"), Invoked(DeleteFile(VideoOnlyName)), Invoked(DeleteFile(AudioMixedName))]
    ensures Progresses(EventsOf(Finish)) == [100]
    ensures Calls(EventsOf(Finish)) == [DeleteFile(VideoOnlyName), DeleteFile(AudioMixedName)]
  {
    var e1 := [Progress(100, "Complete!"), Invoked(DeleteFile(VideoOnlyName))];
    var e2 := [Invoked(DeleteFile(AudioMixedName))];
    assert EventsOf(Finish) == e1 + e2;
    Announced(100, "Complete!", DeleteFile(VideoOnlyName));
    Single(Invoked(DeleteFile(AudioMixedName)));
    ProgressesConcat(e1, e2);
    CallsConcat(e1, e2);
  }

  lemma WorkProgresses(staging: seq<Call>, renderArgs: seq<string>, mixArgs: seq<string>)
    ensures Progresses(EventsOf(Work(staging, renderArgs, mixArgs))) == [15, 30, 60, 80, 95]
  {
    var head := [Notify(15, "Loading files...")];
    var stages := Stages(renderArgs, mixArgs);
    EventsOfConcat(head, DoAll(staging));
    EventsOfConcat(head + DoAll(staging), stages);
    assert EventsOf(head) == [Progress(15, "Loading files...")];
    Single(Progress(15, "Loading files..."));
    ProgressesConcat(EventsOf(head), EventsOf(DoAll(staging)));
    ProgressesConcat(EventsOf(head + DoAll(staging)), EventsOf(stages));
    DoAllReports(staging);
    StagesReport(renderArgs, mixArgs);
    assert [15] + [] + [30, 60, 80, 95] == [15, 30, 60, 80, 95];
  }

  lemma WorkCalls(staging: seq<Call>, renderArgs: seq<string>, mixArgs: seq<string>)
    ensures Calls(EventsOf(Work(staging, renderArgs, mixArgs))) ==
      staging + [Exec(renderArgs), Exec(mixArgs), Exec(MuxArgs()), ReadFile(OutputName)]
  {
    var head := [Notify(15, "Loading files...")];
    var stages := Stages(renderArgs, mixArgs);
    EventsOfConcat(head, DoAll(staging));
    EventsOfConcat(head + DoAll(staging), stages);
    assert EventsOf(head) == [Progress(15, "Loading files...")];
    Single(Progress(15, "Loading files..."));
    CallsConcat(EventsOf(head), EventsOf(DoAll(staging)));
    CallsConcat(EventsOf(head + DoAll(staging)), EventsOf(stages));
    DoAllReports(staging);
    StagesReport(renderArgs, mixArgs);
    assert [] + staging == staging;
  }

  lemma WorkReports(staging: seq<Call>, renderArgs: seq<string>, mixArgs: seq<string>)
    ensures Progresses(EventsOf(Work(staging, renderArgs, mixArgs))) == [15, 30, 60, 80, 95]
    ensures Calls(EventsOf(Work(staging, renderArgs, mixArgs))) ==
      staging + [Exec(renderArgs), Exec(mixArgs), Exec(MuxArgs()), ReadFile(OutputName)]
  {
    WorkProgresses(staging, renderArgs, mixArgs);
    WorkCalls(staging, renderArgs, mixArgs);
  }

  /** The full script, run to the end, reports every checkpoint and makes every call in order. */
  lemma ScriptReports(staging: seq<Call>, renderArgs: seq<string>, mixArgs: seq<string>)
    ensures Progresses(EventsOf(Work(staging, renderArgs, mixArgs) + Finish)) == ScriptCheckpoints
    ensures Calls(EventsOf(Work(staging, renderArgs, mixArgs) + Finish)) ==
      staging + [Exec(renderArgs), Exec(mixArgs), Exec(MuxArgs()), ReadFile(OutputName),
                 DeleteFile(VideoOnlyName), DeleteFile(AudioMixedName)]
  {
    var work := Work(staging, renderArgs, mixArgs);
    EventsOfConcat(work, Finish);
    ProgressesConcat(EventsOf(work), EventsOf(Finish));
    CallsConcat(EventsOf(work), EventsOf(Finish));
    WorkReports(staging, renderArgs, mixArgs);
    FinishReports();
  }

  /* ---------- Properties of whole runs ---------- */

  lemma PreambleReports()
    ensures Progresses([P5]) == [5] && Calls([P5]) == []
    ensures Progresses([P5, P10]) == [5, 10] && Calls([P5, P10]) == []
  {
    Single(P5);
    Single(P10);
    ProgressesConcat([P5], [P10]);
    CallsConcat([P5], [P10]);
    assert [P5] + [P10] == [P5, P10];
  }

  lemma PrefixExtend<T>(x: seq<T>, a: seq<T>, b: seq<T>)
    requires a <= b
    ensures x + a <= x + b
  {
    assert (x + b)[..|x + a|] == x + a;
  }

  lemma ProgressesPrefix(a: seq<Event>, b: seq<Event>)
    requires a <= b
    ensures Progresses(a) <= Progresses(b)
    ensures Calls(a) <= Calls(b)
  {
    assert b == a + b[|a|..];
    ProgressesConcat(a, b[|a|..]);
    CallsConcat(a, b[|a|..]);
  }

  /** The events of the first `k + 1` steps, when step `k` is an engine call, end with that call. */
  lemma LastCallOf(script: seq<Step>, k: nat)
    requires k < |script| && IsCall(script[k])
    ensures EventsOf(script[..k + 1]) == EventsOf(script[..k]) + [Invoked(script[k].call)]
    ensures Calls(EventsOf(script[..k + 1])) == Calls(EventsOf(script[..k])) + [script[k].call]
    ensures |Calls(EventsOf(script[..k]))| == CallCount(script[..k])
  {
    assert script[..k + 1] == script[..k] + [script[k]];
    EventsOfConcat(script[..k], [script[k]]);
    assert EventsOf([script[k]]) == [Invoked(script[k].call)];
    Single(Invoked(script[k].call));
    CallsConcat(EventsOf(script[..k]), [Invoked(script[k].call)]);
    CallsCounted(script[..k]);
  }

  /** A completed script reports every checkpoint and every call. */
  lemma SucceededScript(engine: (nat, Call) -> Response, staging: seq<Call>, renderArgs: seq<string>, mixArgs: seq<string>,
                        blobUrl: seq<bv8> -> string)
    requires RunScript(engine, Work(staging, renderArgs, mixArgs) + Finish, blobUrl).result.Success?
    ensures var trace := RunScript(engine, Work(staging, renderArgs, mixArgs) + Finish, blobUrl).trace;
      && Progresses(trace) == [5, 10, 15, 30, 60, 80, 95, 100]
      && Calls(trace) == staging + [Exec(renderArgs), Exec(mixArgs), Exec(MuxArgs()), ReadFile(OutputName),
                                    DeleteFile(VideoOnlyName), DeleteFile(AudioMixedName)]
  {
    var script := Work(staging, renderArgs, mixArgs) + Finish;
    var x := Interpret(engine, script, 0, []);
    assert script[..x.stopped] == script;
    ScriptReports(staging, renderArgs, mixArgs);
    PreambleReports();
    ProgressesConcat([P5, P10], EventsOf(script));
    CallsConcat([P5, P10], EventsOf(script));
  }

  /**
   * A run that produces a video reports 5, 10, 15, 30, 60, 80, 95 and 100 in
   * that order, and asks the engine for exactly: the staged writes, the
   * slideshow render, the audio mix, the mux, the read-back and the two
   * clean-up deletions.
   */
  lemma SuccessfulRun(opts: VideoGenerationOptions, env: Environment)
    requires GenerateVideo(opts, env).result.Success?
    ensures env.init.Success? && env.audioDuration.Some? && |opts.images| > 0
    ensures Progresses(GenerateVideo(opts, env).trace) == [5, 10, 15, 30, 60, 80, 95, 100]
    ensures var total := env.audioDuration.value;
      var d := total / (|opts.images| as real);
      Calls(GenerateVideo(opts, env).trace) ==
        StagingCalls(opts.primaryAudio, opts.backgroundMusic, opts.images)
          + [Exec(RenderArgs(opts.images, d, opts.transitionType, opts.outputResolution, total, env.show)),
             Exec(MixArgs(opts.backgroundMusic, opts.backgroundMusicVolume, env.show)),
             Exec(MuxArgs()),
             ReadFile(OutputName),
             DeleteFile(VideoOnlyName),
             DeleteFile(AudioMixedName)]
    ensures var t := GenerateVideo(opts, env).trace;
      && |t| >= 3
      && t[|t| - 3..] == [Progress(100, "Complete!"), Invoked(DeleteFile(VideoOnlyName)), Invoked(DeleteFile(AudioMixedName))]
  {
    var total := env.audioDuration.value;
    var d := total / (|opts.images| as real);
    var staging := StagingCalls(opts.primaryAudio, opts.backgroundMusic, opts.images);
    var renderArgs := RenderArgs(opts.images, d, opts.transitionType, opts.outputResolution, total, env.show);
    var mixArgs := MixArgs(opts.backgroundMusic, opts.backgroundMusicVolume, env.show);
    SucceededScript(env.engine, staging, renderArgs, mixArgs, env.blobUrl);
    var script := Work(staging, renderArgs, mixArgs) + Finish;
    var x := Interpret(env.engine, script, 0, []);
    assert script[..x.stopped] == script;
    var work := Work(staging, renderArgs, mixArgs);
    EventsOfConcat(work, Finish);
    FinishReports();
    var t := [P5, P10] + EventsOf(work) + EventsOf(Finish);
    assert GenerateVideo(opts, env).trace == t;
    assert t[|t| - 3..] == EventsOf(Finish);
  }

  /** The steps after the read-back never abort, so a failing run stopped inside `Work`. */
  lemma FailureInsideWork(engine: (nat, Call) -> Response, staging: seq<Call>, renderArgs: seq<string>, mixArgs: seq<string>)
    requires Interpret(engine, Work(staging, renderArgs, mixArgs) + Finish, 0, []).outcome.Failure?
    ensures var x := Interpret(engine, Work(staging, renderArgs, mixArgs) + Finish, 0, []);
      && x.stopped <= |Work(staging, renderArgs, mixArgs)|
      && EventsOf((Work(staging, renderArgs, mixArgs) + Finish)[..x.stopped]) <= EventsOf(Work(staging, renderArgs, mixArgs))
  {
    var work := Work(staging, renderArgs, mixArgs);
    var script := work + Finish;
    var x := Interpret(engine, script, 0, []);
    if x.stopped > |work| {
      assert false;
    }
    assert script[..x.stopped] == work[..x.stopped];
  }

  /** A prefix of the successful run's calls before clean-up holds no deletion. */
  lemma NoDeleteBeforeCleanup(calls: seq<Call>, staging: seq<Call>, renderArgs: seq<string>, mixArgs: seq<string>)
    requires forall c :: c in staging ==> c.WriteFile?
    requires calls <= staging + [Exec(renderArgs), Exec(mixArgs), Exec(MuxArgs()), ReadFile(OutputName)]
    ensures forall c :: c in calls ==> !c.DeleteFile?
  {
    var full := staging + [Exec(renderArgs), Exec(mixArgs), Exec(MuxArgs()), ReadFile(OutputName)];
    forall c | c in calls ensures !c.DeleteFile? {
      var i :| 0 <= i < |calls| && calls[i] == c;
      assert c == full[i];
      if i < |staging| {
        assert c in staging;
      }
    }
  }

  lemma FailedScriptProgresses(engine: (nat, Call) -> Response, staging: seq<Call>, renderArgs: seq<string>, mixArgs: seq<string>,
                               blobUrl: seq<bv8> -> string)
    requires RunScript(engine, Work(staging, renderArgs, mixArgs) + Finish, blobUrl).result.Failure?
    ensures Progresses(RunScript(engine, Work(staging, renderArgs, mixArgs) + Finish, blobUrl).trace) <= [5, 10, 15, 30, 60, 80, 95]
  {
    var work := Work(staging, renderArgs, mixArgs);
    var x := Interpret(engine, work + Finish, 0, []);
    var events := EventsOf((work + Finish)[..x.stopped]);
    FailureInsideWork(engine, staging, renderArgs, mixArgs);
    ProgressesPrefix(events, EventsOf(work));
    WorkProgresses(staging, renderArgs, mixArgs);
    assert RunScript(engine, work + Finish, blobUrl).trace == [P5, P10] + events;
    PreambleThenCheckpoints(events);
  }

  lemma PreambleThenCheckpoints(events: seq<Event>)
    requires Progresses(events) <= [15, 30, 60, 80, 95]
    ensures Progresses([P5, P10] + events) <= [5, 10, 15, 30, 60, 80, 95]
  {
    PreambleReports();
    ProgressesConcat([P5, P10], events);
    CheckpointsAfterPreamble(Progresses(events));
  }

  lemma CheckpointsAfterPreamble(ps: seq<nat>)
    requires ps <= [15, 30, 60, 80, 95]
    ensures [5, 10] + ps <= [5, 10, 15, 30, 60, 80, 95]
  {
    PrefixExtend([5, 10], ps, [15, 30, 60, 80, 95]);
    assert [5, 10] + [15, 30, 60, 80, 95] == [5, 10, 15, 30, 60, 80, 95];
  }

  lemma FailedScriptCalls(engine: (nat, Call) -> Response, staging: seq<Call>, renderArgs: seq<string>, mixArgs: seq<string>,
                          blobUrl: seq<bv8> -> string)
    requires forall c :: c in staging ==> c.WriteFile?
    requires RunScript(engine, Work(staging, renderArgs, mixArgs) + Finish, blobUrl).result.Failure?
    ensures forall c :: c in Calls(RunScript(engine, Work(staging, renderArgs, mixArgs) + Finish, blobUrl).trace) ==> !c.DeleteFile?
  {
    var work := Work(staging, renderArgs, mixArgs);
    var x := Interpret(engine, work + Finish, 0, []);
    var events := EventsOf((work + Finish)[..x.stopped]);
    FailureInsideWork(engine, staging, renderArgs, mixArgs);
    ProgressesPrefix(events, EventsOf(work));
    WorkCalls(staging, renderArgs, mixArgs);
    PreambleReports();
    CallsConcat([P5, P10], events);
    NoDeleteBeforeCleanup(Calls(events), staging, renderArgs, mixArgs);
  }

  /** A failing script reported a prefix of the checkpoints before 100 and no deletion. */
  lemma FailedScriptReports(engine: (nat, Call) -> Response, staging: seq<Call>, renderArgs: seq<string>, mixArgs: seq<string>,
                            blobUrl: seq<bv8> -> string)
    requires forall c :: c in staging ==> c.WriteFile?
    requires RunScript(engine, Work(staging, renderArgs, mixArgs) + Finish, blobUrl).result.Failure?
    ensures var trace := RunScript(engine, Work(staging, renderArgs, mixArgs) + Finish, blobUrl).trace;
      && Progresses(trace) <= [5, 10, 15, 30, 60, 80, 95]
      && (forall c :: c in Calls(trace) ==> !c.DeleteFile?)
  {
    FailedScriptProgresses(engine, staging, renderArgs, mixArgs, blobUrl);
    FailedScriptCalls(engine, staging, renderArgs, mixArgs, blobUrl);
  }

  /** A failing script ends with the call that threw. */
  lemma FailedScriptLastCall(engine: (nat, Call) -> Response, script: seq<Step>, blobUrl: seq<bv8> -> string)
    requires RunScript(engine, script, blobUrl).result.Failure?
    ensures var trace := RunScript(engine, script, blobUrl).trace;
      && |Calls(trace)| > 0
      && trace[|trace| - 1] == Invoked(Last(Calls(trace)))
      && engine(|Calls(trace)| - 1, Last(Calls(trace))).Threw?
  {
    var x := Interpret(engine, script, 0, []);
    var k := x.stopped - 1;
    LastCallOf(script, k);
    assert k + 1 == x.stopped;
    var events := EventsOf(script[..k + 1]);
    PreambleReports();
    CallsConcat([P5, P10], events);
  }

  /** Whatever went wrong, a failing run throws one recoverable FFMPEG_PROCESSING_FAILED error. */
  lemma FailedRunError(opts: VideoGenerationOptions, env: Environment)
    requires GenerateVideo(opts, env).result.Failure?
    ensures var e := GenerateVideo(opts, env).result.error;
      e.code == FfmpegProcessingFailed && e.message == "Video generation failed" && e.recoverable
  {
  }

  /**
   * A failing run has reported a non-empty prefix of the checkpoints that
   * stops short of 100, never cleaned up, and made no engine call after the
   * one that threw.
   */
  lemma FailedRun(opts: VideoGenerationOptions, env: Environment)
    requires GenerateVideo(opts, env).result.Failure?
    ensures 0 < |Progresses(GenerateVideo(opts, env).trace)|
    ensures Progresses(GenerateVideo(opts, env).trace) <= [5, 10, 15, 30, 60, 80, 95]
    ensures forall c :: c in Calls(GenerateVideo(opts, env).trace) ==> !c.DeleteFile?
    ensures var o := GenerateVideo(opts, env);
      var cs := Calls(o.trace);
      |cs| > 0 ==> o.trace[|o.trace| - 1] == Invoked(Last(cs)) && env.engine(|cs| - 1, Last(cs)).Threw?
  {
    if env.init.Success? && env.audioDuration.Some? && |opts.images| > 0 {
      var total := env.audioDuration.value;
      var d := total / (|opts.images| as real);
      var staging := StagingCalls(opts.primaryAudio, opts.backgroundMusic, opts.images);
      var renderArgs := RenderArgs(opts.images, d, opts.transitionType, opts.outputResolution, total, env.show);
      var mixArgs := MixArgs(opts.backgroundMusic, opts.backgroundMusicVolume, env.show);
      assert GenerateVideo(opts, env) == RunScript(env.engine, Work(staging, renderArgs, mixArgs) + Finish, env.blobUrl);
      FailedScriptReports(env.engine, staging, renderArgs, mixArgs, env.blobUrl);
      FailedScriptLastCall(env.engine, Work(staging, renderArgs, mixArgs) + Finish, env.blobUrl);
    } else {
      FailedBeforeScript(opts, env);
    }
  }

  /** A run that fails before its script reports 5, or 5 and 10, and makes no engine call. */
  lemma FailedBeforeScript(opts: VideoGenerationOptions, env: Environment)
    requires !(env.init.Success? && env.audioDuration.Some? && |opts.images| > 0)
    ensures GenerateVideo(opts, env).trace == [P5] || GenerateVideo(opts, env).trace == [P5, P10]
    ensures Progresses(GenerateVideo(opts, env).trace) <= [5, 10]
    ensures Calls(GenerateVideo(opts, env).trace) == []
  {
    PreambleReports();
  }

  /** A failed engine start is reported without its own details, which are not an `Error` object. */
  lemma InitFailureLosesDetails(opts: VideoGenerationOptions, env: Environment)
    requires env.init.Failure?
    ensures GenerateVideo(opts, env) ==
      Outcome([P5], Failure(AppError(FfmpegProcessingFailed, "Video generation failed", Some("Unknown error occurred"), true)))
  {
  }

  /** An audio track whose length cannot be read fails the run before any file is staged. */
  lemma AudioProbeFailure(opts: VideoGenerationOptions, env: Environment)
    requires env.init.Success? && env.audioDuration.None?
    ensures GenerateVideo(opts, env).trace == [P5, P10]
    ensures GenerateVideo(opts, env).result.Failure?
    ensures GenerateVideo(opts, env).result.error.details == Some("Failed to load audio file: " + opts.primaryAudio.name)
  {
  }

  /** With no images the run fails on the duration split, before any file is staged. */
  lemma NoImagesFailsBeforeStaging(opts: VideoGenerationOptions, env: Environment)
    requires env.init.Success? && env.audioDuration.Some? && |opts.images| == 0
    ensures Calls(GenerateVideo(opts, env).trace) == []
    ensures GenerateVideo(opts, env).result.Failure?
    ensures GenerateVideo(opts, env).result.error.details == Some(ImageCountMessage)
  {
    PreambleReports();
  }

  /** Cleaning up never fails the run, whatever the engine does. */
  lemma CleanupNeverThrows(engine: (nat, Call) -> Response, n: nat, data: seq<bv8>)
    ensures Interpret(engine, CleanupSteps, n, data) == Execution(2, Success(data))
    ensures EventsOf(CleanupSteps) == [Invoked(DeleteFile(VideoOnlyName)), Invoked(DeleteFile(AudioMixedName))]
  {
    var last := [Try(DeleteFile(AudioMixedName))];
    assert CleanupSteps[1..] == last;
    assert last[1..] == [];
    assert Interpret(engine, [], n + 2, data) == Execution(0, Success(data));
    assert Interpret(engine, last, n + 1, data) == Execution(1, Success(data));
  }

  /** Different positions give different image file names. */
  lemma ImageFileNameInjective(i: nat, a: ImageFile, j: nat, b: ImageFile)
    requires ImageFileName(i, a) == ImageFileName(j, b)
    ensures i == j
  {
    var s := ImageFileName(i, a);
    var di := Decimal(i);
    var dj := Decimal(j);
    assert s == "image_" + di + "." + Extension(a.name);
    assert s == "image_" + dj + "." + Extension(b.name);
    assert !IsDigit(s[6 + |di|]) && !IsDigit(s[6 + |dj|]);
    assert forall k :: 0 <= k < |dj| ==> s[6 + k] == dj[k];
    assert forall k :: 0 <= k < |di| ==> s[6 + k] == di[k];
    assert |di| == |dj|;
    assert di == s[6..6 + |di|] == dj;
    DecimalInjective(i, j);
  }

  lemma ImageNameInitial(i: nat, img: ImageFile)
    ensures ImageFileName(i, img)[0] == 'i'
  {
  }

  lemma ImageNamesDistinct(images: seq<ImageFile>, i: nat, j: nat)
    requires i < j < |images|
    ensures ImageFileName(i, images[i]) != ImageFileName(j, images[j])
  {
    if ImageFileName(i, images[i]) == ImageFileName(j, images[j]) {
      ImageFileNameInjective(i, images[i], j, images[j]);
    }
  }

  /** The primary and background tracks come first and are not named like images. */
  lemma StagingHead(primaryAudio: FileRef, backgroundMusic: Option<FileRef>, images: seq<ImageFile>, i: nat)
    requires i < |StagingCalls(primaryAudio, backgroundMusic, images)| - |images|
    ensures var cs := StagingCalls(primaryAudio, backgroundMusic, images);
      cs[i].name == (if i == 0 then PrimaryAudioName else BackgroundMusicName)
    ensures StagingCalls(primaryAudio, backgroundMusic, images)[i].name[0] == (if i == 0 then 'p' else 'b')
  {
  }

  lemma StagingTail(primaryAudio: FileRef, backgroundMusic: Option<FileRef>, images: seq<ImageFile>, j: nat)
    requires |StagingCalls(primaryAudio, backgroundMusic, images)| - |images| <= j < |StagingCalls(primaryAudio, backgroundMusic, images)|
    ensures var cs := StagingCalls(primaryAudio, backgroundMusic, images);
      var m := j - (|cs| - |images|);
      cs[j].name == ImageFileName(m, images[m])
  {
    var cs := StagingCalls(primaryAudio, backgroundMusic, images);
    var k := |cs| - |images|;
    assert cs[j] == cs[k..][j - k];
  }

  lemma HeadPair(primaryAudio: FileRef, backgroundMusic: Option<FileRef>, images: seq<ImageFile>, i: nat, j: nat)
    requires i < j < |StagingCalls(primaryAudio, backgroundMusic, images)| - |images|
    ensures StagingCalls(primaryAudio, backgroundMusic, images)[i].name != StagingCalls(primaryAudio, backgroundMusic, images)[j].name
  {
    StagingHead(primaryAudio, backgroundMusic, images, i);
    StagingHead(primaryAudio, backgroundMusic, images, j);
  }

  lemma HeadImagePair(primaryAudio: FileRef, backgroundMusic: Option<FileRef>, images: seq<ImageFile>, i: nat, j: nat)
    requires i < |StagingCalls(primaryAudio, backgroundMusic, images)| - |images| <= j
    requires j < |StagingCalls(primaryAudio, backgroundMusic, images)|
    ensures StagingCalls(primaryAudio, backgroundMusic, images)[i].name != StagingCalls(primaryAudio, backgroundMusic, images)[j].name
  {
    var k := |StagingCalls(primaryAudio, backgroundMusic, images)| - |images|;
    StagingHead(primaryAudio, backgroundMusic, images, i);
    StagingTail(primaryAudio, backgroundMusic, images, j);
    ImageNameInitial(j - k, images[j - k]);
  }

  lemma TailNamesDistinct(cs: seq<Call>, images: seq<ImageFile>, k: nat, i: nat, j: nat)
    requires k <= i < j < |cs| && cs[k..] == ImageWrites(images)
    ensures cs[i].WriteFile? && cs[j].WriteFile? && cs[i].name != cs[j].name
  {
    var ws := ImageWrites(images);
    var a, b := i - k, j - k;
    assert cs[i] == ws[a] by { assert cs[k..][a] == cs[i]; }
    assert cs[j] == ws[b] by { assert cs[k..][b] == cs[j]; }
    ImageNamesDistinct(images, a, b);
    assert ws[a].name != ws[b].name;
  }

  lemma ImagePair(primaryAudio: FileRef, backgroundMusic: Option<FileRef>, images: seq<ImageFile>, i: nat, j: nat)
    requires |StagingCalls(primaryAudio, backgroundMusic, images)| - |images| <= i < j
    requires j < |StagingCalls(primaryAudio, backgroundMusic, images)|
    ensures StagingCalls(primaryAudio, backgroundMusic, images)[i].name != StagingCalls(primaryAudio, backgroundMusic, images)[j].name
  {
    var cs := StagingCalls(primaryAudio, backgroundMusic, images);
    TailNamesDistinct(cs, images, |cs| - |images|, i, j);
  }

  lemma StagedPair(primaryAudio: FileRef, backgroundMusic: Option<FileRef>, images: seq<ImageFile>, i: nat, j: nat)
    requires i < j < |StagingCalls(primaryAudio, backgroundMusic, images)|
    ensures StagingCalls(primaryAudio, backgroundMusic, images)[i].name != StagingCalls(primaryAudio, backgroundMusic, images)[j].name
  {
    var k := |StagingCalls(primaryAudio, backgroundMusic, images)| - |images|;
    if j < k {
      HeadPair(primaryAudio, backgroundMusic, images, i, j);
    } else if i < k {
      HeadImagePair(primaryAudio, backgroundMusic, images, i, j);
    } else {
      ImagePair(primaryAudio, backgroundMusic, images, i, j);
    }
  }

  /** No staged file overwrites another: all staged names differ. */
  lemma StagedNamesDistinct(primaryAudio: FileRef, backgroundMusic: Option<FileRef>, images: seq<ImageFile>)
    ensures var cs := StagingCalls(primaryAudio, backgroundMusic, images);
      forall i, j :: 0 <= i < j < |cs| ==> cs[i].name != cs[j].name
  {
    var cs := StagingCalls(primaryAudio, backgroundMusic, images);
    forall i, j | 0 <= i < j < |cs| ensures cs[i].name != cs[j].name {
      StagedPair(primaryAudio, backgroundMusic, images, i, j);
    }
  }

  /** Every image is staged under its position-based name. */
  lemma ImagesStaged(primaryAudio: FileRef, backgroundMusic: Option<FileRef>, images: seq<ImageFile>)
    ensures forall j :: 0 <= j < |images| ==>
      WriteFile(ImageFileName(j, images[j]), images[j].file.id) in StagingCalls(primaryAudio, backgroundMusic, images)
  {
    var cs := StagingCalls(primaryAudio, backgroundMusic, images);
    var k := |cs| - |images|;
    var ws := ImageWrites(images);
    assert cs[k..] == ws;
    forall j | 0 <= j < |images|
      ensures WriteFile(ImageFileName(j, images[j]), images[j].file.id) in cs
    {
      assert ws[j] == cs[k..][j];
    }
  }

  /** The slideshow render reads every image under its position-based name. */
  lemma RenderReadsImages(images: seq<ImageFile>, imageDuration: real, t: TransitionType, resolution: Resolution,
                          totalDuration: real, show: real -> string)
    requires |images| > 0
    ensures forall j :: 0 <= j < |images| ==>
      ImageFileName(j, images[j]) in RenderArgs(images, imageDuration, t, resolution, totalDuration, show)
  {
    var args := RenderArgs(images, imageDuration, t, resolution, totalDuration, show);
    forall j | 0 <= j < |images|
      ensures ImageFileName(j, images[j]) in args
    {
      if |images| == 1 {
        assert args[3] == ImageFileName(0, images[0]);
      } else {
        assert args[6 * j .. 6 * j + 6] == InputGroup(j, images[j], imageDuration, show);
        assert args[6 * j + 5] == InputGroup(j, images[j], imageDuration, show)[5];
      }
    }
  }
}
