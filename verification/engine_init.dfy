/**
 * Engine initialisation (app/lib/ffmpeg/init.ts): the module-wide FFmpeg
 * handle, the in-flight flag and the cached load failure, as a state
 * machine. The asynchronous `initializeFFmpeg` is split at its suspension
 * point: `InitializeFFmpeg` runs up to the start of the load, and
 * `FinishLoad` runs its continuation once the load has succeeded or failed.
 */
module EngineInit {
  import opened Wrappers
  import opened Types

  /** An FFmpeg object: its identity and whether its core has been loaded. */
  datatype Instance = Instance(id: nat, loaded: bool)

  /**
   * The three module variables `ffmpegInstance`, `isLoading` and `loadError`,
   * plus `created`, the number of FFmpeg objects constructed so far.
   */
  datatype InitState = InitState(instance: Option<Instance>, isLoading: bool, loadError: Option<AppError>, created: nat)

  const InitialInitState: InitState := InitState(None, false, None, 0)

  /** `getFFmpegInstance`: the existing object, or a new one stored for later calls. */
  function GetFFmpegInstance(s: InitState): (r: (InitState, Instance))
    ensures r.0.instance == Some(r.1)
    ensures r.0.isLoading == s.isLoading && r.0.loadError == s.loadError
    ensures s.instance.Some? ==> r.0 == s
    ensures s.instance.None? ==> r.0.created == s.created + 1 && !r.1.loaded
  {
    if s.instance.Some? then (s, s.instance.value)
    else
      var made := Instance(s.created, false);
      (s.(instance := Some(made), created := s.created + 1), made)
  }

  /** However often it is called, at most one object is created and every call returns it. */
  lemma GetFFmpegInstanceOnce(s: InitState)
    ensures var (s1, a) := GetFFmpegInstance(s);
      var (s2, b) := GetFFmpegInstance(s1);
      s2 == s1 && a == b && s1.created <= s.created + 1
  {
  }

  /** How a call of `initializeFFmpeg` proceeds up to its first suspension. */
  datatype InitStep =
    | Ready(instance: Instance)        // already loaded: returned at once
    | Rejected(error: AppError)        // the cached failure is thrown
    | Waiting                          // another load is in flight: the caller polls
    | LoadStarted(instance: Instance)  // this call loads the core

  /** `initializeFFmpeg`, up to the point where it awaits the load. */
  function InitializeFFmpeg(s: InitState): (r: (InitState, InitStep))
    ensures s.instance.Some? && s.instance.value.loaded ==> r == (s, Ready(s.instance.value))
    ensures !(s.instance.Some? && s.instance.value.loaded) && s.loadError.Some? ==> r == (s, Rejected(s.loadError.value))
    ensures r.1.Waiting? <==> !(s.instance.Some? && s.instance.value.loaded) && s.loadError.None? && s.isLoading
    ensures r.1.Waiting? ==> r.0 == s
    ensures r.1.LoadStarted? ==> r.0.isLoading && !s.isLoading && r.0.instance == Some(r.1.instance)
    ensures !r.1.LoadStarted? ==> r.0 == s
  {
    if s.instance.Some? && s.instance.value.loaded then (s, Ready(s.instance.value))
    else if s.loadError.Some? then (s, Rejected(s.loadError.value))
    else if s.isLoading then (s, Waiting)
    else
      var (s1, ffmpeg) := GetFFmpegInstance(s.(isLoading := true));
      (s1, LoadStarted(ffmpeg))
  }

  /** How `ffmpeg.load` ended: resolved, or threw. */
  datatype LoadOutcome = Loaded | LoadThrew(thrown: Thrown)

  function InitError(t: Thrown): AppError {
    AppError(FfmpegInitFailed, "Failed to initialize video processor", Some(DetailsOf(t, "Unknown error")), false)
  }

  /**
   * The rest of `initializeFFmpeg` once the load of `ffmpeg` ends. On
   * success that object, which the module variable still points to unless
   * it was terminated meanwhile, is loaded; on failure the error is cached.
   */
  function FinishLoad(s: InitState, ffmpeg: Instance, outcome: LoadOutcome): (r: (InitState, Result<Instance, AppError>))
    ensures !r.0.isLoading
    ensures r.0.created == s.created
    ensures outcome.Loaded? ==> r.1 == Success(ffmpeg.(loaded := true)) && r.0.loadError == s.loadError
    ensures outcome.Loaded? && s.instance == Some(ffmpeg) ==> r.0.instance == Some(ffmpeg.(loaded := true))
    ensures outcome.LoadThrew? ==>
      && r.1.Failure?
      && r.0.loadError == Some(r.1.error)
      && r.1.error.code == FfmpegInitFailed
      && !r.1.error.recoverable
      && r.0.instance == s.instance
  {
    match outcome
    case Loaded =>
      var done := ffmpeg.(loaded := true);
      var inst := if s.instance.Some? && s.instance.value.id == ffmpeg.id then Some(done) else s.instance;
      (s.(instance := inst, isLoading := false), Success(done))
    case LoadThrew(t) =>
      var e := InitError(t);
      (s.(isLoading := false, loadError := Some(e)), Failure(e))
  }

  /**
   * What one tick of a waiting caller's 100 ms poll does: keep polling while
   * the load is in flight; otherwise stop the interval and settle with the
   * loaded instance or the cached error, or, when there is neither (the
   * instance was terminated while it loaded), stop without ever settling.
   */
  datatype PollResult =
    | KeepWaiting
    | Settled(result: Result<Instance, AppError>)
    | Abandoned

  /** One tick of the poll. */
  function PollTick(s: InitState): (r: PollResult)
    ensures r.KeepWaiting? <==> s.isLoading
    ensures r.Settled? && r.result.Success? <==> !s.isLoading && IsFFmpegLoaded(s)
    ensures r.Settled? && r.result.Success? ==> s.instance == Some(r.result.value)
    ensures r.Settled? && r.result.Failure? <==> !s.isLoading && !IsFFmpegLoaded(s) && s.loadError.Some?
    ensures r.Settled? && r.result.Failure? ==> s.loadError == Some(r.result.error)
    ensures r.Abandoned? <==> !s.isLoading && !IsFFmpegLoaded(s) && s.loadError.None?
  {
    if s.isLoading then KeepWaiting
    else if s.instance.Some? && s.instance.value.loaded then Settled(Success(s.instance.value))
    else if s.loadError.Some? then Settled(Failure(s.loadError.value))
    else Abandoned
  }

  /**
   * A waiter can be abandoned: a second caller starts waiting on a load, the
   * instance is terminated, and the load then succeeds on the forgotten
   * object. The poll stops with nothing loaded and no error, so the
   * waiter's promise never settles.
   */
  lemma WaiterAbandonedAfterTerminate()
    ensures var (s1, step) := InitializeFFmpeg(InitialInitState);
      && step.LoadStarted?
      && InitializeFFmpeg(s1) == (s1, Waiting)
      && PollTick(s1) == KeepWaiting
      && var s2 := TerminateFFmpeg(s1);
         && var (s3, result) := FinishLoad(s2, step.instance, Loaded);
         && result.Success?
         && PollTick(s3) == Abandoned
  {
  }

  /** `isFFmpegLoaded`. */
  function IsFFmpegLoaded(s: InitState): bool {
    s.instance.Some? && s.instance.value.loaded
  }

  /**
   * `isFFmpegLoaded` holds exactly when `initializeFFmpeg` would return at
   * once; a successful load of the stored object makes it hold, and a
   * terminate makes it fail.
   */
  lemma IsFFmpegLoadedMeansReady(s: InitState, ffmpeg: Instance)
    ensures IsFFmpegLoaded(s) <==> InitializeFFmpeg(s).1.Ready?
    ensures s.instance == Some(ffmpeg) ==> IsFFmpegLoaded(FinishLoad(s, ffmpeg, Loaded).0)
    ensures !IsFFmpegLoaded(TerminateFFmpeg(s)) || IsFFmpegLoaded(s)
  {
  }

  /**
   * `terminateFFmpeg`: with an instance, forgets it and the cached error
   * (a failure of `terminate` itself is swallowed); without one, does nothing.
   */
  function TerminateFFmpeg(s: InitState): (r: InitState)
    ensures s.instance.Some? ==> r.instance.None? && r.loadError.None? && !IsFFmpegLoaded(r)
    ensures s.instance.None? ==> r == s
    ensures r.isLoading == s.isLoading && r.created == s.created
  {
    if s.instance.Some? then s.(instance := None, loadError := None) else s
  }

  /** A load with no cached error and nothing loaded yet. */
  predicate Fresh(s: InitState) {
    !s.isLoading && s.loadError.None? && !IsFFmpegLoaded(s)
  }

  /**
   * A successful load: the loader gets the instance, callers that were
   * waiting resolve with that same instance, and later calls return it
   * without loading again.
   */
  lemma SuccessfulLoad(s: InitState)
    requires Fresh(s)
    ensures var (s1, step) := InitializeFFmpeg(s);
      && step.LoadStarted?
      && InitializeFFmpeg(s1) == (s1, Waiting)
      && var (s2, result) := FinishLoad(s1, step.instance, Loaded);
         && result.Success?
         && IsFFmpegLoaded(s2) && !s2.isLoading
         && PollTick(s2) == Settled(result)
         && InitializeFFmpeg(s2) == (s2, Ready(result.value))
         && s2.created <= s.created + 1
  {
  }

  /**
   * A failed load: the loader and every waiting caller get the same
   * non-recoverable `FFMPEG_INIT_FAILED` error, and so does every later
   * call, without another load being attempted.
   */
  lemma FailedLoad(s: InitState, t: Thrown)
    requires Fresh(s)
    ensures var (s1, step) := InitializeFFmpeg(s);
      && step.LoadStarted?
      && var (s2, result) := FinishLoad(s1, step.instance, LoadThrew(t));
         && result == Failure(InitError(t))
         && !result.error.recoverable && result.error.code == FfmpegInitFailed
         && !s2.isLoading
         && PollTick(s2) == Settled(result)
         && InitializeFFmpeg(s2) == (s2, Rejected(result.error))
  {
  }

  /** `n` further calls of `initializeFFmpeg` from the same state. */
  function Calls(s: InitState, n: nat): (steps: seq<InitStep>)
    decreases n
  {
    if n == 0 then [] else [InitializeFFmpeg(s).1] + Calls(InitializeFFmpeg(s).0, n - 1)
  }

  /** Once a failure is cached, any number of calls all throw it and change nothing. */
  lemma {:induction false} FailureIsSticky(s: InitState, n: nat)
    requires s.loadError.Some? && !IsFFmpegLoaded(s)
    ensures |Calls(s, n)| == n
    ensures forall i :: 0 <= i < n ==> Calls(s, n)[i] == Rejected(s.loadError.value)
    decreases n
  {
    if n > 0 {
      FailureIsSticky(s, n - 1);
      assert InitializeFFmpeg(s).0 == s;
    }
  }

  /** Terminating a failed engine clears the cached error, so the next call loads again. */
  lemma TerminateAllowsRetry(s: InitState)
    requires s.instance.Some? && !s.isLoading
    ensures InitializeFFmpeg(TerminateFFmpeg(s)).1.LoadStarted?
    ensures InitializeFFmpeg(TerminateFFmpeg(s)).0.created == s.created + 1
  {
  }

  /** A cached error never coexists with a load in flight. */
  predicate Consistent(s: InitState) {
    s.loadError.Some? ==> !s.isLoading
  }

  lemma ConsistentPreserved(s: InitState, ffmpeg: Instance, outcome: LoadOutcome)
    requires Consistent(s)
    ensures Consistent(InitializeFFmpeg(s).0)
    ensures Consistent(FinishLoad(s, ffmpeg, outcome).0)
    ensures Consistent(TerminateFFmpeg(s))
    ensures Consistent(GetFFmpegInstance(s).0)
  {
  }
}
