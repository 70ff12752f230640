/** The conversion worker as a state machine: the worker's fields as one
    record, and one function per slot or helper giving the new record,
    including the signals emitted on the way. The class in `Conversion`
    carries out the same steps field by field and is proved to end in the
    state these functions give; the lemmas here state what the worker
    promises across steps. */
module WorkerMachine {
  import opened Options
  import opened Strings
  import opened Models
  import opened TextLines
  import opened WorkerLogic
  import Engine

  /** Which slot the process's finished signal is connected to. */
  datatype Handler = StepFinished | WebpFinished

  /** The worker's process: what was started, the log-prefix property, the
      finished handler, whether it still runs, and the stop requests sent. */
  datatype QProc = QProc(program: string, args: seq<string>, prefix: LogPrefix, handler: Handler,
                         running: bool, signals: seq<StopSignal>)

  /** The kill timer: none, started and not yet fired, or fired. */
  datatype KillTimer = NoTimer | Armed | Spent

  /** What the outside world answers during a step: the temporary directory
      (None when it cannot be created), whether the palette file exists when
      the render starts, and how the process launch goes. */
  datatype Env = Env(tempDir: Option<string>, paletteExists: bool, launch: Launch)

  /** The worker's fields. `estimate` is None while `estimated_total_frames`
      has never been assigned. */
  datatype WorkerState = WorkerState(
    cancelled: bool,
    timer: KillTimer,
    frames: int,
    process: Option<QProc>,
    tempDir: Option<string>,
    palFile: Option<string>,
    step: Step,
    stdoutBuffer: string,
    estimate: Option<int>,
    events: seq<Event>)

  /** The state `__init__` leaves. */
  function Initial(): WorkerState {
    WorkerState(false, NoTimer, 0, None, None, None, Idle, "", None, [])
  }

  function Emit(w: WorkerState, e: seq<Event>): WorkerState {
    w.(events := w.events + e)
  }

  predicate Running(w: WorkerState) {
    w.process.Some? && w.process.value.running
  }

  // ---------------------------------------------------------------------------
  // Ending a conversion

  /** `_cleanup_temp_files` */
  function Cleanup(w: WorkerState): WorkerState {
    Emit(w, if w.tempDir.Some? then [TempCleanup(w.tempDir.value)] else []).(tempDir := None, palFile := None)
  }

  /** `_handle_error` */
  function HandleError(w: WorkerState, f: Failure): WorkerState {
    Cleanup(Emit(w, [Progress(0), Done(Failed(f))])).(step := Idle)
  }

  /** `_handle_cancellation_during_step` */
  function HandleCancellation(w: WorkerState): WorkerState {
    Cleanup(Emit(w, [Progress(0), Done(Cancelled)])).(step := Idle)
  }

  /** `_finalize_conversion`: a frame count of 0 is reported as unknown. */
  function Finalize(w: WorkerState, s: ConverterSettings): WorkerState {
    var frames := if w.frames != 0 then Some(w.frames) else None;
    Cleanup(Emit(w.(step := Finished), [Progress(100), Done(Succeeded(s.outputFile, frames))]))
  }

  // ---------------------------------------------------------------------------
  // The steps

  /** `_run_qprocess` */
  function RunQProcess(w: WorkerState, program: string, args: seq<string>, prefix: LogPrefix,
                       launch: Launch): WorkerState
  {
    if w.cancelled then HandleCancellation(w)
    else
      var p := QProc(program, args, prefix, StepFinished, true, []);
      match launch
      case Launched => w.(process := Some(p))
      case LaunchFailed(err) => HandleError(w.(process := Some(p.(running := false))), StartFailed(prefix, err))
  }

  /** `_execute_palette_generation` */
  function PaletteGeneration(w: WorkerState, s: ConverterSettings, env: Env): WorkerState {
    var w1 := Emit(w.(step := Palette), [WeightedEvent(Palette, 5.0)]);
    match env.tempDir
    case None => HandleError(w1, TempDirFailed)
    case Some(dir) =>
      var pal := PaletteFile(dir);
      RunQProcess(w1.(tempDir := Some(dir), palFile := Some(pal)), s.ffmpegPath, PaletteArgs(s, pal),
                  FfmpegRender, env.launch)
  }

  /** `_execute_gif_rendering` */
  function GifRendering(w: WorkerState, s: ConverterSettings, env: Env): WorkerState {
    if w.palFile.None? || !env.paletteExists then HandleError(w, PaletteMissing)
    else
      var start := if Truthy(s.totalDuration) then [WeightedEvent(Render, 0.0)] else [Progress(-1)];
      var w1 := Emit(w.(step := Render, frames := 0), start);
      RunQProcess(w1, s.ffmpegPath, RenderArgs(s, w.palFile.value), FfmpegRender, env.launch)
  }

  /** `_execute_gif_optimization`: a `.webp` output skips to the last step. */
  function GifOptimization(w: WorkerState, s: ConverterSettings, env: Env): WorkerState
    decreases 1
  {
    if IsWebp(s) then StartNextStep(w.(step := Finished), s, env)
    else
      var w1 := Emit(w.(step := Optimize), [WeightedEvent(Optimize, 30.0)]);
      RunQProcess(w1, s.gifsiclePath, OptimizeArgs(s), GifsicleOptimize, env.launch)
  }

  /** `_start_next_step`: the idle step has no entry in the dispatch table,
      so the lookup fails and nothing happens. */
  function StartNextStep(w: WorkerState, s: ConverterSettings, env: Env): WorkerState
    decreases if w.step == Finished then 0 else 2
  {
    if w.cancelled then HandleCancellation(w)
    else
      match w.step
      case Idle => w
      case Palette => PaletteGeneration(w, s, env)
      case Render => GifRendering(w, s, env)
      case Optimize => GifOptimization(w, s, env)
      case Finished => Finalize(w, s)
  }

  // ---------------------------------------------------------------------------
  // Slots

  /** `request_cancellation_slot`: only the first request counts; a running
      process is asked to terminate and the kill timer is started. */
  function RequestCancellation(w: WorkerState): WorkerState {
    if w.cancelled then w
    else if Running(w) then
      w.(cancelled := true, timer := Armed,
         process := Some(w.process.value.(signals := w.process.value.signals + [StopSignal.Terminate])))
    else w.(cancelled := true)
  }

  /** `_force_kill_if_running` */
  function ForceKillIfRunning(w: WorkerState): WorkerState {
    if Running(w) then w.(process := Some(w.process.value.(signals := w.process.value.signals + [StopSignal.Kill])))
    else w
  }

  /** The kill timer fires once, and only while it is armed. */
  function KillTimerTimeout(w: WorkerState): WorkerState {
    if w.timer == Armed then ForceKillIfRunning(w.(timer := Spent)) else w
  }

  /** The process stops (on its own or after a signal); it is still held. */
  function ProcessStopped(w: WorkerState): WorkerState {
    if w.process.Some? then w.(process := Some(w.process.value.(running := false))) else w
  }

  /** `_on_process_finished`: the kill timer is dropped and the process
      released; then cancellation, failure, or the next step. */
  function ProcessFinished(w: WorkerState, s: ConverterSettings, env: Env, code: int, status: ExitStatus): WorkerState {
    var w0 := w.(timer := NoTimer);
    if w0.process.None? then w0
    else
      var prefix := w0.process.value.prefix;
      var w1 := w0.(process := None);
      if w1.cancelled then HandleCancellation(w1)
      else if status == CrashExit || code != 0 then HandleError(w1, ExitedWithCode(prefix, code))
      else
        var w2 := match w1.step
          case Palette => Emit(w1, [WeightedEvent(Palette, 100.0)]).(step := Render)
          case Render => Emit(w1, [WeightedEvent(Render, 100.0)]).(step := Optimize)
          case Optimize => Emit(w1, [WeightedEvent(Optimize, 100.0)]).(step := Finished)
          case _ => w1;
        StartNextStep(w2, s, env)
  }

  /** `_on_process_error`: a crash after a cancellation request is the
      cancellation; anything else is a failure. */
  function ErrorOccurred(w: WorkerState, error: ProcessError): WorkerState {
    if w.cancelled && error == Crashed then HandleCancellation(w)
    else HandleError(w, ProcessFailed(error))
  }

  /** `on_webp_finished`: the conversion is reported done whatever the exit. */
  function WebpFinish(w: WorkerState, s: ConverterSettings): WorkerState {
    Finalize(w.(step := Finished), s)
  }

  /** `_on_process_ready_read_stdout`: without a process nothing happens;
      otherwise every piece of the buffered text is handled (none is held
      back as a partial line) and the buffer is emptied, unless a line
      stopped the handler, which leaves the text buffered. */
  function StdoutChunk(w: WorkerState, s: ConverterSettings, chunk: string): WorkerState {
    if w.process.None? then w
    else
      var data := w.stdoutBuffer + chunk;
      var r := StdoutLines(s, w.step, w.estimate, w.frames, Split(data), w.process.value.prefix);
      w.(frames := r.frames, events := w.events + r.emitted, stdoutBuffer := if r.aborted then data else "")
  }

  /** `_on_process_ready_read_stderr`: nothing is buffered. */
  function StderrChunk(w: WorkerState, chunk: string): WorkerState {
    if w.process.None? then w
    else Emit(w, StderrLogs(w.process.value.prefix, Split(chunk)))
  }

  /** The frame estimate `run_conversion` leaves: 0 unless the duration and
      the frame rate (the configured one, or the detected one for -1) are
      both non-zero. */
  function Estimate(s: ConverterSettings, detectedFps: Option<real>): int {
    if Truthy(s.totalDuration) then
      var fps := if s.fps == -1 then detectedFps else Some(s.fps as real);
      if Truthy(fps) then Trunc(s.totalDuration.value * fps.value) else 0
    else 0
  }

  /** `_run_webp_conversion`: one ffmpeg run, whose finished signal goes to
      `on_webp_finished`; there is no cancellation check. */
  function RunWebp(w: WorkerState, s: ConverterSettings, launch: Launch): WorkerState {
    var p := QProc(s.ffmpegPath, WebpArgs(s), FfmpegRender, WebpFinished, true, []);
    var w1 := Emit(w, [Progress(0)]);
    match launch
    case Launched => w1.(process := Some(p))
    case LaunchFailed(err) => HandleError(w1.(process := Some(p.(running := false))), StartFailed(FfmpegRender, err))
  }

  /** `run_conversion`. The frame estimate is set only on the GIF path and
      only after the first step has started. */
  function RunConversion(w: WorkerState, s: ConverterSettings, env: Env, detectedFps: Option<real>): WorkerState {
    var w1 := w.(cancelled := false, frames := 0);
    if IsWebp(s) then RunWebp(w1, s, env.launch)
    else StartNextStep(w1.(step := Palette), s, env).(estimate := Some(Estimate(s, detectedFps)))
  }

  // ---------------------------------------------------------------------------
  // Everything that can happen to the worker

  /** The slots the event loop can call, with what the outside world answers. */
  datatype Input =
    | Run(env: Env, detectedFps: Option<real>)
    | Cancel
    | KillTimerFires
    | Stops
    | StepProcessFinished(env: Env, code: int, status: ExitStatus)
    | WebpProcessFinished
    | ProcessFails(error: ProcessError)
    | StdoutData(chunk: string)
    | StderrData(chunk: string)

  function Handle(w: WorkerState, s: ConverterSettings, i: Input): WorkerState {
    match i
    case Run(env, fps) => RunConversion(w, s, env, fps)
    case Cancel => RequestCancellation(w)
    case KillTimerFires => KillTimerTimeout(w)
    case Stops => ProcessStopped(w)
    case StepProcessFinished(env, code, status) => ProcessFinished(w, s, env, code, status)
    case WebpProcessFinished => WebpFinish(w, s)
    case ProcessFails(error) => ErrorOccurred(w, error)
    case StdoutData(chunk) => StdoutChunk(w, s, chunk)
    case StderrData(chunk) => StderrChunk(w, chunk)
  }
}
