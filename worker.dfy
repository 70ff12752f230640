/** `Worker`: the object that drives one conversion. Its fields are updated
    in place by its slots; each method is proved to leave the fields in the
    state the corresponding transition of `WorkerMachine` gives, and that
    transition's properties are proved in `WorkerProperties`. */
module Conversion {
  import opened Options
  import opened Models
  import opened TextLines
  import opened WorkerLogic
  import opened WorkerMachine
  import WorkerProperties

  class Worker {
    const settings: ConverterSettings
    var cancelled: bool
    var killTimer: KillTimer
    var frameCount: int
    var process: Option<QProc>
    var tempDir: Option<string>
    var palFile: Option<string>
    var currentStep: Step
    var stdoutBuffer: string
    var estimatedTotalFrames: Option<int>
    /** The signals sent so far, in order. */
    var events: seq<Event>

    /** The fields as one record. */
    function State(): WorkerState
      reads this
    {
      WorkerState(cancelled, killTimer, frameCount, process, tempDir, palFile, currentStep,
                  stdoutBuffer, estimatedTotalFrames, events)
    }

    ghost predicate Valid()
      reads this
    {
      WorkerProperties.Valid(State(), settings)
    }

    /** `__init__` */
    constructor (s: ConverterSettings)
      ensures settings == s && State() == Initial() && Valid()
    {
      settings := s;
      cancelled := false;
      killTimer := NoTimer;
      frameCount := 0;
      process := None;
      tempDir := None;
      palFile := None;
      currentStep := Idle;
      stdoutBuffer := "";
      estimatedTotalFrames := None;
      events := [];
    }

    /** Sends signals, in order. */
    method Emit(e: seq<Event>)
      modifies this`events
      ensures events == old(events) + e
    {
      events := events + e;
    }

    /** `_cleanup_temp_files` */
    method CleanupTempFiles()
      modifies this`events, this`tempDir, this`palFile
      ensures State() == Cleanup(old(State()))
    {
      if tempDir.Some? {
        Emit([TempCleanup(tempDir.value)]);
      } else {
        Emit([]);
      }
      tempDir := None;
      palFile := None;
    }

    /** `_handle_error` */
    method HandleError(f: Failure)
      modifies this`events, this`tempDir, this`palFile, this`currentStep
      ensures State() == WorkerMachine.HandleError(old(State()), f)
    {
      Emit([Progress(0), Done(Failed(f))]);
      CleanupTempFiles();
      currentStep := Idle;
    }

    /** `_handle_cancellation_during_step` */
    method HandleCancellation()
      modifies this`events, this`tempDir, this`palFile, this`currentStep
      ensures State() == WorkerMachine.HandleCancellation(old(State()))
    {
      Emit([Progress(0), Done(Cancelled)]);
      CleanupTempFiles();
      currentStep := Idle;
    }

    /** `_finalize_conversion` */
    method FinalizeConversion()
      modifies this`events, this`tempDir, this`palFile, this`currentStep
      ensures State() == Finalize(old(State()), settings)
    {
      currentStep := Finished;
      var frames := if frameCount != 0 then Some(frameCount) else None;
      Emit([Progress(100), Done(Succeeded(settings.outputFile, frames))]);
      CleanupTempFiles();
    }

    /** `_run_qprocess` */
    method RunQProcess(program: string, args: seq<string>, prefix: LogPrefix, launch: Launch)
      modifies this`events, this`tempDir, this`palFile, this`currentStep, this`process
      ensures State() == WorkerMachine.RunQProcess(old(State()), program, args, prefix, launch)
    {
      if cancelled {
        HandleCancellation();
        return;
      }
      process := Some(QProc(program, args, prefix, StepFinished, true, []));
      if launch.LaunchFailed? {
        process := Some(process.value.(running := false));
        HandleError(StartFailed(prefix, launch.error));
      }
    }

    /** `_execute_palette_generation` */
    method ExecutePaletteGeneration(env: Env)
      modifies this`events, this`tempDir, this`palFile, this`currentStep, this`process
      ensures State() == PaletteGeneration(old(State()), settings, env)
    {
      currentStep := Palette;
      Emit([WeightedEvent(Palette, 5.0)]);
      if env.tempDir.None? {
        HandleError(TempDirFailed);
      } else {
        var pal := PaletteFile(env.tempDir.value);
        tempDir := env.tempDir;
        palFile := Some(pal);
        RunQProcess(settings.ffmpegPath, PaletteArgs(settings, pal), FfmpegRender, env.launch);
      }
    }

    /** `_execute_gif_rendering` */
    method ExecuteGifRendering(env: Env)
      modifies this`events, this`tempDir, this`palFile, this`currentStep, this`process, this`frameCount
      ensures State() == GifRendering(old(State()), settings, env)
    {
      if palFile.None? || !env.paletteExists {
        HandleError(PaletteMissing);
        return;
      }
      currentStep := Render;
      frameCount := 0;
      ghost var start := if Truthy(settings.totalDuration) then [WeightedEvent(Render, 0.0)] else [Progress(-1)];
      if Truthy(settings.totalDuration) {
        Emit([WeightedEvent(Render, 0.0)]);
      } else {
        Emit([Progress(-1)]);
      }
      assert State() == WorkerMachine.Emit(old(State()).(step := Render, frames := 0), start);
      RunQProcess(settings.ffmpegPath, RenderArgs(settings, palFile.value), FfmpegRender, env.launch);
    }

    /** `_execute_gif_optimization` */
    method ExecuteGifOptimization(env: Env)
      modifies this`events, this`tempDir, this`palFile, this`currentStep, this`process, this`frameCount
      ensures State() == GifOptimization(old(State()), settings, env)
      decreases 1
    {
      if IsWebp(settings) {
        currentStep := Finished;
        StartNextStep(env);
        return;
      }
      currentStep := Optimize;
      Emit([WeightedEvent(Optimize, 30.0)]);
      RunQProcess(settings.gifsiclePath, OptimizeArgs(settings), GifsicleOptimize, env.launch);
    }

    /** `_start_next_step` */
    method StartNextStep(env: Env)
      modifies this`events, this`tempDir, this`palFile, this`currentStep, this`process, this`frameCount
      ensures State() == WorkerMachine.StartNextStep(old(State()), settings, env)
      decreases if currentStep == Finished then 0 else 2
    {
      if cancelled {
        HandleCancellation();
        return;
      }
      match currentStep
      case Idle =>
      case Palette => ExecutePaletteGeneration(env);
      case Render => ExecuteGifRendering(env);
      case Optimize => ExecuteGifOptimization(env);
      case Finished => FinalizeConversion();
    }

    /** `request_cancellation_slot` */
    method RequestCancellation()
      modifies this`cancelled, this`process, this`killTimer
      ensures State() == WorkerMachine.RequestCancellation(old(State()))
    {
      if cancelled {
        return;
      }
      cancelled := true;
      if process.Some? && process.value.running {
        process := Some(process.value.(signals := process.value.signals + [StopSignal.Terminate]));
        killTimer := Armed;
      }
    }

    /** `_force_kill_if_running` */
    method ForceKillIfRunning()
      modifies this`process
      ensures State() == WorkerMachine.ForceKillIfRunning(old(State()))
    {
      if process.Some? && process.value.running {
        process := Some(process.value.(signals := process.value.signals + [StopSignal.Kill]));
      }
    }

    /** The kill timer's timeout. */
    method OnKillTimerTimeout()
      modifies this`process, this`killTimer
      ensures State() == KillTimerTimeout(old(State()))
    {
      if killTimer == Armed {
        killTimer := Spent;
        ForceKillIfRunning();
      }
    }

    /** The process stops; it stays held until its finished signal. */
    method OnProcessStopped()
      modifies this`process
      ensures State() == ProcessStopped(old(State()))
    {
      if process.Some? {
        process := Some(process.value.(running := false));
      }
    }

    /** `_on_process_finished` */
    method OnProcessFinished(env: Env, exitCode: int, status: ExitStatus)
      modifies this`events, this`tempDir, this`palFile, this`currentStep, this`process, this`frameCount,
               this`killTimer
      ensures State() == ProcessFinished(old(State()), settings, env, exitCode, status)
    {
      killTimer := NoTimer;
      if process.None? {
        return;
      }
      var prefix := process.value.prefix;
      process := None;
      if cancelled {
        HandleCancellation();
        return;
      }
      if status == CrashExit || exitCode != 0 {
        HandleError(ExitedWithCode(prefix, exitCode));
        return;
      }
      match currentStep {
        case Palette =>
          Emit([WeightedEvent(Palette, 100.0)]);
          currentStep := Render;
        case Render =>
          Emit([WeightedEvent(Render, 100.0)]);
          currentStep := Optimize;
        case Optimize =>
          Emit([WeightedEvent(Optimize, 100.0)]);
          currentStep := Finished;
        case _ =>
      }
      StartNextStep(env);
    }

    /** `_on_process_error` */
    method OnProcessError(error: ProcessError)
      modifies this`events, this`tempDir, this`palFile, this`currentStep
      ensures State() == ErrorOccurred(old(State()), error)
    {
      if cancelled && error == Crashed {
        HandleCancellation();
      } else {
        HandleError(ProcessFailed(error));
      }
    }

    /** `on_webp_finished` */
    method OnWebpFinished()
      modifies this`events, this`tempDir, this`palFile, this`currentStep
      ensures State() == WebpFinish(old(State()), settings)
    {
      currentStep := Finished;
      FinalizeConversion();
    }

    /** `_process_stdout_line` */
    method ProcessStdoutLine(line: string, prefix: LogPrefix) returns (aborted: bool)
      modifies this`events, this`frameCount
      ensures var r := StdoutLine(settings, currentStep, estimatedTotalFrames, old(frameCount), line, prefix);
        frameCount == r.frames && events == old(events) + r.emitted && aborted == r.aborted
    {
      var r := StdoutLine(settings, currentStep, estimatedTotalFrames, frameCount, line, prefix);
      frameCount := r.frames;
      Emit(r.emitted);
      aborted := r.aborted;
    }

    /** The loop of `_on_process_ready_read_stdout` over the pieces of the
        buffered text: empty pieces are skipped, and the loop stops when a
        line stops the handler. */
    method ProcessPieces(pieces: seq<string>, prefix: LogPrefix) returns (aborted: bool)
      modifies this`events, this`frameCount
      ensures var r := StdoutLines(settings, currentStep, estimatedTotalFrames, old(frameCount), pieces, prefix);
        frameCount == r.frames && events == old(events) + r.emitted && aborted == r.aborted
    {
      ghost var step, est := currentStep, estimatedTotalFrames;
      ghost var total := StdoutLinesFrom(settings, step, est, frameCount, pieces, 0, prefix);
      StdoutLinesFromSuffix(settings, step, est, frameCount, pieces, 0, prefix);
      assert pieces[0..] == pieces;
      ghost var added: seq<Event> := [];
      var i := 0;
      aborted := false;
      while i < |pieces| && !aborted
        invariant 0 <= i <= |pieces|
        invariant events == old(events) + added
        invariant !aborted ==> ResumesTo(total, added, settings, step, est, frameCount, pieces, i, prefix)
        invariant aborted ==> total == LineResult(frameCount, added, true)
        decreases |pieces| - i
      {
        ghost var more;
        aborted, more := ProcessPiece(pieces, i, prefix, step, est, added, total);
        added := added + more;
        i := i + 1;
      }
      if !aborted {
        assert added + [] == added;
      }
    }

    /** One turn of the loop in `ProcessPieces`: an empty piece is skipped,
        any other is handled as a line. */
    method ProcessPiece(pieces: seq<string>, i: nat, prefix: LogPrefix, ghost step: Step, ghost est: Option<int>,
                        ghost added: seq<Event>, ghost total: LineResult)
      returns (aborted: bool, ghost more: seq<Event>)
      requires i < |pieces| && step == currentStep && est == estimatedTotalFrames
      requires ResumesTo(total, added, settings, step, est, frameCount, pieces, i, prefix)
      modifies this`events, this`frameCount
      ensures events == old(events) + more
      ensures !aborted ==> ResumesTo(total, added + more, settings, step, est, frameCount, pieces, i + 1, prefix)
      ensures aborted ==> total == LineResult(frameCount, added + more, true)
    {
      ResumeAt(settings, step, est, frameCount, pieces, i, prefix, added, total);
      more := [];
      aborted := false;
      if pieces[i] != "" {
        ghost var r := StdoutLine(settings, currentStep, estimatedTotalFrames, frameCount, pieces[i], prefix);
        aborted := ProcessStdoutLine(pieces[i], prefix);
        more := r.emitted;
      } else {
        assert events == old(events) + more;
      }
    }

    /** `_on_process_ready_read_stdout`: every piece of the buffered text is
        handled and the buffer emptied, unless a line stopped the handler. */
    method OnProcessStdout(chunk: string)
      modifies this`events, this`frameCount, this`stdoutBuffer
      ensures State() == StdoutChunk(old(State()), settings, chunk)
    {
      if process.None? {
        return;
      }
      var prefix := process.value.prefix;
      stdoutBuffer := stdoutBuffer + chunk;
      var aborted := ProcessPieces(Split(stdoutBuffer), prefix);
      if !aborted {
        stdoutBuffer := "";
      }
    }

    /** `_on_process_ready_read_stderr` */
    method OnProcessStderr(chunk: string)
      modifies this`events
      ensures State() == StderrChunk(old(State()), chunk)
    {
      if process.None? {
        return;
      }
      var prefix := process.value.prefix;
      var pieces := Split(chunk);
      var logs := [];
      for i := 0 to |pieces|
        invariant logs == StderrLogs(prefix, pieces[..i])
      {
        assert AllButLast(pieces[..i + 1]) == pieces[..i] && Last(pieces[..i + 1]) == pieces[i];
        if pieces[i] != "" && !IsBenignWarning(pieces[i]) {
          logs := logs + [StderrLog(prefix, Strings.Strip(pieces[i]))];
        }
      }
      assert pieces[..|pieces|] == pieces;
      Emit(logs);
    }

    /** `_run_webp_conversion` */
    method RunWebpConversion(launch: Launch)
      modifies this`events, this`tempDir, this`palFile, this`currentStep, this`process
      ensures State() == RunWebp(old(State()), settings, launch)
    {
      Emit([Progress(0)]);
      process := Some(QProc(settings.ffmpegPath, WebpArgs(settings), FfmpegRender, WebpFinished, true, []));
      if launch.LaunchFailed? {
        process := Some(process.value.(running := false));
        HandleError(StartFailed(FfmpegRender, launch.error));
      }
    }

    /** `run_conversion`; `detectedFps` is what probing the input gives. */
    method RunConversion(env: Env, detectedFps: Option<real>)
      modifies this`events, this`tempDir, this`palFile, this`currentStep, this`process, this`frameCount,
               this`cancelled, this`estimatedTotalFrames
      ensures State() == WorkerMachine.RunConversion(old(State()), settings, env, detectedFps)
    {
      cancelled := false;
      frameCount := 0;
      if IsWebp(settings) {
        RunWebpConversion(env.launch);
        return;
      }
      currentStep := Palette;
      StartNextStep(env);
      estimatedTotalFrames := Some(Estimate(settings, detectedFps));
    }

    /** Any slot, chosen by the input; the worker's invariant is kept. */
    method Handle(i: Input)
      requires Valid()
      modifies this
      ensures State() == WorkerMachine.Handle(old(State()), settings, i)
      ensures Valid()
    {
      WorkerProperties.ValidPreserved(State(), settings, i);
      match i
      case Run(env, fps) => RunConversion(env, fps);
      case Cancel => RequestCancellation();
      case KillTimerFires => OnKillTimerTimeout();
      case Stops => OnProcessStopped();
      case StepProcessFinished(env, code, status) => OnProcessFinished(env, code, status);
      case WebpProcessFinished => OnWebpFinished();
      case ProcessFails(error) => OnProcessError(error);
      case StdoutData(chunk) => OnProcessStdout(chunk);
      case StderrData(chunk) => OnProcessStderr(chunk);
    }
  }
}
